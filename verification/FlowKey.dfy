/**
 * The lookahead as the code runs it: a cursor that walks the stops of 64 bytes
 * at a time by a bit mask, and a sorted cache of the keys one scan found.
 */
module FlowKey {
  import opened Chars
  import opened Events
  import opened FlowKeyScan

  const BLOCK := 64

  predicate StopAt(s: string, base: nat, k: nat) { base + k < |s| && IsStop(s[base + k]) }

  /** The mask of the bytes from `base`: k is in it if base + k is a stop. */
  function Mask(s: string, base: nat): set<nat> {
    set k: nat | k < BLOCK && StopAt(s, base, k)
  }

  lemma {:induction false} NextFrom(s: string, a: nat, b: nat)
    requires a <= b <= |s| && forall k | a <= k < b :: !IsStop(s[k])
    ensures NextStop(s, a) == NextStop(s, b)
    decreases b - a
  {
    if a < b { NextFrom(s, a + 1, b); }
  }

  class Cursor {
    const input: string
    var base: nat
    var bits: set<nat>
    ghost var at: nat        // the stops before it are consumed

    ghost predicate Valid()
      reads this
    {
      && base <= at <= |input|
      && (at <= base + BLOCK || base == |input|)
      && (forall k | k in bits :: k < BLOCK)
      && forall k: nat | k < BLOCK :: k in bits <==> at <= base + k && StopAt(input, base, k)
    }

    /** fk_seek */
    constructor (s: string, pos: nat)
      requires pos <= |s|
      ensures Valid() && input == s && at == pos
    {
      input := s;
      base, at := pos, pos;
      bits := Mask(s, pos);
    }

    /** fk_seek */
    method Seek(pos: nat)
      requires pos <= |input|
      modifies this
      ensures Valid() && at == pos
    {
      base, at := pos, pos;
      bits := Mask(input, pos);
    }

    /** fk_next: the next stop, consuming it. */
    method Next() returns (i: nat)
      requires Valid()
      modifies this
      ensures Valid() && i == NextStop(input, old(at)) && at == if i == |input| then i else i + 1
    {
      ghost var from := at;
      while bits == {}
        invariant Valid() && from <= at && NextStop(input, from) == NextStop(input, at)
        decreases |input| - base
      {
        if |input| - base <= BLOCK {
          NoStops(|input|);
          NextFrom(input, at, |input|);
          base, at := |input|, |input|;
          return |input|;
        }
        NoStops(base + BLOCK);
        NextFrom(input, at, base + BLOCK);
        base, at := base + BLOCK, base + BLOCK;
        bits := Mask(input, base);
      }
      var k := LowestBit();
      i := base + k;
      NoStops(i);
      NextFrom(input, at, i);
      bits, at := bits - {k}, i + 1;
    }

    /** Where the mask has no bit there is no stop. */
    lemma NoStops(to: nat)
      requires Valid() && to <= |input| && to <= base + BLOCK && forall k | k in bits :: to <= base + k
      ensures forall j | at <= j < to :: !IsStop(input[j])
    {
      forall j | at <= j < to ensures !IsStop(input[j]) {
        assert j - base in bits <==> StopAt(input, base, j - base);
      }
    }

    /** __builtin_ctzll */
    method LowestBit() returns (k: nat)
      requires bits != {} && forall k | k in bits :: k < BLOCK
      ensures k in bits && forall m | m in bits :: k <= m
    {
      k := 0;
      ghost var some :| some in bits;
      while k !in bits
        invariant k <= some && forall m | m in bits :: k <= m
        decreases some - k
      {
        k := k + 1;
      }
    }

    /** fk_skip_quoted for '...': '' is a quote inside it. */
    method SkipSingleQuoted(i: nat) returns (r: nat)
      requires Valid() && i < |input| && at == i + 1
      modifies this
      ensures Valid() && r == SkipSingle(input, i + 1) && (r < |input| ==> at == r)
    {
      while true
        invariant Valid() && SkipSingle(input, i + 1) == SkipSingle(input, at)
        decreases |input| - at
      {
        ghost var from := at;
        var k := Next();
        SingleTo(input, from, k);
        if k == |input| { return k; }
        if input[k] == '\'' {
          if !(k + 1 < |input| && input[k + 1] == '\'') { return k + 1; }
          var second := Next();
        }
      }
    }

    /** fk_skip_quoted for "...": a quote after an odd run of backslashes is escaped. */
    method SkipDoubleQuoted(i: nat) returns (r: nat)
      requires Valid() && i < |input| && at == i + 1
      modifies this
      ensures Valid() && r == SkipDouble(input, i + 1) && (r < |input| ==> at == r)
    {
      ghost var a := at;
      while true
        invariant Valid() && i < a <= at && (a == i + 1 || input[a - 1] == '"')
        invariant NoQuote(input, a, at) && SkipDouble(input, i + 1) == SkipDouble(input, a)
        decreases |input| - at
      {
        var k := Next();
        if k == |input| {
          NeverClosed(input, a);
          return k;
        }
        if input[k] == '"' {
          var bs := 0;
          while k - bs > i + 1 && input[k - bs - 1] == '\\'
            invariant bs <= k - (i + 1) && forall j | k - bs <= j < k :: input[j] == '\\'
            decreases k - bs
          {
            bs := bs + 1;
          }
          RunStart(input, a, k, bs, i);
          DoubleTo(input, a, k - bs);
          OverRun(input, k - bs, k);
          if bs % 2 == 0 { return k + 1; }
          a := k + 1;
        }
      }
    }

    /** fk_skip_quoted */
    method SkipQuotedAt(i: nat) returns (r: nat)
      requires Valid() && i < |input| && at == i + 1 && (input[i] == '"' || input[i] == '\'')
      modifies this
      ensures Valid() && r == SkipQuoted(input, i) && (r < |input| ==> at == r)
    {
      if input[i] == '"' { r := SkipDoubleQuoted(i); } else { r := SkipSingleQuoted(i); }
    }

    /** A comment runs to the next '\n', which it consumes; |input| without one. */
    method SkipComment() returns (k: nat)
      requires Valid()
      modifies this
      ensures Valid() && k == LineEnd(input, old(at)) && (k < |input| ==> at == k + 1)
    {
      ghost var from := at;
      k := Next();
      LineTo(input, from, k);
      while k < |input| && input[k] != '\n'
        invariant Valid() && from <= k <= |input| && LineEnd(input, from) == LineEnd(input, k)
        invariant at == if k == |input| then k else k + 1
        decreases |input| - k
      {
        ghost var was := k;
        k := Next();
        LineTo(input, was + 1, k);
      }
    }
  }

  // ----- the cursor's skips end where a forward scan ends -----

  lemma {:induction false} SingleTo(s: string, a: nat, b: nat)
    requires a <= b <= |s| && forall k | a <= k < b :: !IsStop(s[k])
    ensures SkipSingle(s, a) == SkipSingle(s, b)
    decreases b - a
  {
    if a < b { SingleTo(s, a + 1, b); }
  }

  lemma {:induction false} LineTo(s: string, a: nat, b: nat)
    requires a <= b <= |s| && forall k | a <= k < b :: !IsStop(s[k])
    ensures LineEnd(s, a) == LineEnd(s, b)
    decreases b - a
  {
    if a < b { LineTo(s, a + 1, b); }
  }

  predicate NoQuote(s: string, a: nat, b: nat)
    requires b <= |s|
  {
    forall k | a <= k < b :: s[k] != '"'
  }

  lemma {:induction false} NeverClosed(s: string, a: nat)
    requires a <= |s| && NoQuote(s, a, |s|)
    ensures SkipDouble(s, a) == |s|
    decreases |s| - a
  {
    if a < |s| { NeverClosed(s, if s[a] == '\\' && a + 1 < |s| then a + 2 else a + 1); }
  }

  /** The run of backslashes before a quote starts where a forward scan stops. */
  lemma RunStart(s: string, a: nat, k: nat, bs: nat, i: nat)
    requires i < a <= k < |s| && (a == i + 1 || s[a - 1] == '"') && bs <= k - (i + 1)
    requires forall j | k - bs <= j < k :: s[j] == '\\'
    requires k - bs == i + 1 || s[k - bs - 1] != '\\'
    ensures a <= k - bs && (a == k - bs || s[k - bs - 1] != '\\')
  {}

  /** A forward scan stops at every place not just after a backslash. */
  lemma {:induction false} DoubleTo(s: string, a: nat, b: nat)
    requires a <= b <= |s| && NoQuote(s, a, b) && (a == b || s[b - 1] != '\\')
    ensures SkipDouble(s, a) == SkipDouble(s, b)
    decreases b - a
  {
    if a < b { DoubleTo(s, if s[a] == '\\' then a + 2 else a + 1, b); }
  }

  /** Backslashes pair up: an even run leaves the quote, an odd one escapes it. */
  lemma {:induction false} OverRun(s: string, p: nat, k: nat)
    requires p <= k < |s| && s[k] == '"' && forall j | p <= j < k :: s[j] == '\\'
    ensures SkipDouble(s, p) == if (k - p) % 2 == 0 then k + 1 else SkipDouble(s, k + 1)
    decreases k - p
  {
    if k - p >= 2 { OverRun(s, p + 2, k); }
  }

  // ----- the cache -----

  predicate Ascending(keys: seq<nat>) {
    forall i, j | 0 <= i < j < |keys| :: keys[i] <= keys[j]
  }

  /** The same offsets, sorted (qsort). */
  function Insert(k: nat, keys: seq<nat>): (r: seq<nat>)
    requires Ascending(keys)
    ensures Ascending(r) && forall x :: x in r <==> x == k || x in keys
  {
    if keys == [] || k <= keys[0] then [k] + keys
    else
      assert keys == [keys[0]] + keys[1..];
      var rest := Insert(k, keys[1..]);
      assert forall i | 0 <= i < |rest| :: rest[i] in rest && keys[0] <= rest[i];
      [keys[0]] + rest
  }

  function SortKeys(keys: seq<nat>): (r: seq<nat>)
    ensures Ascending(r) && forall x :: x in r <==> x in keys
  {
    if keys == [] then []
    else
      assert keys == [keys[0]] + keys[1..];
      Insert(keys[0], SortKeys(keys[1..]))
  }

  class FlowKeys {
    const input: string
    var valid: bool
    var lo: nat
    var hi: nat
    var ambiguous: bool
    var keys: seq<nat>

    constructor (s: string)
      ensures CacheOk() && input == s && !valid
    {
      input := s;
      valid, lo, hi, ambiguous, keys := false, 0, 0, false, [];
    }

    /** The cache holds what the scan from `lo` found. */
    predicate CacheOk()
      reads this
    {
      valid ==>
        (lo <= |input| &&
         match Scan(input, lo)
         case Ambiguous => ambiguous && hi == |input|
         case Known(found, to) => !ambiguous && hi == to && keys == SortKeys(found))
    }

    /** One stop: an open, closed or skipped construct, or the end of the scan. */
    method Look(cur: Cursor, st: State) returns (r: Step)
      requires cur.Valid() && cur.input == input && cur.at == st.pos
      modifies cur
      ensures r == StepAt(input, st) && cur.Valid() && (r.Go? ==> cur.at == r.next.pos)
    {
      hide SkipQuoted, TagEnd, LineEnd, ColonFollows, QuoteKind;
      var i := cur.Next();
      if i == |input| { return Stop(Known(st.keys, |input|)); }
      var on := st.(pos := i + 1);
      var c := input[i];
      if c == '\'' || c == '"' {
        r := LookQuote(cur, st, i);
      } else if c == '<' {
        if VerbatimTag(input, i) {
          var k := TagEnd(input, i + 1);
          if k == |input| || input[k] != '>' { return Stop(Ambiguous); }
          cur.Seek(k + 1);
          return Go(st.(pos := k + 1));
        }
        r := Go(on);
      } else if c == '#' {
        if i > 0 && (Blank(input[i - 1]) || Break(input[i - 1])) {
          var k := cur.SkipComment();
          if k == |input| { return Stop(Known(st.keys, |input|)); }
          return Go(st.(pos := k + 1));
        }
        r := Go(on);
      } else {
        r := LookBracket(st, i);
      }
    }

    method LookQuote(cur: Cursor, st: State, i: nat) returns (r: Step)
      requires cur.Valid() && cur.input == input && i < |input| && cur.at == i + 1 && (input[i] == '\'' || input[i] == '"')
      requires st.pos <= i && i == NextStop(input, st.pos)
      modifies cur
      ensures r == StepAt(input, st) && cur.Valid() && (r.Go? ==> cur.at == r.next.pos)
    {
      hide SkipQuoted, QuoteKind;
      match if i == 0 then Text else QuoteKind(input, i, st.qend)
      case Scalar =>
        var q := cur.SkipQuotedAt(i);
        r := if q == |input| then Stop(Known(st.keys, |input|)) else Go(st.(pos := q, qend := Some(q)));
      case Text => r := Go(st.(pos := i + 1));
      case Unclear => r := Stop(Ambiguous);
    }

    method LookBracket(st: State, i: nat) returns (r: Step)
      requires st.pos <= i < |input| && i == NextStop(input, st.pos)
      requires OpensAt(input[i]) || ClosesAt(input[i]) || Break(input[i])
      ensures r == StepAt(input, st)
    {
      hide ColonFollows;
      var on := st.(pos := i + 1);
      if OpensAt(input[i]) { return Go(on.(open := st.open + [i])); }
      if st.open == [] { return Go(on); }
      if Break(input[i]) { return Stop(Known(st.keys, i)); }
      var last := |st.open| - 1;
      var found := st.keys;
      if ColonFollows(input, i + 1) { found := found + [st.open[last]]; }
      r := if last == 0 then Stop(Known(found, i)) else Go(on.(open := st.open[..last], keys := found));
    }

    /** fk_scan */
    method Fill(offset: nat)
      requires offset <= |input|
      modifies this
      ensures CacheOk() && valid && lo == offset
    {
      var cur := new Cursor(input, offset);
      var st := State(offset, [], None, []);
      while true
        invariant fresh(cur) && cur.Valid() && cur.input == input && cur.at == st.pos
        invariant Run(input, st) == Scan(input, offset)
        decreases |input| - st.pos
      {
        var r := Look(cur, st);
        if r.Stop? {
          valid, lo := true, offset;
          if r.result.Known? {
            ambiguous, hi, keys := false, r.result.hi, SortKeys(r.result.keys);
          } else {
            ambiguous, hi, keys := true, |input|, [];
          }
          return;
        }
        st := r.next;
      }
    }

    /** Binary search of the sorted keys. */
    method Cached(offset: nat) returns (found: bool)
      requires Ascending(keys)
      ensures found <==> offset in keys
    {
      var l, h := 0, |keys|;
      while l < h
        invariant l <= h <= |keys|
        invariant forall j | 0 <= j < l :: keys[j] < offset
        invariant forall j | h <= j < |keys| :: keys[j] >= offset
      {
        var mid := l + (h - l) / 2;
        if keys[mid] < offset { l := mid + 1; } else { h := mid; }
      }
      found := l < |keys| && keys[l] == offset;
    }

    /** flow_is_block_key: the fresh scan's answer, but "key" wherever the cached
        scan met a quote it could not tell. */
    method IsKey(offset: nat) returns (key: bool)
      requires CacheOk() && offset < |input| && OpensAt(input[offset])
      modifies this
      ensures CacheOk() && valid && lo <= offset
      ensures !old(valid && lo <= offset <= hi) ==> lo == offset && key == FreshKey(input, offset)
      ensures old(valid && lo <= offset <= hi) ==> lo == old(lo)
      ensures Opens(input, State(lo, [], None, []), offset) ==> key == (ambiguous || FreshKey(input, offset))
    {
      if !valid || offset < lo || offset > hi { Fill(offset); }
      if Opens(input, State(lo, [], None, []), offset) { NestedAgrees(input, State(lo, [], None, []), offset); }
      if ambiguous { return true; }
      key := Cached(offset);
    }
  }
}
