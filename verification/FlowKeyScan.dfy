/**
 * The flow-as-key lookahead, byte by byte: one scan from an opening bracket
 * finds, for every collection opened on the way, whether ':' follows its
 * closing bracket. A scan from any of those brackets would find the same.
 */
module FlowKeyScan {
  import opened Events
  import opened Chars

  predicate OpensAt(c: char) { c == '[' || c == '{' }

  predicate ClosesAt(c: char) { c == ']' || c == '}' }

  /** The bytes the scan looks at. */
  predicate IsStop(c: char) {
    c == '\'' || c == '"' || c == '#' || OpensAt(c) || ClosesAt(c) || c == '<' || Break(c)
  }

  /** The first stop at or after `pos`; |s| if there is none. */
  function NextStop(s: string, pos: nat): (i: nat)
    requires pos <= |s|
    ensures pos <= i <= |s| && (i < |s| ==> IsStop(s[i])) && forall k | pos <= k < i :: !IsStop(s[k])
    decreases |s| - pos
  {
    if pos == |s| || IsStop(s[pos]) then pos else NextStop(s, pos + 1)
  }

  // ----- what a quote is -----

  /** Past the blanks before `i`, going back. */
  function BackOverBlanks(s: string, i: nat): (j: nat)
    requires i <= |s|
    ensures j <= i && (j > 0 ==> !Blank(s[j - 1]))
  {
    if i == 0 || !Blank(s[i - 1]) then i else BackOverBlanks(s, i - 1)
  }

  datatype Quote = Scalar | Text | Unclear

  predicate EntryStart(c: char) { c == '[' || c == '{' || c == ',' }

  /** fk_quote_kind; `qend` is just past the last quoted scalar skipped. */
  function QuoteKind(s: string, i: nat, qend: Option<nat>): Quote
    requires 0 < i < |s|
  {
    var c := s[i - 1];
    if !Blank(c) then
      if EntryStart(c) then Scalar
      else if c == ':' && i >= 2 &&
              (((s[i - 2] == '"' || s[i - 2] == '\'') && qend == Some(i - 1)) || ClosesAt(s[i - 2])) then Scalar
      else Text
    else
      var j := BackOverBlanks(s, i);
      if j == 0 || EntryStart(s[j - 1]) || s[j - 1] == ':' then Scalar else Unclear
  }

  // ----- quoted scalars, tags and comments, read forward -----

  /** Past the closing quote, one escape at a time; |s| without one. */
  function SkipDouble(s: string, j: nat): (r: nat)
    requires j <= |s|
    ensures j <= r <= |s|
    decreases |s| - j
  {
    if j == |s| then j
    else if s[j] == '"' then j + 1
    else if s[j] == '\\' then if j + 1 < |s| then SkipDouble(s, j + 2) else |s|
    else SkipDouble(s, j + 1)
  }

  function SkipSingle(s: string, j: nat): (r: nat)
    requires j <= |s|
    ensures j <= r <= |s|
    decreases |s| - j
  {
    if j == |s| then j
    else if s[j] == '\'' then if j + 1 < |s| && s[j + 1] == '\'' then SkipSingle(s, j + 2) else j + 1
    else SkipSingle(s, j + 1)
  }

  function SkipQuoted(s: string, i: nat): (r: nat)
    requires i < |s|
    ensures i < r <= |s|
  {
    if s[i] == '"' then SkipDouble(s, i + 1) else SkipSingle(s, i + 1)
  }

  /** The first '\n' at or after `j`. */
  function LineEnd(s: string, j: nat): (r: nat)
    requires j <= |s|
    ensures j <= r <= |s|
    decreases |s| - j
  {
    if j == |s| || s[j] == '\n' then j else LineEnd(s, j + 1)
  }

  /** Where the run of tag characters from `j` ends. */
  function TagEnd(s: string, j: nat): (r: nat)
    requires j <= |s|
    ensures j <= r <= |s|
    decreases |s| - j
  {
    if j == |s| || s[j] == '>' || Blank(s[j]) || Break(s[j]) then j else TagEnd(s, j + 1)
  }

  /** "!<" at the start of a token begins a verbatim tag. */
  predicate VerbatimTag(s: string, i: nat)
    requires i < |s|
  {
    i >= 1 && s[i - 1] == '!' && (i == 1 || Blank(s[i - 2]) || EntryStart(s[i - 2]))
  }

  /** fk_colon_follows: is ':' the first byte from `j` on that is not a blank, a break or in a comment? */
  function ColonFollows(s: string, j: nat): bool
    requires j <= |s|
    decreases |s| - j
  {
    if j == |s| then false
    else if Blank(s[j]) || Break(s[j]) then ColonFollows(s, j + 1)
    else if s[j] == '#' then
      var e := LineEnd(s, j);
      if e == |s| then false else ColonFollows(s, e + 1)
    else s[j] == ':'
  }

  // ----- the scan -----

  /** `open`: the brackets not closed yet; `keys`: closed ones with a ':' after. */
  datatype State = State(pos: nat, open: seq<nat>, qend: Option<nat>, keys: seq<nat>)

  /** The end: how far the answers reach, and the keys; or telling needs the tokenizer. */
  datatype Scanned = Known(keys: seq<nat>, hi: nat) | Ambiguous

  datatype Step = Go(next: State) | Stop(result: Scanned)

  function StepAt(s: string, st: State): (r: Step)
    requires st.pos <= |s|
    ensures r.Go? ==> st.pos < r.next.pos <= |s|
  {
    var i := NextStop(s, st.pos);
    if i == |s| then Stop(Known(st.keys, |s|))
    else
      var on := st.(pos := i + 1);
      var c := s[i];
      if c == '\'' || c == '"' then
        (match if i == 0 then Text else QuoteKind(s, i, st.qend)
         case Scalar =>
           var q := SkipQuoted(s, i);
           if q == |s| then Stop(Known(st.keys, |s|)) else Go(st.(pos := q, qend := Some(q)))
         case Text => Go(on)
         case Unclear => Stop(Ambiguous))
      else if c == '<' then
        if VerbatimTag(s, i) then
          var k := TagEnd(s, i + 1);
          if k == |s| || s[k] != '>' then Stop(Ambiguous) else Go(st.(pos := k + 1))
        else Go(on)
      else if c == '#' then
        if i > 0 && (Blank(s[i - 1]) || Break(s[i - 1])) then
          var e := LineEnd(s, i + 1);
          if e == |s| then Stop(Known(st.keys, |s|)) else Go(st.(pos := e + 1))
        else Go(on)
      else if OpensAt(c) then Go(on.(open := st.open + [i]))
      else if Break(c) then
        if st.open != [] then Stop(Known(st.keys, i)) else Go(on)
      else if st.open == [] then Go(on)
      else
        var last := |st.open| - 1;
        var keys := if ColonFollows(s, i + 1) then st.keys + [st.open[last]] else st.keys;
        if last == 0 then Stop(Known(keys, i)) else Go(on.(open := st.open[..last], keys := keys))
  }

  function Run(s: string, st: State): Scanned
    requires st.pos <= |s|
    decreases |s| - st.pos
  {
    match StepAt(s, st)
    case Stop(r) => r
    case Go(next) => Run(s, next)
  }

  /** fk_scan from the bracket at `offset`. */
  function Scan(s: string, offset: nat): Scanned
    requires offset <= |s|
  {
    Run(s, State(offset, [], None, []))
  }

  /** A fresh scan's answer for the bracket it starts at. */
  predicate FreshKey(s: string, offset: nat)
    requires offset <= |s|
  {
    Scan(s, offset).Ambiguous? || offset in Scan(s, offset).keys
  }

  /** The scan from `st` opens a collection at `b`. */
  predicate Opens(s: string, st: State, b: nat)
    requires st.pos <= |s|
    decreases |s| - st.pos
  {
    match StepAt(s, st)
    case Stop(_) => false
    case Go(next) => (next.open == st.open + [b] && next.pos == b + 1) || Opens(s, next, b)
  }

  // ----- a nested scan agrees -----

  /** A bracket that is closed is not opened or judged again. */
  lemma {:induction false} Judged(s: string, st: State, b: nat)
    requires st.pos <= |s| && b < st.pos && b !in st.open
    ensures Run(s, st).Known? ==> (b in Run(s, st).keys <==> b in st.keys)
    decreases |s| - st.pos
  {
    var r := StepAt(s, st);
    if r.Go? { Judged(s, r.next, b); }
  }

  /** What was quoted before a bracket does not matter after it. */
  predicate Alike(b: nat, q: Option<nat>, p: Option<nat>) {
    q == p || ((q.None? || q.value <= b) && (p.None? || p.value <= b))
  }

  lemma KindAlike(s: string, i: nat, b: nat, q: Option<nat>, p: Option<nat>)
    requires b < i < |s| && OpensAt(s[b]) && Alike(b, q, p)
    ensures QuoteKind(s, i, q) == QuoteKind(s, i, p)
  {}

  /** A scan from the bracket `b`, and one that opened `b` on its way, at the same place. */
  predicate Paired(s: string, b: nat, below: seq<nat>, mine: State, outer: State) {
    && b < mine.pos == outer.pos <= |s| && OpensAt(s[b])
    && mine.open != [] && mine.open[0] == b && b !in mine.open[1..]
    && outer.open == below + mine.open && b !in below
    && Alike(b, mine.qend, outer.qend) && b !in mine.keys && b !in outer.keys
  }

  /** Two steps alike: both go on paired, or the first ends and judges `b` as the other does. */
  predicate StepsAlike(s: string, b: nat, below: seq<nat>, m: Step, o: Step) {
    && (m.Go? ==> o.Go? && Paired(s, b, below, m.next, o.next))
    && (m.Stop? && m.result.Ambiguous? ==> o == m)
    && (m.Stop? && m.result.Known? ==>
          if o.Stop? then o.result.Known? && (b in o.result.keys <==> b in m.result.keys)
          else b !in o.next.open && (b in o.next.keys <==> b in m.result.keys))
  }

  /** They move alike until `b` closes, and then judge it alike. */
  lemma StepPaired(s: string, b: nat, below: seq<nat>, mine: State, outer: State)
    requires Paired(s, b, below, mine, outer)
    ensures StepsAlike(s, b, below, StepAt(s, mine), StepAt(s, outer))
  {
    hide SkipQuoted, TagEnd, LineEnd, ColonFollows, BackOverBlanks, QuoteKind, NextStop, VerbatimTag;
    var i := NextStop(s, mine.pos);
    if i < |s| {
      if s[i] == '\'' || s[i] == '"' {
        KindAlike(s, i, b, mine.qend, outer.qend);
      } else if ClosesAt(s[i]) {
        PopPaired(below, mine.open);
        ClosePaired(s, b, below, mine, outer);
      } else if OpensAt(s[i]) {
        PushPaired(below, mine.open, i);
      }
    }
  }

  lemma ClosePaired(s: string, b: nat, below: seq<nat>, mine: State, outer: State)
    requires Paired(s, b, below, mine, outer)
    requires var i := NextStop(s, mine.pos); i < |s| && ClosesAt(s[i])
    ensures StepsAlike(s, b, below, StepAt(s, mine), StepAt(s, outer))
  {
    hide SkipQuoted, TagEnd, LineEnd, ColonFollows, BackOverBlanks, QuoteKind, NextStop, VerbatimTag;
    PopPaired(below, mine.open);
  }

  lemma PushPaired(below: seq<nat>, open: seq<nat>, i: nat)
    requires open != []
    ensures below + open + [i] == below + (open + [i]) && (open + [i])[1..] == open[1..] + [i]
  {}

  lemma PopPaired(below: seq<nat>, open: seq<nat>)
    requires open != []
    ensures var all := below + open;
      all[|all| - 1] == open[|open| - 1] && all[..|all| - 1] == below + open[..|open| - 1]
    ensures |open| > 1 ==> open[..|open| - 1][1..] == open[1..][..|open| - 2] && open[|open| - 1] in open[1..]
  {}

  lemma {:induction false} RunPaired(s: string, b: nat, below: seq<nat>, mine: State, outer: State)
    requires Paired(s, b, below, mine, outer)
    ensures var m, o := Run(s, mine), Run(s, outer);
      (m.Ambiguous? ==> o.Ambiguous?) && (m.Known? && o.Known? ==> (b in o.keys <==> b in m.keys))
    decreases |s| - mine.pos
  {
    StepPaired(s, b, below, mine, outer);
    var m, o := StepAt(s, mine), StepAt(s, outer);
    if m.Go? {
      RunPaired(s, b, below, m.next, o.next);
    } else if o.Go? && m.result.Known? {
      Judged(s, o.next, b);
    }
  }

  /** Open brackets lie before the position, and so do the keys. */
  predicate Past(st: State) {
    (forall k | 0 <= k < |st.open| :: st.open[k] < st.pos) && (forall k | 0 <= k < |st.keys| :: st.keys[k] < st.pos) &&
    (st.qend.Some? ==> st.qend.value <= st.pos)
  }

  lemma StepPast(s: string, st: State)
    requires st.pos <= |s| && Past(st) && StepAt(s, st).Go?
    ensures Past(StepAt(s, st).next)
  {
    hide SkipQuoted, TagEnd, LineEnd, ColonFollows, BackOverBlanks, QuoteKind, NextStop;
  }

  /** The answer a scan finds for a collection it opened on the way is the one a
      fresh scan from that collection's bracket gives, unless telling needs the
      tokenizer: then the answer is "key", and "not a key" is never wrong. */
  lemma {:induction false} NestedAgrees(s: string, st: State, b: nat)
    requires st.pos <= |s| && Past(st) && Opens(s, st, b)
    ensures b < |s| && OpensAt(s[b])
    ensures var r := Run(s, st); r.Known? ==> (b in r.keys <==> FreshKey(s, b))
    decreases |s| - st.pos
  {
    var r := StepAt(s, st);
    StepPast(s, st);
    if r.next.open == st.open + [b] && r.next.pos == b + 1 {
      Pushed(s, st, b);
      var mine := State(b + 1, [b], None, []);
      assert StepAt(s, State(b, [], None, [])) == Go(mine) by { assert NextStop(s, b) == b; assert [] + [b] == [b]; }
      assert [b][1..] == [];
      RunPaired(s, b, st.open, mine, r.next);
    } else {
      NestedAgrees(s, r.next, b);
    }
  }

  lemma Pushed(s: string, st: State, b: nat)
    requires st.pos <= |s| && Past(st)
    requires var r := StepAt(s, st); r.Go? && r.next.open == st.open + [b] && r.next.pos == b + 1
    ensures b < |s| && OpensAt(s[b]) && st.pos <= b && StepAt(s, st).next == st.(pos := b + 1, open := st.open + [b])
  {}
}
