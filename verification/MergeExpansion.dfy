/**
 * Merge resolution on the flat event array, as the code walks it: positions and
 * node_end instead of trees. Each pass writes exactly what MergeTrees says.
 */
module MergeExpansion {
  import opened Events
  import opened NodeTrees
  import opened AnchorTable
  import opened AliasTrees
  import opened EventBuffer
  import opened MergeTrees
  import AliasExpansion

  // ----- nodes at their positions -----

  /** The nodes `ts` fill the array from `pos` to `end`. */
  ghost predicate Lie(evs: seq<Event>, pos: nat, end: nat, ts: seq<Tree>) {
    AllShaped(ts) && pos <= end <= |evs| && evs[pos..end] == FlatAll(ts)
  }

  /** node_end finds the first of them, and the others follow it. */
  lemma NodeNext(evs: seq<Event>, pos: nat, end: nat, ts: seq<Tree>)
    requires Lie(evs, pos, end, ts) && ts != []
    ensures var q := NodeEnd(evs, pos);
            && pos < q <= end && evs[pos..q] == Flat(ts[0]) && evs[pos] == First(ts[0])
            && Lie(evs, q, end, ts[1..]) && (q < end <==> ts[1..] != [])
  {
    var q := pos + |Flat(ts[0])|;
    var tail := FlatAll(ts[1..]);
    assert evs[pos..end] == Flat(ts[0]) + tail;
    assert evs[pos..q] == evs[pos..end][..q - pos] == Flat(ts[0]);
    assert evs[q..end] == evs[pos..end][q - pos..] == tail;
    assert evs == evs[..pos] + Flat(ts[0]) + evs[q..];
    NodeEndExact(evs[..pos], ts[0], evs[q..]);
    assert evs[pos] == evs[pos..q][0];
    if ts[1..] != [] { assert tail == Flat(ts[1..][0]) + FlatAll(ts[1..][1..]); }
  }

  /** A key and its value from `pos` on, as the events there show them. */
  ghost predicate PairHere(evs: seq<Event>, pos: nat, keyEnd: nat, valEnd: nat, p: Pair) {
    && pos < keyEnd < valEnd <= |evs| && Shaped(p.value)
    && evs[pos..keyEnd] == Flat(p.key) && evs[keyEnd..valEnd] == Flat(p.value)
    && evs[keyEnd] == First(p.value)
    && (Merges(p) <==> IsMergeKey(evs[pos]))
    && ScalarKey(p) == if keyEnd - pos == 1 && evs[pos].typ == ScalarEvent then Some(evs[pos].value) else None
  }

  lemma KidsOfCons(pairs: seq<Pair>)
    requires pairs != []
    ensures var ks := KidsOf(pairs);
            |ks| >= 2 && ks[0] == pairs[0].key && ks[1..] == [pairs[0].value] + KidsOf(pairs[1..]) && ks[1..][1..] == KidsOf(pairs[1..])
  {
    var key, value, rest := pairs[0].key, pairs[0].value, KidsOf(pairs[1..]);
    assert KidsOf(pairs) == [key, value] + rest;
    hide *;
    assert ([key, value] + rest)[1..] == [value] + rest;
    assert ([value] + rest)[1..] == rest;
  }

  /** Two node_end calls step over a pair. */
  method PairEnds(evs: seq<Event>, pos: nat, end: nat, ghost pairs: seq<Pair>) returns (keyEnd: nat, valEnd: nat)
    requires Lie(evs, pos, end, KidsOf(pairs)) && pos < end
    ensures pairs != [] && PairHere(evs, pos, keyEnd, valEnd, pairs[0]) && valEnd <= end
    ensures Lie(evs, valEnd, end, KidsOf(pairs[1..])) && (valEnd < end <==> pairs[1..] != [])
    ensures pairs == [pairs[0]] + pairs[1..]
  {
    assert pairs != [];
    KidsOfCons(pairs);
    NodeNext(evs, pos, end, KidsOf(pairs));
    keyEnd := FindNodeEnd(evs, pos);
    NodeNext(evs, keyEnd, end, KidsOf(pairs)[1..]);
    valEnd := FindNodeEnd(evs, keyEnd);
  }

  /** A mapping node from `start` to `end`. */
  ghost predicate MapAt(evs: seq<Event>, start: nat, end: nat, t: Tree) {
    IsMapping(t) && start + 2 <= end <= |evs| && evs[start] == t.open && evs[end - 1] == t.close &&
    Lie(evs, start + 1, end - 1, KidsOf(PairsOf(t.kids)))
  }

  lemma {:induction false} KidsOfPairs(kids: seq<Tree>)
    requires |kids| % 2 == 0
    ensures KidsOf(PairsOf(kids)) == kids
  {
    if kids != [] { KidsOfPairs(kids[2..]); }
  }

  lemma Within<T>(s: seq<T>, a: nat, b: nat, i: nat, j: nat)
    requires a <= b <= |s| && i <= j <= b - a
    ensures s[a..b][i..j] == s[a + i..a + j]
  {
    var x, y := s[a..b][i..j], s[a + i..a + j];
    assert |x| == |y| == j - i;
    forall k | 0 <= k < |x| ensures x[k] == y[k] {
      assert x[k] == s[a..b][i + k] == s[a + (i + k)];
      assert y[k] == s[(a + i) + k];
    }
  }

  lemma MapHere(evs: seq<Event>, start: nat, t: Tree)
    requires IsMapping(t) && Shaped(t) && |t.kids| % 2 == 0
    requires start + |Flat(t)| <= |evs| && evs[start..start + |Flat(t)|] == Flat(t)
    ensures MapAt(evs, start, start + |Flat(t)|, t)
  {
    KidsOfPairs(t.kids);
    var f := Flat(t);
    var inner := FlatAll(t.kids);
    var n := |inner|;
    assert f == [t.open] + inner + [t.close];
    assert f[0] == t.open && f[n + 1] == t.close && f[1..n + 1] == inner;
    assert evs[start] == evs[start..start + |f|][0];
    assert evs[start + n + 1] == evs[start..start + |f|][n + 1];
    Within(evs, start, start + |f|, 1, n + 1);
  }

  // ----- the loops over one mapping -----

  method HasMergeKey(evs: seq<Event>, start: nat, end: nat, ghost t: Tree) returns (has: bool)
    requires MapAt(evs, start, end, t)
    ensures has == AnyMerges(PairsOf(t.kids))
  {
    var pos: nat := start + 1;
    ghost var pairs := PairsOf(t.kids);
    while pos < end - 1
      invariant Lie(evs, pos, end - 1, KidsOf(pairs))
      invariant AnyMerges(PairsOf(t.kids)) == AnyMerges(pairs)
      decreases |pairs|
    {
      var keyEnd, valEnd := PairEnds(evs, pos, end - 1, pairs);
      if IsMergeKey(evs[pos]) { return true; }
      pos, pairs := valEnd, pairs[1..];
    }
    NoPairs(pairs);
    return false;
  }

  lemma NoPairs(pairs: seq<Pair>)
    ensures FlatAll(KidsOf(pairs)) == [] <==> pairs == []
  {
    if pairs != [] { KidsOfCons(pairs); }
  }

  lemma ExplicitStep(seen: seq<string>, p: Pair, rest: seq<Pair>)
    ensures Explicit([p] + rest) == if Merges(p) then Explicit(rest) else [p] + Explicit(rest)
    ensures AddKeys(seen, Explicit([p] + rest)) ==
            if Merges(p) then AddKeys(seen, Explicit(rest)) else AddKeys(AddKey(seen, p), Explicit(rest))
  {
    assert ([p] + rest)[1..] == rest;
    assert ([p] + Explicit(rest))[1..] == Explicit(rest);
  }

  /** The explicit scalar keys, each once. */
  method ExplicitKeys(evs: seq<Event>, start: nat, end: nat, ghost t: Tree) returns (seen: seq<string>)
    requires MapAt(evs, start, end, t)
    ensures seen == AddKeys([], Explicit(PairsOf(t.kids)))
  {
    seen := [];
    var pos: nat := start + 1;
    ghost var pairs := PairsOf(t.kids);
    while pos < end - 1
      invariant Lie(evs, pos, end - 1, KidsOf(pairs))
      invariant AddKeys(seen, Explicit(pairs)) == AddKeys([], Explicit(PairsOf(t.kids)))
      decreases |pairs|
    {
      var keyEnd, valEnd := PairEnds(evs, pos, end - 1, pairs);
      ExplicitStep(seen, pairs[0], pairs[1..]);
      if !IsMergeKey(evs[pos]) && keyEnd - pos == 1 && evs[pos].typ == ScalarEvent {
        if evs[pos].value !in seen { seen := seen + [evs[pos].value]; }
      }
      pos, pairs := valEnd, pairs[1..];
    }
    NoPairs(pairs);
  }

  /** The flattened pair, then the rest. */
  lemma FlatPair(p: Pair, rest: seq<Pair>)
    ensures FlatAll(KidsOf([p] + rest)) == Flat(p.key) + Flat(p.value) + FlatAll(KidsOf(rest))
  {
    assert ([p] + rest)[1..] == rest;
    KidsOfCons([p] + rest);
    assert FlatAll([p.value] + KidsOf(rest)) == Flat(p.value) + FlatAll(KidsOf(rest));
  }

  method PushPair(evs: seq<Event>, pos: nat, keyEnd: nat, valEnd: nat, b: Buffer, ghost p: Pair)
    requires PairHere(evs, pos, keyEnd, valEnd, p) && b.Valid()
    modifies b
    ensures b.Valid() && b.asked == if Merges(p) then old(b.asked) else old(b.asked) + (Flat(p.key) + Flat(p.value))
  {
    if !IsMergeKey(evs[pos]) {
      assert evs[pos..valEnd] == evs[pos..keyEnd] + evs[keyEnd..valEnd];
      b.PushRange(evs, pos, valEnd);
    }
  }

  method PushExplicit(evs: seq<Event>, start: nat, end: nat, b: Buffer, ghost t: Tree)
    requires MapAt(evs, start, end, t) && b.Valid()
    modifies b
    ensures b.Valid() && b.asked == old(b.asked) + FlatAll(KidsOf(Explicit(PairsOf(t.kids))))
  {
    hide FlatAll, Flat, KidsOf, Explicit, PairsOf, Lie, PairHere, ScalarKey, Merges;
    var pos: nat := start + 1;
    ghost var pairs := PairsOf(t.kids);
    while pos < end - 1
      invariant Lie(evs, pos, end - 1, KidsOf(pairs))
      invariant b.Valid() && b.asked + FlatAll(KidsOf(Explicit(pairs))) == old(b.asked) + FlatAll(KidsOf(Explicit(PairsOf(t.kids))))
      decreases |pairs|
    {
      var keyEnd, valEnd := PairEnds(evs, pos, end - 1, pairs);
      ghost var before := b.asked;
      PushPair(evs, pos, keyEnd, valEnd, b, pairs[0]);
      ExplicitFlat(pairs);
      AliasExpansion.Associative(before, Flat(pairs[0].key) + Flat(pairs[0].value), FlatAll(KidsOf(Explicit(pairs[1..]))));
      pos, pairs := valEnd, pairs[1..];
    }
    NoneLeft(evs, pos, end - 1, pairs);
  }

  lemma ExplicitFlat(pairs: seq<Pair>)
    requires pairs != []
    ensures var p, rest := pairs[0], FlatAll(KidsOf(Explicit(pairs[1..])));
            FlatAll(KidsOf(Explicit(pairs))) == if Merges(p) then rest else Flat(p.key) + Flat(p.value) + rest
  {
    assert pairs == [pairs[0]] + pairs[1..];
    ExplicitStep([], pairs[0], pairs[1..]);
    FlatPair(pairs[0], Explicit(pairs[1..]));
  }

  lemma NoneLeft(evs: seq<Event>, pos: nat, end: nat, pairs: seq<Pair>)
    requires Lie(evs, pos, end, KidsOf(pairs)) && pos >= end
    ensures FlatAll(KidsOf(Explicit(pairs))) == []
  {
    NoPairs(pairs);
  }

  lemma FreshStep(seen: seq<string>, p: Pair, rest: seq<Pair>)
    ensures AddKeys(seen, [p] + rest) == AddKeys(AddKey(seen, p), rest)
    ensures FlatAll(KidsOf(Fresh(seen, [p] + rest))) ==
            (if IsSeen(seen, p) then [] else AliasExpansion.Bare(Flat(p.key)) + AliasExpansion.Bare(Flat(p.value))) +
            FlatAll(KidsOf(Fresh(AddKey(seen, p), rest)))
  {
    assert ([p] + rest)[1..] == rest;
    if IsSeen(seen, p) {
      assert Fresh(seen, [p] + rest) == Fresh(AddKey(seen, p), rest);
    } else {
      FlatPair(Pair(Strip(p.key), Strip(p.value)), Fresh(AddKey(seen, p), rest));
      AliasExpansion.BareFlat(p.key);
      AliasExpansion.BareFlat(p.value);
    }
  }

  /** merge_from_mapping: copies of the pairs whose key was not seen. */
  method MergeFrom(evs: seq<Event>, start: nat, end: nat, seen: seq<string>, b: Buffer, ghost t: Tree) returns (seen': seq<string>)
    requires MapAt(evs, start, end, t) && b.Valid()
    modifies b
    ensures b.Valid() && b.asked == old(b.asked) + FlatAll(KidsOf(Fresh(seen, PairsOf(t.kids))))
    ensures seen' == AddKeys(seen, PairsOf(t.kids))
  {
    hide FlatAll, Flat, Fresh, AddKeys, KidsOf, AliasExpansion.Bare, IsSeen, AddKey, PairsOf, AllShaped;
    seen' := seen;
    var pos: nat := start + 1;
    ghost var pairs := PairsOf(t.kids);
    while pos < end - 1
      invariant Lie(evs, pos, end - 1, KidsOf(pairs))
      invariant b.Valid() && b.asked + FlatAll(KidsOf(Fresh(seen', pairs))) == old(b.asked) + FlatAll(KidsOf(Fresh(seen, PairsOf(t.kids))))
      invariant AddKeys(seen', pairs) == AddKeys(seen, PairsOf(t.kids))
      decreases |pairs|
    {
      var keyEnd, valEnd := PairEnds(evs, pos, end - 1, pairs);
      FreshStep(seen', pairs[0], pairs[1..]);
      assert [pairs[0]] + pairs[1..] == pairs;
      ghost var before := b.asked;
      seen' := MergePair(evs, pos, keyEnd, valEnd, seen', b, pairs[0]);
      AliasExpansion.Associative(before, b.asked[|before|..], FlatAll(KidsOf(Fresh(seen', pairs[1..]))));
      pos, pairs := valEnd, pairs[1..];
    }
    NoPairs(pairs);
    FreshNone(seen');
    assert b.asked + [] == b.asked;
  }

  lemma FreshNone(seen: seq<string>)
    ensures FlatAll(KidsOf(Fresh(seen, []))) == [] && AddKeys(seen, []) == seen
  {}

  method MergePair(evs: seq<Event>, pos: nat, keyEnd: nat, valEnd: nat, seen: seq<string>, b: Buffer, ghost p: Pair) returns (seen': seq<string>)
    requires PairHere(evs, pos, keyEnd, valEnd, p) && b.Valid()
    modifies b
    ensures b.Valid() && seen' == AddKey(seen, p)
    ensures b.asked == old(b.asked) +
            if IsSeen(seen, p) then [] else AliasExpansion.Bare(Flat(p.key)) + AliasExpansion.Bare(Flat(p.value))
  {
    seen' := seen;
    if keyEnd - pos == 1 && evs[pos].typ == ScalarEvent {
      if evs[pos].value in seen { return; }
      seen' := seen + [evs[pos].value];
    }
    AliasExpansion.CopyBare(evs, pos, keyEnd, b);
    AliasExpansion.CopyBare(evs, keyEnd, valEnd, b);
  }

  // ----- merge sources -----

  /** What copying unseen pairs writes. */
  function Written(seen: seq<string>, pairs: seq<Pair>): seq<Event> {
    FlatAll(KidsOf(Fresh(seen, pairs)))
  }

  lemma {:induction false} KidsOfConcat(a: seq<Pair>, b: seq<Pair>)
    ensures KidsOf(a + b) == KidsOf(a) + KidsOf(b)
    decreases |a|
  {
    if a == [] {
      assert a + b == b;
    } else {
      assert (a + b)[1..] == a[1..] + b;
      KidsOfConcat(a[1..], b);
    }
  }

  lemma {:induction false} FreshConcat(seen: seq<string>, a: seq<Pair>, b: seq<Pair>)
    ensures AddKeys(seen, a + b) == AddKeys(AddKeys(seen, a), b)
    ensures Fresh(seen, a + b) == Fresh(seen, a) + Fresh(AddKeys(seen, a), b)
    decreases |a|
  {
    if a == [] {
      assert a + b == b;
    } else {
      assert (a + b)[1..] == a[1..] + b;
      FreshConcat(AddKey(seen, a[0]), a[1..], b);
    }
  }

  lemma WrittenConcat(seen: seq<string>, a: seq<Pair>, b: seq<Pair>)
    ensures Written(seen, a + b) == Written(seen, a) + Written(AddKeys(seen, a), b)
    ensures AddKeys(seen, a + b) == AddKeys(AddKeys(seen, a), b)
  {
    FreshConcat(seen, a, b);
    KidsOfConcat(Fresh(seen, a), Fresh(AddKeys(seen, a), b));
    FlatConcat(KidsOf(Fresh(seen, a)), KidsOf(Fresh(AddKeys(seen, a), b)));
  }

  lemma {:induction false} SourcePairsConcat(a: seq<Tree>, b: seq<Tree>)
    ensures SourcePairs(a + b) == SourcePairs(a) + SourcePairs(b)
    decreases |a|
  {
    if a == [] {
      assert a + b == b;
    } else {
      assert (a + b)[1..] == a[1..] + b;
      SourcePairsConcat(a[1..], b);
    }
  }

  /** A place in the work of writing `all` sources: `rest` of them are ahead. */
  datatype Progress = Progress(asked: seq<Event>, seen: seq<string>, rest: Option<seq<Tree>>)

  ghost predicate OnTheWay(from: Progress, now: Progress) {
    (from.rest.Some? <==> now.rest.Some?) &&
    (from.rest.Some? ==>
       && now.asked + Written(now.seen, SourcePairs(now.rest.value)) == from.asked + Written(from.seen, SourcePairs(from.rest.value))
       && AddKeys(now.seen, SourcePairs(now.rest.value)) == AddKeys(from.seen, SourcePairs(from.rest.value)))
  }

  /** Writing the next sources. */
  lemma Advance(from: Progress, now: Progress, x: seq<Tree>, rest: Option<seq<Tree>>)
    requires OnTheWay(from, now) && now.rest == (if rest.Some? then Some(x + rest.value) else None)
    ensures OnTheWay(from, Progress(now.asked + Written(now.seen, SourcePairs(x)), AddKeys(now.seen, SourcePairs(x)), rest))
  {
    if rest.Some? {
      SourcePairsConcat(x, rest.value);
      WrittenConcat(now.seen, SourcePairs(x), SourcePairs(rest.value));
      AliasExpansion.Associative(now.asked, Written(now.seen, SourcePairs(x)),
                                 Written(AddKeys(now.seen, SourcePairs(x)), SourcePairs(rest.value)));
    }
  }

  /** With nothing ahead, everything is written. */
  lemma Arrived(from: Progress, now: Progress)
    requires OnTheWay(from, now) && now.rest == Some([])
    ensures from.rest.Some? && now.asked == from.asked + Written(from.seen, SourcePairs(from.rest.value))
    ensures now.seen == AddKeys(from.seen, SourcePairs(from.rest.value))
  {
    assert Written(now.seen, []) == [];
  }

  /** The anchor table of the array, as trees. */
  ghost predicate TableFor(evs: seq<Event>, t: Anchors, env: Env)
    reads t.index, t.index.slots
  {
    t.Valid() && SoundEnv(env) && Names(t.entries) == env.names &&
    forall k | 0 <= k < |t.entries| :: BodyAt(evs, t.entries[k], env.bodies[k])
  }

  predicate BodyAt(evs: seq<Event>, a: Entry, body: Tree) {
    a.start <= a.end <= |evs| && evs[a.start..a.end] == Flat(body)
  }

  lemma OneSource(t: Tree)
    requires t.Coll?
    ensures SourcePairs([t]) == PairsOf(t.kids)
  {
    assert SourcePairs([t][1..]) == [];
  }

  /** merge_source: false if the value at `pos` is no mapping and names none. */
  method MergeSource(evs: seq<Event>, pos: nat, end: nat, t: Anchors, seen: seq<string>, b: Buffer, ghost env: Env, ghost vs: seq<Tree>)
    returns (ok: bool, seen': seq<string>)
    requires TableFor(evs, t, env) && b.Valid() && Lie(evs, pos, end, vs) && vs != [] && Sound(vs[0])
    modifies b
    ensures b.Valid() && TableFor(evs, t, env) && (ok <==> SourceOf(env, vs[0]).Some?)
    ensures ok ==> var s := SourcePairs([SourceOf(env, vs[0]).value]);
                   b.asked == old(b.asked) + Written(seen, s) && seen' == AddKeys(seen, s)
  {
    NodeNext(evs, pos, end, vs);
    if evs[pos].typ == MappingStart {
      var e := FindNodeEnd(evs, pos);
      MapHere(evs, pos, vs[0]);
      OneSource(vs[0]);
      seen' := MergeFrom(evs, pos, e, seen, b, vs[0]);
      return true, seen';
    }
    if evs[pos].typ == AliasEvent {
      ok, seen' := MergeAlias(evs, evs[pos].value, t, seen, b, env);
      return;
    }
    return false, seen;
  }

  lemma WrittenIs(seen: seq<string>, pairs: seq<Pair>)
    ensures Written(seen, pairs) == FlatAll(KidsOf(Fresh(seen, pairs)))
  {}

  lemma TableNames(evs: seq<Event>, t: Anchors, env: Env)
    requires TableFor(evs, t, env)
    ensures t.Valid() && Names(t.entries) == env.names && |t.entries| == |env.names| == |env.bodies|
  {}

  /** What the anchor's entry spans. */
  lemma BodyHere(evs: seq<Event>, t: Anchors, env: Env, k: nat)
    requires TableFor(evs, t, env) && k < |t.entries|
    ensures |env.bodies| == |t.entries|
    ensures var a, body := t.entries[k], env.bodies[k];
            a.start < a.end == a.start + |Flat(body)| <= |evs| && evs[a.start..a.end] == Flat(body) &&
            Shaped(body) && (evs[a.start].typ == MappingStart <==> IsMapping(body)) &&
            (IsMapping(body) ==> body.Coll? && |body.kids| % 2 == 0 && SourcePairs([body]) == PairsOf(body.kids))
  {
    var a, body := t.entries[k], env.bodies[k];
    assert BodyAt(evs, a, body) && Sound(body);
    FlatFirst(body);
    assert evs[a.start] == evs[a.start..a.end][0];
    if IsMapping(body) { OneSource(body); }
  }

  /** The source is the node of the anchor called `name`. */
  method MergeAlias(evs: seq<Event>, name: string, t: Anchors, seen: seq<string>, b: Buffer, ghost env: Env)
    returns (ok: bool, seen': seq<string>)
    requires TableFor(evs, t, env) && b.Valid()
    modifies b
    ensures b.Valid() && TableFor(evs, t, env)
    ensures var k := LastNamed(env.names, |env.names|, name);
            && (ok <==> k.Some? && IsMapping(env.bodies[k.value]))
            && (ok ==> var s := SourcePairs([env.bodies[k.value]]);
                       b.asked == old(b.asked) + Written(seen, s) && seen' == AddKeys(seen, s))
  {
    hide *;
    TableNames(evs, t, env);
    var a := t.Lookup(name);
    if a.None? { return false, seen; }
    ghost var body := env.bodies[a.value];
    BodyHere(evs, t, env, a.value);
    var start, end := t.entries[a.value].start, t.entries[a.value].end;
    if evs[start].typ != MappingStart { return false, seen; }
    MapHere(evs, start, body);
    WrittenIs(seen, PairsOf(body.kids));
    seen' := MergeFrom(evs, start, end, seen, b, body);
    ok := true;
  }

  /** The sources that a sequence holds from `pos` to `end`. */
  method MergeEach(evs: seq<Event>, pos: nat, end: nat, t: Anchors, seen: seq<string>, b: Buffer, ghost env: Env, ghost all: seq<Tree>)
    returns (ok: bool, seen': seq<string>)
    requires TableFor(evs, t, env) && b.Valid() && Lie(evs, pos, end, all) && AllSound(all)
    modifies b
    ensures b.Valid() && TableFor(evs, t, env) && (ok <==> EachSource(env, all).Some?)
    ensures ok ==> var s := SourcePairs(EachSource(env, all).value);
                   b.asked == old(b.asked) + Written(seen, s) && seen' == AddKeys(seen, s)
  {
    ghost var from := Progress(b.asked, seen, EachSource(env, all));
    ghost var vs := all;
    seen' := seen;
    var i: nat := pos;
    while i < end
      invariant b.Valid() && TableFor(evs, t, env) && AllSound(vs)
      invariant Lie(evs, i, end, vs)
      invariant OnTheWay(from, Progress(b.asked, seen', EachSource(env, vs)))
      decreases |vs|
    {
      SomeAhead(evs, i, end, vs);
      NodeNext(evs, i, end, vs);
      ghost var now := Progress(b.asked, seen', EachSource(env, vs));
      ok, seen' := MergeSource(evs, i, end, t, seen', b, env, vs);
      if !ok { return; }
      Advance(from, now, [SourceOf(env, vs[0]).value], EachSource(env, vs[1..]));
      i := FindNodeEnd(evs, i);
      vs := vs[1..];
    }
    SomeAhead(evs, i, end, vs);
    Arrived(from, Progress(b.asked, seen', Some([])));
    ok := true;
  }

  /** process_merge_value: one source, or a sequence of them. */
  method MergeValue(evs: seq<Event>, pos: nat, end: nat, t: Anchors, seen: seq<string>, b: Buffer, ghost env: Env, ghost v: Tree)
    returns (ok: bool, seen': seq<string>)
    requires TableFor(evs, t, env) && b.Valid() && pos < end <= |evs| && evs[pos..end] == Flat(v) && evs[pos] == First(v) && Sound(v)
    modifies b
    ensures b.Valid() && TableFor(evs, t, env) && (ok <==> SourcesOf(env, v).Some?)
    ensures ok ==> var s := SourcePairs(SourcesOf(env, v).value);
                   b.asked == old(b.asked) + Written(seen, s) && seen' == AddKeys(seen, s)
  {
    if evs[pos].typ != SequenceStart {
      OneEach(evs, pos, end, env, v);
      ok, seen' := MergeSource(evs, pos, end, t, seen, b, env, [v]);
    } else {
      SeqHere(evs, pos, end, v);
      ok, seen' := MergeEach(evs, pos + 1, end - 1, t, seen, b, env, v.kids);
    }
  }

  lemma OneEach(evs: seq<Event>, pos: nat, end: nat, env: Env, v: Tree)
    requires |env.names| == |env.bodies| && pos < end <= |evs| && evs[pos..end] == Flat(v) && Sound(v)
    ensures Lie(evs, pos, end, [v])
    ensures EachSource(env, [v]) == if SourceOf(env, v).Some? then Some([SourceOf(env, v).value]) else None
  {
    assert [v][1..] == [];
    assert FlatAll([v]) == Flat(v) + FlatAll([]);
    assert AllShaped([v][1..]);
    assert EachSource(env, [v][1..]) == Some([]);
    if SourceOf(env, v).Some? { assert [SourceOf(env, v).value] + [] == [SourceOf(env, v).value]; }
  }

  lemma SomeAhead(evs: seq<Event>, pos: nat, end: nat, vs: seq<Tree>)
    requires Lie(evs, pos, end, vs)
    ensures pos < end <==> vs != []
  {
    if vs != [] { assert FlatAll(vs) == Flat(vs[0]) + FlatAll(vs[1..]); }
  }

  lemma SeqHere(evs: seq<Event>, pos: nat, end: nat, v: Tree)
    requires pos < end <= |evs| && evs[pos..end] == Flat(v) && evs[pos] == First(v) && evs[pos].typ == SequenceStart && Sound(v)
    ensures v.Coll? && v.open.typ == SequenceStart && end - 1 >= pos + 1 && Lie(evs, pos + 1, end - 1, v.kids) && AllSound(v.kids)
  {
    var inner := FlatAll(v.kids);
    var n := |inner|;
    assert Flat(v) == [v.open] + inner + [v.close];
    assert Flat(v)[1..n + 1] == inner;
    Within(evs, pos, end, 1, n + 1);
  }

  // ----- rebuilding a mapping -----

  /** The merge keys of the mapping in order; false at a bad merge value. */
  method MergeKeys(evs: seq<Event>, start: nat, end: nat, t: Anchors, seen: seq<string>, b: Buffer, ghost env: Env, ghost m: Tree)
    returns (ok: bool)
    requires TableFor(evs, t, env) && b.Valid() && MapAt(evs, start, end, m) && SoundPairs(PairsOf(m.kids))
    modifies b
    ensures b.Valid() && TableFor(evs, t, env) && (ok <==> AllSources(env, PairsOf(m.kids)).Some?)
    ensures ok ==> b.asked == old(b.asked) + Written(seen, SourcePairs(AllSources(env, PairsOf(m.kids)).value))
  {
    ghost var from := Progress(b.asked, seen, AllSources(env, PairsOf(m.kids)));
    ghost var pairs := PairsOf(m.kids);
    var now := seen;
    var pos: nat := start + 1;
    while pos < end - 1
      invariant b.Valid() && TableFor(evs, t, env) && SoundPairs(pairs)
      invariant Lie(evs, pos, end - 1, KidsOf(pairs))
      invariant OnTheWay(from, Progress(b.asked, now, AllSources(env, pairs)))
      decreases |pairs|
    {
      var keyEnd, valEnd := PairEnds(evs, pos, end - 1, pairs);
      ghost var here := Progress(b.asked, now, AllSources(env, pairs));
      if IsMergeKey(evs[pos]) {
        assert pairs[0] in pairs;
        ok, now := MergeValue(evs, keyEnd, valEnd, t, now, b, env, pairs[0].value);
        if !ok { return; }
        Advance(from, here, SourcesOf(env, pairs[0].value).value, AllSources(env, pairs[1..]));
      }
      pos, pairs := valEnd, pairs[1..];
    }
    NoPairs(pairs);
    Arrived(from, Progress(b.asked, now, Some([])));
    ok := true;
  }

  /** A mapping with merge keys: its explicit pairs, then what they bring in. */
  method Rebuild(evs: seq<Event>, start: nat, end: nat, t: Anchors, b: Buffer, ghost env: Env, ghost m: Tree) returns (ok: bool)
    requires TableFor(evs, t, env) && b.Valid() && MapAt(evs, start, end, m) && SoundPairs(PairsOf(m.kids))
    modifies b
    ensures b.Valid() && TableFor(evs, t, env) && (ok <==> MergedPairs(env, PairsOf(m.kids)).Some?)
    ensures ok ==> b.asked == old(b.asked) + Flat(Coll(m.open, KidsOf(MergedPairs(env, PairsOf(m.kids)).value), m.close))
  {
    var seen := ExplicitKeys(evs, start, end, m);
    ghost var was, x := b.asked, FlatAll(KidsOf(Explicit(PairsOf(m.kids))));
    b.Push(evs[start]);
    PushExplicit(evs, start, end, b, m);
    ok := MergeKeys(evs, start, end, t, seen, b, env, m);
    if ok {
      b.Push(evs[end - 1]);
      RebuiltFlat(env, m);
      InOne(was, [m.open], x, Written(seen, SourcePairs(AllSources(env, PairsOf(m.kids)).value)), [m.close]);
    }
  }

  lemma InOne<T>(was: seq<T>, a: seq<T>, x: seq<T>, y: seq<T>, c: seq<T>)
    ensures was + a + x + y + c == was + (a + x + y + c)
  {}

  lemma RebuiltFlat(env: Env, m: Tree)
    requires |env.names| == |env.bodies| && IsMapping(m) && AllSources(env, PairsOf(m.kids)).Some?
    ensures var pairs := PairsOf(m.kids);
            Flat(Coll(m.open, KidsOf(MergedPairs(env, pairs).value), m.close)) ==
            [m.open] + FlatAll(KidsOf(Explicit(pairs))) +
            Written(AddKeys([], Explicit(pairs)), SourcePairs(AllSources(env, pairs).value)) + [m.close]
  {
    var pairs := PairsOf(m.kids);
    var explicit := Explicit(pairs);
    var fresh_ := Fresh(AddKeys([], explicit), SourcePairs(AllSources(env, pairs).value));
    KidsOfConcat(explicit, fresh_);
    FlatConcat(KidsOf(explicit), KidsOf(fresh_));
  }

  // ----- one pass -----

  /** What is still to be read: nodes, and the closing events of those entered. */
  datatype Item = Node(t: Tree) | Close(e: Event)

  function Rest(items: seq<Item>): seq<Event> {
    if items == [] then []
    else (match items[0] case Node(t) => Flat(t) case Close(e) => [e]) + Rest(items[1..])
  }

  function Nodes(ts: seq<Tree>): seq<Item> {
    if ts == [] then [] else [Node(ts[0])] + Nodes(ts[1..])
  }

  /** What a pass writes, or had written before a bad merge value. */
  datatype Output = Wrote(evs: seq<Event>) | Failed(before: seq<Event>)
  {
    function Size(): nat { if Wrote? then |evs| else |before| }
  }

  function After(a: seq<Event>, b: Output): Output {
    match b case Wrote(evs) => Wrote(a + evs) case Failed(before) => Failed(a + before)
  }

  function OutputOf(r: Result): Output {
    match r case Ok(ts) => Wrote(FlatAll(ts)) case Err(before) => Failed(before)
  }

  function MergeItems(env: Env, items: seq<Item>): Output
    requires |env.names| == |env.bodies|
  {
    if items == [] then Wrote([])
    else
      match items[0]
      case Close(e) => After([e], MergeItems(env, items[1..]))
      case Node(t) =>
        match MergeTree(env, t)
        case Ok(ts) => After(FlatAll(ts), MergeItems(env, items[1..]))
        case Err(before) => Failed(before)
  }

  lemma AfterAfter(a: seq<Event>, b: seq<Event>, o: Output)
    ensures After(a, After(b, o)) == After(a + b, o)
  {
    match o
    case Wrote(evs) => AliasExpansion.Associative(a, b, evs);
    case Failed(before) => AliasExpansion.Associative(a, b, before);
  }

  lemma {:induction false} MergeNodes(env: Env, ts: seq<Tree>, rest: seq<Item>)
    requires |env.names| == |env.bodies|
    ensures var r := MergeAll(env, ts);
            MergeItems(env, Nodes(ts) + rest) == if r.Ok? then After(FlatAll(r.trees), MergeItems(env, rest)) else Failed(r.before)
    decreases |ts|
  {
    if ts == [] {
      assert Nodes(ts) + rest == rest;
      var o := MergeItems(env, rest);
      assert After([], o) == o by { assert o.Wrote? ==> [] + o.evs == o.evs; assert o.Failed? ==> [] + o.before == o.before; }
    } else {
      assert (Nodes(ts) + rest)[1..] == Nodes(ts[1..]) + rest;
      MergeNodes(env, ts[1..], rest);
      var a, b := MergeTree(env, ts[0]), MergeAll(env, ts[1..]);
      if a.Ok? && b.Ok? {
        FlatConcat(a.trees, b.trees);
        AfterAfter(FlatAll(a.trees), FlatAll(b.trees), MergeItems(env, rest));
      }
    }
  }

  /** Entering a collection that is not rebuilt. */
  lemma OneFlat(open: Event, kids: seq<Tree>, close: Event)
    ensures FlatAll([Coll(open, kids, close)]) == [open] + FlatAll(kids) + [close]
  {
    assert [Coll(open, kids, close)][1..] == [];
  }

  lemma EnterColl(env: Env, t: Tree, rest: seq<Item>)
    requires |env.names| == |env.bodies| && t.Coll? && !Rebuilds(t)
    ensures MergeItems(env, [Node(t)] + rest) == After([t.open], MergeItems(env, Nodes(t.kids) + [Close(t.close)] + rest))
  {
    hide FlatAll, MergeAll, Rest;
    var inner := [Close(t.close)] + rest;
    assert Nodes(t.kids) + [Close(t.close)] + rest == Nodes(t.kids) + inner;
    assert ([Node(t)] + rest)[1..] == rest && inner[1..] == rest;
    MergeNodes(env, t.kids, inner);
    var k := MergeAll(env, t.kids);
    if k.Ok? {
      var o := MergeItems(env, rest);
      OneFlat(t.open, k.trees, t.close);
      AfterAfter(FlatAll(k.trees), [t.close], o);
      AfterAfter([t.open], FlatAll(k.trees) + [t.close], o);
      assert [t.open] + (FlatAll(k.trees) + [t.close]) == [t.open] + FlatAll(k.trees) + [t.close];
    }
  }

  lemma EnterRest(t: Tree, rest: seq<Item>)
    requires t.Coll?
    ensures Rest([Node(t)] + rest) == [t.open] + Rest(Nodes(t.kids) + [Close(t.close)] + rest)
  {
    var inner := [Close(t.close)] + rest;
    assert Nodes(t.kids) + [Close(t.close)] + rest == Nodes(t.kids) + inner;
    assert ([Node(t)] + rest)[1..] == rest && inner[1..] == rest;
    RestNodes(t.kids, inner);
  }

  lemma {:induction false} RestNodes(ts: seq<Tree>, rest: seq<Item>)
    ensures Rest(Nodes(ts) + rest) == FlatAll(ts) + Rest(rest)
    decreases |ts|
  {
    if ts == [] {
      assert Nodes(ts) + rest == rest;
    } else {
      assert (Nodes(ts) + rest)[1..] == Nodes(ts[1..]) + rest;
      RestNodes(ts[1..], rest);
    }
  }

  predicate SoundItems(items: seq<Item>) {
    items == [] ||
    ((match items[0] case Node(t) => Sound(t) case Close(e) => IsClosing(e.typ)) && SoundItems(items[1..]))
  }

  predicate ItemsMerge(items: seq<Item>) {
    items != [] && ((items[0].Node? && HasMerge(items[0].t)) || ItemsMerge(items[1..]))
  }

  lemma {:induction false} NodesSound(ts: seq<Tree>, rest: seq<Item>)
    requires AllSound(ts) && SoundItems(rest)
    ensures SoundItems(Nodes(ts) + rest)
    ensures ItemsMerge(Nodes(ts) + rest) <==> AnyHasMerge(ts) || ItemsMerge(rest)
    decreases |ts|
  {
    if ts == [] {
      assert Nodes(ts) + rest == rest;
    } else {
      assert (Nodes(ts) + rest)[1..] == Nodes(ts[1..]) + rest;
      NodesSound(ts[1..], rest);
    }
  }

  /** What the pass has to do from here on. */
  datatype Work = Work(asked: seq<Event>, changed: bool, items: seq<Item>)

  ghost predicate Holds(env: Env, goal: Output, merges: bool, w: Work)
    requires |env.names| == |env.bodies|
  {
    SoundItems(w.items) && After(w.asked, MergeItems(env, w.items)) == goal && (merges <==> w.changed || ItemsMerge(w.items))
  }

  lemma HoldsSound(env: Env, goal: Output, merges: bool, w: Work)
    requires |env.names| == |env.bodies| && Holds(env, goal, merges, w)
    ensures SoundItems(w.items)
    ensures w.items != [] && w.items[0].Node? && w.items[0].t.Coll? ==>
              var t := w.items[0].t; Shaped(t) && AllSound(t.kids) && (IsMapping(t) ==> |t.kids| % 2 == 0)
  {}

  /** A closing event or a leaf is copied. */
  lemma HoldsOne(env: Env, goal: Output, merges: bool, w: Work)
    requires |env.names| == |env.bodies| && Holds(env, goal, merges, w)
    requires w.items != [] && (w.items[0].Node? ==> w.items[0].t.Leaf?)
    ensures var e := if w.items[0].Node? then w.items[0].t.e else w.items[0].e;
            Rest(w.items) == [e] + Rest(w.items[1..]) && Holds(env, goal, merges, Work(w.asked + [e], w.changed, w.items[1..]))
  {
    var e := if w.items[0].Node? then w.items[0].t.e else w.items[0].e;
    if w.items[0].Node? { assert FlatAll([w.items[0].t]) == [e]; }
    AfterAfter(w.asked, [e], MergeItems(env, w.items[1..]));
  }

  /** A collection that is not rebuilt is entered. */
  lemma HoldsEnter(env: Env, goal: Output, merges: bool, w: Work)
    requires |env.names| == |env.bodies| && Holds(env, goal, merges, w)
    requires w.items != [] && w.items[0].Node? && w.items[0].t.Coll? && !Rebuilds(w.items[0].t)
    ensures var t := w.items[0].t;
            var items := Nodes(t.kids) + [Close(t.close)] + w.items[1..];
            Rest(w.items) == [t.open] + Rest(items) && Holds(env, goal, merges, Work(w.asked + [t.open], w.changed, items))
  {
    var t, rest := w.items[0].t, w.items[1..];
    var inner := [Close(t.close)] + rest;
    assert w.items == [Node(t)] + rest && inner[1..] == rest;
    assert Nodes(t.kids) + [Close(t.close)] + rest == Nodes(t.kids) + inner;
    EnterColl(env, t, rest);
    EnterRest(t, rest);
    NodesSound(t.kids, inner);
    AfterAfter(w.asked, [t.open], MergeItems(env, Nodes(t.kids) + inner));
  }

  /** A mapping with merge keys is rebuilt, or ends the pass. */
  lemma HoldsRebuild(env: Env, goal: Output, merges: bool, w: Work)
    requires |env.names| == |env.bodies| && Holds(env, goal, merges, w)
    requires w.items != [] && w.items[0].Node? && Rebuilds(w.items[0].t)
    ensures var t := w.items[0].t;
            var ps := MergedPairs(env, PairsOf(t.kids));
            Rest(w.items) == Flat(t) + Rest(w.items[1..]) && merges &&
            if ps.None? then goal == Failed(w.asked)
            else Holds(env, goal, merges, Work(w.asked + Flat(Coll(t.open, KidsOf(ps.value), t.close)), true, w.items[1..]))
  {
    var t := w.items[0].t;
    var m := MergedPairs(env, PairsOf(t.kids));
    if m.Some? {
      var u := Coll(t.open, KidsOf(m.value), t.close);
      assert FlatAll([u]) == Flat(u);
      AfterAfter(w.asked, Flat(u), MergeItems(env, w.items[1..]));
    }
  }

  /** The first item lies at `i`. */
  lemma ItemHere(evs: seq<Event>, i: nat, items: seq<Item>)
    requires i < |evs| && evs[i..] == Rest(items) && SoundItems(items)
    ensures items != [] && evs[i] == if items[0].Node? then First(items[0].t) else items[0].e
    ensures items[0].Node? ==>
              var t := items[0].t;
              i + |Flat(t)| <= |evs| && evs[i..i + |Flat(t)|] == Flat(t) && evs[i + |Flat(t)|..] == Rest(items[1..]) &&
              NodeEnd(evs, i) == i + |Flat(t)|
    ensures items[0].Close? || items[0].t.Leaf? || !IsMapping(items[0].t) ==> evs[i].typ != MappingStart
  {
    var item, rest := items[0], Rest(items[1..]);
    match item
    case Close(e) => SplitAt(evs, i, [e], rest);
    case Node(t) =>
      SplitAt(evs, i, Flat(t), rest);
      NodeEndExact(evs[..i], t, evs[i + |Flat(t)|..]);
  }

  lemma SplitAt<T>(s: seq<T>, i: nat, f: seq<T>, rest: seq<T>)
    requires i <= |s| && s[i..] == f + rest && f != []
    ensures i + |f| <= |s| && s[i] == f[0] && s[i..i + |f|] == f && s[i + |f|..] == rest
    ensures s == s[..i] + f + s[i + |f|..]
  {
    var tail := s[i..];
    assert s[i] == tail[0];
    assert s[i..i + |f|] == tail[..|f|] == f;
    assert s[i + |f|..] == tail[|f|..] == rest;
  }

  datatype PassResult = Done(out: seq<Event>, changed: bool) | TooLong | BadMerge

  function ResultOf(limit: nat, goal: Output, merges: bool): PassResult {
    if Over(limit, goal.Size()) then TooLong else if goal.Failed? then BadMerge else Done(goal.evs, merges)
  }

  /** One pass over the array. */
  method MergePass(evs: seq<Event>, limit: nat, hash: string -> nat, ghost ts: seq<Tree>) returns (r: PassResult)
    requires evs == FlatAll(ts) && AllSound(ts)
    ensures r == ResultOf(limit, OutputOf(MergeAll(EnvOf(ts), ts)), AnyHasMerge(ts))
  {
    ghost var env, goal, merges := EnvOf(ts), OutputOf(MergeAll(EnvOf(ts), ts)), AnyHasMerge(ts);
    var t := new Anchors(evs, hash);
    TableHere(evs, t, ts);
    var b := new Buffer(limit);
    var changed := false;
    var i := 0;
    ghost var items := Nodes(ts);
    Begin(env, ts);
    while i < |evs| && !b.stopped
      invariant fresh(b) && b.Valid() && b.limit == limit && TableFor(evs, t, env)
      invariant i <= |evs| && evs[i..] == Rest(items) && Holds(env, goal, merges, Work(b.asked, changed, items))
      decreases |evs| - i
    {
      ItemHere(evs, i, items);
      var ok;
      ok, changed, i, items := MergeStep(evs, i, t, b, changed, env, goal, merges, items);
      if !ok { return BadMerge; }
    }
    End(env, goal, merges, Work(b.asked, changed, items), limit);
    r := if b.stopped then TooLong else Done(b.data, changed);
  }

  lemma TableHere(evs: seq<Event>, t: Anchors, ts: seq<Tree>)
    requires evs == FlatAll(ts) && AllSound(ts) && t.Valid() && t.entries == Entries(evs, |evs|)
    ensures TableFor(evs, t, EnvOf(ts))
  {
    EnvSound(ts);
    AliasExpansion.TableOf(ts);
    var ds, es := DefsAll(ts), t.entries;
    forall k | 0 <= k < |es| ensures BodyAt(evs, es[k], EnvOf(ts).bodies[k]) && Names(es)[k] == EnvOf(ts).names[k] {
      assert AliasExpansion.Spans(evs, es[k], ds[k]);
    }
  }

  lemma Begin(env: Env, ts: seq<Tree>)
    requires |env.names| == |env.bodies| && AllSound(ts)
    ensures Rest(Nodes(ts)) == FlatAll(ts)
    ensures Holds(env, OutputOf(MergeAll(env, ts)), AnyHasMerge(ts), Work([], false, Nodes(ts)))
  {
    assert Nodes(ts) + [] == Nodes(ts);
    RestNodes(ts, []);
    NodesSound(ts, []);
    MergeNodes(env, ts, []);
    var r := MergeAll(env, ts);
    if r.Ok? { assert FlatAll(r.trees) + [] == FlatAll(r.trees) && [] + FlatAll(r.trees) == FlatAll(r.trees); }
    else { assert [] + r.before == r.before; }
  }

  /** The pass ends with everything read, or with more written than allowed. */
  lemma End(env: Env, goal: Output, merges: bool, w: Work, limit: nat)
    requires |env.names| == |env.bodies| && Holds(env, goal, merges, w) && (w.items == [] || Over(limit, |w.asked|))
    ensures ResultOf(limit, goal, merges) == if Over(limit, |w.asked|) then TooLong else Done(w.asked, w.changed)
  {
    if w.items == [] { assert w.asked + [] == w.asked; }
  }

  /** The event at `i`: copied, or the start of a mapping that is rebuilt. */
  method MergeStep(evs: seq<Event>, i: nat, t: Anchors, b: Buffer, changed: bool,
                   ghost env: Env, ghost goal: Output, ghost merges: bool, ghost items: seq<Item>)
    returns (ok: bool, changed': bool, j: nat, ghost items': seq<Item>)
    requires i < |evs| && evs[i..] == Rest(items) && TableFor(evs, t, env) && b.Valid() && !b.stopped
    requires Holds(env, goal, merges, Work(b.asked, changed, items))
    modifies b
    ensures b.Valid() && TableFor(evs, t, env)
    ensures !ok ==> ResultOf(b.limit, goal, merges) == BadMerge
    ensures ok ==> i < j <= |evs| && evs[j..] == Rest(items') && Holds(env, goal, merges, Work(b.asked, changed', items'))
  {
    hide Holds, SoundItems, MergeItems, ItemsMerge, Flat, FlatAll, Rest, Nodes, KidsOf, PairsOf, MergedPairs, AnyMerges, TableFor, MapAt,
      Shaped, Tidy, Even, SoundPairs;
    ghost var w := Work(b.asked, changed, items);
    TableNames(evs, t, env);
    HoldsSound(env, goal, merges, w);
    ItemHere(evs, i, items);
    ok, changed', j := true, changed, i + 1;
    assert evs[i + 1..] == evs[i..][1..];
    if evs[i].typ != MappingStart {
      b.Push(evs[i]);
      if items[0].Node? && items[0].t.Coll? {
        HoldsEnter(env, goal, merges, w);
        items' := Nodes(items[0].t.kids) + [Close(items[0].t.close)] + items[1..];
      } else {
        HoldsOne(env, goal, merges, w);
        items' := items[1..];
      }
      return;
    }
    ghost var m := items[0].t;
    var end := FindNodeEnd(evs, i);
    MapHere(evs, i, m);
    var has := HasMergeKey(evs, i, end, m);
    if !has {
      b.Push(evs[i]);
      HoldsEnter(env, goal, merges, w);
      items' := Nodes(m.kids) + [Close(m.close)] + items[1..];
      return;
    }
    changed' := true;
    HoldsRebuild(env, goal, merges, w);
    PairsSound(m.kids);
    ok := Rebuild(evs, i, end, t, b, env, m);
    j, items' := end, items[1..];
  }

  // ----- all passes -----

  const PASSES := 32

  datatype Merged = Events(trees: seq<Tree>) | Stopped | Bad

  /** At most `n` passes, while they find something to merge. */
  function MergeRuns(ts: seq<Tree>, n: nat, limit: nat): Merged
    decreases n
  {
    if n == 0 then Events(ts)
    else
      var r := MergeAll(EnvOf(ts), ts);
      if Over(limit, OutputOf(r).Size()) then Stopped
      else if r.Err? then Bad
      else if !AnyHasMerge(ts) then Events(ts)
      else MergeRuns(r.trees, n - 1, limit)
  }

  /** resolve_merges. The passes end early only when no plain `<<` key is left. */
  method ResolveMerges(events: seq<Event>, limit: nat, hash: string -> nat, ghost ts: seq<Tree>) returns (r: PassResult)
    requires events == FlatAll(ts) && AllSound(ts)
    ensures var m := MergeRuns(ts, PASSES, limit);
            && (m.Stopped? <==> r == TooLong) && (m.Bad? <==> r == BadMerge)
            && (m.Events? ==> r.Done? && r.out == FlatAll(m.trees) && AllSound(m.trees) && (!r.changed ==> !AnyHasMerge(m.trees)))
  {
    var evs := events;
    ghost var cur := ts;
    for pass := 0 to PASSES
      invariant evs == FlatAll(cur) && AllSound(cur)
      invariant MergeRuns(cur, PASSES - pass, limit) == MergeRuns(ts, PASSES, limit)
    {
      r := MergePass(evs, limit, hash, cur);
      if !r.Done? || !r.changed {
        NothingToMergeAllIf(EnvOf(cur), cur);
        return;
      }
      EnvSound(cur);
      MergeAllSound(EnvOf(cur), cur);
      evs := r.out;
      cur := MergeAll(EnvOf(cur), cur).trees;
    }
    r := Done(evs, true);
  }

  lemma NothingToMergeAllIf(env: Env, ts: seq<Tree>)
    requires |env.names| == |env.bodies|
    ensures !AnyHasMerge(ts) ==> MergeAll(env, ts) == Ok(ts)
  {
    if !AnyHasMerge(ts) { NothingToMergeAll(env, ts); }
  }
}
