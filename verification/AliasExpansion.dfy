/**
 * Alias resolution on the flat event array: cycle detection, then whole-array
 * passes that copy anchored ranges over the aliases, at most 32 of them. It
 * gives the full expansion of the trees the array holds, or reports the limit
 * exactly when that expansion is longer.
 */
module AliasExpansion {
  import opened Events
  import opened NodeTrees
  import opened AnchorTable
  import opened AliasTrees
  import opened EventBuffer
  import CycleDetection

  const PASSES := 32
  const INT_MAX := 0x7fff_ffff

  // ----- the table of the flat array holds the anchors of the trees -----

  /** Each entry spans the flattened body of its anchor. */
  ghost predicate Matches(evs: seq<Event>, es: seq<Entry>, ds: seq<Def>) {
    |es| == |ds| && forall i | 0 <= i < |es| :: Spans(evs, es[i], ds[i])
  }

  lemma MatchesConcat(evs: seq<Event>, a: seq<Entry>, b: seq<Entry>, c: seq<Def>, d: seq<Def>)
    requires Matches(evs, a, c) && Matches(evs, b, d)
    ensures Matches(evs, a + b, c + d)
  {
    forall i | 0 <= i < |a + b| ensures Spans(evs, (a + b)[i], (c + d)[i]) {
      if i >= |a| { assert Spans(evs, b[i - |a|], d[i - |a|]); }
    }
  }

  predicate Spans(evs: seq<Event>, a: Entry, d: Def) {
    a.name == d.name && a.start <= a.end <= |evs| && evs[a.start..a.end] == Flat(d.body)
  }

  lemma {:induction false} EntriesOf(pre: seq<Event>, t: Tree, post: seq<Event>) returns (es: seq<Entry>)
    requires Shaped(t) && Tidy(t)
    ensures var evs := pre + Flat(t) + post;
            Entries(evs, |pre| + |Flat(t)|) == Entries(evs, |pre|) + es && Matches(evs, es, Defs(t))
    decreases t, 0
  {
    var evs := pre + Flat(t) + post;
    NodeEndExact(pre, t, post);
    assert evs[|pre|] == First(t) by { FlatFirst(t); }
    assert evs[|pre|..|pre| + |Flat(t)|] == Flat(t);
    var own := if Anchored(First(t)) then [Entry(First(t).anchor.value, |pre|, |pre| + |Flat(t)|)] else [];
    assert Entries(evs, |pre| + 1) == Entries(evs, |pre|) + own;
    if t.Leaf? {
      es := own;
    } else {
      var inner := EntriesOfAll(pre + [t.open], t.kids, [t.close] + post);
      es := own + inner;
      EntriesClosed(pre, t, post, own, inner);
      MatchesConcat(evs, own, inner, if own == [] then [] else [Def(t.open.anchor.value, t)], DefsAll(t.kids));
    }
  }

  lemma EntriesClosed(pre: seq<Event>, t: Tree, post: seq<Event>, own: seq<Entry>, inner: seq<Entry>)
    requires Tidy(t) && t.Coll?
    requires var evs := pre + Flat(t) + post; Entries(evs, |pre| + 1) == Entries(evs, |pre|) + own
    requires var evs := pre + [t.open] + FlatAll(t.kids) + ([t.close] + post);
             Entries(evs, |pre| + 1 + |FlatAll(t.kids)|) == Entries(evs, |pre| + 1) + inner
    ensures pre + Flat(t) + post == pre + [t.open] + FlatAll(t.kids) + ([t.close] + post)
    ensures var evs := pre + Flat(t) + post; Entries(evs, |pre| + |Flat(t)|) == Entries(evs, |pre|) + (own + inner)
  {
    var evs := pre + Flat(t) + post;
    assert evs == pre + [t.open] + FlatAll(t.kids) + ([t.close] + post);
    var k := |pre| + 1 + |FlatAll(t.kids)|;
    assert evs[k] == t.close && k + 1 == |pre| + |Flat(t)|;
    Associative(Entries(evs, |pre|), own, inner);
    assert Entries(evs, k + 1) == Entries(evs, k);
  }

  lemma {:induction false} EntriesOfAll(pre: seq<Event>, ts: seq<Tree>, post: seq<Event>) returns (es: seq<Entry>)
    requires AllShaped(ts) && AllTidy(ts)
    ensures var evs := pre + FlatAll(ts) + post;
            Entries(evs, |pre| + |FlatAll(ts)|) == Entries(evs, |pre|) + es && Matches(evs, es, DefsAll(ts))
    decreases ts, 1
  {
    es := [];
    if ts != [] {
      var rest := FlatAll(ts[1..]);
      var a := EntriesOf(pre, ts[0], rest + post);
      var b := EntriesOfAll(pre + Flat(ts[0]), ts[1..], post);
      ghost var evs := pre + FlatAll(ts) + post;
      assert evs == pre + Flat(ts[0]) + (rest + post);
      assert evs == pre + Flat(ts[0]) + rest + post;
      MatchesConcat(evs, a, b, Defs(ts[0]), DefsAll(ts[1..]));
      es := a + b;
    }
  }

  lemma TableOf(ts: seq<Tree>)
    requires AllShaped(ts) && AllTidy(ts)
    ensures Matches(FlatAll(ts), Entries(FlatAll(ts), |FlatAll(ts)|), DefsAll(ts))
  {
    var es := EntriesOfAll([], ts, []);
    assert [] + FlatAll(ts) + [] == FlatAll(ts);
  }

  // ----- one pass over the array is one substitution in the trees -----

  function Bare(evs: seq<Event>): seq<Event> {
    seq(|evs|, i requires 0 <= i < |evs| => NoAnchor(evs[i]))
  }

  /** What a pass writes for an event. */
  function Image(evs: seq<Event>, es: seq<Entry>, keys: Keys, e: Event): seq<Event>
    requires |keys.names| == |keys.flags| == |es| && Inside(evs, es)
  {
    var k := Target(keys, e);
    if k.Some? then Bare(evs[es[k.value].start..es[k.value].end]) else [e]
  }

  function Images(evs: seq<Event>, es: seq<Entry>, keys: Keys, from: seq<Event>): seq<Event>
    requires |keys.names| == |keys.flags| == |es| && Inside(evs, es)
  {
    if from == [] then []
    else Images(evs, es, keys, from[..|from| - 1]) + Image(evs, es, keys, from[|from| - 1])
  }

  lemma Associative<T>(a: seq<T>, b: seq<T>, c: seq<T>)
    ensures (a + b) + c == a + (b + c)
  {}

  lemma {:induction false} ImagesConcat(evs: seq<Event>, es: seq<Entry>, keys: Keys, a: seq<Event>, b: seq<Event>)
    requires |keys.names| == |keys.flags| == |es| && Inside(evs, es)
    ensures Images(evs, es, keys, a + b) == Images(evs, es, keys, a) + Images(evs, es, keys, b)
    decreases |b|
  {
    if b == [] {
      assert a + b == a;
    } else {
      var front, last := b[..|b| - 1], b[|b| - 1];
      ImagesConcat(evs, es, keys, a, front);
      assert (a + b)[..|a + b| - 1] == a + front && (a + b)[|a + b| - 1] == last;
      Associative(Images(evs, es, keys, a), Images(evs, es, keys, front), Image(evs, es, keys, last));
    }
  }

  lemma {:induction false} BareFlat(t: Tree)
    ensures Bare(Flat(t)) == Flat(Strip(t))
    decreases t, 0
  {
    if t.Coll? { BareFlatAll(t.kids); }
  }

  lemma {:induction false} BareFlatAll(ts: seq<Tree>)
    ensures Bare(FlatAll(ts)) == FlatAll(StripAll(ts))
    decreases ts, 1
  {
    if ts != [] {
      BareFlat(ts[0]);
      BareFlatAll(ts[1..]);
      assert StripAll(ts)[1..] == StripAll(ts[1..]);
    }
  }

  lemma {:induction false} PassSubstitutes(evs: seq<Event>, es: seq<Entry>, keys: Keys, ds: seq<Def>, t: Tree)
    requires |keys.names| == |keys.flags| == |es| && Inside(evs, es) && Matches(evs, es, ds)
    requires Shaped(t)
    ensures Images(evs, es, keys, Flat(t)) == Flat(Sub(keys, Bodies(ds), t))
    decreases t, 0
  {
    match t
    case Leaf(e) =>
      ImagesConcat(evs, es, keys, [], [e]);
      var k := Target(keys, e);
      if k.Some? {
        assert Spans(evs, es[k.value], ds[k.value]);
        BareFlat(ds[k.value].body);
      }
      assert Images(evs, es, keys, [e]) == Image(evs, es, keys, e);
    case Coll(open, kids, close) =>
      PassSubstitutesAll(evs, es, keys, ds, kids);
      ImagesConcat(evs, es, keys, [open] + FlatAll(kids), [close]);
      ImagesConcat(evs, es, keys, [open], FlatAll(kids));
      assert Images(evs, es, keys, [open]) == [open] && Images(evs, es, keys, [close]) == [close];
  }

  lemma {:induction false} PassSubstitutesAll(evs: seq<Event>, es: seq<Entry>, keys: Keys, ds: seq<Def>, ts: seq<Tree>)
    requires |keys.names| == |keys.flags| == |es| && Inside(evs, es) && Matches(evs, es, ds)
    requires AllShaped(ts)
    ensures Images(evs, es, keys, FlatAll(ts)) == FlatAll(SubAll(keys, Bodies(ds), ts))
    decreases ts, 1
  {
    if ts != [] {
      PassSubstitutes(evs, es, keys, ds, ts[0]);
      PassSubstitutesAll(evs, es, keys, ds, ts[1..]);
      ImagesConcat(evs, es, keys, Flat(ts[0]), FlatAll(ts[1..]));
      assert SubAll(keys, Bodies(ds), ts)[1..] == SubAll(keys, Bodies(ds), ts[1..]);
    }
  }

  // ----- the code -----

  /** The names an array's anchors go by, with the flags found at the start. */
  function KeysOf(evs: seq<Event>, flags: seq<bool>): Keys {
    Keys(Names(Entries(evs, |evs|)), flags)
  }

  function PassImage(evs: seq<Event>, flags: seq<bool>, from: seq<Event>): seq<Event>
    requires |flags| == |Entries(evs, |evs|)|
  {
    EntriesInside(evs, |evs|);
    Images(evs, Entries(evs, |evs|), KeysOf(evs, flags), from)
  }

  lemma PassImageNext(evs: seq<Event>, flags: seq<bool>, i: nat)
    requires |flags| == |Entries(evs, |evs|)| && i < |evs|
    ensures Inside(evs, Entries(evs, |evs|))
    ensures PassImage(evs, flags, evs[..i + 1]) ==
            PassImage(evs, flags, evs[..i]) + Image(evs, Entries(evs, |evs|), KeysOf(evs, flags), evs[i])
  {
    EntriesInside(evs, |evs|);
    assert evs[..i + 1][..i] == evs[..i];
  }

  lemma PassImageGrows(evs: seq<Event>, flags: seq<bool>, i: nat)
    requires |flags| == |Entries(evs, |evs|)| && i <= |evs|
    ensures |PassImage(evs, flags, evs[..i])| <= |PassImage(evs, flags, evs)|
    ensures i == |evs| ==> PassImage(evs, flags, evs[..i]) == PassImage(evs, flags, evs)
  {
    EntriesInside(evs, |evs|);
    ImagesConcat(evs, Entries(evs, |evs|), KeysOf(evs, flags), evs[..i], evs[i..]);
    assert evs[..i] + evs[i..] == evs;
    assert i == |evs| ==> evs[..i] == evs;
  }

  /** Nothing to replace among the first `n` events. */
  ghost predicate NothingTo(keys: Keys, evs: seq<Event>, n: nat)
    requires |keys.names| == |keys.flags| && n <= |evs|
  {
    forall i | 0 <= i < n :: Target(keys, evs[i]).None?
  }

  lemma NothingNext(keys: Keys, evs: seq<Event>, i: nat)
    requires |keys.names| == |keys.flags| && i < |evs| && NothingTo(keys, evs, i) && Target(keys, evs[i]).None?
    ensures NothingTo(keys, evs, i + 1)
  {}

  /** One pass: copies over the aliases that are replaced, everything else as it is. */
  method Pass(evs: seq<Event>, flags: seq<bool>, limit: nat, hash: string -> nat) returns (out: seq<Event>, stopped: bool, changed: bool)
    requires |flags| == |Entries(evs, |evs|)|
    ensures stopped <==> Over(limit, |PassImage(evs, flags, evs)|)
    ensures !stopped ==> out == PassImage(evs, flags, evs)
    ensures !stopped && !changed ==> NothingTo(KeysOf(evs, flags), evs, |evs|)
  {
    var t := new Anchors(evs, hash);
    var b := new Buffer(limit);
    changed := false;
    var i := 0;
    while i < |evs| && !b.stopped
      invariant i <= |evs| && t.Valid() && fresh(b) && b.Valid() && b.limit == limit
      invariant b.asked == PassImage(evs, flags, evs[..i])
      invariant !changed ==> NothingTo(KeysOf(evs, flags), evs, i)
    {
      PassImageNext(evs, flags, i);
      var replaced := Emit(evs, flags, t, evs[i], b);
      changed := changed || replaced;
      if !changed { NothingNext(KeysOf(evs, flags), evs, i); }
      i := i + 1;
    }
    PassImageGrows(evs, flags, i);
    out, stopped := b.data, b.stopped;
  }

  method Emit(evs: seq<Event>, flags: seq<bool>, t: Anchors, e: Event, b: Buffer) returns (replaced: bool)
    requires t.Valid() && t.entries == Entries(evs, |evs|) && |flags| == |t.entries| && Inside(evs, t.entries) && b.Valid()
    modifies b
    ensures b.Valid() && b.asked == old(b.asked) + Image(evs, t.entries, KeysOf(evs, flags), e)
    ensures replaced <==> Target(KeysOf(evs, flags), e).Some?
  {
    var r := None;
    if e.typ == AliasEvent { r := t.Lookup(e.value); }
    replaced := r.Some? && !flags[r.value];
    if replaced {
      CopyBare(evs, t.entries[r.value].start, t.entries[r.value].end, b);
    } else {
      b.Push(e);
    }
  }

  method CopyBare(evs: seq<Event>, start: nat, end: nat, b: Buffer)
    requires start <= end <= |evs| && b.Valid()
    modifies b
    ensures b.Valid() && b.asked == old(b.asked) + Bare(evs[start..end])
  {
    for j := start to end
      invariant b.Valid() && b.asked == old(b.asked) + Bare(evs[start..j])
    {
      b.Push(NoAnchor(evs[j]));
      assert Bare(evs[start..j + 1]) == Bare(evs[start..j]) + [NoAnchor(evs[j])];
    }
  }

  // ----- all passes -----

  /** What aliases of the trees are looked up in. */
  function KeysFor(ts: seq<Tree>, flags: seq<bool>): Keys {
    var ds := DefsAll(ts);
    Keys(seq(|ds|, i requires 0 <= i < |ds| => ds[i].name), flags)
  }

  /** The trees `n` references deep. */
  function At(ts: seq<Tree>, flags: seq<bool>, n: nat): seq<Tree>
    requires |flags| == |DefsAll(ts)|
  {
    UnfoldAll(KeysFor(ts, flags), Bodies(DefsAll(ts)), n, ts)
  }

  /** Expanded trees hold the same anchors, with expanded bodies. */
  lemma AnchorsKept(ts: seq<Tree>, flags: seq<bool>, j: nat)
    requires AllShaped(ts) && AllTidy(ts) && |flags| == |DefsAll(ts)|
    ensures var cur := At(ts, flags, j);
            AllShaped(cur) && AllTidy(cur) && KeysFor(cur, flags) == KeysFor(ts, flags) &&
            Bodies(DefsAll(cur)) == Deepened(KeysFor(ts, flags), Bodies(DefsAll(ts)), j)
  {
    var keys, bodies := KeysFor(ts, flags), Bodies(DefsAll(ts));
    AllDefsNeat(ts);
    UnfoldShapedAll(keys, bodies, j, ts);
    DefsOfUnfoldAll(keys, bodies, j, ts);
  }

  /** The table of the flat array has the names of the trees' anchors. */
  lemma TableKeys(ts: seq<Tree>, flags: seq<bool>)
    requires AllShaped(ts) && AllTidy(ts) && |flags| == |DefsAll(ts)|
    ensures var evs := FlatAll(ts);
            Matches(evs, Entries(evs, |evs|), DefsAll(ts)) && KeysOf(evs, flags) == KeysFor(ts, flags)
  {
    TableOf(ts);
    var evs := FlatAll(ts);
    var es, ds := Entries(evs, |evs|), DefsAll(ts);
    forall i | 0 <= i < |es| ensures Names(es)[i] == ds[i].name {
      assert Spans(evs, es[i], ds[i]);
    }
    assert Names(es) == KeysFor(ts, flags).names;
  }

  /** In an array expanded `j` deep, the anchors are the same and one pass expands it 2j + 1 deep. */
  lemma PassDoubles(ts: seq<Tree>, flags: seq<bool>, j: nat)
    requires AllShaped(ts) && AllTidy(ts) && |flags| == |DefsAll(ts)|
    ensures var evs := FlatAll(At(ts, flags, j));
            |Entries(evs, |evs|)| == |flags| && KeysOf(evs, flags) == KeysFor(ts, flags) &&
            PassImage(evs, flags, evs) == FlatAll(At(ts, flags, 2 * j + 1))
  {
    hide FlatAll, DefsAll, AllShaped, AllTidy;
    var cur := At(ts, flags, j);
    var evs := FlatAll(cur);
    AnchorsKept(ts, flags, j);
    TableKeys(cur, flags);
    EntriesInside(evs, |evs|);
    PassSubstitutesAll(evs, Entries(evs, |evs|), KeysFor(ts, flags), DefsAll(cur), cur);
    PassDeepensAll(KeysFor(ts, flags), Bodies(DefsAll(ts)), j, j, ts);
  }

  lemma {:induction false} NothingSettled(keys: Keys, ts: seq<Tree>)
    requires |keys.names| == |keys.flags| && forall e | e in FlatAll(ts) :: Target(keys, e).None?
    ensures AllSettled(keys, ts)
    decreases ts
  {
    if ts != [] {
      var f, r := Flat(ts[0]), FlatAll(ts[1..]);
      assert forall e | e in f :: e in FlatAll(ts);
      assert forall e | e in r :: e in FlatAll(ts);
      if ts[0].Coll? {
        assert forall e | e in FlatAll(ts[0].kids) :: e in f;
        NothingSettled(keys, ts[0].kids);
      } else {
        assert ts[0].e in f;
      }
      NothingSettled(keys, ts[1..]);
    }
  }

  // ----- expansion as deep as there are anchors is complete -----

  ghost function GraphOf(ts: seq<Tree>): (g: CycleDetection.Graph)
    ensures CycleDetection.Sound(g)
  {
    EntriesInside(FlatAll(ts), |FlatAll(ts)|);
    CycleDetection.Graph(FlatAll(ts), Entries(FlatAll(ts), |FlatAll(ts)|))
  }

  /** Which anchors reach a reference cycle: their aliases are kept. */
  ghost function Flags(ts: seq<Tree>): seq<bool> {
    CycleDetection.Cyclic(GraphOf(ts))
  }

  ghost function AnchorKeys(ts: seq<Tree>): Keys { KeysFor(ts, Flags(ts)) }

  function AnchorBodies(ts: seq<Tree>): seq<Tree> { Bodies(DefsAll(ts)) }

  lemma RefersEdge(ts: seq<Tree>, i: nat, k: nat)
    requires AllShaped(ts) && AllTidy(ts) && i < |DefsAll(ts)| == |Flags(ts)|
    requires AnyRefers(AnchorKeys(ts), [AnchorBodies(ts)[i]], k)
    ensures CycleDetection.Edge(GraphOf(ts), i, k)
  {
    TableKeys(ts, Flags(ts));
    var body := AnchorBodies(ts)[i];
    var e := RefersIn(AnchorKeys(ts), [body], k);
    assert FlatAll([body]) == Flat(body);
    ReferenceAt(ts, i, e);
  }

  lemma ReferenceAt(ts: seq<Tree>, i: nat, e: Event)
    requires AllShaped(ts) && AllTidy(ts) && i < |DefsAll(ts)| == |Flags(ts)|
    requires e in Flat(AnchorBodies(ts)[i]) && Target(AnchorKeys(ts), e).Some?
    ensures CycleDetection.Edge(GraphOf(ts), i, Target(AnchorKeys(ts), e).value)
  {
    TableKeys(ts, Flags(ts));
    var g := GraphOf(ts);
    assert Spans(g.evs, g.entries[i], DefsAll(ts)[i]);
    var j := PositionIn(g.evs, g.entries[i].start, g.entries[i].end, e);
    assert CycleDetection.Ref(g, j) == Target(AnchorKeys(ts), e);
    CycleDetection.EdgeAt(g, i, j);
  }

  lemma PositionIn(evs: seq<Event>, start: nat, end: nat, e: Event) returns (j: nat)
    requires start <= end <= |evs| && e in evs[start..end]
    ensures start <= j < end && evs[j] == e
  {
    var x :| 0 <= x < end - start && evs[start..end][x] == e;
    j := start + x;
  }

  /** References from an anchor's body are a walk in the graph. */
  lemma {:induction false} PathWalk(ts: seq<Tree>, n: nat, i: nat, k: nat) returns (p: seq<nat>)
    requires AllShaped(ts) && AllTidy(ts) && i < |DefsAll(ts)| == |Flags(ts)|
    requires Path(AnchorKeys(ts), AnchorBodies(ts), n, [AnchorBodies(ts)[i]], k)
    ensures CycleDetection.Walk(GraphOf(ts), p) && p[0] == i && |p| == n + 2
    decreases n
  {
    if n == 0 {
      RefersEdge(ts, i, k);
      p := [i, k];
    } else {
      var bodies := AnchorBodies(ts);
      var j := FirstStep(AnchorKeys(ts), bodies, n, [bodies[i]], k);
      RefersEdge(ts, i, j);
      p := PathWalk(ts, n - 1, j, k);
      p := [i] + p;
    }
  }

  /** From an anchor that reaches no cycle, references end. */
  lemma PathsEnd(ts: seq<Tree>, n: nat, i: nat, k: nat)
    requires AllShaped(ts) && AllTidy(ts) && i < |DefsAll(ts)| == |Flags(ts)|
    requires !Flags(ts)[i] && n + 1 >= |DefsAll(ts)|
    ensures !Path(AnchorKeys(ts), AnchorBodies(ts), n, [AnchorBodies(ts)[i]], k)
  {
    if Path(AnchorKeys(ts), AnchorBodies(ts), n, [AnchorBodies(ts)[i]], k) {
      TableOf(ts);
      var p := PathWalk(ts, n, i, k);
      CycleDetection.LongWalkRepeats(GraphOf(ts), p);
      CycleDetection.CycleBy(GraphOf(ts), p, i);
    }
  }

  lemma FlagsAligned(ts: seq<Tree>)
    requires AllShaped(ts) && AllTidy(ts)
    ensures |Flags(ts)| == |DefsAll(ts)|
  {
    TableOf(ts);
  }

  /** Trees `from` that alias these anchors have nothing left to replace that deep. */
  lemma DeepSettled(ts: seq<Tree>, n: nat, from: seq<Tree>)
    requires AllShaped(ts) && AllTidy(ts) && |Flags(ts)| == |DefsAll(ts)| <= n
    ensures AllSettled(AnchorKeys(ts), UnfoldAll(AnchorKeys(ts), AnchorBodies(ts), n, from))
  {
    var keys, bodies := AnchorKeys(ts), AnchorBodies(ts);
    var deep := UnfoldAll(keys, bodies, n, from);
    forall k: nat ensures !AnyRefers(keys, deep, k) {
      LeftAfterAll(keys, bodies, n, from, k);
      NoPath(ts, n, from, k);
    }
    NoneSettled(keys, deep);
  }

  lemma NoPath(ts: seq<Tree>, n: nat, from: seq<Tree>, k: nat)
    requires AllShaped(ts) && AllTidy(ts) && |Flags(ts)| == |DefsAll(ts)| <= n
    ensures !Path(AnchorKeys(ts), AnchorBodies(ts), n, from, k)
  {
    hide AllShaped, AllTidy, DefsAll, FlatAll, Flags, AnyRefers;
    var keys, bodies := AnchorKeys(ts), AnchorBodies(ts);
    if n == 0 {
      if AnyRefers(keys, from, k) { var e := RefersIn(keys, from, k); }
    } else if Path(keys, bodies, n, from, k) {
      var i := FirstStep(keys, bodies, n, from, k);
      var e := RefersIn(keys, from, i);
      PathsEnd(ts, n - 1, i, k);
    }
  }

  /** An anchor that reaches no cycle is expanded one reference sooner. */
  lemma BodySettled(ts: seq<Tree>, i: nat)
    requires AllShaped(ts) && AllTidy(ts) && i < |Flags(ts)| == |DefsAll(ts)| && !Flags(ts)[i]
    ensures AllSettled(AnchorKeys(ts), UnfoldAll(AnchorKeys(ts), AnchorBodies(ts), |DefsAll(ts)| - 1, [AnchorBodies(ts)[i]]))
  {
    var keys, bodies, n := AnchorKeys(ts), AnchorBodies(ts), |DefsAll(ts)| - 1;
    var deep := UnfoldAll(keys, bodies, n, [bodies[i]]);
    forall k: nat ensures !AnyRefers(keys, deep, k) {
      LeftAfterAll(keys, bodies, n, [bodies[i]], k);
      PathsEnd(ts, n, i, k);
    }
    NoneSettled(keys, deep);
  }

  /** Where nothing is left to replace, deeper expansion changes nothing. */
  lemma SettledDeeper(keys: Keys, bodies: seq<Tree>, n: nat, m: nat, from: seq<Tree>)
    requires Aligned(keys, bodies) && n <= m && AllSettled(keys, UnfoldAll(keys, bodies, n, from))
    ensures UnfoldAll(keys, bodies, m, from) == UnfoldAll(keys, bodies, n, from)
  {
    if n < m {
      PassDeepensAll(keys, bodies, m - n - 1, n, from);
      SettledStays(keys, Deepened(keys, bodies, m - n - 1), UnfoldAll(keys, bodies, n, from));
    }
  }

  /** Full expansion is substitution: an alias becomes the fully expanded,
      anchor-free body of its anchor; everything else stays where it is, and
      no alias that could be replaced is left. */
  lemma FullIsSubstitution(ts: seq<Tree>, t: Tree)
    requires AllShaped(ts) && AllTidy(ts)
    ensures |Flags(ts)| == |DefsAll(ts)|
    ensures var keys, bodies := AnchorKeys(ts), AnchorBodies(ts);
            var full := Full(keys, bodies, t);
            && (t.Leaf? && Target(keys, t.e).Some? ==> full == Strip(Full(keys, bodies, bodies[Target(keys, t.e).value])))
            && (t.Leaf? && Target(keys, t.e).None? ==> full == t)
            && (t.Coll? ==> full == Coll(t.open, UnfoldAll(keys, bodies, |bodies|, t.kids), t.close))
            && Settled(keys, full)
  {
    FlagsAligned(ts);
    var keys, bodies := AnchorKeys(ts), AnchorBodies(ts);
    var n := |bodies|;
    DeepSettled(ts, n, [t]);
    assert UnfoldAll(keys, bodies, n, [t])[0] == Full(keys, bodies, t);
    if t.Coll? {
      UnfoldNone(keys, bodies, t.kids);
    } else if Target(keys, t.e).Some? {
      var k := Target(keys, t.e).value;
      BodySettled(ts, k);
      SettledDeeper(keys, bodies, n - 1, n, [bodies[k]]);
      assert UnfoldAll(keys, bodies, n - 1, [bodies[k]])[0] == Unfold(keys, bodies, n - 1, bodies[k]);
      assert UnfoldAll(keys, bodies, n, [bodies[k]])[0] == Unfold(keys, bodies, n, bodies[k]);
    }
  }

  // ----- alias resolution -----

  /** How deep `n` passes expand: 2^n - 1 references. */
  function Depth(n: nat): nat {
    if n == 0 then 0 else 2 * Depth(n - 1) + 1
  }

  lemma DepthOfPasses()
    ensures Depth(PASSES) == 0xffff_ffff
  {
    assert Depth(10) == 0x3ff;
    assert Depth(20) == 0xf_ffff;
    assert Depth(30) == 0x3fff_ffff;
  }

  /** The trees `n` references deep. */
  ghost function Deep(ts: seq<Tree>, n: nat): seq<Tree>
    requires |Flags(ts)| == |DefsAll(ts)|
  {
    At(ts, Flags(ts), n)
  }

  /** The trees fully expanded. */
  ghost function Expanded(ts: seq<Tree>): seq<Tree>
    requires AllShaped(ts) && AllTidy(ts)
  {
    FlagsAligned(ts);
    Deep(ts, |DefsAll(ts)|)
  }

  /** Expansion that deep, or deeper, is complete. */
  lemma Complete(ts: seq<Tree>, n: nat)
    requires AllShaped(ts) && AllTidy(ts) && |Flags(ts)| == |DefsAll(ts)| <= n
    ensures Deep(ts, n) == Expanded(ts)
  {
    DeepSettled(ts, |DefsAll(ts)|, ts);
    SettledDeeper(AnchorKeys(ts), AnchorBodies(ts), |DefsAll(ts)|, n, ts);
  }

  /** A pass that changed nothing had nothing left to do. */
  lemma Unchanged(ts: seq<Tree>, j: nat)
    requires AllShaped(ts) && AllTidy(ts) && |Flags(ts)| == |DefsAll(ts)|
    requires NothingTo(AnchorKeys(ts), FlatAll(Deep(ts, j)), |FlatAll(Deep(ts, j))|)
    ensures Deep(ts, j) == Expanded(ts) == Deep(ts, 2 * j + 1)
  {
    var n := j + |DefsAll(ts)|;
    NothingSettled(AnchorKeys(ts), Deep(ts, j));
    SettledDeeper(AnchorKeys(ts), AnchorBodies(ts), j, n, ts);
    Complete(ts, n);
    SettledDeeper(AnchorKeys(ts), AnchorBodies(ts), j, 2 * j + 1, ts);
  }

  /** No pass is longer than the full expansion. */
  lemma NotLonger(ts: seq<Tree>, n: nat)
    requires AllShaped(ts) && AllTidy(ts) && |Flags(ts)| == |DefsAll(ts)|
    ensures |FlatAll(Deep(ts, n))| <= |FlatAll(Expanded(ts))|
  {
    var m := n + |DefsAll(ts)|;
    Complete(ts, m);
    DeeperIsLongerAll(AnchorKeys(ts), AnchorBodies(ts), n, m, ts);
  }

  lemma NotDeep(ts: seq<Tree>)
    requires |Flags(ts)| == |DefsAll(ts)|
    ensures Deep(ts, 0) == ts
  {
    UnfoldNone(AnchorKeys(ts), AnchorBodies(ts), ts);
  }

  /** One pass, from a `j`-fold expansion. */
  lemma DeepDoubles(ts: seq<Tree>, j: nat)
    requires AllShaped(ts) && AllTidy(ts) && |Flags(ts)| == |DefsAll(ts)|
    ensures var evs, flags := FlatAll(Deep(ts, j)), Flags(ts);
            |Entries(evs, |evs|)| == |flags| && KeysOf(evs, flags) == AnchorKeys(ts) &&
            PassImage(evs, flags, evs) == FlatAll(Deep(ts, 2 * j + 1))
  {
    PassDoubles(ts, Flags(ts), j);
  }

  /** The passes, while they change something: after `n` of them the array is
      expanded 2^n - 1 deep, so 32 are enough for an array of int length. */
  method Passes(events: seq<Event>, flags: seq<bool>, limit: nat, hash: string -> nat, ghost ts: seq<Tree>)
    returns (r: Option<seq<Event>>)
    requires AllShaped(ts) && AllTidy(ts) && flags == Flags(ts) && |flags| == |DefsAll(ts)|
    requires events == FlatAll(ts) && |DefsAll(ts)| <= INT_MAX
    ensures r == if Over(limit, |FlatAll(Expanded(ts))|) then None else Some(FlatAll(Expanded(ts)))
  {
    hide FlatAll, DefsAll, AllShaped, AllTidy, Flags, Expanded, Deep, PassImage, Entries, KeysOf, NothingTo;
    var evs := events;
    NotDeep(ts);
    var pass := 0;
    while pass < PASSES
      invariant pass <= PASSES
      invariant evs == FlatAll(Deep(ts, Depth(pass)))
      invariant pass > 0 ==> !Over(limit, |evs|)
    {
      ghost var j := Depth(pass);
      DeepDoubles(ts, j);
      var out, stopped, changed := Pass(evs, flags, limit, hash);
      if stopped {
        NotLonger(ts, 2 * j + 1);
        return None;
      }
      if !changed {
        Unchanged(ts, j);
        return Some(evs);
      }
      evs := out;
      pass := pass + 1;
    }
    DepthOfPasses();
    Complete(ts, Depth(PASSES));
    return Some(evs);
  }

  /** resolve_aliases: the expanded events, or None when the limit stops it. */
  method ResolveAliases(events: seq<Event>, limit: nat, hash: string -> nat, ghost ts: seq<Tree>) returns (r: Option<seq<Event>>)
    requires events == FlatAll(ts) && AllShaped(ts) && AllTidy(ts) && |events| <= INT_MAX
    ensures DefsAll(ts) == [] ==> r == Some(events)
    ensures DefsAll(ts) != [] ==>
              r == if Over(limit, |FlatAll(Expanded(ts))|) then None else Some(FlatAll(Expanded(ts)))
  {
    TableOf(ts);
    EntriesInside(events, |events|);
    var t := new Anchors(events, hash);
    if t.entries == [] { return Some(events); }
    var cyclic := CycleDetection.FlagCycles(t, events);
    r := Passes(events, cyclic[..], limit, hash, ts);
  }
}
