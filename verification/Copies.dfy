/**
 * What merging and alias expansion copy: every event that comes out is one of
 * the array's, or the same in all fields without its anchor; and an alias's
 * place in the result holds such a copy of what the anchored node's place
 * holds, event by event.
 */
module Copies {
  import opened Events
  import opened NodeTrees
  import opened AnchorTable
  import opened AliasTrees
  import opened MergeTrees
  import opened AliasExpansion
  import MergeExpansion

  // ----- copies, field by field -----

  /** The same but for the anchor. */
  predicate Alike(a: Event, e: Event) {
    && e.typ == a.typ && e.value == a.value && e.tag == a.tag && e.style == a.style
    && e.implicit == a.implicit && e.flow == a.flow && e.start == a.start && e.end == a.end
  }

  predicate BareCopy(a: Event, e: Event) { Alike(a, e) && e.anchor == None }

  predicate IsCopy(a: Event, e: Event) { e == a || BareCopy(a, e) }

  /** `b` is `a` event by event, without the anchors. */
  predicate Copied(a: seq<Event>, b: seq<Event>) {
    |b| == |a| && forall i | 0 <= i < |a| :: BareCopy(a[i], b[i])
  }

  lemma BareCopied(evs: seq<Event>)
    ensures Copied(evs, Bare(evs))
  {}

  lemma StripCopied(t: Tree)
    ensures Copied(Flat(t), Flat(Strip(t)))
  {
    BareFlat(t);
    BareCopied(Flat(t));
  }

  // ----- where expansion puts things -----

  /** What full expansion writes for an event. */
  ghost function Place(ts: seq<Tree>, e: Event): seq<Event>
    requires AllShaped(ts) && AllTidy(ts)
  {
    FlagsAligned(ts);
    Flat(Full(AnchorKeys(ts), AnchorBodies(ts), Leaf(e)))
  }

  ghost function Spread(ts: seq<Tree>, evs: seq<Event>): seq<Event>
    requires AllShaped(ts) && AllTidy(ts)
  {
    if evs == [] then [] else Spread(ts, evs[..|evs| - 1]) + Place(ts, evs[|evs| - 1])
  }

  lemma {:induction false} SpreadConcat(ts: seq<Tree>, a: seq<Event>, b: seq<Event>)
    requires AllShaped(ts) && AllTidy(ts)
    ensures Spread(ts, a + b) == Spread(ts, a) + Spread(ts, b)
    decreases |b|
  {
    hide Place, AllShaped, AllTidy;
    if b == [] {
      assert a + b == a;
    } else {
      var front, last := b[..|b| - 1], b[|b| - 1];
      SpreadConcat(ts, a, front);
      assert (a + b)[..|a + b| - 1] == a + front && (a + b)[|a + b| - 1] == last;
      Associative(Spread(ts, a), Spread(ts, front), Place(ts, last));
    }
  }

  lemma SpreadOne(ts: seq<Tree>, e: Event)
    requires AllShaped(ts) && AllTidy(ts)
    ensures Spread(ts, [e]) == Place(ts, e)
    ensures |Flags(ts)| == |DefsAll(ts)|
    ensures Target(AnchorKeys(ts), e).None? ==> Place(ts, e) == [e]
  {
    hide AllShaped, AllTidy, DefsAll, Flags;
    FullIsSubstitution(ts, Leaf(e));
    assert [e][..0] == [] && Spread(ts, []) == [];
  }

  /** A whole tree's place is what its events' places make. */
  lemma {:induction false} SpreadTree(ts: seq<Tree>, t: Tree)
    requires AllShaped(ts) && AllTidy(ts) && Shaped(t)
    ensures |Flags(ts)| == |DefsAll(ts)|
    ensures Flat(Full(AnchorKeys(ts), AnchorBodies(ts), t)) == Spread(ts, Flat(t))
    decreases t, 0
  {
    hide AllTidy, DefsAll, Flags, Spread;
    FullIsSubstitution(ts, t);
    match t
    case Leaf(e) => SpreadOne(ts, e);
    case Coll(open, kids, close) =>
      SpreadOne(ts, open);
      SpreadOne(ts, close);
      SpreadTrees(ts, kids);
      SpreadConcat(ts, [open], FlatAll(kids));
      SpreadConcat(ts, [open] + FlatAll(kids), [close]);
  }

  lemma {:induction false} SpreadTrees(ts: seq<Tree>, from: seq<Tree>)
    requires AllShaped(ts) && AllTidy(ts) && AllShaped(from)
    ensures |Flags(ts)| == |DefsAll(ts)|
    ensures FlatAll(UnfoldAll(AnchorKeys(ts), AnchorBodies(ts), |AnchorBodies(ts)|, from)) == Spread(ts, FlatAll(from))
    decreases from, 1
  {
    hide AllTidy, DefsAll, Flags, Place;
    FlagsAligned(ts);
    if from != [] {
      SpreadTree(ts, from[0]);
      SpreadTrees(ts, from[1..]);
      SpreadConcat(ts, Flat(from[0]), FlatAll(from[1..]));
      UnfoldCons(AnchorKeys(ts), AnchorBodies(ts), |AnchorBodies(ts)|, from);
    }
  }

  lemma UnfoldCons(keys: Keys, bodies: seq<Tree>, n: nat, from: seq<Tree>)
    requires Aligned(keys, bodies) && from != [] && n == |bodies|
    ensures FlatAll(UnfoldAll(keys, bodies, n, from)) == Flat(Full(keys, bodies, from[0])) + FlatAll(UnfoldAll(keys, bodies, n, from[1..]))
  {
    assert UnfoldAll(keys, bodies, n, from)[1..] == UnfoldAll(keys, bodies, n, from[1..]);
  }

  /** Where the place of event `i` begins. */
  ghost function Offset(ts: seq<Tree>, i: nat): nat
    requires AllShaped(ts) && AllTidy(ts) && i <= |FlatAll(ts)|
  {
    |Spread(ts, FlatAll(ts)[..i])|
  }

  /** The place of the events from `i` up to `j` in the result. */
  lemma PlaceOf(ts: seq<Tree>, i: nat, j: nat)
    requires AllShaped(ts) && AllTidy(ts) && i <= j <= |FlatAll(ts)|
    ensures var evs, out := FlatAll(ts), Spread(ts, FlatAll(ts));
            Offset(ts, i) <= Offset(ts, j) <= |out| && out[Offset(ts, i)..Offset(ts, j)] == Spread(ts, evs[i..j])
  {
    hide Spread, AllShaped, AllTidy, FlatAll;
    var evs := FlatAll(ts);
    SpreadConcat(ts, evs[..i], evs[i..j]);
    SpreadConcat(ts, evs[..j], evs[j..]);
    assert evs[..i] + evs[i..j] == evs[..j] && evs[..j] + evs[j..] == evs;
  }

  /** The result of full expansion, place by place: an event that is not replaced
      stands there itself, an alias's place holds what the place of the node it
      names holds, event by event and in all fields but the anchor. */
  lemma ExpandedInPlace(ts: seq<Tree>, i: nat)
    requires AllShaped(ts) && AllTidy(ts) && i < |FlatAll(ts)|
    ensures var evs, out := FlatAll(ts), FlatAll(Expanded(ts));
            var es := Entries(evs, |evs|);
            && Offset(ts, 0) == 0 && Offset(ts, |evs|) == |out| && Offset(ts, i) <= Offset(ts, i + 1) <= |out|
            && |AnchorKeys(ts).names| == |AnchorKeys(ts).flags| == |es| && Inside(evs, es)
            && var k := Target(AnchorKeys(ts), evs[i]);
               var here := out[Offset(ts, i)..Offset(ts, i + 1)];
               if k.None? then here == [evs[i]]
               else
                 var e := es[k.value];
                 Offset(ts, e.start) <= Offset(ts, e.end) <= |out| && Copied(out[Offset(ts, e.start)..Offset(ts, e.end)], here)
  {
    hide Spread, AllShaped, AllTidy, FlatAll, Flags, Place;
    var evs, out := FlatAll(ts), FlatAll(Expanded(ts));
    var es := Entries(evs, |evs|);
    ExpandedSpread(ts);
    EntriesInside(evs, |evs|);
    TableKeys(ts, Flags(ts));
    PlaceOf(ts, i, i + 1);
    assert evs[i..i + 1] == [evs[i]];
    SpreadOne(ts, evs[i]);
    OffsetEnds(ts);
    var k := Target(AnchorKeys(ts), evs[i]);
    if k.Some? {
      var e := es[k.value];
      PlaceOf(ts, e.start, e.end);
      ReplacedPlace(ts, evs[i], k.value);
    }
  }

  lemma OffsetEnds(ts: seq<Tree>)
    requires AllShaped(ts) && AllTidy(ts)
    ensures Offset(ts, 0) == 0 && Offset(ts, |FlatAll(ts)|) == |Spread(ts, FlatAll(ts))|
  {
    assert FlatAll(ts)[..0] == [] && FlatAll(ts)[..|FlatAll(ts)|] == FlatAll(ts);
  }

  lemma ExpandedSpread(ts: seq<Tree>)
    requires AllShaped(ts) && AllTidy(ts)
    ensures |Flags(ts)| == |DefsAll(ts)| && FlatAll(Expanded(ts)) == Spread(ts, FlatAll(ts))
  {
    hide Spread, AllTidy, FlatAll, Flags;
    FlagsAligned(ts);
    SpreadTrees(ts, ts);
  }

  /** The place of a replaced alias copies the place of its anchor's range. */
  lemma ReplacedPlace(ts: seq<Tree>, e: Event, k: nat)
    requires AllShaped(ts) && AllTidy(ts) && |Flags(ts)| == |DefsAll(ts)|
    requires Target(AnchorKeys(ts), e) == Some(k)
    ensures var evs := FlatAll(ts); var es := Entries(evs, |evs|);
            k < |es| && es[k].start <= es[k].end <= |evs| && Copied(Spread(ts, evs[es[k].start..es[k].end]), Place(ts, e))
  {
    hide Spread, FlatAll, Flags;
    var evs := FlatAll(ts);
    var es, ds := Entries(evs, |evs|), DefsAll(ts);
    TableOf(ts);
    assert Spans(evs, es[k], ds[k]);
    AllDefsNeat(ts);
    FullIsSubstitution(ts, Leaf(e));
    SpreadTree(ts, ds[k].body);
    StripCopied(Full(AnchorKeys(ts), AnchorBodies(ts), ds[k].body));
  }

  // ----- nothing but copies -----

  /** Every event of the trees is in `q`. */
  ghost predicate Every(q: iset<Event>, t: Tree)
    decreases t, 0
  {
    match t
    case Leaf(e) => e in q
    case Coll(open, kids, close) => open in q && close in q && EveryAll(q, kids)
  }

  ghost predicate EveryAll(q: iset<Event>, ts: seq<Tree>)
    decreases ts, 1
  {
    ts == [] || (Every(q, ts[0]) && EveryAll(q, ts[1..]))
  }

  /** With an event its anchor-free copy. */
  ghost predicate Closed(q: iset<Event>) {
    forall e | e in q :: NoAnchor(e) in q
  }

  lemma {:induction false} EveryFlat(q: iset<Event>, t: Tree)
    ensures Every(q, t) <==> forall e | e in Flat(t) :: e in q
    decreases t, 0
  {
    if t.Coll? {
      EveryAllFlat(q, t.kids);
      assert t.open in Flat(t) && t.close in Flat(t);
      assert forall e | e in FlatAll(t.kids) :: e in Flat(t);
    } else {
      assert t.e in Flat(t);
    }
  }

  lemma {:induction false} EveryAllFlat(q: iset<Event>, ts: seq<Tree>)
    ensures EveryAll(q, ts) <==> forall e | e in FlatAll(ts) :: e in q
    decreases ts, 1
  {
    if ts != [] {
      EveryFlat(q, ts[0]);
      EveryAllFlat(q, ts[1..]);
      assert forall e | e in Flat(ts[0]) :: e in FlatAll(ts);
      assert forall e | e in FlatAll(ts[1..]) :: e in FlatAll(ts);
    }
  }

  lemma {:induction false} EveryConcat(q: iset<Event>, a: seq<Tree>, b: seq<Tree>)
    ensures EveryAll(q, a + b) <==> EveryAll(q, a) && EveryAll(q, b)
    decreases |a|
  {
    if a == [] {
      assert a + b == b;
    } else {
      assert (a + b)[1..] == a[1..] + b && (a + b)[0] == a[0];
      EveryConcat(q, a[1..], b);
    }
  }

  lemma {:induction false} EveryStrip(q: iset<Event>, t: Tree)
    requires Closed(q) && Every(q, t)
    ensures Every(q, Strip(t))
    decreases t, 0
  {
    if t.Coll? { EveryStripAll(q, t.kids); }
  }

  lemma {:induction false} EveryStripAll(q: iset<Event>, ts: seq<Tree>)
    requires Closed(q) && EveryAll(q, ts)
    ensures EveryAll(q, StripAll(ts))
    decreases ts, 1
  {
    if ts != [] {
      EveryStrip(q, ts[0]);
      EveryStripAll(q, ts[1..]);
      assert StripAll(ts)[1..] == StripAll(ts[1..]);
    }
  }

  ghost predicate EveryBody(q: iset<Event>, bodies: seq<Tree>) {
    forall k | 0 <= k < |bodies| :: Every(q, bodies[k])
  }

  lemma {:induction false} EveryUnfold(q: iset<Event>, keys: Keys, bodies: seq<Tree>, n: nat, t: Tree)
    requires Closed(q) && Aligned(keys, bodies) && EveryBody(q, bodies) && Every(q, t)
    ensures Every(q, Unfold(keys, bodies, n, t))
    decreases n, t, 0
  {
    if n > 0 {
      if t.Coll? {
        EveryUnfoldAll(q, keys, bodies, n, t.kids);
      } else {
        var k := Target(keys, t.e);
        if k.Some? {
          EveryUnfold(q, keys, bodies, n - 1, bodies[k.value]);
          EveryStrip(q, Unfold(keys, bodies, n - 1, bodies[k.value]));
        }
      }
    }
  }

  lemma {:induction false} EveryUnfoldAll(q: iset<Event>, keys: Keys, bodies: seq<Tree>, n: nat, ts: seq<Tree>)
    requires Closed(q) && Aligned(keys, bodies) && EveryBody(q, bodies) && EveryAll(q, ts)
    ensures EveryAll(q, UnfoldAll(keys, bodies, n, ts))
    decreases n, ts, 1
  {
    if ts != [] {
      EveryUnfold(q, keys, bodies, n, ts[0]);
      EveryUnfoldAll(q, keys, bodies, n, ts[1..]);
      assert UnfoldAll(keys, bodies, n, ts)[1..] == UnfoldAll(keys, bodies, n, ts[1..]);
    }
  }

  lemma {:induction false} EveryDef(q: iset<Event>, t: Tree)
    requires Every(q, t)
    ensures forall d | d in Defs(t) :: Every(q, d.body)
    decreases t, 0
  {
    if t.Coll? { EveryDefAll(q, t.kids); }
  }

  lemma {:induction false} EveryDefAll(q: iset<Event>, ts: seq<Tree>)
    requires EveryAll(q, ts)
    ensures forall d | d in DefsAll(ts) :: Every(q, d.body)
    decreases ts, 1
  {
    if ts != [] {
      EveryDef(q, ts[0]);
      EveryDefAll(q, ts[1..]);
    }
  }

  lemma BodiesEvery(q: iset<Event>, ts: seq<Tree>)
    requires EveryAll(q, ts)
    ensures EveryBody(q, Bodies(DefsAll(ts)))
  {
    EveryDefAll(q, ts);
    var ds := DefsAll(ts);
    forall k | 0 <= k < |ds| ensures Every(q, Bodies(ds)[k]) { assert ds[k] in ds; }
  }

  /** Alias expansion adds nothing but anchor-free copies. */
  lemma ExpandedEvery(q: iset<Event>, ts: seq<Tree>)
    requires Closed(q) && EveryAll(q, ts) && AllShaped(ts) && AllTidy(ts)
    ensures EveryAll(q, AliasExpansion.Expanded(ts))
  {
    AliasExpansion.FlagsAligned(ts);
    BodiesEvery(q, ts);
    EveryUnfoldAll(q, AliasExpansion.AnchorKeys(ts), AliasExpansion.AnchorBodies(ts), |DefsAll(ts)|, ts);
  }

  // ----- and so for merging -----

  ghost predicate EveryPair(q: iset<Event>, pairs: seq<Pair>) {
    forall p | p in pairs :: Every(q, p.key) && Every(q, p.value)
  }

  lemma {:induction false} PairsEvery(q: iset<Event>, kids: seq<Tree>)
    requires EveryAll(q, kids)
    ensures EveryPair(q, PairsOf(kids))
    decreases |kids|
  {
    if |kids| >= 2 {
      assert Every(q, kids[1..][0]) && kids[1..][1..] == kids[2..];
      PairsEvery(q, kids[2..]);
    }
  }

  lemma {:induction false} KidsEvery(q: iset<Event>, pairs: seq<Pair>)
    requires EveryPair(q, pairs)
    ensures EveryAll(q, KidsOf(pairs))
  {
    if pairs != [] {
      assert pairs[0] in pairs && forall p | p in pairs[1..] :: p in pairs;
      KidsEvery(q, pairs[1..]);
      var rest := KidsOf(pairs[1..]);
      assert ([pairs[0].value] + rest)[1..] == rest;
      assert KidsOf(pairs)[1..] == [pairs[0].value] + rest;
    }
  }

  lemma {:induction false} ExplicitEvery(q: iset<Event>, pairs: seq<Pair>)
    requires EveryPair(q, pairs)
    ensures EveryPair(q, Explicit(pairs))
  {
    if pairs != [] {
      assert pairs[0] in pairs && forall p | p in pairs[1..] :: p in pairs;
      ExplicitEvery(q, pairs[1..]);
    }
  }

  lemma {:induction false} FreshEvery(q: iset<Event>, seen: seq<string>, pairs: seq<Pair>)
    requires Closed(q) && EveryPair(q, pairs)
    ensures EveryPair(q, Fresh(seen, pairs))
    decreases |pairs|
  {
    if pairs != [] {
      assert pairs[0] in pairs && forall p | p in pairs[1..] :: p in pairs;
      FreshEvery(q, AddKey(seen, pairs[0]), pairs[1..]);
      EveryStrip(q, pairs[0].key);
      EveryStrip(q, pairs[0].value);
    }
  }

  lemma {:induction false} EachEvery(q: iset<Event>, env: Env, vs: seq<Tree>)
    requires |env.names| == |env.bodies| && EveryBody(q, env.bodies) && EveryAll(q, vs) && EachSource(env, vs).Some?
    ensures EveryAll(q, EachSource(env, vs).value)
  {
    if vs != [] {
      EachEvery(q, env, vs[1..]);
      var r := EachSource(env, vs).value;
      assert r[1..] == EachSource(env, vs[1..]).value;
    }
  }

  lemma {:induction false} SourcesEvery(q: iset<Event>, env: Env, pairs: seq<Pair>)
    requires |env.names| == |env.bodies| && EveryBody(q, env.bodies) && EveryPair(q, pairs) && AllSources(env, pairs).Some?
    ensures EveryAll(q, AllSources(env, pairs).value)
  {
    if pairs != [] {
      assert pairs[0] in pairs && forall p | p in pairs[1..] :: p in pairs;
      SourcesEvery(q, env, pairs[1..]);
      if Merges(pairs[0]) {
        var v := pairs[0].value;
        assert [v][1..] == [] && EveryAll(q, [v]);
        EachEvery(q, env, if v.Coll? && v.open.typ == SequenceStart then v.kids else [v]);
        EveryConcat(q, SourcesOf(env, v).value, AllSources(env, pairs[1..]).value);
      }
    }
  }

  lemma {:induction false} SourcePairsEvery(q: iset<Event>, sources: seq<Tree>)
    requires EveryAll(q, sources)
    ensures EveryPair(q, SourcePairs(sources))
  {
    if sources != [] {
      SourcePairsEvery(q, sources[1..]);
      if sources[0].Coll? { PairsEvery(q, sources[0].kids); }
    }
  }

  lemma MergedEvery(q: iset<Event>, env: Env, pairs: seq<Pair>)
    requires Closed(q) && |env.names| == |env.bodies| && EveryBody(q, env.bodies) && EveryPair(q, pairs) && MergedPairs(env, pairs).Some?
    ensures EveryPair(q, MergedPairs(env, pairs).value)
  {
    SourcesEvery(q, env, pairs);
    SourcePairsEvery(q, AllSources(env, pairs).value);
    ExplicitEvery(q, pairs);
    FreshEvery(q, AddKeys([], Explicit(pairs)), SourcePairs(AllSources(env, pairs).value));
  }

  lemma {:induction false} MergeEvery(q: iset<Event>, env: Env, t: Tree)
    requires Closed(q) && |env.names| == |env.bodies| && EveryBody(q, env.bodies) && Every(q, t) && MergeTree(env, t).Ok?
    ensures EveryAll(q, MergeTree(env, t).trees)
    decreases t, 0
  {
    var r := MergeTree(env, t).trees;
    if t.Coll? {
      if Rebuilds(t) {
        PairsEvery(q, t.kids);
        MergedEvery(q, env, PairsOf(t.kids));
        KidsEvery(q, MergedPairs(env, PairsOf(t.kids)).value);
      } else {
        MergeEveryAll(q, env, t.kids);
      }
    }
    assert r[1..] == [] && Every(q, r[0]);
  }

  lemma {:induction false} MergeEveryAll(q: iset<Event>, env: Env, ts: seq<Tree>)
    requires Closed(q) && |env.names| == |env.bodies| && EveryBody(q, env.bodies) && EveryAll(q, ts) && MergeAll(env, ts).Ok?
    ensures EveryAll(q, MergeAll(env, ts).trees)
    decreases ts, 1
  {
    if ts != [] {
      MergeEvery(q, env, ts[0]);
      MergeEveryAll(q, env, ts[1..]);
      EveryConcat(q, MergeTree(env, ts[0]).trees, MergeAll(env, ts[1..]).trees);
    }
  }

  /** The merge passes add nothing but anchor-free copies, and stay in bounds. */
  lemma {:induction false} MergedRuns(q: iset<Event>, ts: seq<Tree>, n: nat, limit: nat)
    requires Closed(q) && EveryAll(q, ts) && MergeExpansion.MergeRuns(ts, n, limit).Events? && limit > 0
    ensures var m := MergeExpansion.MergeRuns(ts, n, limit).trees;
            EveryAll(q, m) && (m == ts || |FlatAll(m)| <= limit)
    decreases n
  {
    if n > 0 && AnyHasMerge(ts) {
      BodiesEvery(q, ts);
      var r := MergeAll(EnvOf(ts), ts);
      MergeEveryAll(q, EnvOf(ts), ts);
      MergedRuns(q, r.trees, n - 1, limit);
    }
  }

  // ----- in short -----

  /** An event of the array, or its copy. */
  ghost predicate From(evs: seq<Event>, e: Event) {
    exists i: nat | i < |evs| :: IsCopy(evs[i], e)
  }

  lemma FromClosed(evs: seq<Event>) returns (q: iset<Event>)
    ensures Closed(q) && (forall e | e in evs :: e in q) && forall e | e in q :: From(evs, e)
  {
    q := iset e | From(evs, e);
    forall e | e in q ensures NoAnchor(e) in q {
      var i: nat :| i < |evs| && IsCopy(evs[i], e);
      assert IsCopy(evs[i], NoAnchor(e));
    }
    forall e | e in evs ensures e in q {
      var i :| 0 <= i < |evs| && evs[i] == e;
      assert IsCopy(evs[i], e);
    }
  }

  /** Every event after expansion is one of the array's, but perhaps without its anchor. */
  lemma ExpandedCopies(ts: seq<Tree>)
    requires AllShaped(ts) && AllTidy(ts)
    ensures forall e | e in FlatAll(Expanded(ts)) :: From(FlatAll(ts), e)
  {
    var q := FromClosed(FlatAll(ts));
    EveryAllFlat(q, ts);
    ExpandedEvery(q, ts);
    EveryAllFlat(q, Expanded(ts));
  }

  /** And so after the merge passes. */
  lemma MergedCopies(ts: seq<Tree>, n: nat, limit: nat)
    requires MergeExpansion.MergeRuns(ts, n, limit).Events? && limit > 0
    ensures forall e | e in FlatAll(MergeExpansion.MergeRuns(ts, n, limit).trees) :: From(FlatAll(ts), e)
  {
    var q := FromClosed(FlatAll(ts));
    EveryAllFlat(q, ts);
    MergedRuns(q, ts, n, limit);
    EveryAllFlat(q, MergeExpansion.MergeRuns(ts, n, limit).trees);
  }
}
