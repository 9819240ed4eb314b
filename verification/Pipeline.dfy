/**
 * The eager parser's passes over a parsed stream, one after the other: anchors
 * are bound, merge keys and aliases expanded, and the names given back.
 */
module Pipeline {
  import opened Events
  import opened NodeTrees
  import opened AnchorTable
  import opened AliasTrees
  import opened MergeTrees
  import opened Copies
  import opened Binding
  import AliasExpansion
  import MergeExpansion
  import EventBuffer

  // ----- what is looked up -----

  /** Only nodes carry anchors. */
  predicate Plausible(evs: seq<Event>) {
    forall e | e in evs :: Original(e) && (Anchored(e) ==> e.typ != DocStart)
  }

  lemma {:induction false} EntryStarts(evs: seq<Event>, n: nat, k: nat)
    requires n <= |evs| && k < |Entries(evs, n)|
    ensures var e := Entries(evs, n)[k]; e.start < n && Anchored(evs[e.start]) && evs[e.start].anchor == Some(e.name)
  {
    if k == |Entries(evs, n)| - 1 && Anchored(evs[n - 1]) {
    } else {
      EntryStarts(evs, n - 1, k);
    }
  }

  lemma {:induction false} EntryOf(evs: seq<Event>, n: nat, j: nat) returns (k: nat)
    requires j < n <= |evs| && Anchored(evs[j])
    ensures k < |Entries(evs, n)| && Entries(evs, n)[k].start == j
  {
    if j == n - 1 {
      k := |Entries(evs, n)| - 1;
    } else {
      k := EntryOf(evs, n - 1, j);
    }
  }

  /** Which anchors an alias names, once both are bound. */
  lemma BoundAnchor(evs: seq<Event>, i: nat, j: nat)
    requires i < |evs| && j < |evs| && evs[i].typ == AliasEvent && Plausible(evs)
    ensures var bound := BoundEvents(evs);
            Anchored(bound[j]) ==> (bound[j].anchor == Some(bound[i].value) <==> Latest(evs, i + 1, evs[i].value) == Some(j))
    ensures Latest(evs, i + 1, evs[i].value) == Some(j) ==> Anchored(BoundEvents(evs)[j])
  {
    assert evs[i] in evs && evs[j] in evs;
    if Anchored(evs[j]) {
      AliasFindsLatest(evs, i, j);
      assert BoundName(evs[j].anchor.value, Serial(evs, j + 1)) != "";
    }
  }

  /** In the table of the bound array, looking up an alias finds the latest
      anchor of its name before it in its document, and nothing where there is
      none. */
  lemma LookupFindsLatest(evs: seq<Event>, i: nat)
    requires i < |evs| && evs[i].typ == AliasEvent && Plausible(evs)
    ensures var bound := BoundEvents(evs);
            var es := Entries(bound, |bound|);
            var found := LastNamed(Names(es), |es|, bound[i].value);
            Latest(evs, i + 1, evs[i].value) == if found.Some? then Some(es[found.value].start) else None
  {
    hide BoundEvents, Entries, LastNamed, Latest, Anchored, Plausible;
    var bound := BoundEvents(evs);
    var es := Entries(bound, |bound|);
    var found := LastNamed(Names(es), |es|, bound[i].value);
    if found.Some? {
      EntryStarts(bound, |bound|, found.value);
      BoundAnchor(evs, i, es[found.value].start);
    } else if Latest(evs, i + 1, evs[i].value).Some? {
      var j := Latest(evs, i + 1, evs[i].value).value;
      BoundAnchor(evs, i, j);
      var k := EntryOf(bound, |bound|, j);
      EntryStarts(bound, |bound|, k);
      NamedIsFound(Names(es), bound[i].value, k);
    }
  }

  lemma NamedIsFound(names: seq<string>, name: string, k: nat)
    requires k < |names| && names[k] == name
    ensures LastNamed(names, |names|, name).Some?
  {
    LastNamedIsLast(names, |names|, name);
  }

  // ----- binding keeps the trees -----

  /** `evs` in the shape of `t`. */
  function Retree(t: Tree, evs: seq<Event>): Tree
    requires |evs| == |Flat(t)|
    decreases t, 0
  {
    match t
    case Leaf(_) => Leaf(evs[0])
    case Coll(_, kids, _) => Coll(evs[0], RetreeAll(kids, evs[1..|evs| - 1]), evs[|evs| - 1])
  }

  function RetreeAll(ts: seq<Tree>, evs: seq<Event>): (r: seq<Tree>)
    requires |evs| == |FlatAll(ts)|
    ensures |r| == |ts|
    decreases ts, 1
  {
    if ts == [] then []
    else
      var n := |Flat(ts[0])|;
      [Retree(ts[0], evs[..n])] + RetreeAll(ts[1..], evs[n..])
  }

  /** Of the same kind, and with an anchor only if the other has one. */
  ghost predicate SameKind(a: seq<Event>, b: seq<Event>) {
    |a| == |b| && forall i | 0 <= i < |a| :: b[i].typ == a[i].typ && (Anchored(b[i]) ==> Anchored(a[i]))
  }

  lemma {:induction false} RetreeFlat(t: Tree, evs: seq<Event>)
    requires |evs| == |Flat(t)|
    ensures Flat(Retree(t, evs)) == evs
    decreases t, 0
  {
    if t.Coll? {
      RetreeAllFlat(t.kids, evs[1..|evs| - 1]);
      assert evs == [evs[0]] + evs[1..|evs| - 1] + [evs[|evs| - 1]];
    }
  }

  lemma RetreeCons(ts: seq<Tree>, evs: seq<Event>)
    requires ts != [] && |evs| == |FlatAll(ts)|
    ensures var n, r := |Flat(ts[0])|, RetreeAll(ts, evs);
            n <= |evs| && r[0] == Retree(ts[0], evs[..n]) && r[1..] == RetreeAll(ts[1..], evs[n..])
    ensures FlatAll(RetreeAll(ts, evs)) == Flat(RetreeAll(ts, evs)[0]) + FlatAll(RetreeAll(ts, evs)[1..])
  {}

  lemma {:induction false} RetreeAllFlat(ts: seq<Tree>, evs: seq<Event>)
    requires |evs| == |FlatAll(ts)|
    ensures FlatAll(RetreeAll(ts, evs)) == evs
    decreases ts, 1
  {
    if ts != [] {
      hide Retree, RetreeAll, Flat;
      var n := |Flat(ts[0])|;
      RetreeCons(ts, evs);
      RetreeFlat(ts[0], evs[..n]);
      RetreeAllFlat(ts[1..], evs[n..]);
      assert evs == evs[..n] + evs[n..];
    }
  }

  lemma KindInner(t: Tree, evs: seq<Event>)
    requires t.Coll? && SameKind(Flat(t), evs)
    ensures SameKind(FlatAll(t.kids), evs[1..|evs| - 1])
    ensures var n := |evs| - 1; n > 0 && SameKind([t.open], [evs[0]]) && SameKind([t.close], [evs[n]])
  {
    assert forall i | 0 <= i < |FlatAll(t.kids)| :: FlatAll(t.kids)[i] == Flat(t)[i + 1];
    assert Flat(t)[|evs| - 1] == t.close;
  }

  lemma KindSplit(a: seq<Event>, b: seq<Event>, evs: seq<Event>)
    requires SameKind(a + b, evs)
    ensures SameKind(a, evs[..|a|]) && SameKind(b, evs[|a|..])
  {
    assert forall i | 0 <= i < |a| :: (a + b)[i] == a[i];
    assert forall i | 0 <= i < |b| :: (a + b)[i + |a|] == b[i];
  }

  lemma CollKind(t: Tree, open: Event, kids: seq<Tree>, close: Event)
    requires t.Coll? && MergeTrees.Sound(t) && AllSound(kids) && |kids| == |t.kids|
    requires open.typ == t.open.typ && close.typ == t.close.typ && (Anchored(close) ==> Anchored(t.close))
    ensures MergeTrees.Sound(Coll(open, kids, close))
  {}

  lemma {:induction false} RetreeSound(t: Tree, evs: seq<Event>)
    requires SameKind(Flat(t), evs) && MergeTrees.Sound(t)
    ensures MergeTrees.Sound(Retree(t, evs))
    decreases t, 0
  {
    if t.Coll? {
      var n := |evs| - 1;
      KindInner(t, evs);
      assert [evs[0]][0].typ == [t.open][0].typ && [evs[n]][0].typ == [t.close][0].typ;
      RetreeAllSound(t.kids, evs[1..n]);
      CollKind(t, evs[0], RetreeAll(t.kids, evs[1..n]), evs[n]);
    }
  }

  lemma {:induction false} RetreeAllSound(ts: seq<Tree>, evs: seq<Event>)
    requires SameKind(FlatAll(ts), evs) && AllSound(ts)
    ensures AllSound(RetreeAll(ts, evs))
    decreases ts, 1
  {
    if ts != [] {
      var n := |Flat(ts[0])|;
      KindSplit(Flat(ts[0]), FlatAll(ts[1..]), evs);
      RetreeSound(ts[0], evs[..n]);
      RetreeAllSound(ts[1..], evs[n..]);
      RetreeCons(ts, evs);
    }
  }

  /** The stream's trees once it is bound. */
  function BoundAs(ts: seq<Tree>): seq<Tree> {
    RetreeAll(ts, BoundEvents(FlatAll(ts)))
  }

  lemma BoundTrees(ts: seq<Tree>)
    requires AllSound(ts)
    ensures FlatAll(BoundAs(ts)) == BoundEvents(FlatAll(ts)) && AllSound(BoundAs(ts))
  {
    var evs := FlatAll(ts);
    assert SameKind(evs, BoundEvents(evs));
    RetreeAllFlat(ts, BoundEvents(evs));
    RetreeAllSound(ts, BoundEvents(evs));
  }

  // ----- what comes out is a copy of what went in -----

  /** Copy `b` of a bound event stands for the same copy `o` of the original. */
  predicate CopyOf(evs: seq<Event>, i: nat, b: Event, o: Event)
    requires i < |evs|
  {
    (b == BoundEvent(evs, i) && o == evs[i]) || (BareCopy(BoundEvent(evs, i), b) && BareCopy(evs[i], o))
  }

  ghost predicate StandsFor(evs: seq<Event>, b: Event, o: Event) {
    exists i: nat | i < |evs| :: CopyOf(evs, i, b, o)
  }

  /** A bound event, or its anchor-free copy. */
  ghost predicate FromBound(evs: seq<Event>, e: Event) {
    exists i: nat | i < |evs| :: IsCopy(BoundEvent(evs, i), e)
  }

  ghost function CopiesOf(evs: seq<Event>): iset<Event> {
    iset e | FromBound(evs, e)
  }

  lemma CopiesClosed(evs: seq<Event>)
    ensures Closed(CopiesOf(evs)) && forall e | e in BoundEvents(evs) :: e in CopiesOf(evs)
  {
    forall e | e in CopiesOf(evs) ensures NoAnchor(e) in CopiesOf(evs) {
      var i: nat :| i < |evs| && IsCopy(BoundEvent(evs, i), e);
      assert IsCopy(BoundEvent(evs, i), NoAnchor(e));
    }
    forall e | e in BoundEvents(evs) ensures e in CopiesOf(evs) {
      var i :| 0 <= i < |evs| && BoundEvents(evs)[i] == e;
      assert IsCopy(BoundEvent(evs, i), e);
    }
  }

  /** Unbinding gives a copy of a bound event its original name. */
  lemma CopyUnbound(evs: seq<Event>, names: seq<string>, e: Event)
    requires FromBound(evs, e) && NamesOf(evs, names) && Plausible(evs)
    ensures StandsFor(evs, e, UnboundEvent(e, names))
  {
    var i: nat :| i < |evs| && IsCopy(BoundEvent(evs, i), e);
    UnbindUndoes(evs, names, i);
    assert UnboundEvent(NoAnchor(BoundEvent(evs, i)), names) == NoAnchor(evs[i]);
    assert CopyOf(evs, i, e, UnboundEvent(e, names));
  }

  // ----- the passes together -----

  /** The trees after merging; None past the limit or at a source that is no mapping. */
  function Merged(ts: seq<Tree>, merge: bool, limit: nat -> nat): Option<seq<Tree>> {
    if !merge then Some(ts)
    else match MergeExpansion.MergeRuns(ts, MergeExpansion.PASSES, limit(|FlatAll(ts)|))
      case Events(trees) => Some(trees)
      case Stopped => None
      case Bad => None
  }

  /** And after expanding aliases, with the limit for the merged length. */
  ghost function Resolved(ts: seq<Tree>, resolve: bool, limit: nat -> nat): Option<seq<Tree>>
    requires AllSound(ts)
  {
    if !resolve || DefsAll(ts) == [] then Some(ts)
    else if EventBuffer.Over(limit(|FlatAll(ts)|), |FlatAll(AliasExpansion.Expanded(ts))|) then None
    else Some(AliasExpansion.Expanded(ts))
  }

  ghost predicate Limits(limit: nat -> nat) {
    forall n :: 0 < limit(n) <= AliasExpansion.INT_MAX
  }

  lemma {:induction false} RunsSound(ts: seq<Tree>, n: nat, limit: nat)
    requires AllSound(ts) && MergeExpansion.MergeRuns(ts, n, limit).Events?
    ensures AllSound(MergeExpansion.MergeRuns(ts, n, limit).trees)
    decreases n
  {
    if n > 0 && AnyHasMerge(ts) {
      EnvSound(ts);
      MergeAllSound(EnvOf(ts), ts);
      RunsSound(MergeAll(EnvOf(ts), ts).trees, n - 1, limit);
    }
  }

  /** What merging the bound stream leaves: sound trees of copies, not too long. */
  lemma MergedStage(ts: seq<Tree>, merge: bool, limit: nat -> nat)
    requires AllSound(ts) && Limits(limit) && |FlatAll(ts)| <= AliasExpansion.INT_MAX
    requires Merged(BoundAs(ts), merge, limit).Some?
    ensures var m := Merged(BoundAs(ts), merge, limit).value;
            AllSound(m) && EveryAll(CopiesOf(FlatAll(ts)), m) && |FlatAll(m)| <= AliasExpansion.INT_MAX
  {
    var q, bound := CopiesOf(FlatAll(ts)), BoundAs(ts);
    BoundTrees(ts);
    CopiesClosed(FlatAll(ts));
    EveryAllFlat(q, bound);
    if merge {
      MergedRuns(q, bound, MergeExpansion.PASSES, limit(|FlatAll(bound)|));
      RunsSound(bound, MergeExpansion.PASSES, limit(|FlatAll(bound)|));
    }
  }

  /** And what expansion leaves. */
  lemma ResolvedStage(q: iset<Event>, ts: seq<Tree>, resolve: bool, limit: nat -> nat)
    requires AllSound(ts) && Closed(q) && EveryAll(q, ts) && Resolved(ts, resolve, limit).Some?
    ensures EveryAll(q, Resolved(ts, resolve, limit).value)
  {
    ExpandedEvery(q, ts);
  }

  /** The stream's trees bound, merged and expanded. */
  ghost function Passed(ts: seq<Tree>, merge: bool, resolve: bool, limit: nat -> nat): Option<seq<Tree>>
    requires AllSound(ts) && Limits(limit) && |FlatAll(ts)| <= AliasExpansion.INT_MAX
  {
    var m := Merged(BoundAs(ts), merge, limit);
    if m.None? then None
    else
      MergedStage(ts, merge, limit);
      Resolved(m.value, resolve, limit)
  }

  /** eager_next_event's passes over a parsed stream: event by event the result is
      the bound stream merged and expanded, in original names. It fails exactly
      where merging or expanding does. */
  method EagerPasses(events: array<Event>, merge: bool, resolve: bool, limit: nat -> nat, hash: string -> nat, ghost ts: seq<Tree>)
    returns (ok: bool, out: seq<Event>)
    requires events[..] == FlatAll(ts) && AllSound(ts) && Plausible(events[..])
    requires events.Length <= AliasExpansion.INT_MAX && Limits(limit)
    modifies events
    ensures !merge && !resolve ==> ok && out == old(events[..])
    ensures ok <==> Passed(ts, merge, resolve, limit).Some?
    ensures ok ==> var x := FlatAll(Passed(ts, merge, resolve, limit).value);
                   |out| == |x| && forall k | 0 <= k < |out| :: StandsFor(old(events[..]), x[k], out[k])
  {
    ghost var evs := events[..];
    BoundTrees(ts);
    if !merge && !resolve {
      forall k | 0 <= k < |evs| ensures StandsFor(evs, BoundEvents(evs)[k], evs[k]) { assert CopyOf(evs, k, BoundEvents(evs)[k], evs[k]); }
      return true, events[..];
    }
    var names := BindAnchors(events, hash);
    out := events[..];
    ghost var cur := BoundAs(ts);
    if merge {
      var r := MergeExpansion.ResolveMerges(out, limit(|out|), hash, cur);
      if !r.Done? { return false, []; }
      out := r.out;
    }
    MergedStage(ts, merge, limit);
    CopiesClosed(evs);
    cur := Merged(cur, merge, limit).value;
    ResolvedStageIf(CopiesOf(evs), cur, resolve, limit);
    if resolve {
      var r := AliasExpansion.ResolveAliases(out, limit(|out|), hash, cur);
      if r.None? { return false, []; }
      out := r.value;
    }
    out := Unbound(out, names, evs);
    ok := true;
  }

  lemma ResolvedStageIf(q: iset<Event>, ts: seq<Tree>, resolve: bool, limit: nat -> nat)
    requires AllSound(ts) && Closed(q) && EveryAll(q, ts)
    ensures var r := Resolved(ts, resolve, limit); r.Some? ==> forall e | e in FlatAll(r.value) :: e in q
  {
    if Resolved(ts, resolve, limit).Some? {
      ResolvedStage(q, ts, resolve, limit);
      EveryAllFlat(q, Resolved(ts, resolve, limit).value);
    }
  }

  method Unbound(evs: seq<Event>, names: seq<string>, ghost was: seq<Event>) returns (out: seq<Event>)
    requires (forall e | e in evs :: e in CopiesOf(was)) && NamesOf(was, names) && Plausible(was)
    ensures |out| == |evs| && forall k | 0 <= k < |out| :: StandsFor(was, evs[k], out[k])
  {
    var events := new Event[|evs|](i requires 0 <= i < |evs| => evs[i]);
    UnbindAnchors(events, names);
    out := events[..];
    forall k | 0 <= k < |out| ensures StandsFor(was, evs[k], out[k]) {
      assert evs[k] in evs;
      CopyUnbound(was, names, evs[k]);
    }
  }

  // ----- which anchor an alias stands for -----

  /** In the bound trees an alias is replaced by the latest anchor of its original
      name before it in its document, unless that one reaches a cycle or there
      is none. */
  lemma ScopedTarget(ts: seq<Tree>, i: nat) returns (k: nat)
    requires AllSound(ts) && Plausible(FlatAll(ts)) && i < |FlatAll(ts)| && FlatAll(ts)[i].typ == AliasEvent
    ensures var evs, bound := FlatAll(ts), BoundAs(ts);
            var keys := AliasExpansion.AnchorKeys(bound);
            |keys.names| == |keys.flags| == |AliasExpansion.AnchorBodies(bound)| &&
            var target, j := Target(keys, BoundEvent(evs, i)), Latest(evs, i + 1, evs[i].value);
            (j.None? ==> target.None?) &&
            (j.Some? ==> k < |keys.names| && target == (if keys.flags[k] then None else Some(k)) &&
                         First(AliasExpansion.AnchorBodies(bound)[k]) == BoundEvent(evs, j.value))
  {
    hide Plausible, Latest, AllSound, AllShaped, AllTidy;
    var evs, bound := FlatAll(ts), BoundAs(ts);
    BoundTrees(ts);
    SoundMeans(bound);
    LookupFindsLatest(evs, i);
    AliasExpansion.FlagsAligned(bound);
    AliasExpansion.TableKeys(bound, AliasExpansion.Flags(bound));
    var es, ds := Entries(BoundEvents(evs), |evs|), DefsAll(bound);
    var found := LastNamed(Names(es), |es|, BoundEvents(evs)[i].value);
    k := if found.Some? then found.value else 0;
    if found.Some? {
      assert AliasExpansion.Spans(BoundEvents(evs), es[k], ds[k]);
      FlatFirst(ds[k].body);
    }
  }

  lemma SoundMeans(ts: seq<Tree>)
    requires AllSound(ts)
    ensures AllShaped(ts) && AllTidy(ts)
  {}

  /** And after merging: whatever an alias is replaced by is still that anchor's node. */
  lemma MergedTarget(ts: seq<Tree>, merge: bool, limit: nat -> nat, e: Event) returns (i: nat, j: nat)
    requires AllSound(ts) && Limits(limit) && |FlatAll(ts)| <= AliasExpansion.INT_MAX && Plausible(FlatAll(ts))
    requires Merged(BoundAs(ts), merge, limit).Some?
    requires var m := Merged(BoundAs(ts), merge, limit).value;
             AllSound(m) && e in FlatAll(m) && |AliasExpansion.AnchorKeys(m).names| == |AliasExpansion.AnchorKeys(m).flags| &&
             Target(AliasExpansion.AnchorKeys(m), e).Some?
    ensures var evs, m := FlatAll(ts), Merged(BoundAs(ts), merge, limit).value;
            i < |evs| && j < |evs| && evs[i].typ == AliasEvent && IsCopy(BoundEvent(evs, i), e) &&
            Latest(evs, i + 1, evs[i].value) == Some(j) &&
            First(AliasExpansion.AnchorBodies(m)[Target(AliasExpansion.AnchorKeys(m), e).value]) == BoundEvent(evs, j)
  {
    hide Merged, BoundAs, Plausible, Latest, DefsAll, EveryAll, AllSound, BoundEvent, FlatAll;
    var evs, m := FlatAll(ts), Merged(BoundAs(ts), merge, limit).value;
    var keys := AliasExpansion.AnchorKeys(m);
    MergedStage(ts, merge, limit);
    EveryAllFlat(CopiesOf(evs), m);
    i :| i < |evs| && IsCopy(BoundEvent(evs, i), e);
    j := RootCopied(evs, m, Target(keys, e).value);
    LastNamedIsLast(keys.names, |keys.names|, e.value);
    NamesSame(evs, i, j, e);
    BoundAnchor(evs, i, j);
  }

  /** What an anchor's node starts with is the bound anchor itself. */
  lemma RootCopied(evs: seq<Event>, m: seq<Tree>, k: nat) returns (j: nat)
    requires EveryAll(CopiesOf(evs), m) && k < |DefsAll(m)|
    ensures var root := First(AliasExpansion.AnchorBodies(m)[k]);
            j < |evs| && root == BoundEvent(evs, j) && Anchored(root) && root.anchor == Some(AliasExpansion.AnchorKeys(m).names[k])
  {
    hide DefsAll, EveryAll, Every, BoundEvent;
    var d := DefsAll(m)[k];
    EveryDefAll(CopiesOf(evs), m);
    DefNamed(m, k);
    assert d in DefsAll(m);
    EveryFlat(CopiesOf(evs), d.body);
    FlatFirst(d.body);
    assert First(d.body) in Flat(d.body);
    j :| j < |evs| && IsCopy(BoundEvent(evs, j), First(d.body));
  }

  lemma NamesSame(evs: seq<Event>, i: nat, j: nat, e: Event)
    requires i < |evs| && j < |evs| && IsCopy(BoundEvent(evs, i), e)
    ensures evs[i].typ == e.typ && BoundEvents(evs)[i].value == e.value && BoundEvents(evs)[j] == BoundEvent(evs, j)
  {}

  lemma {:induction false} DefNamed(ts: seq<Tree>, k: nat)
    requires k < |DefsAll(ts)|
    ensures var d := DefsAll(ts)[k]; Anchored(First(d.body)) && First(d.body).anchor == Some(d.name)
    decreases ts, 1
  {
    var d := Defs(ts[0]);
    if k < |d| { DefNamedIn(ts[0], k); } else { DefNamed(ts[1..], k - |d|); }
  }

  lemma {:induction false} DefNamedIn(t: Tree, k: nat)
    requires k < |Defs(t)|
    ensures var d := Defs(t)[k]; Anchored(First(d.body)) && First(d.body).anchor == Some(d.name)
    decreases t, 0
  {
    var own := if Anchored(First(t)) then 1 else 0;
    if k >= own { DefNamed(t.kids, k - own); }
  }
}
