/**
 * Which anchors reach a reference cycle: the colouring depth-first search of
 * alias resolution. A search that meets a cycle stops at once and leaves the
 * nodes it was in grey; they stay grey for the searches that follow.
 */
module CycleDetection {
  import opened Events
  import opened AnchorTable

  datatype Graph = Graph(evs: seq<Event>, entries: seq<Entry>)

  predicate Sound(g: Graph) {
    Inside(g.evs, g.entries)
  }

  /** The anchor that the alias at `j` refers to. */
  function Ref(g: Graph, j: nat): (r: Option<nat>)
    requires j < |g.evs|
    ensures r.Some? ==> r.value < |g.entries|
  {
    if g.evs[j].typ == AliasEvent then LastNamed(Names(g.entries), |g.entries|, g.evs[j].value) else None
  }

  /** The node of anchor `i` holds an alias that refers to anchor `k`. */
  ghost predicate Edge(g: Graph, i: nat, k: nat)
    requires Sound(g)
  {
    i < |g.entries| && k < |g.entries| &&
    exists j {:trigger Ref(g, j)} | g.entries[i].start <= j < g.entries[i].end ::
      Ref(g, j) == Some(k)
  }

  ghost predicate Walk(g: Graph, p: seq<nat>)
    requires Sound(g)
  {
    p != [] && (|p| > 1 ==> Edge(g, p[0], p[1]) && Walk(g, p[1..]))
  }

  predicate Repeats(p: seq<nat>) {
    exists a, b | 0 <= a < b < |p| :: p[a] == p[b]
  }

  /** Some walk from `i` comes back to an anchor it was at. */
  ghost predicate ReachesCycle(g: Graph, i: nat)
    requires Sound(g)
  {
    exists p :: Walk(g, p) && p[0] == i && Repeats(p)
  }

  lemma {:induction false} WalkJoin(g: Graph, p: seq<nat>, q: seq<nat>)
    requires Sound(g) && Walk(g, p) && Walk(g, q) && Edge(g, p[|p| - 1], q[0])
    ensures Walk(g, p + q)
    decreases |p|
  {
    if |p| == 1 {
      assert (p + q)[1..] == q;
    } else {
      WalkJoin(g, p[1..], q);
      assert (p + q)[1..] == p[1..] + q;
    }
  }

  lemma {:induction false} WalkTail(g: Graph, p: seq<nat>, a: nat)
    requires Sound(g) && Walk(g, p) && a < |p|
    ensures Walk(g, p[a..])
  {
    if a > 0 {
      WalkTail(g, p[1..], a - 1);
      assert p[1..][a - 1..] == p[a..];
    }
  }

  /** Everything on a walk to a node on it, or to one that reaches a cycle, reaches a cycle. */
  lemma WalkReaches(g: Graph, p: seq<nat>, k: nat)
    requires Sound(g) && Walk(g, p) && Edge(g, p[|p| - 1], k) && (k in p || ReachesCycle(g, k))
    ensures forall i | i in p :: ReachesCycle(g, i)
  {
    forall i | i in p ensures ReachesCycle(g, i) {
      var a :| 0 <= a < |p| && p[a] == i;
      if k in p {
        var b :| 0 <= b < |p| && p[b] == k;
        WalkBack(g, p, a, b);
      } else {
        var q :| Walk(g, q) && q[0] == k && Repeats(q);
        WalkOn(g, p, a, q);
      }
    }
  }

  lemma CycleBy(g: Graph, p: seq<nat>, i: nat)
    requires Sound(g) && Walk(g, p) && Repeats(p) && p[0] == i
    ensures ReachesCycle(g, i)
  {}

  lemma WalkBack(g: Graph, p: seq<nat>, a: nat, b: nat)
    requires Sound(g) && Walk(g, p) && a < |p| && b < |p| && Edge(g, p[|p| - 1], p[b])
    ensures ReachesCycle(g, p[a])
  {
    WalkTail(g, p, a);
    WalkTail(g, p, b);
    WalkJoin(g, p[a..], p[b..]);
    RepeatsEnd(p[a..], p[b..]);
    CycleBy(g, p[a..] + p[b..], p[a]);
  }

  lemma WalkOn(g: Graph, p: seq<nat>, a: nat, q: seq<nat>)
    requires Sound(g) && Walk(g, p) && a < |p| && Walk(g, q) && Edge(g, p[|p| - 1], q[0]) && Repeats(q)
    ensures ReachesCycle(g, p[a])
  {
    WalkTail(g, p, a);
    var tail := p[a..];
    WalkJoin(g, tail, q);
    RepeatsAfter(tail, q);
    CycleBy(g, tail + q, p[a]);
  }

  lemma RepeatsEnd(p: seq<nat>, q: seq<nat>)
    requires p != [] && q != [] && p[|p| - 1] == q[|q| - 1]
    ensures Repeats(p + q)
  {
    var r := p + q;
    assert r[|p| - 1] == r[|r| - 1];
  }

  lemma RepeatsAfter(p: seq<nat>, q: seq<nat>)
    requires Repeats(q)
    ensures Repeats(p + q)
  {
    var c, d :| 0 <= c < d < |q| && q[c] == q[d];
    var r := p + q;
    assert r[|p| + c] == r[|p| + d];
  }

  // ----- finished nodes are ranked: their references lead strictly down -----

  /** Every reference of a ranked anchor is to one of lower rank. */
  ghost predicate Ranked(g: Graph, rank: map<nat, nat>)
    requires Sound(g)
  {
    (forall i | i in rank :: i < |g.entries| && rank[i] < |rank|) &&
    (forall i, k {:trigger Edge(g, i, k)} | i in rank && Edge(g, i, k) :: k in rank && rank[k] < rank[i])
  }

  lemma {:induction false} RankFalls(g: Graph, rank: map<nat, nat>, p: seq<nat>, b: nat)
    requires Sound(g) && Ranked(g, rank) && Walk(g, p) && p[0] in rank && b < |p|
    ensures p[b] in rank && rank[p[b]] + b <= rank[p[0]]
  {
    if b > 0 { RankFalls(g, rank, p[1..], b - 1); }
  }

  lemma RankedAcyclic(g: Graph, rank: map<nat, nat>, i: nat)
    requires Sound(g) && Ranked(g, rank) && i in rank
    ensures !ReachesCycle(g, i)
  {
    if ReachesCycle(g, i) {
      var p :| Walk(g, p) && p[0] == i && Repeats(p);
      var a, b :| 0 <= a < b < |p| && p[a] == p[b];
      RankFalls(g, rank, p, a);
      WalkTail(g, p, a);
      RankFalls(g, rank, p[a..], b - a);
    }
  }

  lemma RankNext(g: Graph, rank: map<nat, nat>, i: nat)
    requires Sound(g) && Ranked(g, rank) && i < |g.entries| && i !in rank
    requires forall k | Edge(g, i, k) :: k in rank
    ensures Ranked(g, rank[i := |rank|])
  {
    var r := rank[i := |rank|];
    assert r.Keys == rank.Keys + {i};
    assert |r| == |r.Keys| == |rank.Keys| + 1;
  }

  function Below(n: nat): (s: set<nat>)
    ensures |s| == n && forall i: nat :: i in s <==> i < n
  {
    if n == 0 then {} else Below(n - 1) + {n - 1}
  }

  lemma {:induction false} SubsetSize<T>(a: set<T>, b: set<T>)
    requires a <= b
    ensures |a| <= |b|
    decreases a
  {
    if a != {} {
      var x :| x in a;
      SubsetSize(a - {x}, b - {x});
    }
  }

  // ----- the search -----

  datatype Color = White | Grey | Black

  function Whites(color: seq<Color>): set<nat> {
    set i: nat | i < |color| && color[i] == White
  }

  /** Black nodes are the ranked ones; a grey node is on the current path or reaches a cycle. */
  ghost predicate Coloured(g: Graph, color: seq<Color>, path: seq<nat>, rank: map<nat, nat>)
    requires Sound(g)
  {
    && |color| == |g.entries|
    && Ranked(g, rank)
    && (forall i: nat | i < |color| :: color[i] == Black <==> i in rank)
    && (forall i: nat | i < |color| && color[i] == Grey :: i in path || ReachesCycle(g, i))
    && (forall i | i in path :: i < |color| && color[i] == Grey)
  }

  /** From `was` to `now`, only white nodes changed colour. */
  predicate Later(was: seq<Color>, now: seq<Color>) {
    |was| == |now| && forall i | 0 <= i < |was| && was[i] != White :: now[i] == was[i]
  }

  predicate NoNewGrey(was: seq<Color>, now: seq<Color>) {
    |was| == |now| && forall i | 0 <= i < |was| && now[i] == Grey :: was[i] == Grey
  }

  lemma LaterWhites(was: seq<Color>, now: seq<Color>, idx: nat)
    requires idx < |was| && was[idx] == White && Later(was[idx := Grey], now)
    ensures Later(was, now) && Whites(now) <= Whites(was) - {idx} && Whites(now) < Whites(was)
  {
    assert idx in Whites(was);
  }

  /** Entering a white node. */
  lemma Enter(g: Graph, color: seq<Color>, path: seq<nat>, rank: map<nat, nat>, idx: nat)
    requires Sound(g) && Coloured(g, color, path, rank) && idx < |color| && color[idx] == White
    ensures Coloured(g, color[idx := Grey], path + [idx], rank)
  {
    var here := path + [idx];
    assert forall i | i in path :: i in here;
  }

  /** Leaving a node whose references are all finished. */
  lemma Leave(g: Graph, color: seq<Color>, path: seq<nat>, rank: map<nat, nat>, idx: nat)
    requires Sound(g) && Coloured(g, color, path + [idx], rank) && idx < |color| && idx !in path
    requires forall k | Edge(g, idx, k) :: k in rank
    ensures Coloured(g, color[idx := Black], path, rank[idx := |rank|])
  {
    var here := path + [idx];
    assert here[|path|] == idx && color[idx] == Grey;
    RankNext(g, rank, idx);
    forall i | i in path ensures i < |color| && color[idx := Black][i] == Grey {
      assert i in here;
    }
  }

  /** A cycle was met: everything on the path reaches it. */
  lemma Met(g: Graph, color: seq<Color>, here: seq<nat>, rank: map<nat, nat>, k: nat)
    requires Sound(g) && Coloured(g, color, here, rank) && Walk(g, here)
    requires Edge(g, here[|here| - 1], k) && k < |color| && color[k] == Grey
    ensures Coloured(g, color, [], rank)
  {
    WalkReaches(g, here, k);
  }

  /** alias_has_cycle: from the white node `idx`, with `path` the nodes it is called from. */
  method HasCycle(t: Anchors, evs: seq<Event>, idx: nat, color: array<Color>, ghost path: seq<nat>, ghost rank: map<nat, nat>)
    returns (found: bool, ghost rank': map<nat, nat>)
    requires t.Valid() && Sound(Graph(evs, t.entries))
    requires Coloured(Graph(evs, t.entries), color[..], path, rank)
    requires idx < color.Length && color[idx] == White && Walk(Graph(evs, t.entries), path + [idx])
    modifies color
    ensures Later(old(color[..]), color[..]) && color[idx] == if found then Grey else Black
    ensures Coloured(Graph(evs, t.entries), color[..], if found then [] else path, rank')
    ensures !found ==> NoNewGrey(old(color[..]), color[..])
    decreases Whites(color[..]), 0
  {
    ghost var g := Graph(evs, t.entries);
    ghost var here := path + [idx];
    ghost var was := color[..];
    ghost var entered := was[idx := Grey];
    rank' := rank;
    Enter(g, was, path, rank, idx);
    color[idx] := Grey;
    assert color[..] == entered;
    var a := t.entries[idx];
    for j := a.start to a.end
      invariant Later(entered, color[..]) && NoNewGrey(entered, color[..])
      invariant Coloured(g, color[..], here, rank')
      invariant RefsFinished(g, a, j, rank')
    {
      ghost var finished := rank';
      LaterWhites(was, color[..], idx);
      found, rank' := Follow(t, evs, j, color, here, rank');
      if found { return; }
      FinishedNext(g, a, j, finished, rank');
    }
    AllFinished(g, idx, rank');
    Leave(g, color[..], path, rank', idx);
    rank' := rank'[idx := |rank'|];
    ghost var now := color[..];
    color[idx] := Black;
    assert color[..] == now[idx := Black];
    found := false;
  }

  /** The event at `j` in the last node of `here`: an alias of a grey anchor is a
      cycle, a white one is searched. */
  method Follow(t: Anchors, evs: seq<Event>, j: nat, color: array<Color>, ghost here: seq<nat>, ghost rank: map<nat, nat>)
    returns (found: bool, ghost rank': map<nat, nat>)
    requires t.Valid() && Sound(Graph(evs, t.entries))
    requires Coloured(Graph(evs, t.entries), color[..], here, rank)
    requires j < |evs| && Walk(Graph(evs, t.entries), here)
    requires here[|here| - 1] < |t.entries| && t.entries[here[|here| - 1]].start <= j < t.entries[here[|here| - 1]].end
    modifies color
    ensures Later(old(color[..]), color[..])
    ensures Coloured(Graph(evs, t.entries), color[..], if found then [] else here, rank')
    ensures !found ==> NoNewGrey(old(color[..]), color[..]) && rank.Keys <= rank'.Keys
    ensures !found && Ref(Graph(evs, t.entries), j).Some? ==> Ref(Graph(evs, t.entries), j).value in rank'
    decreases Whites(color[..]), 1
  {
    ghost var g := Graph(evs, t.entries);
    ghost var was := color[..];
    found, rank' := false, rank;
    if evs[j].typ != AliasEvent { return; }
    var r := t.Lookup(evs[j].value);
    if r.None? { return; }
    var k := r.value;
    EdgeAt(g, here[|here| - 1], j);
    if color[k] == Grey {
      Met(g, color[..], here, rank, k);
      found := true;
    } else if color[k] == White {
      assert Walk(g, [k]);
      WalkJoin(g, here, [k]);
      found, rank' := HasCycle(t, evs, k, color, here, rank);
      if !found { Grown(g, was, rank, color[..], rank', here); }
    }
  }

  /** What the aliases of the node `a` before `j` refer to is finished. */
  ghost predicate RefsFinished(g: Graph, a: Entry, j: nat, rank: map<nat, nat>)
    requires j <= |g.evs|
  {
    forall x {:trigger Ref(g, x)} | a.start <= x < j && Ref(g, x).Some? :: Ref(g, x).value in rank
  }

  lemma FinishedNext(g: Graph, a: Entry, j: nat, rank: map<nat, nat>, rank': map<nat, nat>)
    requires j < |g.evs| && RefsFinished(g, a, j, rank) && rank.Keys <= rank'.Keys
    requires Ref(g, j).Some? ==> Ref(g, j).value in rank'
    ensures RefsFinished(g, a, j + 1, rank')
  {}

  lemma EdgeAt(g: Graph, idx: nat, j: nat)
    requires Sound(g) && idx < |g.entries| && g.entries[idx].start <= j < g.entries[idx].end <= |g.evs| && Ref(g, j).Some?
    ensures Edge(g, idx, Ref(g, j).value)
  {}

  lemma AllFinished(g: Graph, idx: nat, rank: map<nat, nat>)
    requires Sound(g) && idx < |g.entries| && g.entries[idx].end <= |g.evs| && RefsFinished(g, g.entries[idx], g.entries[idx].end, rank)
    ensures forall k | Edge(g, idx, k) :: k in rank
  {}

  /** What was finished stays finished. */
  lemma Grown(g: Graph, was: seq<Color>, rank: map<nat, nat>, now: seq<Color>, rank': map<nat, nat>, path: seq<nat>)
    requires Sound(g) && Coloured(g, was, path, rank) && Coloured(g, now, path, rank') && Later(was, now)
    ensures rank.Keys <= rank'.Keys
  {
    forall i | i in rank ensures i in rank' {
      assert was[i] == Black;
    }
  }

  predicate Visited(color: seq<Color>, n: nat) {
    forall k | 0 <= k < n && k < |color| :: color[k] != White
  }

  lemma VisitedLater(was: seq<Color>, now: seq<Color>, i: nat)
    requires Visited(was, i) && Later(was, now) && i < |now| && now[i] != White
    ensures Visited(now, i + 1)
  {}

  predicate GreyFlags(flags: seq<bool>, color: seq<Color>) {
    |flags| == |color| && forall k | 0 <= k < |flags| :: flags[k] <==> color[k] == Grey
  }

  function Seen(p: seq<nat>): (s: set<nat>) {
    if p == [] then {} else {p[0]} + Seen(p[1..])
  }

  lemma {:induction false} SeenIn(p: seq<nat>, x: nat)
    ensures x in Seen(p) <==> x in p
  {
    if p != [] { SeenIn(p[1..], x); }
  }

  lemma TailDistinct(p: seq<nat>)
    requires p != [] && !Repeats(p)
    ensures !Repeats(p[1..])
  {
    var q := p[1..];
    forall a, b | 0 <= a < b < |q| ensures q[a] != q[b] {
      assert p[a + 1] != p[b + 1];
    }
  }

  lemma {:induction false} SeenSize(p: seq<nat>)
    requires !Repeats(p)
    ensures |Seen(p)| == |p|
  {
    if p != [] {
      var q := p[1..];
      TailDistinct(p);
      SeenSize(q);
      SeenIn(q, p[0]);
      assert forall b | 0 <= b < |q| :: q[b] == p[b + 1];
    }
  }

  lemma {:induction false} WalkInside(g: Graph, p: seq<nat>)
    requires Sound(g) && Walk(g, p) && p[0] < |g.entries|
    ensures Seen(p) <= Below(|g.entries|)
  {
    if |p| > 1 { WalkInside(g, p[1..]); }
  }

  /** A walk longer than there are anchors comes back to one. */
  lemma LongWalkRepeats(g: Graph, p: seq<nat>)
    requires Sound(g) && Walk(g, p) && |p| > |g.entries| && p[0] < |g.entries|
    ensures Repeats(p)
  {
    if !Repeats(p) {
      WalkInside(g, p);
      SeenSize(p);
      SubsetSize(Seen(p), Below(|g.entries|));
    }
  }

  method MarkGrey(color: array<Color>, flags: array<bool>)
    requires color.Length == flags.Length && forall k | 0 <= k < flags.Length && flags[k] :: color[k] == Grey
    modifies flags
    ensures GreyFlags(flags[..], color[..])
  {
    for k := 0 to color.Length
      invariant forall i | 0 <= i < k :: flags[i] <==> color[i] == Grey
      invariant forall i | k <= i < flags.Length && flags[i] :: color[i] == Grey
    {
      if color[k] == Grey { flags[k] := true; }
    }
  }

  /** For each anchor, does it reach a reference cycle? */
  ghost function Cyclic(g: Graph): (r: seq<bool>)
    requires Sound(g)
    ensures |r| == |g.entries|
  {
    seq(|g.entries|, i requires 0 <= i < |g.entries| => ReachesCycle(g, i))
  }

  /** The search from every white node; what is grey after one that found a cycle is flagged. */
  method FlagCycles(t: Anchors, evs: seq<Event>) returns (flags: array<bool>)
    requires t.Valid() && Sound(Graph(evs, t.entries))
    ensures fresh(flags) && flags[..] == Cyclic(Graph(evs, t.entries))
  {
    hide Cyclic, ReachesCycle;
    ghost var g := Graph(evs, t.entries);
    var color := new Color[|t.entries|](_ => White);
    flags := new bool[|t.entries|](_ => false);
    ghost var rank := map[];
    for i := 0 to color.Length
      invariant Coloured(g, color[..], [], rank)
      invariant GreyFlags(flags[..], color[..])
      invariant Visited(color[..], i)
    {
      if color[i] == White {
        ghost var was := color[..];
        assert [] + [i] == [i] && Walk(g, [i]);
        var found;
        found, rank := HasCycle(t, evs, i, color, [], rank);
        VisitedLater(was, color[..], i);
        if found {
          GreyKept(flags[..], was, color[..]);
          MarkGrey(color, flags);
        } else {
          GreySame(flags[..], was, color[..]);
        }
      } else {
        VisitedLater(color[..], color[..], i);
      }
    }
    AllColoured(g, color[..], flags[..], rank);
  }

  lemma GreyKept(flags: seq<bool>, was: seq<Color>, now: seq<Color>)
    requires GreyFlags(flags, was) && Later(was, now)
    ensures forall k | 0 <= k < |flags| && flags[k] :: now[k] == Grey
  {}

  lemma GreySame(flags: seq<bool>, was: seq<Color>, now: seq<Color>)
    requires GreyFlags(flags, was) && Later(was, now) && NoNewGrey(was, now)
    ensures GreyFlags(flags, now)
  {}

  lemma AllColoured(g: Graph, color: seq<Color>, flags: seq<bool>, rank: map<nat, nat>)
    requires Sound(g) && Coloured(g, color, [], rank) && Visited(color, |color|) && GreyFlags(flags, color)
    ensures flags == Cyclic(g)
  {
    forall i: nat | i < |color| ensures color[i] == Grey <==> ReachesCycle(g, i) {
      if i in rank { RankedAcyclic(g, rank, i); }
    }
  }

  // ----- the edges, on the fields -----

  /** The event at `j` is an alias of the name that anchor `k` is the last to have. */
  predicate RefersTo(g: Graph, j: nat, k: nat)
    requires j < |g.evs| && k < |g.entries|
  {
    g.evs[j].typ == AliasEvent && g.entries[k].name == g.evs[j].value &&
    forall m | k < m < |g.entries| :: g.entries[m].name != g.evs[j].value
  }

  lemma RefIs(g: Graph, j: nat, k: nat)
    requires j < |g.evs| && k < |g.entries|
    ensures Ref(g, j) == Some(k) <==> RefersTo(g, j, k)
  {
    LastNamedIsLast(Names(g.entries), |g.entries|, g.evs[j].value);
    assert forall m | 0 <= m < |g.entries| :: Names(g.entries)[m] == g.entries[m].name;
  }

  /** An edge is an alias in the anchor's range of events, to the last anchor of its name. */
  lemma EdgeIs(g: Graph, i: nat, k: nat)
    requires Sound(g) && i < |g.entries| && k < |g.entries|
    ensures Edge(g, i, k) <==> exists j: nat | g.entries[i].start <= j < g.entries[i].end :: RefersTo(g, j, k)
  {
    hide Ref;
    forall j: nat | j < |g.evs| ensures Ref(g, j) == Some(k) <==> RefersTo(g, j, k) { RefIs(g, j, k); }
  }
}
