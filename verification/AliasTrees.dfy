/**
 * Alias expansion on trees. Every alias to a known anchor stands for a copy of
 * the anchored node, itself expanded, without anchors. One pass of the code
 * substitutes what the anchors hold at that time, so that t passes reach
 * 2^t - 1 references deep.
 */
module AliasTrees {
  import opened Events
  import opened NodeTrees
  import opened AnchorTable

  datatype Def = Def(name: string, body: Tree)

  /** Only nodes carry anchors, and aliases are not nodes of their own. */
  predicate Tidy(t: Tree)
    decreases t, 0
  {
    match t
    case Leaf(e) => e.typ == AliasEvent ==> !Anchored(e)
    case Coll(_, kids, close) => !Anchored(close) && AllTidy(kids)
  }

  predicate AllTidy(ts: seq<Tree>)
    decreases ts, 1
  {
    ts == [] || (Tidy(ts[0]) && AllTidy(ts[1..]))
  }

  /** The anchored nodes in the order they start. */
  function Defs(t: Tree): seq<Def>
    decreases t, 0
  {
    (if Anchored(First(t)) then [Def(First(t).anchor.value, t)] else []) +
    if t.Coll? then DefsAll(t.kids) else []
  }

  function DefsAll(ts: seq<Tree>): seq<Def>
    decreases ts, 1
  {
    if ts == [] then [] else Defs(ts[0]) + DefsAll(ts[1..])
  }

  function NoAnchor(e: Event): Event { e.(anchor := None) }

  /** A copy without anchors: not a new definition. */
  function Strip(t: Tree): (r: Tree)
    decreases t, 0
  {
    match t
    case Leaf(e) => Leaf(NoAnchor(e))
    case Coll(open, kids, close) => Coll(NoAnchor(open), StripAll(kids), NoAnchor(close))
  }

  function StripAll(ts: seq<Tree>): seq<Tree>
    decreases ts, 1
  {
    if ts == [] then [] else [Strip(ts[0])] + StripAll(ts[1..])
  }

  /** What aliases are looked up in: the anchors' names, and which reach a cycle. */
  datatype Keys = Keys(names: seq<string>, flags: seq<bool>)

  predicate Aligned(keys: Keys, bodies: seq<Tree>) {
    |keys.names| == |keys.flags| == |bodies|
  }

  /** The anchor an event is replaced by. */
  function Target(keys: Keys, e: Event): (r: Option<nat>)
    requires |keys.names| == |keys.flags|
    ensures r.Some? ==> r.value < |keys.names| && !keys.flags[r.value] && e.typ == AliasEvent
  {
    if e.typ != AliasEvent then None
    else
      match LastNamed(keys.names, |keys.names|, e.value)
      case Some(k) => if keys.flags[k] then None else Some(k)
      case None => None
  }

  function Sub(keys: Keys, bodies: seq<Tree>, t: Tree): Tree
    requires Aligned(keys, bodies)
    decreases t, 0
  {
    match t
    case Leaf(e) =>
      var k := Target(keys, e);
      if k.Some? then Strip(bodies[k.value]) else t
    case Coll(open, kids, close) => Coll(open, SubAll(keys, bodies, kids), close)
  }

  function SubAll(keys: Keys, bodies: seq<Tree>, ts: seq<Tree>): seq<Tree>
    requires Aligned(keys, bodies)
    decreases ts, 1
  {
    if ts == [] then [] else [Sub(keys, bodies, ts[0])] + SubAll(keys, bodies, ts[1..])
  }

  /** Expansion `n` references deep. */
  function Unfold(keys: Keys, bodies: seq<Tree>, n: nat, t: Tree): Tree
    requires Aligned(keys, bodies)
    decreases n, t, 0
  {
    if n == 0 then t else
      match t
      case Leaf(e) =>
        var k := Target(keys, e);
        if k.Some? then Strip(Unfold(keys, bodies, n - 1, bodies[k.value])) else t
      case Coll(open, kids, close) => Coll(open, UnfoldAll(keys, bodies, n, kids), close)
  }

  function UnfoldAll(keys: Keys, bodies: seq<Tree>, n: nat, ts: seq<Tree>): seq<Tree>
    requires Aligned(keys, bodies)
    decreases n, ts, 1
  {
    if ts == [] then [] else [Unfold(keys, bodies, n, ts[0])] + UnfoldAll(keys, bodies, n, ts[1..])
  }

  /** What the anchors hold once their own aliases are expanded `n` deep. */
  function Deepened(keys: Keys, bodies: seq<Tree>, n: nat): (r: seq<Tree>)
    requires Aligned(keys, bodies)
    ensures Aligned(keys, r)
  {
    seq(|bodies|, i requires 0 <= i < |bodies| => Unfold(keys, bodies, n, bodies[i]))
  }

  // ----- substitution and copies -----

  lemma {:induction false} StripTwice(t: Tree)
    ensures Strip(Strip(t)) == Strip(t)
    decreases t, 0
  {
    if t.Coll? { StripAllTwice(t.kids); }
  }

  lemma {:induction false} StripAllTwice(ts: seq<Tree>)
    ensures StripAll(StripAll(ts)) == StripAll(ts)
    decreases ts, 1
  {
    if ts != [] {
      StripTwice(ts[0]);
      StripAllTwice(ts[1..]);
    }
  }

  /** Copying and substituting commute. */
  lemma {:induction false} SubStrip(keys: Keys, bodies: seq<Tree>, t: Tree)
    requires Aligned(keys, bodies)
    ensures Sub(keys, bodies, Strip(t)) == Strip(Sub(keys, bodies, t))
    decreases t, 0
  {
    match t
    case Leaf(e) =>
      assert Target(keys, NoAnchor(e)) == Target(keys, e);
      if Target(keys, e).Some? { StripTwice(bodies[Target(keys, e).value]); }
    case Coll(_, kids, _) => SubStripAll(keys, bodies, kids);
  }

  lemma {:induction false} SubStripAll(keys: Keys, bodies: seq<Tree>, ts: seq<Tree>)
    requires Aligned(keys, bodies)
    ensures SubAll(keys, bodies, StripAll(ts)) == StripAll(SubAll(keys, bodies, ts))
    decreases ts, 1
  {
    if ts != [] {
      SubStrip(keys, bodies, ts[0]);
      SubStripAll(keys, bodies, ts[1..]);
    }
  }

  lemma {:induction false} UnfoldNone(keys: Keys, bodies: seq<Tree>, ts: seq<Tree>)
    requires Aligned(keys, bodies)
    ensures UnfoldAll(keys, bodies, 0, ts) == ts
    decreases |ts|
  {
    if ts != [] { UnfoldNone(keys, bodies, ts[1..]); }
  }

  /** One pass of anchors that are `j` deep over a tree that is `n` deep makes it
      n + j + 1 deep: each pass doubles the depth reached. */
  lemma {:induction false} PassDeepens(keys: Keys, bodies: seq<Tree>, j: nat, n: nat, t: Tree)
    requires Aligned(keys, bodies)
    ensures Sub(keys, Deepened(keys, bodies, j), Unfold(keys, bodies, n, t)) == Unfold(keys, bodies, n + j + 1, t)
    decreases n, t, 0
  {
    match t
    case Leaf(e) =>
      var k := Target(keys, e);
      if k.Some? && n > 0 {
        SubStrip(keys, Deepened(keys, bodies, j), Unfold(keys, bodies, n - 1, bodies[k.value]));
        PassDeepens(keys, bodies, j, n - 1, bodies[k.value]);
      }
    case Coll(_, kids, _) =>
      if n == 0 { UnfoldNone(keys, bodies, kids); }
      PassDeepensAll(keys, bodies, j, n, kids);
  }

  lemma {:induction false} PassDeepensAll(keys: Keys, bodies: seq<Tree>, j: nat, n: nat, ts: seq<Tree>)
    requires Aligned(keys, bodies)
    ensures SubAll(keys, Deepened(keys, bodies, j), UnfoldAll(keys, bodies, n, ts)) == UnfoldAll(keys, bodies, n + j + 1, ts)
    decreases n, ts, 1
  {
    if ts != [] {
      PassDeepens(keys, bodies, j, n, ts[0]);
      PassDeepensAll(keys, bodies, j, n, ts[1..]);
    }
  }

  // ----- the anchors of an expanded tree are the same anchors -----

  function UnfoldDefs(keys: Keys, bodies: seq<Tree>, n: nat, ds: seq<Def>): seq<Def>
    requires Aligned(keys, bodies)
  {
    seq(|ds|, i requires 0 <= i < |ds| => Def(ds[i].name, Unfold(keys, bodies, n, ds[i].body)))
  }

  lemma {:induction false} StrippedDefs(t: Tree)
    ensures Defs(Strip(t)) == []
    decreases t, 0
  {
    if t.Coll? { StrippedAllDefs(t.kids); }
  }

  lemma {:induction false} StrippedAllDefs(ts: seq<Tree>)
    ensures DefsAll(StripAll(ts)) == []
    decreases ts, 1
  {
    if ts != [] {
      StrippedDefs(ts[0]);
      StrippedAllDefs(ts[1..]);
      assert StripAll(ts)[1..] == StripAll(ts[1..]);
    }
  }

  /** Copies carry no anchors, so expansion keeps the list of anchors. */
  lemma {:induction false} DefsOfUnfold(keys: Keys, bodies: seq<Tree>, n: nat, t: Tree)
    requires Aligned(keys, bodies) && Tidy(t)
    ensures Defs(Unfold(keys, bodies, n, t)) == UnfoldDefs(keys, bodies, n, Defs(t))
    decreases t, 0
  {
    match t
    case Leaf(e) =>
      var k := Target(keys, e);
      if n > 0 && k.Some? { StrippedDefs(Unfold(keys, bodies, n - 1, bodies[k.value])); }
    case Coll(open, kids, close) =>
      UnfoldNone(keys, bodies, kids);
      DefsOfUnfoldAll(keys, bodies, n, kids);
  }

  lemma {:induction false} DefsOfUnfoldAll(keys: Keys, bodies: seq<Tree>, n: nat, ts: seq<Tree>)
    requires Aligned(keys, bodies) && AllTidy(ts)
    ensures DefsAll(UnfoldAll(keys, bodies, n, ts)) == UnfoldDefs(keys, bodies, n, DefsAll(ts))
    decreases ts, 1
  {
    if ts != [] {
      DefsOfUnfold(keys, bodies, n, ts[0]);
      DefsOfUnfoldAll(keys, bodies, n, ts[1..]);
      assert UnfoldAll(keys, bodies, n, ts)[1..] == UnfoldAll(keys, bodies, n, ts[1..]);
    }
  }

  // ----- expansion keeps brackets paired -----

  lemma {:induction false} StripShaped(t: Tree)
    requires Shaped(t)
    ensures Shaped(Strip(t)) && Tidy(Strip(t))
    decreases t, 0
  {
    if t.Coll? { StripAllShaped(t.kids); }
  }

  lemma {:induction false} StripAllShaped(ts: seq<Tree>)
    requires AllShaped(ts)
    ensures AllShaped(StripAll(ts)) && AllTidy(StripAll(ts))
    decreases ts, 1
  {
    if ts != [] {
      StripShaped(ts[0]);
      StripAllShaped(ts[1..]);
      assert StripAll(ts)[1..] == StripAll(ts[1..]);
    }
  }

  predicate Neat(ts: seq<Tree>) {
    forall i | 0 <= i < |ts| :: Shaped(ts[i]) && Tidy(ts[i])
  }

  lemma {:induction false} UnfoldShaped(keys: Keys, bodies: seq<Tree>, n: nat, t: Tree)
    requires Aligned(keys, bodies) && Neat(bodies) && Shaped(t) && Tidy(t)
    ensures Shaped(Unfold(keys, bodies, n, t)) && Tidy(Unfold(keys, bodies, n, t))
    decreases n, t, 0
  {
    match t
    case Leaf(e) =>
      var k := Target(keys, e);
      if n > 0 && k.Some? {
        UnfoldShaped(keys, bodies, n - 1, bodies[k.value]);
        StripShaped(Unfold(keys, bodies, n - 1, bodies[k.value]));
      }
    case Coll(_, kids, _) =>
      UnfoldNone(keys, bodies, kids);
      UnfoldShapedAll(keys, bodies, n, kids);
  }

  lemma {:induction false} UnfoldShapedAll(keys: Keys, bodies: seq<Tree>, n: nat, ts: seq<Tree>)
    requires Aligned(keys, bodies) && Neat(bodies) && AllShaped(ts) && AllTidy(ts)
    ensures AllShaped(UnfoldAll(keys, bodies, n, ts)) && AllTidy(UnfoldAll(keys, bodies, n, ts))
    decreases n, ts, 1
  {
    if ts != [] {
      UnfoldShaped(keys, bodies, n, ts[0]);
      UnfoldShapedAll(keys, bodies, n, ts[1..]);
      assert UnfoldAll(keys, bodies, n, ts)[1..] == UnfoldAll(keys, bodies, n, ts[1..]);
    }
  }

  function Bodies(ds: seq<Def>): seq<Tree> {
    seq(|ds|, i requires 0 <= i < |ds| => ds[i].body)
  }

  lemma {:induction false} DefsNeat(t: Tree)
    requires Shaped(t) && Tidy(t)
    ensures Neat(Bodies(Defs(t)))
    decreases t, 0
  {
    var inner := if t.Coll? then DefsAll(t.kids) else [];
    if t.Coll? { AllDefsNeat(t.kids); }
    assert Bodies(Defs(t)) == (if Anchored(First(t)) then [t] else []) + Bodies(inner);
  }

  lemma {:induction false} AllDefsNeat(ts: seq<Tree>)
    requires AllShaped(ts) && AllTidy(ts)
    ensures Neat(Bodies(DefsAll(ts)))
    decreases ts, 1
  {
    if ts != [] {
      DefsNeat(ts[0]);
      AllDefsNeat(ts[1..]);
      assert Bodies(DefsAll(ts)) == Bodies(Defs(ts[0])) + Bodies(DefsAll(ts[1..]));
    }
  }

  // ----- nothing left to replace -----

  /** No alias is left to replace. */
  predicate Settled(keys: Keys, t: Tree)
    requires |keys.names| == |keys.flags|
    decreases t, 0
  {
    match t
    case Leaf(e) => Target(keys, e).None?
    case Coll(_, kids, _) => AllSettled(keys, kids)
  }

  predicate AllSettled(keys: Keys, ts: seq<Tree>)
    requires |keys.names| == |keys.flags|
    decreases ts, 1
  {
    ts == [] || (Settled(keys, ts[0]) && AllSettled(keys, ts[1..]))
  }

  /** A tree with nothing to replace is its own expansion. */
  lemma {:induction false} SettledStays(keys: Keys, bodies: seq<Tree>, ts: seq<Tree>)
    requires Aligned(keys, bodies) && AllSettled(keys, ts)
    ensures SubAll(keys, bodies, ts) == ts
    decreases ts
  {
    if ts != [] {
      if ts[0].Coll? { SettledStays(keys, bodies, ts[0].kids); }
      SettledStays(keys, bodies, ts[1..]);
    }
  }

  /** Full expansion: as deep as there are anchors. */
  function Full(keys: Keys, bodies: seq<Tree>, t: Tree): Tree
    requires Aligned(keys, bodies)
  {
    Unfold(keys, bodies, |bodies|, t)
  }

  // ----- which aliases are left after n references -----

  /** An alias in `t` is replaced by anchor `k`. */
  predicate Refers(keys: Keys, t: Tree, k: nat)
    requires |keys.names| == |keys.flags|
    decreases t, 0
  {
    match t
    case Leaf(e) => Target(keys, e) == Some(k)
    case Coll(_, kids, _) => AnyRefers(keys, kids, k)
  }

  predicate AnyRefers(keys: Keys, ts: seq<Tree>, k: nat)
    requires |keys.names| == |keys.flags|
    decreases ts, 1
  {
    ts != [] && (Refers(keys, ts[0], k) || AnyRefers(keys, ts[1..], k))
  }

  /** From an alias in one of `ts`, `n` further references lead to anchor `k`. */
  predicate Path(keys: Keys, bodies: seq<Tree>, n: nat, ts: seq<Tree>, k: nat)
    requires Aligned(keys, bodies)
    decreases n
  {
    if n == 0 then AnyRefers(keys, ts, k)
    else exists i: nat | i < |bodies| :: AnyRefers(keys, ts, i) && Path(keys, bodies, n - 1, [bodies[i]], k)
  }

  lemma FirstStep(keys: Keys, bodies: seq<Tree>, n: nat, ts: seq<Tree>, k: nat) returns (i: nat)
    requires Aligned(keys, bodies) && n > 0 && Path(keys, bodies, n, ts, k)
    ensures i < |bodies| && AnyRefers(keys, ts, i) && Path(keys, bodies, n - 1, [bodies[i]], k)
  {
    i :| i < |bodies| && AnyRefers(keys, ts, i) && Path(keys, bodies, n - 1, [bodies[i]], k);
  }

  lemma {:induction false} RefersStrip(keys: Keys, t: Tree, k: nat)
    requires |keys.names| == |keys.flags|
    ensures Refers(keys, Strip(t), k) <==> Refers(keys, t, k)
    decreases t, 0
  {
    match t
    case Leaf(e) => assert Target(keys, NoAnchor(e)) == Target(keys, e);
    case Coll(_, kids, _) => RefersStripAll(keys, kids, k);
  }

  lemma {:induction false} RefersStripAll(keys: Keys, ts: seq<Tree>, k: nat)
    requires |keys.names| == |keys.flags|
    ensures AnyRefers(keys, StripAll(ts), k) <==> AnyRefers(keys, ts, k)
    decreases ts, 1
  {
    if ts != [] {
      RefersStrip(keys, ts[0], k);
      RefersStripAll(keys, ts[1..], k);
      assert StripAll(ts)[1..] == StripAll(ts[1..]);
    }
  }

  lemma PathOfLeaf(keys: Keys, bodies: seq<Tree>, n: nat, e: Event, k: nat)
    requires Aligned(keys, bodies) && n > 0
    ensures Path(keys, bodies, n, [Leaf(e)], k) <==>
            Target(keys, e).Some? && Path(keys, bodies, n - 1, [bodies[Target(keys, e).value]], k)
  {
    assert forall i: nat :: AnyRefers(keys, [Leaf(e)], i) <==> Target(keys, e) == Some(i);
  }

  lemma PathOfColl(keys: Keys, bodies: seq<Tree>, n: nat, t: Tree, k: nat)
    requires Aligned(keys, bodies) && t.Coll?
    ensures Path(keys, bodies, n, [t], k) <==> Path(keys, bodies, n, t.kids, k)
  {
    assert forall i: nat :: AnyRefers(keys, [t], i) <==> AnyRefers(keys, t.kids, i);
  }

  lemma PathOfCons(keys: Keys, bodies: seq<Tree>, n: nat, ts: seq<Tree>, k: nat)
    requires Aligned(keys, bodies) && ts != []
    ensures Path(keys, bodies, n, ts, k) <==> Path(keys, bodies, n, [ts[0]], k) || Path(keys, bodies, n, ts[1..], k)
  {
    assert forall i: nat :: AnyRefers(keys, ts, i) <==> AnyRefers(keys, [ts[0]], i) || AnyRefers(keys, ts[1..], i);
  }

  /** The aliases left after expansion `n` deep are exactly those that n
      references lead to. */
  lemma {:induction false} LeftAfter(keys: Keys, bodies: seq<Tree>, n: nat, t: Tree, k: nat)
    requires Aligned(keys, bodies)
    ensures Refers(keys, Unfold(keys, bodies, n, t), k) <==> Path(keys, bodies, n, [t], k)
    decreases n, t, 0
  {
    if n == 0 {
      assert AnyRefers(keys, [t], k) <==> Refers(keys, t, k);
    } else {
      match t
      case Leaf(e) =>
        PathOfLeaf(keys, bodies, n, e, k);
        var i := Target(keys, e);
        if i.Some? {
          RefersStrip(keys, Unfold(keys, bodies, n - 1, bodies[i.value]), k);
          LeftAfter(keys, bodies, n - 1, bodies[i.value], k);
        }
      case Coll(_, kids, _) =>
        PathOfColl(keys, bodies, n, t, k);
        LeftAfterAll(keys, bodies, n, kids, k);
    }
  }

  lemma {:induction false} LeftAfterAll(keys: Keys, bodies: seq<Tree>, n: nat, ts: seq<Tree>, k: nat)
    requires Aligned(keys, bodies)
    ensures AnyRefers(keys, UnfoldAll(keys, bodies, n, ts), k) <==> Path(keys, bodies, n, ts, k)
    decreases n, ts, 1
  {
    if ts == [] {
      assert forall i: nat :: !AnyRefers(keys, ts, i);
    } else {
      PathOfCons(keys, bodies, n, ts, k);
      LeftAfter(keys, bodies, n, ts[0], k);
      LeftAfterAll(keys, bodies, n, ts[1..], k);
      assert UnfoldAll(keys, bodies, n, ts)[1..] == UnfoldAll(keys, bodies, n, ts[1..]);
    }
  }

  lemma {:induction false} NoneSettled(keys: Keys, ts: seq<Tree>)
    requires |keys.names| == |keys.flags| && forall k: nat :: !AnyRefers(keys, ts, k)
    ensures AllSettled(keys, ts)
    decreases ts
  {
    if ts != [] {
      forall k: nat ensures !AnyRefers(keys, ts[1..], k) && !Refers(keys, ts[0], k) {
        assert !AnyRefers(keys, ts, k);
      }
      if ts[0].Coll? {
        forall k: nat ensures !AnyRefers(keys, ts[0].kids, k) {
          assert !Refers(keys, ts[0], k);
        }
        NoneSettled(keys, ts[0].kids);
      } else {
        var k := Target(keys, ts[0].e);
        assert k.Some? ==> Refers(keys, ts[0], k.value);
      }
      NoneSettled(keys, ts[1..]);
    }
  }

  /** What is replaced at all is an anchor that is not flagged. */
  lemma {:induction false} RefersIn(keys: Keys, ts: seq<Tree>, k: nat) returns (e: Event)
    requires |keys.names| == |keys.flags| && AnyRefers(keys, ts, k)
    ensures e in FlatAll(ts) && Target(keys, e) == Some(k)
    decreases ts
  {
    if Refers(keys, ts[0], k) {
      if ts[0].Leaf? {
        e := ts[0].e;
      } else {
        e := RefersIn(keys, ts[0].kids, k);
      }
      assert e in Flat(ts[0]);
    } else {
      e := RefersIn(keys, ts[1..], k);
    }
  }

  // ----- a deeper expansion is no shorter -----

  lemma {:induction false} StripSize(t: Tree)
    ensures |Flat(Strip(t))| == |Flat(t)|
    decreases t, 0
  {
    if t.Coll? { StripAllSize(t.kids); }
  }

  lemma {:induction false} StripAllSize(ts: seq<Tree>)
    ensures |FlatAll(StripAll(ts))| == |FlatAll(ts)|
    decreases ts, 1
  {
    if ts != [] {
      StripSize(ts[0]);
      StripAllSize(ts[1..]);
      assert StripAll(ts)[1..] == StripAll(ts[1..]);
    }
  }

  lemma {:induction false} DeeperIsLonger(keys: Keys, bodies: seq<Tree>, n: nat, m: nat, t: Tree)
    requires Aligned(keys, bodies) && n <= m
    ensures |Flat(Unfold(keys, bodies, n, t))| <= |Flat(Unfold(keys, bodies, m, t))|
    decreases n, t, 0
  {
    match t
    case Leaf(e) =>
      var k := Target(keys, e);
      if n > 0 && k.Some? {
        DeeperIsLonger(keys, bodies, n - 1, m - 1, bodies[k.value]);
        StripSize(Unfold(keys, bodies, n - 1, bodies[k.value]));
        StripSize(Unfold(keys, bodies, m - 1, bodies[k.value]));
      }
    case Coll(_, kids, _) =>
      UnfoldNone(keys, bodies, kids);
      DeeperIsLongerAll(keys, bodies, n, m, kids);
  }

  lemma {:induction false} DeeperIsLongerAll(keys: Keys, bodies: seq<Tree>, n: nat, m: nat, ts: seq<Tree>)
    requires Aligned(keys, bodies) && n <= m
    ensures |FlatAll(UnfoldAll(keys, bodies, n, ts))| <= |FlatAll(UnfoldAll(keys, bodies, m, ts))|
    decreases n, ts, 1
  {
    if ts != [] {
      DeeperIsLonger(keys, bodies, n, m, ts[0]);
      DeeperIsLongerAll(keys, bodies, n, m, ts[1..]);
      assert UnfoldAll(keys, bodies, n, ts)[1..] == UnfoldAll(keys, bodies, n, ts[1..]);
      assert UnfoldAll(keys, bodies, m, ts)[1..] == UnfoldAll(keys, bodies, m, ts[1..]);
    }
  }
}
