/**
 * What a merge pass does to a mapping, said of its keys and values alone: which
 * values are sources and in what order, what a key's value is afterwards, which
 * pairs are kept, and when the pass fails.
 */
module MergeMeaning {
  import opened Events
  import opened NodeTrees
  import opened AnchorTable
  import opened AliasTrees
  import opened MergeTrees
  import opened Copies

  // ----- keys, sources and their order -----

  /** The `i`-th pair's key is the scalar `key`. */
  predicate KeyAt(kids: seq<Tree>, i: nat, key: string) {
    2 * i + 1 < |kids| && kids[2 * i].Leaf? && kids[2 * i].e.typ == ScalarEvent && kids[2 * i].e.value == key
  }

  /** It is a plain "<<". */
  predicate MergeAt(kids: seq<Tree>, i: nat) {
    KeyAt(kids, i, "<<") && kids[2 * i].e.style == Plain
  }

  /** The first pair with the key. */
  predicate FirstAt(kids: seq<Tree>, i: nat, key: string) {
    KeyAt(kids, i, key) && forall h: nat | h < i :: !KeyAt(kids, h, key)
  }

  /** The first pair with the key that is no merge. */
  predicate ExplicitAt(kids: seq<Tree>, i: nat, key: string) {
    KeyAt(kids, i, key) && !MergeAt(kids, i) && forall h: nat | h < i && KeyAt(kids, h, key) :: MergeAt(kids, h)
  }

  /** The latest anchor of the name. */
  predicate LatestNamed(env: Env, name: string, k: nat) {
    k < |env.names| && env.names[k] == name && forall h | k < h < |env.names| :: env.names[h] != name
  }

  /** `v` is the mapping `m`, or an alias to it. */
  ghost predicate Means(env: Env, v: Tree, m: Tree)
    requires |env.names| == |env.bodies|
  {
    m.Coll? && m.open.typ == MappingStart &&
    (v == m || (v.Leaf? && v.e.typ == AliasEvent && exists k: nat | LatestNamed(env, v.e.value, k) :: env.bodies[k] == m))
  }

  predicate IsSequence(v: Tree) { v.Coll? && v.open.typ == SequenceStart }

  /** The `j`-th source of a merge value. */
  ghost predicate SourceAt(env: Env, v: Tree, j: nat, m: Tree)
    requires |env.names| == |env.bodies|
  {
    if IsSequence(v) then j < |v.kids| && Means(env, v.kids[j], m) else j == 0 && Means(env, v, m)
  }

  /** A mapping or an alias to one. */
  ghost predicate Mergeable(env: Env, v: Tree)
    requires |env.names| == |env.bodies|
  {
    exists m :: Means(env, v, m)
  }

  /** Every value named can be merged. */
  ghost predicate Usable(env: Env, v: Tree)
    requires |env.names| == |env.bodies|
  {
    if IsSequence(v) then forall j | 0 <= j < |v.kids| :: Mergeable(env, v.kids[j]) else Mergeable(env, v)
  }

  /** `n` is a source before the `j`-th of pair `a`. */
  ghost predicate Earlier(env: Env, kids: seq<Tree>, a: nat, j: nat, b: nat, h: nat, n: Tree)
    requires |env.names| == |env.bodies|
  {
    (b < a || (b == a && h < j)) && MergeAt(kids, b) && SourceAt(env, kids[2 * b + 1], h, n)
  }

  predicate Lacks(m: Tree, key: string) {
    m.Coll? ==> forall i: nat | i < |m.kids| :: !KeyAt(m.kids, i, key)
  }

  ghost predicate NoEarlier(env: Env, kids: seq<Tree>, key: string, a: nat, j: nat)
    requires |env.names| == |env.bodies|
  {
    forall b: nat, h: nat, n: Tree | Earlier(env, kids, a, j, b, h, n) :: Lacks(n, key)
  }

  /** The `j`-th source of the `a`-th pair holds the key first, at its `i`-th pair. */
  ghost predicate Brings(env: Env, kids: seq<Tree>, key: string, a: nat, j: nat, m: Tree, i: nat)
    requires |env.names| == |env.bodies|
  {
    && MergeAt(kids, a) && SourceAt(env, kids[2 * a + 1], j, m) && NoEarlier(env, kids, key, a, j)
    && m.Coll? && FirstAt(m.kids, i, key)
  }

  // ----- the same in terms of pairs -----

  lemma {:induction false} PairsAt(kids: seq<Tree>, i: nat)
    ensures |PairsOf(kids)| == |kids| / 2
    ensures 2 * i + 1 < |kids| ==> PairsOf(kids)[i] == Pair(kids[2 * i], kids[2 * i + 1])
    decreases |kids|
  {
    if |kids| >= 2 {
      PairsAt(kids[2..], if i > 0 then i - 1 else 0);
      if i > 0 && 2 * i + 1 < |kids| {
        assert kids[2..][2 * (i - 1)] == kids[2 * i] && kids[2..][2 * (i - 1) + 1] == kids[2 * i + 1];
      }
    }
  }

  lemma KeyPair(kids: seq<Tree>, i: nat, key: string)
    ensures |PairsOf(kids)| == |kids| / 2
    ensures KeyAt(kids, i, key) <==> i < |PairsOf(kids)| && ScalarKey(PairsOf(kids)[i]) == Some(key)
    ensures MergeAt(kids, i) <==> i < |PairsOf(kids)| && Merges(PairsOf(kids)[i])
  {
    PairsAt(kids, i);
  }

  lemma LatestIsLast(env: Env, name: string)
    ensures var r := LastNamed(env.names, |env.names|, name);
            forall k: nat :: LatestNamed(env, name, k) <==> r == Some(k)
  {
    LastNamedIsLast(env.names, |env.names|, name);
  }

  lemma SourceMeans(env: Env, v: Tree)
    requires |env.names| == |env.bodies|
    ensures SourceOf(env, v).Some? <==> Mergeable(env, v)
    ensures forall m :: Means(env, v, m) <==> SourceOf(env, v) == Some(m)
  {
    if v.Leaf? && v.e.typ == AliasEvent {
      LatestIsLast(env, v.e.value);
      var r := LastNamed(env.names, |env.names|, v.e.value);
      if r.Some? { assert LatestNamed(env, v.e.value, r.value); }
    }
    var s := SourceOf(env, v);
    if s.Some? { assert Means(env, v, s.value); }
  }

  lemma {:induction false} EachMeans(env: Env, vs: seq<Tree>)
    requires |env.names| == |env.bodies|
    ensures EachSource(env, vs).Some? <==> forall j | 0 <= j < |vs| :: Mergeable(env, vs[j])
    ensures var s := EachSource(env, vs); s.Some? ==> |s.value| == |vs|
    ensures var s := EachSource(env, vs);
            s.Some? ==> forall j: nat, m | j < |vs| :: Means(env, vs[j], m) <==> m == s.value[j]
  {
    hide Means, SourceOf, Mergeable;
    if vs != [] {
      SourceMeans(env, vs[0]);
      EachMeans(env, vs[1..]);
      assert forall j | 0 < j < |vs| :: vs[j] == vs[1..][j - 1];
      if EachSource(env, vs[1..]).None? {
        var j :| 0 <= j < |vs[1..]| && !Mergeable(env, vs[1..][j]);
        assert vs[j + 1] == vs[1..][j];
      }
    }
  }

  lemma ValueMeans(env: Env, v: Tree)
    requires |env.names| == |env.bodies|
    ensures SourcesOf(env, v).Some? <==> Usable(env, v)
    ensures var s := SourcesOf(env, v);
            s.Some? ==> forall j: nat, m :: SourceAt(env, v, j, m) <==> j < |s.value| && m == s.value[j]
  {
    hide Means, EachSource, Mergeable;
    EachMeans(env, if IsSequence(v) then v.kids else [v]);
    assert [v][0] == v;
  }

  /** The pairs after the first. */
  lemma KeysShift(kids: seq<Tree>, key: string, i: nat)
    requires |kids| >= 2
    ensures KeyAt(kids[2..], i, key) <==> KeyAt(kids, i + 1, key)
    ensures MergeAt(kids[2..], i) <==> MergeAt(kids, i + 1)
    ensures 2 * i + 1 < |kids[2..]| ==> kids[2..][2 * i + 1] == kids[2 * (i + 1) + 1]
  {}

  lemma LookupCons(kids: seq<Tree>, key: string)
    ensures Lookup(PairsOf(kids), key) ==
            if KeyAt(kids, 0, key) then Some(kids[1]) else if |kids| >= 2 then Lookup(PairsOf(kids[2..]), key) else None
  {}

  lemma {:induction false} FirstShift(kids: seq<Tree>, key: string, i: nat)
    requires |kids| >= 2 && FirstAt(kids[2..], i, key) && !KeyAt(kids, 0, key)
    ensures FirstAt(kids, i + 1, key) && kids[2..][2 * i + 1] == kids[2 * (i + 1) + 1]
  {
    hide KeyAt, MergeAt;
    KeysShift(kids, key, i);
    forall h: nat | h < i + 1 ensures !KeyAt(kids, h, key) {
      if h > 0 { KeysShift(kids, key, h - 1); }
    }
    InRange(kids[2..], i, key);
  }

  lemma InRange(kids: seq<Tree>, i: nat, key: string)
    ensures KeyAt(kids, i, key) ==> 2 * i + 1 < |kids|
  {}

  /** Lookup finds the first pair with the key. */
  lemma {:induction false} LookupFirst(kids: seq<Tree>, key: string) returns (i: nat)
    ensures var r := Lookup(PairsOf(kids), key);
            if r.Some? then FirstAt(kids, i, key) && 2 * i + 1 < |kids| && r == Some(kids[2 * i + 1]) else forall h: nat :: !KeyAt(kids, h, key)
    decreases |kids|
  {
    hide KeyAt, MergeAt, Lookup, PairsOf, FirstAt;
    LookupCons(kids, key);
    i := 0;
    if KeyAt(kids, 0, key) {
      InRange(kids, 0, key);
      AtOnce(kids, key);
    } else if |kids| >= 2 {
      i := LookupFirst(kids[2..], key);
      if Lookup(PairsOf(kids), key).Some? {
        FirstShift(kids, key, i);
        i := i + 1;
      } else {
        forall h: nat ensures !KeyAt(kids, h, key) {
          if h > 0 { KeysShift(kids, key, h - 1); }
        }
      }
    } else {
      forall h: nat ensures !KeyAt(kids, h, key) { InRange(kids, h, key); }
    }
  }

  lemma AtOnce(kids: seq<Tree>, key: string)
    requires KeyAt(kids, 0, key)
    ensures FirstAt(kids, 0, key)
  {}

  lemma LacksLookup(m: Tree, key: string)
    requires m.Coll?
    ensures Lacks(m, key) <==> Lookup(PairsOf(m.kids), key).None?
    ensures Lacks(m, key) <==> forall i: nat :: !KeyAt(m.kids, i, key)
  {
    var i := LookupFirst(m.kids, key);
  }

  lemma {:induction false} SourcesConcat(a: seq<Tree>, b: seq<Tree>, key: string)
    ensures FirstSource(a + b, key) == if FirstSource(a, key).Some? then FirstSource(a, key) else FirstSource(b, key)
    decreases |a|
  {
    if a == [] {
      assert a + b == b;
    } else {
      assert (a + b)[1..] == a[1..] + b;
      SourcesConcat(a[1..], b, key);
    }
  }

  /** The first of the sources that holds the key, if any does. */
  lemma {:induction false} FirstHolder(sources: seq<Tree>, key: string) returns (j: nat, i: nat)
    requires forall h | 0 <= h < |sources| :: sources[h].Coll?
    ensures var r := FirstSource(sources, key);
            if r.None? then forall h | 0 <= h < |sources| :: Lacks(sources[h], key)
            else && j < |sources| && FirstAt(sources[j].kids, i, key) && r == Some(sources[j].kids[2 * i + 1])
                 && forall h | 0 <= h < j :: Lacks(sources[h], key)
  {
    j, i := 0, 0;
    if sources != [] {
      LacksLookup(sources[0], key);
      i := LookupFirst(sources[0].kids, key);
      if Lacks(sources[0], key) {
        assert forall h | 0 < h < |sources| :: sources[h] == sources[1..][h - 1];
        j, i := FirstHolder(sources[1..], key);
        j := j + 1;
      }
    }
  }

  /** The sources of the first pair, and those of the others. */
  lemma SourcesCons(env: Env, kids: seq<Tree>)
    requires |env.names| == |env.bodies|
    ensures |kids| < 2 ==> AllSources(env, PairsOf(kids)) == Some([])
    ensures |kids| >= 2 ==>
              var r := AllSources(env, PairsOf(kids[2..]));
              AllSources(env, PairsOf(kids)) ==
              if !MergeAt(kids, 0) then r
              else
                var s := SourcesOf(env, kids[1]);
                if s.Some? && r.Some? then Some(s.value + r.value) else None
  {}

  /** The `a`-th pair is a merge that cannot be done. */
  ghost predicate BadAt(env: Env, kids: seq<Tree>, a: nat)
    requires |env.names| == |env.bodies|
  {
    MergeAt(kids, a) && !Usable(env, kids[2 * a + 1])
  }

  lemma BadShift(env: Env, kids: seq<Tree>, a: nat)
    requires |env.names| == |env.bodies| && |kids| >= 2
    ensures BadAt(env, kids[2..], a) <==> BadAt(env, kids, a + 1)
  {
    hide Usable;
    KeysShift(kids, "<<", a);
  }

  lemma BadHere(env: Env, kids: seq<Tree>)
    requires |env.names| == |env.bodies|
    ensures |kids| < 2 ==> forall a: nat :: !BadAt(env, kids, a)
    ensures |kids| >= 2 ==> (BadAt(env, kids, 0) <==> MergeAt(kids, 0) && SourcesOf(env, kids[1]).None?)
  {
    hide Usable, SourcesOf;
    if |kids| >= 2 { ValueMeans(env, kids[1]); }
  }

  lemma {:induction false} AllUsable(env: Env, kids: seq<Tree>)
    requires |env.names| == |env.bodies|
    ensures AllSources(env, PairsOf(kids)).None? <==> exists a: nat :: BadAt(env, kids, a)
    decreases |kids|
  {
    hide BadAt, SourcesOf, AllSources, PairsOf, MergeAt;
    SourcesCons(env, kids);
    BadHere(env, kids);
    if |kids| >= 2 {
      AllUsable(env, kids[2..]);
      forall a: nat ensures BadAt(env, kids[2..], a) <==> BadAt(env, kids, a + 1) { BadShift(env, kids, a); }
      if a: nat :| BadAt(env, kids[2..], a) {
        assert BadAt(env, kids, a + 1);
      } else if a: nat :| BadAt(env, kids, a) {
        assert a > 0 ==> BadAt(env, kids[2..], a - 1);
      }
    }
  }

  // ----- the first source that holds a key -----

  lemma EarlierShift(env: Env, kids: seq<Tree>, a: nat, j: nat, b: nat, h: nat, n: Tree)
    requires |env.names| == |env.bodies| && |kids| >= 2
    ensures Earlier(env, kids[2..], a, j, b, h, n) <==> Earlier(env, kids, a + 1, j, b + 1, h, n)
  {
    hide SourceAt;
    KeysShift(kids, "<<", b);
  }

  lemma EarlierHere(env: Env, kids: seq<Tree>, a: nat, j: nat, h: nat, n: Tree)
    requires |env.names| == |env.bodies| && |kids| >= 2 && MergeAt(kids, 0) && SourcesOf(env, kids[1]).Some?
    ensures var s := SourcesOf(env, kids[1]).value;
            Earlier(env, kids, a, j, 0, h, n) <==> (a > 0 || h < j) && h < |s| && n == s[h]
  {
    hide SourceAt, SourcesOf;
    ValueMeans(env, kids[1]);
  }

  /** The first source with the key, found along the pairs. */
  lemma {:induction false} FindSource(env: Env, kids: seq<Tree>, key: string) returns (a: nat, j: nat, m: Tree, i: nat)
    requires |env.names| == |env.bodies| && AllSources(env, PairsOf(kids)).Some?
    ensures var r := FirstSource(AllSources(env, PairsOf(kids)).value, key);
            if r.Some? then Brings(env, kids, key, a, j, m, i) && 2 * i + 1 < |m.kids| && r == Some(m.kids[2 * i + 1])
            else NoEarlier(env, kids, key, |kids|, 0)
    decreases |kids|
  {
    hide FirstSource, FirstAt, KeyAt, MergeAt, SourceAt, SourcesOf, AllSources, PairsOf, Earlier, Lacks;
    SourcesCons(env, kids);
    a, j, m, i := 0, 0, Leaf(Simple(ScalarEvent, ORIGIN, ORIGIN)), 0;
    if |kids| < 2 {
      NothingEarlier(env, kids, key);
      NoSourceYet(key);
    } else if !MergeAt(kids, 0) {
      a, j, m, i := FindSource(env, kids[2..], key);
      var r := FirstSource(AllSources(env, PairsOf(kids)).value, key);
      if r.Some? {
        FoundLater(env, kids, key, a, j);
        a := a + 1;
      } else {
        NoneLater(env, kids, key);
      }
    } else {
      var s, rest := SourcesOf(env, kids[1]).value, AllSources(env, PairsOf(kids[2..])).value;
      SourcesConcat(s, rest, key);
      SourcesAreMappings(env, kids[1]);
      j, i := FirstHolder(s, key);
      if FirstSource(s, key).Some? {
        m := s[j];
        FoundHere(env, kids, key, j);
        InRange(m.kids, i, key);
        FirstIs(m.kids, i, key);
      } else {
        a, j, m, i := FindSource(env, kids[2..], key);
        var r := FirstSource(AllSources(env, PairsOf(kids)).value, key);
        if r.Some? {
          FoundLater(env, kids, key, a, j);
          a := a + 1;
        } else {
          NoneLater(env, kids, key);
        }
      }
    }
  }

  lemma FirstIs(kids: seq<Tree>, i: nat, key: string)
    requires FirstAt(kids, i, key)
    ensures KeyAt(kids, i, key)
  {}

  lemma NoSourceYet(key: string)
    ensures FirstSource([], key) == None
  {}

  lemma NothingEarlier(env: Env, kids: seq<Tree>, key: string)
    requires |env.names| == |env.bodies| && |kids| < 2
    ensures NoEarlier(env, kids, key, |kids|, 0)
  {}

  lemma SourcesAreMappings(env: Env, v: Tree)
    requires |env.names| == |env.bodies| && SourcesOf(env, v).Some?
    ensures forall h | 0 <= h < |SourcesOf(env, v).value| :: SourcesOf(env, v).value[h].Coll?
  {
    hide SourcesOf;
    ValueMeans(env, v);
    var s := SourcesOf(env, v).value;
    forall h: nat | h < |s| ensures s[h].Coll? { assert SourceAt(env, v, h, s[h]); }
  }

  /** The first pair's `j`-th source: no earlier one has the key. */
  lemma FoundHere(env: Env, kids: seq<Tree>, key: string, j: nat)
    requires |env.names| == |env.bodies| && |kids| >= 2 && MergeAt(kids, 0) && SourcesOf(env, kids[1]).Some?
    requires var s := SourcesOf(env, kids[1]).value; j < |s| && forall h | 0 <= h < j :: Lacks(s[h], key)
    ensures NoEarlier(env, kids, key, 0, j) && SourceAt(env, kids[1], j, SourcesOf(env, kids[1]).value[j])
  {
    hide SourceAt, SourcesOf, Earlier, Lacks, MergeAt;
    ValueMeans(env, kids[1]);
    forall b: nat, h: nat, n: Tree | Earlier(env, kids, 0, j, b, h, n) ensures Lacks(n, key) {
      EarlierBelow(env, kids, 0, j, b, h, n);
      EarlierHere(env, kids, 0, j, h, n);
    }
  }

  lemma EarlierBelow(env: Env, kids: seq<Tree>, a: nat, j: nat, b: nat, h: nat, n: Tree)
    requires |env.names| == |env.bodies| && Earlier(env, kids, a, j, b, h, n)
    ensures b <= a
  {}

  /** No source of the first pair has the key: go on after it. */
  ghost predicate FirstLacks(env: Env, kids: seq<Tree>, key: string)
    requires |env.names| == |env.bodies| && |kids| >= 2
  {
    MergeAt(kids, 0) ==>
      var s := SourcesOf(env, kids[1]); s.Some? && forall h | 0 <= h < |s.value| :: Lacks(s.value[h], key)
  }

  lemma FoundLater(env: Env, kids: seq<Tree>, key: string, a: nat, j: nat)
    requires |env.names| == |env.bodies| && |kids| >= 2 && FirstLacks(env, kids, key)
    requires MergeAt(kids[2..], a) && NoEarlier(env, kids[2..], key, a, j)
    ensures MergeAt(kids, a + 1) && 2 * a + 1 < |kids[2..]| && kids[2 * (a + 1) + 1] == kids[2..][2 * a + 1]
    ensures NoEarlier(env, kids, key, a + 1, j)
  {
    hide SourcesOf, Earlier, Lacks;
    KeysShift(kids, "<<", a);
    LaterLacks(env, kids, key, a, j);
  }

  lemma LaterLacks(env: Env, kids: seq<Tree>, key: string, a: nat, j: nat)
    requires |env.names| == |env.bodies| && |kids| >= 2 && FirstLacks(env, kids, key) && NoEarlier(env, kids[2..], key, a, j)
    ensures NoEarlier(env, kids, key, a + 1, j)
  {
    hide SourcesOf, Earlier, Lacks, MergeAt;
    var c := a + 1;
    forall b: nat, h: nat, n: Tree | Earlier(env, kids, c, j, b, h, n) ensures Lacks(n, key) {
      if b == 0 {
        EarlierMerges(env, kids, c, j, b, h, n);
        EarlierHere(env, kids, c, j, h, n);
      } else {
        EarlierShift(env, kids, a, j, b - 1, h, n);
      }
    }
  }

  lemma EarlierMerges(env: Env, kids: seq<Tree>, a: nat, j: nat, b: nat, h: nat, n: Tree)
    requires |env.names| == |env.bodies| && Earlier(env, kids, a, j, b, h, n)
    ensures MergeAt(kids, b)
  {}

  lemma NoneLater(env: Env, kids: seq<Tree>, key: string)
    requires |env.names| == |env.bodies| && |kids| >= 2 && FirstLacks(env, kids, key)
    requires NoEarlier(env, kids[2..], key, |kids[2..]|, 0)
    ensures NoEarlier(env, kids, key, |kids|, 0)
  {
    hide SourcesOf, Earlier, Lacks, MergeAt;
    LaterLacks(env, kids, key, |kids[2..]|, 0);
    forall b: nat, h: nat, n: Tree | Earlier(env, kids, |kids|, 0, b, h, n) ensures Lacks(n, key) {
      EarlierLess(env, kids, |kids| - 1, b, h, n);
    }
  }

  lemma EarlierLess(env: Env, kids: seq<Tree>, a: nat, b: nat, h: nat, n: Tree)
    requires |env.names| == |env.bodies| && Earlier(env, kids, a + 1, 0, b, h, n) && a + 1 >= |kids|
    ensures Earlier(env, kids, a, 0, b, h, n)
  {}

  lemma BringsOnce(env: Env, kids: seq<Tree>, key: string, a: nat, j: nat, m: Tree, i: nat, b: nat, h: nat, n: Tree, k: nat)
    requires |env.names| == |env.bodies| && Brings(env, kids, key, a, j, m, i) && Brings(env, kids, key, b, h, n, k)
    ensures a == b && j == h && m == n && i == k
  {
    hide SourcesOf, SourceAt;
    BringsBefore(env, kids, key, a, j, m, i, b, h, n, k);
    BringsBefore(env, kids, key, b, h, n, k, a, j, m, i);
    SourceOnce(env, kids[2 * a + 1], j, m, n);
  }

  lemma BringsBefore(env: Env, kids: seq<Tree>, key: string, a: nat, j: nat, m: Tree, i: nat, b: nat, h: nat, n: Tree, k: nat)
    requires |env.names| == |env.bodies| && Brings(env, kids, key, a, j, m, i) && Brings(env, kids, key, b, h, n, k)
    ensures !(a < b || (a == b && j < h))
  {
    hide SourceAt;
    var before := Earlier(env, kids, b, h, a, j, m);
    assert before ==> Lacks(m, key);
  }

  lemma SourceOnce(env: Env, v: Tree, j: nat, m: Tree, n: Tree)
    requires |env.names| == |env.bodies| && SourceAt(env, v, j, m) && SourceAt(env, v, j, n)
    ensures m == n
  {
    SourceMeans(env, if IsSequence(v) then v.kids[j] else v);
  }

  // ----- explicit pairs -----

  lemma ExplicitCons(kids: seq<Tree>, key: string)
    ensures Lookup(Explicit(PairsOf(kids)), key) ==
            if KeyAt(kids, 0, key) && !MergeAt(kids, 0) then Some(kids[1])
            else if |kids| >= 2 then Lookup(Explicit(PairsOf(kids[2..])), key) else None
  {
    if |kids| >= 2 {
      var p, rest := Pair(kids[0], kids[1]), Explicit(PairsOf(kids[2..]));
      assert ([p] + rest)[1..] == rest && [] + rest == rest;
    }
  }

  predicate Written(kids: seq<Tree>, i: nat, key: string) { KeyAt(kids, i, key) && !MergeAt(kids, i) }

  lemma {:induction false} ExplicitFirst(kids: seq<Tree>, key: string) returns (i: nat)
    ensures var r := Lookup(Explicit(PairsOf(kids)), key);
            if r.Some? then ExplicitAt(kids, i, key) && 2 * i + 1 < |kids| && r == Some(kids[2 * i + 1])
            else forall h: nat :: !Written(kids, h, key)
    decreases |kids|
  {
    hide KeyAt, MergeAt, Lookup, PairsOf, Explicit;
    ExplicitCons(kids, key);
    InRange(kids, 0, key);
    i := 0;
    if !(KeyAt(kids, 0, key) && !MergeAt(kids, 0)) {
      if |kids| >= 2 {
        i := ExplicitFirst(kids[2..], key);
        InRange(kids[2..], i, key);
        KeysShift(kids, key, i);
        forall h: nat | h > 0
          ensures (KeyAt(kids, h, key) <==> KeyAt(kids[2..], h - 1, key)) && (MergeAt(kids, h) <==> MergeAt(kids[2..], h - 1))
        {
          KeysShift(kids, key, h - 1);
        }
        if Lookup(Explicit(PairsOf(kids)), key).Some? {
          i := i + 1;
        } else {
          forall h: nat ensures !Written(kids, h, key) { assert h > 0 ==> !Written(kids[2..], h - 1, key); }
        }
      } else {
        forall h: nat ensures !Written(kids, h, key) { InRange(kids, h, key); }
      }
    }
  }

  // ----- the theorem -----

  /** The key's first value is this tree. */
  ghost predicate Holds(kids: seq<Tree>, key: string, v: Tree) {
    exists h: nat :: FirstAt(kids, h, key) && kids[2 * h + 1] == v
  }

  /** The key's first value is a copy of this tree. */
  ghost predicate HoldsCopy(kids: seq<Tree>, key: string, v: Tree) {
    exists h: nat :: FirstAt(kids, h, key) && Copied(Flat(v), Flat(kids[2 * h + 1]))
  }

  lemma {:induction false} PairsBack(pairs: seq<Pair>)
    ensures PairsOf(KidsOf(pairs)) == pairs && |KidsOf(pairs)| == 2 * |pairs|
  {
    if pairs != [] {
      PairsBack(pairs[1..]);
      assert KidsOf(pairs)[2..] == KidsOf(pairs[1..]);
    }
  }

  predicate NotWritten(kids: seq<Tree>, key: string) {
    forall h: nat | h < |kids| :: !Written(kids, h, key)
  }

  predicate NoKey(kids: seq<Tree>, key: string) {
    forall h: nat | h < |kids| :: !KeyAt(kids, h, key)
  }

  /** What a rebuilt mapping holds for a key. */
  lemma RebuiltLookup(env: Env, kids: seq<Tree>, key: string) returns (i: nat, a: nat, j: nat, m: Tree, k: nat)
    requires |env.names| == |env.bodies| && MergedPairs(env, PairsOf(kids)).Some?
    ensures var now := KidsOf(MergedPairs(env, PairsOf(kids)).value);
            || (ExplicitAt(kids, i, key) && Holds(now, key, kids[2 * i + 1]))
            || (NotWritten(kids, key) && Brings(env, kids, key, a, j, m, k) && HoldsCopy(now, key, m.kids[2 * k + 1]))
            || (NotWritten(kids, key) && NoEarlier(env, kids, key, |kids|, 0) && NoKey(now, key))
  {
    hide MergedPairs, PairsOf, KidsOf, Lookup, Explicit, FirstSource, Brings, Written, NoEarlier, KeyAt, ExplicitAt, FirstAt, Copied, AllSources, Strip, Flat;
    PairsMerged(env, kids);
    var pairs := MergedPairs(env, PairsOf(kids)).value;
    MergedLookup(env, PairsOf(kids), key);
    PairsBack(pairs);
    var h := LookupFirst(KidsOf(pairs), key);
    i := ExplicitFirst(kids, key);
    a, j, m, k := FindSource(env, kids, key);
    ExplicitIn(kids, i, key);
    var found := FirstSource(AllSources(env, PairsOf(kids)).value, key);
    if Lookup(Explicit(PairsOf(kids)), key).Some? {
      assert Holds(KidsOf(pairs), key, kids[2 * i + 1]);
    } else if found.Some? {
      BringsIn(env, kids, key, a, j, m, k);
      StripCopied(found.value);
      assert HoldsCopy(KidsOf(pairs), key, m.kids[2 * k + 1]);
    }
  }

  lemma PairsMerged(env: Env, kids: seq<Tree>)
    requires |env.names| == |env.bodies|
    ensures MergedPairs(env, PairsOf(kids)).Some? <==> AllSources(env, PairsOf(kids)).Some?
  {}

  lemma ExplicitIn(kids: seq<Tree>, i: nat, key: string)
    ensures ExplicitAt(kids, i, key) ==> 2 * i + 1 < |kids|
  {}

  lemma BringsIn(env: Env, kids: seq<Tree>, key: string, a: nat, j: nat, m: Tree, i: nat)
    requires |env.names| == |env.bodies|
    ensures Brings(env, kids, key, a, j, m, i) ==> m.Coll? && 2 * i + 1 < |m.kids|
  {}

  /** What `now` holds for a key of `kids`: the first explicit value itself;
      without one a copy of the value in the first source that holds it, in the
      order of the merges and of their sources; nothing without either. */
  ghost predicate KeyMerged(env: Env, kids: seq<Tree>, now: seq<Tree>, key: string)
    requires |env.names| == |env.bodies|
  {
    && (forall i: nat | ExplicitAt(kids, i, key) :: Holds(now, key, kids[2 * i + 1]))
    && (NotWritten(kids, key) ==>
          && (forall a: nat, j: nat, m: Tree, i: nat | Brings(env, kids, key, a, j, m, i) :: HoldsCopy(now, key, m.kids[2 * i + 1]))
          && ((forall a: nat, j: nat, m: Tree, i: nat :: !Brings(env, kids, key, a, j, m, i)) ==> NoKey(now, key)))
  }

  lemma ExplicitOnce(kids: seq<Tree>, i: nat, h: nat, key: string)
    ensures ExplicitAt(kids, i, key) && ExplicitAt(kids, h, key) ==> i == h
    ensures ExplicitAt(kids, i, key) ==> Written(kids, i, key)
  {}

  lemma ExplicitMeans(env: Env, kids: seq<Tree>, now: seq<Tree>, key: string, i: nat)
    requires |env.names| == |env.bodies| && ExplicitAt(kids, i, key) && Holds(now, key, kids[2 * i + 1])
    ensures KeyMerged(env, kids, now, key)
  {
    hide KeyAt, Holds, HoldsCopy, Brings, ExplicitAt, Written;
    ExplicitIn(kids, i, key);
    ExplicitOnce(kids, i, i, key);
    forall h: nat | ExplicitAt(kids, h, key) ensures h == i { ExplicitOnce(kids, i, h, key); }
  }

  lemma BroughtMeans(env: Env, kids: seq<Tree>, now: seq<Tree>, key: string, a: nat, j: nat, m: Tree, i: nat)
    requires |env.names| == |env.bodies| && NotWritten(kids, key) && Brings(env, kids, key, a, j, m, i)
    requires HoldsCopy(now, key, m.kids[2 * i + 1])
    ensures KeyMerged(env, kids, now, key)
  {
    hide KeyAt, Holds, HoldsCopy, Brings, ExplicitAt, Written;
    BringsIn(env, kids, key, a, j, m, i);
    forall h: nat ensures !ExplicitAt(kids, h, key) { ExplicitIn(kids, h, key); ExplicitOnce(kids, h, h, key); }
    forall b: nat, h: nat, n: Tree, l: nat | Brings(env, kids, key, b, h, n, l) ensures n == m && l == i {
      BringsOnce(env, kids, key, a, j, m, i, b, h, n, l);
    }
  }

  lemma NothingMeans(env: Env, kids: seq<Tree>, now: seq<Tree>, key: string)
    requires |env.names| == |env.bodies| && NotWritten(kids, key) && NoEarlier(env, kids, key, |kids|, 0)
    requires NoKey(now, key)
    ensures KeyMerged(env, kids, now, key)
  {
    hide KeyAt, Holds, HoldsCopy, Brings, ExplicitAt, Written, NoEarlier;
    forall h: nat ensures !ExplicitAt(kids, h, key) { ExplicitIn(kids, h, key); ExplicitOnce(kids, h, h, key); }
    forall b: nat, h: nat, n: Tree, l: nat ensures !Brings(env, kids, key, b, h, n, l) { NoneBrings(env, kids, key, b, h, n, l); }
  }

  lemma NoneBrings(env: Env, kids: seq<Tree>, key: string, a: nat, j: nat, m: Tree, i: nat)
    requires |env.names| == |env.bodies| && NoEarlier(env, kids, key, |kids|, 0)
    ensures !Brings(env, kids, key, a, j, m, i)
  {
    hide SourceAt;
    var before := Earlier(env, kids, |kids|, 0, a, j, m);
    assert before ==> Lacks(m, key);
  }

  lemma {:induction false} MergesAnywhere(kids: seq<Tree>)
    ensures AnyMerges(PairsOf(kids)) <==> exists a: nat :: MergeAt(kids, a)
    decreases |kids|
  {
    hide KeyAt;
    if |kids| >= 2 {
      MergesAnywhere(kids[2..]);
      KeyPair(kids, 0, "<<");
      forall a: nat ensures MergeAt(kids[2..], a) <==> MergeAt(kids, a + 1) { KeysShift(kids, "<<", a); }
      if a: nat :| MergeAt(kids[2..], a) {
        assert MergeAt(kids, a + 1);
      } else if a: nat :| MergeAt(kids, a) {
        assert a > 0 ==> MergeAt(kids[2..], a - 1);
      }
    } else {
      forall a: nat ensures !MergeAt(kids, a) { InRange(kids, a, "<<"); }
    }
  }

  /** A mapping with merges after the pass, key by key. The pass fails there
      exactly at a merge value that is no mapping, alias to a mapping, or
      sequence of these. */
  lemma MappingMerged(env: Env, t: Tree, key: string)
    requires |env.names| == |env.bodies| && IsMapping(t) && exists a: nat :: MergeAt(t.kids, a)
    ensures var r := MergeTree(env, t);
            && (r.Err? <==> exists a: nat :: BadAt(env, t.kids, a))
            && (r.Ok? ==> |r.trees| == 1 && r.trees[0].Coll? && r.trees[0].open == t.open && r.trees[0].close == t.close &&
                          KeyMerged(env, t.kids, r.trees[0].kids, key))
  {
    hide KeyMerged, MergeAt, BadAt, AllSources, Explicit, Holds, HoldsCopy, Brings, Written, NoEarlier, KeyAt, ExplicitAt;
    AllUsable(env, t.kids);
    MergesAnywhere(t.kids);
    PairsMerged(env, t.kids);
    if MergedPairs(env, PairsOf(t.kids)).Some? {
      var now := KidsOf(MergedPairs(env, PairsOf(t.kids)).value);
      var i, a, j, m, k := RebuiltLookup(env, t.kids, key);
      ExplicitIn(t.kids, i, key);
      BringsIn(env, t.kids, key, a, j, m, k);
      if ExplicitAt(t.kids, i, key) && Holds(now, key, t.kids[2 * i + 1]) {
        ExplicitMeans(env, t.kids, now, key, i);
      } else if Brings(env, t.kids, key, a, j, m, k) && HoldsCopy(now, key, m.kids[2 * k + 1]) {
        BroughtMeans(env, t.kids, now, key, a, j, m, k);
      } else {
        NothingMeans(env, t.kids, now, key);
      }
    }
  }

  // ----- which pairs are there, and in what order -----

  /** The numbers from `lo` below `n` that are kept, in order. */
  function Chosen(keep: nat -> bool, lo: nat, n: nat): (r: seq<nat>)
    ensures forall i | 0 <= i < |r| :: lo <= r[i] < n
    decreases n - lo
  {
    if lo >= n then [] else (if keep(lo) then [lo] else []) + Chosen(keep, lo + 1, n)
  }

  predicate Keyed(p: Pair, key: string) {
    p.key.Leaf? && p.key.e.typ == ScalarEvent && p.key.e.value == key
  }

  /** A scalar key that is taken, or an earlier pair has. */
  predicate Repeated(seen: seq<string>, pairs: seq<Pair>, i: nat)
    requires i < |pairs|
  {
    var p := pairs[i];
    p.key.Leaf? && p.key.e.typ == ScalarEvent && (p.key.e.value in seen || exists h: nat | h < i :: Keyed(pairs[h], p.key.e.value))
  }

  lemma {:induction false} HasKey(pairs: seq<Pair>, key: string)
    ensures Lookup(pairs, key).Some? <==> exists h: nat | h < |pairs| :: Keyed(pairs[h], key)
    decreases |pairs|
  {
    if pairs != [] {
      HasKey(pairs[1..], key);
      if h: nat :| h < |pairs[1..]| && Keyed(pairs[1..][h], key) {
        assert Keyed(pairs[h + 1], key);
      } else if h: nat :| h < |pairs| && Keyed(pairs[h], key) {
        assert h > 0 ==> Keyed(pairs[1..][h - 1], key);
      }
    }
  }

  lemma SeenRepeated(seen: seq<string>, pairs: seq<Pair>, i: nat)
    requires i < |pairs|
    ensures IsSeen(AddKeys(seen, pairs[..i]), pairs[i]) <==> Repeated(seen, pairs, i)
  {
    if pairs[i].key.Leaf? && pairs[i].key.e.typ == ScalarEvent {
      var key := pairs[i].key.e.value;
      KeysAdded(seen, pairs[..i], key);
      HasKey(pairs[..i], key);
      assert forall h: nat | h < i :: Keyed(pairs[..i][h], key) <==> Keyed(pairs[h], key);
    }
  }

  lemma {:induction false} KeysNext(seen: seq<string>, pairs: seq<Pair>, i: nat)
    requires i < |pairs|
    ensures AddKeys(seen, pairs[..i + 1]) == AddKey(AddKeys(seen, pairs[..i]), pairs[i])
    decreases i
  {
    assert pairs[..i + 1][0] == pairs[0] && pairs[..i + 1][1..] == pairs[1..][..i];
    if i > 0 {
      KeysNext(AddKey(seen, pairs[0]), pairs[1..], i - 1);
      assert pairs[..i][1..] == pairs[1..][..i - 1];
    }
  }

  /** Copies of these pairs, in order. */
  predicate CopiesAt(pairs: seq<Pair>, at: seq<nat>, copies: seq<Pair>)
    requires forall r | 0 <= r < |at| :: at[r] < |pairs|
  {
    |copies| == |at| && forall r | 0 <= r < |at| :: CopiedPair(pairs[at[r]], copies[r])
  }

  predicate CopiedPair(p: Pair, q: Pair) {
    Copied(Flat(p.key), Flat(q.key)) && Copied(Flat(p.value), Flat(q.value))
  }

  lemma StripPair(p: Pair)
    ensures CopiedPair(p, Pair(Strip(p.key), Strip(p.value)))
  {
    StripCopied(p.key);
    StripCopied(p.value);
  }

  /** Which source pairs are copied: in order, all but those whose scalar key is
      taken or came before. */
  lemma FreshExactly(seen: seq<string>, pairs: seq<Pair>)
    ensures CopiesAt(pairs, Chosen((i: nat) => i < |pairs| && !Repeated(seen, pairs, i), 0, |pairs|), Fresh(seen, pairs))
  {
    FreshFrom(seen, pairs, (i: nat) => i < |pairs| && !Repeated(seen, pairs, i), 0);
    assert pairs[..0] == [] && pairs[0..] == pairs;
  }

  lemma {:induction false} FreshFrom(seen: seq<string>, pairs: seq<Pair>, keep: nat -> bool, lo: nat)
    requires lo <= |pairs| && forall i: nat | i < |pairs| :: keep(i) <==> !Repeated(seen, pairs, i)
    ensures CopiesAt(pairs, Chosen(keep, lo, |pairs|), Fresh(AddKeys(seen, pairs[..lo]), pairs[lo..]))
    decreases |pairs| - lo
  {
    hide CopiedPair, Strip, Repeated, AddKey, AddKeys, IsSeen;
    if lo < |pairs| {
      FreshFrom(seen, pairs, keep, lo + 1);
      SeenRepeated(seen, pairs, lo);
      KeysNext(seen, pairs, lo);
      assert pairs[lo..][0] == pairs[lo] && pairs[lo..][1..] == pairs[lo + 1..];
      StripPair(pairs[lo]);
    }
  }

  function PairsAtAll(kids: seq<Tree>, at: seq<nat>): seq<Pair>
    requires forall r | 0 <= r < |at| :: at[r] < |kids| / 2
  {
    seq(|at|, r requires 0 <= r < |at| => Pair(kids[2 * at[r]], kids[2 * at[r] + 1]))
  }

  /** The explicit pairs stay, in order. */
  lemma ExplicitExactly(kids: seq<Tree>)
    ensures Explicit(PairsOf(kids)) == PairsAtAll(kids, Chosen((i: nat) => !MergeAt(kids, i), 0, |kids| / 2))
  {
    ExplicitFrom(kids, (i: nat) => !MergeAt(kids, i), 0);
    assert kids[2 * 0..] == kids;
  }

  lemma {:induction false} ExplicitFrom(kids: seq<Tree>, keep: nat -> bool, lo: nat)
    requires lo <= |kids| / 2 && forall i: nat | i < |kids| / 2 :: keep(i) <==> !MergeAt(kids, i)
    ensures Explicit(PairsOf(kids[2 * lo..])) == PairsAtAll(kids, Chosen(keep, lo, |kids| / 2))
    decreases |kids| / 2 - lo
  {
    if lo < |kids| / 2 {
      ExplicitFrom(kids, keep, lo + 1);
      var here := kids[2 * lo..];
      assert here[0] == kids[2 * lo] && here[1] == kids[2 * lo + 1] && here[2..] == kids[2 * (lo + 1)..];
      ExplicitPairs(here);
      PairsPrepend(kids, lo, Chosen(keep, lo + 1, |kids| / 2));
    }
  }

  lemma PairsPrepend(kids: seq<Tree>, lo: nat, at: seq<nat>)
    requires lo < |kids| / 2 && forall r | 0 <= r < |at| :: at[r] < |kids| / 2
    ensures PairsAtAll(kids, [lo] + at) == [Pair(kids[2 * lo], kids[2 * lo + 1])] + PairsAtAll(kids, at)
    ensures PairsAtAll(kids, [] + at) == PairsAtAll(kids, at)
  {
    assert [] + at == at;
  }

  lemma ExplicitPairs(kids: seq<Tree>)
    ensures |kids| >= 2 ==>
              var rest := Explicit(PairsOf(kids[2..]));
              Explicit(PairsOf(kids)) == if MergeAt(kids, 0) then rest else [Pair(kids[0], kids[1])] + rest
  {
    if |kids| >= 2 { assert [] + Explicit(PairsOf(kids[2..])) == Explicit(PairsOf(kids[2..])); }
  }

  // ----- the whole pass -----

  /** Some mapping that the pass rebuilds has a merge that cannot be done. */
  ghost predicate Refused(env: Env, t: Tree)
    requires |env.names| == |env.bodies|
    decreases t
  {
    t.Coll? &&
    if t.open.typ == MappingStart && exists a: nat :: MergeAt(t.kids, a) then exists a: nat :: BadAt(env, t.kids, a)
    else exists i | 0 <= i < |t.kids| :: Refused(env, t.kids[i])
  }

  lemma {:induction false} PassFails(env: Env, t: Tree)
    requires |env.names| == |env.bodies|
    ensures MergeTree(env, t).Err? <==> Refused(env, t)
    ensures MergeTree(env, t).Ok? ==> |MergeTree(env, t).trees| == 1
    decreases t, 0
  {
    hide MergeAt, BadAt;
    if t.Coll? {
      MergesAnywhere(t.kids);
      if Rebuilds(t) { MappingMerged(env, t, ""); } else { PassFailsAll(env, t.kids); }
    }
  }

  /** The pass fails exactly where some mapping is refused; else every tree is
      passed by itself. */
  lemma {:induction false} PassFailsAll(env: Env, ts: seq<Tree>)
    requires |env.names| == |env.bodies|
    ensures MergeAll(env, ts).Err? <==> exists i | 0 <= i < |ts| :: Refused(env, ts[i])
    ensures var r := MergeAll(env, ts);
            r.Ok? ==> |r.trees| == |ts| && forall i | 0 <= i < |ts| :: MergeTree(env, ts[i]) == Ok([r.trees[i]])
    decreases ts, 1
  {
    hide Refused;
    if ts != [] {
      PassFails(env, ts[0]);
      PassFailsAll(env, ts[1..]);
      assert forall i | 0 < i < |ts| :: ts[i] == ts[1..][i - 1];
      if i :| 0 <= i < |ts[1..]| && Refused(env, ts[1..][i]) { assert Refused(env, ts[i + 1]); }
    }
  }
}
