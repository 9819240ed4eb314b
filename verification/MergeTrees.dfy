/**
 * Merge keys on trees. One pass gives every outermost mapping with a plain
 * `<<` key its explicit pairs, in order, and then the pairs of the mappings its
 * merge keys name: a scalar key that was seen before is left out. A source's
 * own `<<` is an ordinary key for that pass.
 */
module MergeTrees {
  import opened Events
  import opened NodeTrees
  import opened AnchorTable
  import opened AliasTrees

  predicate IsMergeKey(e: Event) {
    e.typ == ScalarEvent && e.style == Plain && e.value == "<<"
  }

  predicate IsMapping(t: Tree) { t.Coll? && t.open.typ == MappingStart }

  /** Every mapping holds keys and values in turn. */
  predicate Even(t: Tree)
    decreases t, 0
  {
    t.Coll? ==> AllEven(t.kids) && (t.open.typ == MappingStart ==> |t.kids| % 2 == 0)
  }

  predicate AllEven(ts: seq<Tree>)
    decreases ts, 1
  {
    ts == [] || (Even(ts[0]) && AllEven(ts[1..]))
  }

  datatype Pair = Pair(key: Tree, value: Tree)

  function PairsOf(kids: seq<Tree>): seq<Pair> {
    if |kids| < 2 then [] else [Pair(kids[0], kids[1])] + PairsOf(kids[2..])
  }

  function KidsOf(pairs: seq<Pair>): seq<Tree> {
    if pairs == [] then [] else [pairs[0].key, pairs[0].value] + KidsOf(pairs[1..])
  }

  predicate Merges(p: Pair) { p.key.Leaf? && IsMergeKey(p.key.e) }

  predicate AnyMerges(pairs: seq<Pair>) {
    pairs != [] && (Merges(pairs[0]) || AnyMerges(pairs[1..]))
  }

  function Explicit(pairs: seq<Pair>): seq<Pair> {
    if pairs == [] then [] else (if Merges(pairs[0]) then [] else [pairs[0]]) + Explicit(pairs[1..])
  }

  /** Only scalar keys take part in overriding. */
  function ScalarKey(p: Pair): Option<string> {
    if p.key.Leaf? && p.key.e.typ == ScalarEvent then Some(p.key.e.value) else None
  }

  /** kset_add */
  function AddKey(seen: seq<string>, p: Pair): seq<string> {
    match ScalarKey(p)
    case Some(k) => if k in seen then seen else seen + [k]
    case None => seen
  }

  function AddKeys(seen: seq<string>, pairs: seq<Pair>): seq<string>
    decreases |pairs|
  {
    if pairs == [] then seen else AddKeys(AddKey(seen, pairs[0]), pairs[1..])
  }

  predicate IsSeen(seen: seq<string>, p: Pair) {
    ScalarKey(p).Some? && ScalarKey(p).value in seen
  }

  /** The pairs whose key was not seen before, as copies. */
  function Fresh(seen: seq<string>, pairs: seq<Pair>): seq<Pair>
    decreases |pairs|
  {
    if pairs == [] then []
    else
      (if IsSeen(seen, pairs[0]) then [] else [Pair(Strip(pairs[0].key), Strip(pairs[0].value))]) +
      Fresh(AddKey(seen, pairs[0]), pairs[1..])
  }

  /** The anchors by name. */
  datatype Env = Env(names: seq<string>, bodies: seq<Tree>)

  /** The mapping that `v` stands for as a merge source. */
  function SourceOf(env: Env, v: Tree): (r: Option<Tree>)
    requires |env.names| == |env.bodies|
    ensures r.Some? ==> IsMapping(r.value)
  {
    if IsMapping(v) then Some(v)
    else if v.Leaf? && v.e.typ == AliasEvent then
      match LastNamed(env.names, |env.names|, v.e.value)
      case Some(k) => if IsMapping(env.bodies[k]) then Some(env.bodies[k]) else None
      case None => None
    else None
  }

  function EachSource(env: Env, vs: seq<Tree>): Option<seq<Tree>>
    requires |env.names| == |env.bodies|
  {
    if vs == [] then Some([])
    else
      var s, r := SourceOf(env, vs[0]), EachSource(env, vs[1..]);
      if s.Some? && r.Some? then Some([s.value] + r.value) else None
  }

  /** The sources of one merge key: a sequence names several. */
  function SourcesOf(env: Env, v: Tree): Option<seq<Tree>>
    requires |env.names| == |env.bodies|
  {
    if v.Coll? && v.open.typ == SequenceStart then EachSource(env, v.kids) else EachSource(env, [v])
  }

  /** The sources of all merge keys of a mapping, in order. */
  function AllSources(env: Env, pairs: seq<Pair>): Option<seq<Tree>>
    requires |env.names| == |env.bodies|
  {
    if pairs == [] then Some([])
    else if !Merges(pairs[0]) then AllSources(env, pairs[1..])
    else
      var s, r := SourcesOf(env, pairs[0].value), AllSources(env, pairs[1..]);
      if s.Some? && r.Some? then Some(s.value + r.value) else None
  }

  function SourcePairs(sources: seq<Tree>): seq<Pair> {
    if sources == [] then []
    else (if sources[0].Coll? then PairsOf(sources[0].kids) else []) + SourcePairs(sources[1..])
  }

  /** What the mapping holds after the pass; None for a bad merge value. */
  function MergedPairs(env: Env, pairs: seq<Pair>): Option<seq<Pair>>
    requires |env.names| == |env.bodies|
  {
    match AllSources(env, pairs)
    case None => None
    case Some(sources) =>
      var explicit := Explicit(pairs);
      Some(explicit + Fresh(AddKeys([], explicit), SourcePairs(sources)))
  }

  /** The trees after the pass, or what the pass wrote before the mapping with
      the first bad merge value. */
  datatype Result = Ok(trees: seq<Tree>) | Err(before: seq<Event>)

  function Then(a: Result, b: Result): Result {
    if a.Err? then a else if b.Err? then Err(FlatAll(a.trees) + b.before) else Ok(a.trees + b.trees)
  }

  predicate Rebuilds(t: Tree) {
    IsMapping(t) && AnyMerges(PairsOf(t.kids))
  }

  function MergeTree(env: Env, t: Tree): Result
    requires |env.names| == |env.bodies|
    decreases t, 0
  {
    if Rebuilds(t) then
      match MergedPairs(env, PairsOf(t.kids))
      case Some(ps) => Ok([Coll(t.open, KidsOf(ps), t.close)])
      case None => Err([])
    else if t.Leaf? then Ok([t])
    else
      match MergeAll(env, t.kids)
      case Ok(ks) => Ok([Coll(t.open, ks, t.close)])
      case Err(before) => Err([t.open] + before)
  }

  function MergeAll(env: Env, ts: seq<Tree>): Result
    requires |env.names| == |env.bodies|
    decreases ts, 1
  {
    if ts == [] then Ok([]) else Then(MergeTree(env, ts[0]), MergeAll(env, ts[1..]))
  }

  /** Some mapping has a plain `<<` key. */
  predicate HasMerge(t: Tree)
    decreases t, 0
  {
    Rebuilds(t) || (t.Coll? && AnyHasMerge(t.kids))
  }

  predicate AnyHasMerge(ts: seq<Tree>)
    decreases ts, 1
  {
    ts != [] && (HasMerge(ts[0]) || AnyHasMerge(ts[1..]))
  }

  // ----- a pass with nothing to rebuild changes nothing -----

  lemma {:induction false} NothingToMerge(env: Env, t: Tree)
    requires |env.names| == |env.bodies| && !HasMerge(t)
    ensures MergeTree(env, t) == Ok([t])
    decreases t, 0
  {
    if t.Coll? { NothingToMergeAll(env, t.kids); }
  }

  lemma {:induction false} NothingToMergeAll(env: Env, ts: seq<Tree>)
    requires |env.names| == |env.bodies| && !AnyHasMerge(ts)
    ensures MergeAll(env, ts) == Ok(ts)
    decreases ts, 1
  {
    if ts != [] {
      NothingToMerge(env, ts[0]);
      NothingToMergeAll(env, ts[1..]);
    }
  }

  // ----- what a merged mapping holds -----

  /** The value of the first pair with this scalar key. */
  function Lookup(pairs: seq<Pair>, key: string): Option<Tree> {
    if pairs == [] then None
    else if ScalarKey(pairs[0]) == Some(key) then Some(pairs[0].value)
    else Lookup(pairs[1..], key)
  }

  /** The value of a key in the first of the sources that has it. */
  function FirstSource(sources: seq<Tree>, key: string): Option<Tree> {
    if sources == [] then None
    else
      var here := if sources[0].Coll? then Lookup(PairsOf(sources[0].kids), key) else None;
      if here.Some? then here else FirstSource(sources[1..], key)
  }

  function StripOption(v: Option<Tree>): Option<Tree> {
    match v case Some(t) => Some(Strip(t)) case None => None
  }

  lemma {:induction false} LookupConcat(a: seq<Pair>, b: seq<Pair>, key: string)
    ensures Lookup(a + b, key) == if Lookup(a, key).Some? then Lookup(a, key) else Lookup(b, key)
    decreases |a|
  {
    if a == [] {
      assert a + b == b;
    } else {
      assert (a + b)[1..] == a[1..] + b;
      LookupConcat(a[1..], b, key);
    }
  }

  lemma {:induction false} LookupSources(sources: seq<Tree>, key: string)
    ensures Lookup(SourcePairs(sources), key) == FirstSource(sources, key)
  {
    if sources != [] {
      LookupSources(sources[1..], key);
      LookupConcat(if sources[0].Coll? then PairsOf(sources[0].kids) else [], SourcePairs(sources[1..]), key);
    }
  }

  /** What was not seen is found as before, what was seen is gone. */
  lemma {:induction false} LookupFresh(seen: seq<string>, pairs: seq<Pair>, key: string)
    ensures Lookup(Fresh(seen, pairs), key) == if key in seen then None else StripOption(Lookup(pairs, key))
    decreases |pairs|
  {
    if pairs != [] {
      LookupFresh(AddKey(seen, pairs[0]), pairs[1..], key);
      var rest := Fresh(AddKey(seen, pairs[0]), pairs[1..]);
      if !IsSeen(seen, pairs[0]) {
        var copy := Pair(Strip(pairs[0].key), Strip(pairs[0].value));
        assert ScalarKey(copy) == ScalarKey(pairs[0]);
        LookupConcat([copy], rest, key);
        assert Lookup([copy], key) == if ScalarKey(copy) == Some(key) then Some(copy.value) else None;
      } else {
        assert Fresh(seen, pairs) == rest;
      }
    }
  }

  lemma {:induction false} KeysAdded(seen: seq<string>, pairs: seq<Pair>, key: string)
    ensures key in AddKeys(seen, pairs) <==> key in seen || Lookup(pairs, key).Some?
    decreases |pairs|
  {
    if pairs != [] { KeysAdded(AddKey(seen, pairs[0]), pairs[1..], key); }
  }

  /** A scalar key has its explicit value if there is one, else the value it has
      in the first source that holds it. */
  lemma MergedLookup(env: Env, pairs: seq<Pair>, key: string)
    requires |env.names| == |env.bodies| && MergedPairs(env, pairs).Some?
    ensures Lookup(MergedPairs(env, pairs).value, key) ==
            if Lookup(Explicit(pairs), key).Some? then Lookup(Explicit(pairs), key)
            else StripOption(FirstSource(AllSources(env, pairs).value, key))
  {
    var explicit := Explicit(pairs);
    var sources := AllSources(env, pairs).value;
    var seen := AddKeys([], explicit);
    LookupConcat(explicit, Fresh(seen, SourcePairs(sources)), key);
    LookupFresh(seen, SourcePairs(sources), key);
    KeysAdded([], explicit, key);
    LookupSources(sources, key);
  }

  /** Keys that are not scalars. */
  function Complex(pairs: seq<Pair>): seq<Pair> {
    if pairs == [] then [] else (if ScalarKey(pairs[0]).None? then [pairs[0]] else []) + Complex(pairs[1..])
  }

  function StripPairs(pairs: seq<Pair>): seq<Pair> {
    seq(|pairs|, i requires 0 <= i < |pairs| => Pair(Strip(pairs[i].key), Strip(pairs[i].value)))
  }

  lemma ComplexCons(pairs: seq<Pair>)
    ensures pairs == [] ==> Complex(pairs) == []
    ensures pairs != [] ==> Complex(pairs) == (if ScalarKey(pairs[0]).None? then [pairs[0]] else []) + Complex(pairs[1..])
  {}

  lemma {:induction false} ComplexConcat(a: seq<Pair>, b: seq<Pair>)
    ensures Complex(a + b) == Complex(a) + Complex(b)
    decreases |a|
  {
    hide Complex, ScalarKey;
    ComplexCons(a);
    ComplexCons(a + b);
    if a == [] {
      assert a + b == b;
    } else {
      assert (a + b)[1..] == a[1..] + b && (a + b)[0] == a[0];
      ComplexConcat(a[1..], b);
    }
  }

  /** All pairs with other keys are kept, in order. */
  lemma {:induction false} ComplexKept(seen: seq<string>, pairs: seq<Pair>)
    ensures Complex(Fresh(seen, pairs)) == StripPairs(Complex(pairs))
    decreases |pairs|
  {
    if pairs != [] {
      ComplexKept(AddKey(seen, pairs[0]), pairs[1..]);
      var copy := Pair(Strip(pairs[0].key), Strip(pairs[0].value));
      assert ScalarKey(copy) == ScalarKey(pairs[0]);
      var rest := Fresh(AddKey(seen, pairs[0]), pairs[1..]);
      if ScalarKey(copy).None? {
        ComplexConcat([copy], rest);
        assert Complex([copy]) == [copy];
        assert StripPairs([pairs[0]] + Complex(pairs[1..])) == [copy] + StripPairs(Complex(pairs[1..]));
      } else if IsSeen(seen, pairs[0]) {
        assert Fresh(seen, pairs) == rest;
      } else {
        ComplexConcat([copy], rest);
        assert Complex([copy]) == [];
      }
    }
  }

  /** The scalar keys brought in by a merge are distinct, and none of them is explicit. */
  lemma {:induction false} FreshDistinct(seen: seq<string>, pairs: seq<Pair>, i: nat, j: nat)
    requires i < |Fresh(seen, pairs)| && ScalarKey(Fresh(seen, pairs)[i]).Some?
    ensures ScalarKey(Fresh(seen, pairs)[i]).value !in seen
    ensures i < j < |Fresh(seen, pairs)| ==> ScalarKey(Fresh(seen, pairs)[j]) != ScalarKey(Fresh(seen, pairs)[i])
    decreases |pairs|
  {
    var seen' := AddKey(seen, pairs[0]);
    var rest := Fresh(seen', pairs[1..]);
    if IsSeen(seen, pairs[0]) {
      assert Fresh(seen, pairs) == rest;
      FreshDistinct(seen', pairs[1..], i, j);
    } else {
      var copy := Pair(Strip(pairs[0].key), Strip(pairs[0].value));
      assert Fresh(seen, pairs) == [copy] + rest && ScalarKey(copy) == ScalarKey(pairs[0]);
      if i > 0 {
        FreshDistinct(seen', pairs[1..], i - 1, if j > 0 then j - 1 else 0);
      } else if 0 < j < |Fresh(seen, pairs)| && ScalarKey(rest[j - 1]).Some? {
        FreshDistinct(seen', pairs[1..], j - 1, 0);
      }
    }
  }

  // ----- a pass keeps nesting and key/value parity -----

  predicate Sound(t: Tree) { Shaped(t) && Tidy(t) && Even(t) }

  predicate AllSound(ts: seq<Tree>) { AllShaped(ts) && AllTidy(ts) && AllEven(ts) }

  predicate SoundPairs(pairs: seq<Pair>) {
    forall p | p in pairs :: Sound(p.key) && Sound(p.value)
  }

  lemma {:induction false} SoundConcat(a: seq<Tree>, b: seq<Tree>)
    ensures AllSound(a + b) <==> AllSound(a) && AllSound(b)
    decreases |a|
  {
    if a == [] {
      assert a + b == b;
    } else {
      SoundConcat(a[1..], b);
      assert (a + b)[1..] == a[1..] + b;
    }
  }

  lemma {:induction false} StripSound(t: Tree)
    requires Sound(t)
    ensures Sound(Strip(t))
    decreases t, 0
  {
    StripShaped(t);
    StripEven(t);
  }

  lemma {:induction false} StripEven(t: Tree)
    requires Even(t)
    ensures Even(Strip(t))
    decreases t, 0
  {
    if t.Coll? { StripAllEven(t.kids); }
  }

  lemma {:induction false} StripAllEven(ts: seq<Tree>)
    requires AllEven(ts)
    ensures AllEven(StripAll(ts)) && |StripAll(ts)| == |ts|
    decreases ts, 1
  {
    if ts != [] {
      StripEven(ts[0]);
      StripAllEven(ts[1..]);
      assert StripAll(ts)[1..] == StripAll(ts[1..]);
    }
  }

  lemma {:induction false} PairsSound(kids: seq<Tree>)
    requires AllSound(kids)
    ensures SoundPairs(PairsOf(kids))
  {
    if |kids| >= 2 {
      assert Sound(kids[0]) && AllSound(kids[1..]);
      assert Sound(kids[1..][0]) && AllSound(kids[1..][1..]);
      assert kids[1..][1..] == kids[2..];
      PairsSound(kids[2..]);
    }
  }

  lemma {:induction false} KidsSound(pairs: seq<Pair>)
    requires SoundPairs(pairs)
    ensures AllSound(KidsOf(pairs)) && |KidsOf(pairs)| % 2 == 0
  {
    if pairs != [] {
      var p := pairs[0];
      assert p in pairs && forall q | q in pairs[1..] :: q in pairs;
      KidsSound(pairs[1..]);
      assert AllSound([p.value]) && AllSound([p.key]) by { assert [p.value][1..] == [] && [p.key][1..] == []; }
      assert [p.key] + [p.value] == [p.key, p.value];
      SoundConcat([p.key], [p.value]);
      SoundConcat([p.key, p.value], KidsOf(pairs[1..]));
    }
  }

  lemma {:induction false} ExplicitSound(pairs: seq<Pair>)
    requires SoundPairs(pairs)
    ensures SoundPairs(Explicit(pairs))
  {
    if pairs != [] { ExplicitSound(pairs[1..]); }
  }

  lemma {:induction false} FreshSound(seen: seq<string>, pairs: seq<Pair>)
    requires SoundPairs(pairs)
    ensures SoundPairs(Fresh(seen, pairs))
    decreases |pairs|
  {
    if pairs != [] {
      FreshSound(AddKey(seen, pairs[0]), pairs[1..]);
      StripSound(pairs[0].key);
      StripSound(pairs[0].value);
    }
  }

  ghost predicate SoundEnv(env: Env) {
    |env.names| == |env.bodies| && forall k | 0 <= k < |env.bodies| :: Sound(env.bodies[k])
  }

  lemma {:induction false} EachSourceSound(env: Env, vs: seq<Tree>)
    requires SoundEnv(env) && AllSound(vs) && EachSource(env, vs).Some?
    ensures AllSound(EachSource(env, vs).value)
  {
    if vs != [] { EachSourceSound(env, vs[1..]); }
  }

  lemma {:induction false} AllSourcesSound(env: Env, pairs: seq<Pair>)
    requires SoundEnv(env) && SoundPairs(pairs) && AllSources(env, pairs).Some?
    ensures AllSound(AllSources(env, pairs).value)
  {
    if pairs != [] {
      var v := pairs[0].value;
      assert pairs[0] in pairs && forall q | q in pairs[1..] :: q in pairs;
      AllSourcesSound(env, pairs[1..]);
      if Merges(pairs[0]) {
        assert AllSound([v]) by { assert [v][1..] == []; }
        var vs := if v.Coll? && v.open.typ == SequenceStart then v.kids else [v];
        EachSourceSound(env, vs);
        SoundConcat(EachSource(env, vs).value, AllSources(env, pairs[1..]).value);
      }
    }
  }

  lemma {:induction false} SourcePairsSound(sources: seq<Tree>)
    requires AllSound(sources)
    ensures SoundPairs(SourcePairs(sources))
  {
    if sources != [] {
      assert Sound(sources[0]) && AllSound(sources[1..]);
      if sources[0].Coll? { PairsSound(sources[0].kids); }
      SourcePairsSound(sources[1..]);
    }
  }

  lemma MergedSound(env: Env, pairs: seq<Pair>)
    requires SoundEnv(env) && SoundPairs(pairs) && MergedPairs(env, pairs).Some?
    ensures SoundPairs(MergedPairs(env, pairs).value)
  {
    ExplicitSound(pairs);
    AllSourcesSound(env, pairs);
    SourcePairsSound(AllSources(env, pairs).value);
    FreshSound(AddKeys([], Explicit(pairs)), SourcePairs(AllSources(env, pairs).value));
  }

  lemma OneSound(t: Tree)
    ensures AllSound([t]) == Sound(t)
  {
    assert [t][0] == t && [t][1..] == [];
    assert AllShaped([t]) == Shaped(t);
    assert AllTidy([t]) == Tidy(t);
    assert AllEven([t]) == Even(t);
  }

  lemma RebuiltSound(t: Tree, kids: seq<Tree>)
    requires Sound(t) && t.Coll? && AllSound(kids) && (IsMapping(t) ==> |kids| % 2 == 0)
    ensures AllSound([Coll(t.open, kids, t.close)])
  {
    OneSound(Coll(t.open, kids, t.close));
  }

  lemma KidsAllSound(t: Tree)
    requires Sound(t) && t.Coll?
    ensures AllSound(t.kids) && (IsMapping(t) ==> |t.kids| % 2 == 0)
  {}

  lemma {:induction false} MergeSound(env: Env, t: Tree)
    requires SoundEnv(env) && Sound(t)
    ensures MergeTree(env, t).Ok? ==> AllSound(MergeTree(env, t).trees) && |MergeTree(env, t).trees| == 1
    decreases t, 0
  {
    hide Sound, AllSound, MergeAll, MergedPairs, PairsOf, AnyMerges;
    var r := MergeTree(env, t);
    if t.Coll? { KidsAllSound(t); } else { OneSound(t); }
    if r.Ok? && t.Coll? {
      if Rebuilds(t) {
        PairsSound(t.kids);
        MergedSound(env, PairsOf(t.kids));
        KidsSound(MergedPairs(env, PairsOf(t.kids)).value);
      } else {
        MergeAllSound(env, t.kids);
      }
      RebuiltSound(t, r.trees[0].kids);
    }
  }

  lemma {:induction false} MergeAllSound(env: Env, ts: seq<Tree>)
    requires SoundEnv(env) && AllSound(ts)
    ensures MergeAll(env, ts).Ok? ==> AllSound(MergeAll(env, ts).trees) && |MergeAll(env, ts).trees| == |ts|
    decreases ts, 1
  {
    if ts != [] {
      MergeSound(env, ts[0]);
      MergeAllSound(env, ts[1..]);
      if MergeAll(env, ts).Ok? { SoundConcat(MergeTree(env, ts[0]).trees, MergeAll(env, ts[1..]).trees); }
    }
  }

  lemma {:induction false} DefsEven(t: Tree)
    requires Even(t)
    ensures forall d | d in Defs(t) :: Even(d.body)
    decreases t, 0
  {
    if t.Coll? { AllDefsEven(t.kids); }
  }

  lemma {:induction false} AllDefsEven(ts: seq<Tree>)
    requires AllEven(ts)
    ensures forall d | d in DefsAll(ts) :: Even(d.body)
    decreases ts, 1
  {
    if ts != [] {
      DefsEven(ts[0]);
      AllDefsEven(ts[1..]);
    }
  }

  /** The anchors of the trees a pass starts from. */
  function EnvOf(ts: seq<Tree>): Env {
    var ds := DefsAll(ts);
    Env(seq(|ds|, i requires 0 <= i < |ds| => ds[i].name), Bodies(ds))
  }

  lemma EnvSound(ts: seq<Tree>)
    requires AllSound(ts)
    ensures SoundEnv(EnvOf(ts))
  {
    AllDefsNeat(ts);
    AllDefsEven(ts);
    var ds := DefsAll(ts);
    forall k | 0 <= k < |ds| ensures Sound(ds[k].body) {
      assert ds[k] in ds && Shaped(Bodies(ds)[k]) && Tidy(Bodies(ds)[k]);
    }
  }
}
