/**
 * The table of anchored nodes that merge and alias expansion look aliases up
 * in: every anchored event with the end of its node, indexed by name.
 */
module AnchorTable {
  import opened Events
  import opened NodeTrees
  import NameTable

  datatype Entry = Entry(name: string, start: nat, end: nat)

  predicate Anchored(e: Event) {
    e.anchor.Some? && e.anchor.value != ""
  }

  /** The anchored nodes that start before `n`, in order. */
  function Entries(evs: seq<Event>, n: nat): seq<Entry>
    requires n <= |evs|
  {
    if n == 0 then []
    else if Anchored(evs[n - 1]) then Entries(evs, n - 1) + [Entry(evs[n - 1].anchor.value, n - 1, NodeEnd(evs, n - 1))]
    else Entries(evs, n - 1)
  }

  /** A backward linear search of the first `n` names. */
  function LastNamed(names: seq<string>, n: nat, name: string): (r: Option<nat>)
    requires n <= |names|
    ensures r.Some? ==> r.value < n && names[r.value] == name
  {
    if n == 0 then None
    else if names[n - 1] == name then Some(n - 1)
    else LastNamed(names, n - 1, name)
  }

  lemma {:induction false} LastNamedIsLast(names: seq<string>, n: nat, name: string)
    requires n <= |names|
    ensures var r := LastNamed(names, n, name);
            forall i | 0 <= i < n && names[i] == name :: r.Some? && i <= r.value
  {
    if n > 0 { LastNamedIsLast(names, n - 1, name); }
  }

  function Names(entries: seq<Entry>): (r: seq<string>)
    ensures |r| == |entries|
  {
    seq(|entries|, i requires 0 <= i < |entries| => entries[i].name)
  }

  predicate Inside(evs: seq<Event>, es: seq<Entry>) {
    forall i | 0 <= i < |es| :: es[i].start <= es[i].end <= |evs|
  }

  lemma {:induction false} EntriesInside(evs: seq<Event>, n: nat)
    requires n <= |evs|
    ensures |Entries(evs, n)| <= n && Inside(evs, Entries(evs, n))
  {
    if n > 0 {
      EntriesInside(evs, n - 1);
      NodeEndInside(evs, n - 1);
    }
  }

  lemma {:induction false} EndFromInside(evs: seq<Event>, j: nat, open: EventType, close: EventType, depth: nat, miss: nat)
    requires j <= |evs| && depth > 0
    ensures var r := EndFrom(evs, j, open, close, depth, miss); r == miss || j < r <= |evs|
    decreases |evs| - j
  {
    if j < |evs| && !(evs[j].typ == close && evs[j].typ != open && depth == 1) {
      var d := if evs[j].typ == open then depth + 1 else if evs[j].typ == close then depth - 1 else depth;
      EndFromInside(evs, j + 1, open, close, d, miss);
    }
  }

  lemma NodeEndInside(evs: seq<Event>, idx: nat)
    requires idx < |evs|
    ensures idx < NodeEnd(evs, idx) <= |evs|
  {
    EndFromInside(evs, idx + 1, MappingStart, MappingEnd, 1, idx + 1);
    EndFromInside(evs, idx + 1, SequenceStart, SequenceEnd, 1, idx + 1);
  }

  /** The index finds, for each name, its last entry. */
  ghost predicate Indexes(m: map<string, nat>, names: seq<string>, n: nat)
    requires n <= |names|
  {
    forall name :: LastNamed(names, n, name) == if name in m then Some(m[name]) else None
  }

  lemma IndexesNext(m: map<string, nat>, names: seq<string>, n: nat)
    requires n < |names| && Indexes(m, names, n)
    ensures Indexes(m[names[n] := n], names, n + 1)
  {
    var m' := m[names[n] := n];
    forall name ensures LastNamed(names, n + 1, name) == if name in m' then Some(m'[name]) else None {
      assert LastNamed(names, n, name) == if name in m then Some(m[name]) else None;
    }
  }

  class Anchors {
    const entries: seq<Entry>
    const index: NameTable.Table

    ghost predicate Valid()
      reads index, index.slots
    {
      index.Valid() && index.Room() >= 0 && Indexes(index.contents, Names(entries), |entries|)
    }

    /** atbl_build */
    constructor (evs: seq<Event>, hash: string -> nat)
      ensures entries == Entries(evs, |evs|)
      ensures Valid() && fresh(index) && fresh(index.slots)
    {
      var es := [];
      for i := 0 to |evs|
        invariant es == Entries(evs, i)
      {
        if Anchored(evs[i]) {
          var end := FindNodeEnd(evs, i);
          es := es + [Entry(evs[i].anchor.value, i, end)];
        }
      }
      var tab := new NameTable.Table(hash, |es|);
      ghost var names := Names(es);
      for k := 0 to |es|
        invariant fresh(tab) && fresh(tab.slots) && tab.Valid() && tab.Room() >= |es| - k
        invariant Indexes(tab.contents, names, k)
      {
        IndexesNext(tab.contents, names, k);
        tab.Put(es[k].name, k);
      }
      entries := es;
      index := tab;
    }

    /** atbl_lookup: the latest entry with this name. */
    method Lookup(name: string) returns (r: Option<nat>)
      requires Valid()
      ensures r == LastNamed(Names(entries), |entries|, name)
    {
      r := index.Get(name);
    }
  }
}
