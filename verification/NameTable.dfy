/**
 * The open-addressing table that anchor binding and the merge and alias passes
 * look names up in: linear probing over a power-of-two number of slots, at
 * most half full. A probe always ends, and finds the latest entry of the name.
 */
module NameTable {
  import opened Events

  datatype Slot = Empty | Entry(name: string, value: nat)

  /** The next slot of a probe: (h + 1) & (cap - 1) for a slot h below cap. */
  function Step(h: nat, cap: nat): nat
    requires h < cap
  {
    if h + 1 == cap then 0 else h + 1
  }

  /** The slot `d` steps from `h`. */
  function Probe(h: nat, d: nat, cap: nat): (r: nat)
    requires h < cap
    ensures r < cap
    decreases d
  {
    if d == 0 then h else Step(Probe(h, d - 1, cap), cap)
  }

  /** Every slot is on the probe from every other. */
  lemma {:induction false} ProbeReaches(h: nat, e: nat, cap: nat)
    requires h < cap && e < cap
    ensures exists d: nat | d < cap :: Probe(h, d, cap) == e
  {
    var d := if h <= e then e - h else e + cap - h;
    ProbeAt(h, d, cap);
  }

  lemma {:induction false} ProbeAt(h: nat, d: nat, cap: nat)
    requires h < cap && d < cap
    ensures Probe(h, d, cap) == if h + d < cap then h + d else h + d - cap
    decreases d
  {
    if d > 0 { ProbeAt(h, d - 1, cap); }
  }

  function Empties(slots: seq<Slot>): nat {
    if slots == [] then 0 else (if slots[0] == Empty then 1 else 0) + Empties(slots[1..])
  }

  lemma {:induction false} EmptiesUpdate(slots: seq<Slot>, h: nat, s: Slot)
    requires h < |slots| && slots[h] == Empty && s.Entry?
    ensures Empties(slots[h := s]) == Empties(slots) - 1
  {
    if h == 0 {
      assert slots[h := s][1..] == slots[1..];
    } else {
      EmptiesUpdate(slots[1..], h - 1, s);
      assert slots[h := s][1..] == slots[1..][h - 1 := s];
    }
  }

  lemma {:induction false} EmptiesReplace(slots: seq<Slot>, h: nat, s: Slot)
    requires h < |slots| && slots[h].Entry? && s.Entry?
    ensures Empties(slots[h := s]) == Empties(slots)
  {
    if h == 0 {
      assert slots[h := s][1..] == slots[1..];
    } else {
      EmptiesReplace(slots[1..], h - 1, s);
      assert slots[h := s][1..] == slots[1..][h - 1 := s];
    }
  }

  lemma {:induction false} EmptySlot(slots: seq<Slot>) returns (h: nat)
    requires Empties(slots) > 0
    ensures h < |slots| && slots[h] == Empty
  {
    if slots[0] == Empty { h := 0; } else { h := EmptySlot(slots[1..]); h := h + 1; }
  }

  lemma {:induction false} AllEmpty(slots: seq<Slot>)
    requires forall h | 0 <= h < |slots| :: slots[h] == Empty
    ensures Empties(slots) == |slots|
  {
    if slots != [] { AllEmpty(slots[1..]); }
  }

  /** The slots hold exactly `m`: each name is `where[name]` steps from its home,
      after slots taken by other names. */
  ghost predicate Holds(slots: seq<Slot>, m: map<string, nat>, where: map<string, nat>, home: string -> nat) {
    && |slots| > 0
    && where.Keys == m.Keys
    && (forall n | n in m :: home(n) < |slots| && Placed(slots, n, m[n], where[n], home(n)))
    && (forall h | 0 <= h < |slots| :: slots[h].Entry? ==>
          slots[h].name in m && Probe(home(slots[h].name), where[slots[h].name], |slots|) == h)
  }

  ghost predicate Placed(slots: seq<Slot>, n: string, v: nat, d: nat, h0: nat)
    requires h0 < |slots|
  {
    && slots[Probe(h0, d, |slots|)] == Entry(n, v)
    && Taken(slots, n, d, h0)
  }

  /** The first `d` slots of the probe from `h0` hold other names. */
  ghost predicate Taken(slots: seq<Slot>, n: string, d: nat, h0: nat)
    requires h0 < |slots|
  {
    forall k: nat {:trigger Probe(h0, k, |slots|)} | k < d ::
      slots[Probe(h0, k, |slots|)].Entry? && slots[Probe(h0, k, |slots|)].name != n
  }

  lemma SameStop(slots: seq<Slot>, n: string, v: nat, w: nat, d: nat, h0: nat)
    requires h0 < |slots| && Placed(slots, n, v, w, h0) && Taken(slots, n, d, h0)
    requires var s := slots[Probe(h0, d, |slots|)]; s == Empty || s.name == n
    ensures w == d
  {}

  class Table {
    const hash: string -> nat
    const slots: array<Slot>
    var used: seq<nat>                 // the slots filled since the last clear
    ghost var contents: map<string, nat>
    ghost var where: map<string, nat>

    /** At least 16 slots, and twice as many as entries are expected. */
    constructor (hash: string -> nat, expected: nat)
      ensures Valid() && fresh(slots) && contents == map[] && Room() == slots.Length - 1 >= expected && this.hash == hash
    {
      var cap := 16;
      while cap < expected * 2
        invariant cap >= 16
        decreases expected * 2 - cap
      {
        cap := cap * 2;
      }
      this.hash := hash;
      slots := new Slot[cap](_ => Empty);
      used := [];
      contents := map[];
      where := map[];
      new;
      AllEmpty(slots[..]);
    }

    function Home(name: string): nat
      requires slots.Length > 0
    {
      hash(name) % slots.Length
    }

    ghost predicate Valid()
      reads this, slots
    {
      && slots.Length > 0
      && Holds(slots[..], contents, where, n => hash(n) % slots.Length)
      && (forall h | 0 <= h < slots.Length :: slots[h].Entry? ==> h in used)
      && (forall h | h in used :: h < slots.Length)
    }

    /** How many more names fit with a slot left free. */
    ghost function Room(): int
      reads this, slots
    {
      Empties(slots[..]) - 1
    }

    /** Follows the probe of `name` to its slot or to the free slot that ends it. */
    method Find(name: string) returns (h: nat, ghost d: nat)
      requires Valid() && Room() >= 0
      ensures h < slots.Length
      ensures name in contents <==> slots[h].Entry?
      ensures name in contents ==> slots[h] == Entry(name, contents[name])
      ensures Probe(Home(name), d, slots.Length) == h && Taken(slots[..], name, d, Home(name))
    {
      hide Holds, Empties;
      ghost var cap := slots.Length;
      ghost var free := EmptySlot(slots[..]);
      ProbeReaches(Home(name), free, cap);
      ghost var last: nat :| last < cap && Probe(Home(name), last, cap) == free;
      d := 0;
      h := Home(name);
      while slots[h].Entry? && slots[h].name != name
        invariant h < cap && h == Probe(Home(name), d, cap)
        invariant Taken(slots[..], name, d, Home(name))
        invariant d <= last
        decreases last - d
      {
        h := if h + 1 == slots.Length then 0 else h + 1;
        d := d + 1;
      }
      FindEnds(name, d, h);
    }

    /** A probe that stopped at `h` says whether the name is there. */
    lemma FindEnds(name: string, d: nat, h: nat)
      requires Valid() && h < slots.Length && h == Probe(Home(name), d, slots.Length)
      requires Taken(slots[..], name, d, Home(name))
      requires slots[h] == Empty || slots[h].name == name
      ensures name in contents <==> slots[h].Entry?
      ensures name in contents ==> slots[h] == Entry(name, contents[name])
    {
      var home := (n: string) => hash(n) % slots.Length;
      assert home(name) == Home(name);
      if name in contents {
        assert Placed(slots[..], name, contents[name], where[name], home(name));
        SameStop(slots[..], name, contents[name], where[name], d, home(name));
      }
    }

    method Get(name: string) returns (r: Option<nat>)
      requires Valid() && Room() >= 0
      ensures r == if name in contents then Some(contents[name]) else None
    {
      var h, _ := Find(name);
      r := if slots[h].Entry? then Some(slots[h].value) else None;
    }

    /** A later value of the same name replaces the earlier one. */
    method Put(name: string, value: nat)
      requires Valid() && Room() >= 1
      modifies this, slots
      ensures Valid() && contents == old(contents)[name := value]
      ensures Room() >= old(Room()) - 1
    {
      hide Holds, Taken, Empties, Probe;
      var h, d := Find(name);
      ghost var before := slots[..];
      PutKeeps(name, value, h, d);
      where := where[name := if name in where then where[name] else d];
      contents := contents[name := value];
      if slots[h] == Empty { used := used + [h]; }
      slots[h] := Entry(name, value);
      assert slots[..] == before[h := Entry(name, value)];
    }

    /** What writing the slot that Find stopped at will give. */
    lemma PutKeeps(name: string, value: nat, h: nat, d: nat)
      requires Valid() && h < slots.Length && h == Probe(Home(name), d, slots.Length)
      requires Taken(slots[..], name, d, Home(name))
      requires name in contents <==> slots[h].Entry?
      requires name in contents ==> slots[h] == Entry(name, contents[name])
      ensures Holds(slots[..][h := Entry(name, value)], contents[name := value],
                    where[name := if name in where then where[name] else d], n => hash(n) % slots.Length)
      ensures Empties(slots[..][h := Entry(name, value)]) >= Empties(slots[..]) - 1
    {
      var home := (n: string) => hash(n) % slots.Length;
      if slots[h] == Empty {
        EmptiesUpdate(slots[..], h, Entry(name, value));
        PutHolds(slots[..], contents, where, home, name, value, h, d);
      } else {
        EmptiesReplace(slots[..], h, Entry(name, value));
        assert Placed(slots[..], name, contents[name], where[name], home(name));
        PutHolds(slots[..], contents, where, home, name, value, h, where[name]);
      }
    }

    /** Empties the slots that were filled. */
    method Clear()
      requires Valid()
      modifies this, slots
      ensures Valid() && contents == map[] && used == []
      ensures Room() == slots.Length - 1
    {
      while used != []
        invariant forall h | 0 <= h < slots.Length :: slots[h].Entry? ==> h in used
        invariant forall h | h in used :: h < slots.Length
        decreases |used|
      {
        var h := used[|used| - 1];
        assert h in used;
        ghost var before := used;
        slots[h] := Empty;
        used := used[..|used| - 1];
        assert before == used + [h];
        forall k | 0 <= k < slots.Length && slots[k].Entry? ensures k in used {
          assert k in before;
        }
        forall k | k in used ensures k < slots.Length {
          assert k in before;
        }
      }
      contents := map[];
      where := map[];
      AllEmpty(slots[..]);
    }
  }

  lemma PutHolds(slots: seq<Slot>, m: map<string, nat>, where: map<string, nat>, home: string -> nat,
                 name: string, value: nat, h: nat, d: nat)
    requires Holds(slots, m, where, home) && h < |slots| && home(name) < |slots|
    requires Probe(home(name), d, |slots|) == h && Taken(slots, name, d, home(name))
    requires slots[h] == Empty || slots[h].name == name
    requires name in m <==> slots[h].Entry?
    requires name in m ==> d == where[name]
    ensures Holds(slots[h := Entry(name, value)], m[name := value], where[name := d], home)
  {
    var after := slots[h := Entry(name, value)];
    forall n | n in m[name := value] ensures Placed(after, n, m[name := value][n], where[name := d][n], home(n)) {
      if n != name {
        StillTaken(slots, n, where[n], home(n), h, name, value);
      } else {
        StillTaken(slots, n, d, home(n), h, name, value);
      }
    }
  }

  /** Writing a slot that was free or the name's own keeps other probes. */
  lemma StillTaken(slots: seq<Slot>, n: string, d: nat, h0: nat, h: nat, name: string, value: nat)
    requires h0 < |slots| && h < |slots| && Taken(slots, n, d, h0) && (slots[h] == Empty || slots[h].name == name)
    ensures Taken(slots[h := Entry(name, value)], n, d, h0)
  {}
}
