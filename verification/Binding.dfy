/**
 * Anchor binding (YAML 1.2.2 section 3.2.2.2): before merge and alias
 * expansion every anchor gets a unique name and each alias the unique name of
 * the latest anchor before it in its document. Unbinding undoes both.
 */
module Binding {
  import opened Events
  import opened NameTable

  const NUL := '\0'

  // ----- unique names: the name, NUL, a serial number in decimal -----

  function Digits(n: nat): (s: string)
    ensures s != [] && forall c | c in s :: '0' <= c <= '9'
  {
    if n < 10 then [('0' as int + n) as char] else Digits(n / 10) + [('0' as int + n % 10) as char]
  }

  /** strtoul: the number its leading digits make. */
  function Number(s: string, acc: nat := 0): nat {
    if s == [] || !('0' <= s[0] <= '9') then acc
    else Number(s[1..], acc * 10 + (s[0] as int - '0' as int))
  }

  lemma {:induction false} NumberConcat(a: string, b: string, acc: nat)
    requires forall c | c in a :: '0' <= c <= '9'
    ensures Number(a + b, acc) == Number(b, Number(a, acc))
    decreases |a|
  {
    if a == [] {
      assert a + b == b;
    } else {
      assert (a + b)[1..] == a[1..] + b;
      assert a[0] in a && forall c | c in a[1..] :: c in a;
      NumberConcat(a[1..], b, acc * 10 + (a[0] as int - '0' as int));
    }
  }

  lemma {:induction false} NumberOfDigits(n: nat)
    ensures Number(Digits(n)) == n
  {
    if n >= 10 {
      NumberOfDigits(n / 10);
      var last := [('0' as int + n % 10) as char];
      NumberConcat(Digits(n / 10), last, 0);
      assert Number(last, n / 10) == Number(last[1..], n / 10 * 10 + n % 10);
    } else {
      assert Digits(n)[1..] == [];
    }
  }

  function BoundName(name: string, serial: nat): string {
    name + [NUL] + Digits(serial)
  }

  /** memchr for NUL; |s| if there is none. */
  function NulAt(s: string): (i: nat)
    ensures i <= |s|
  {
    if s == [] || s[0] == NUL then 0 else 1 + NulAt(s[1..])
  }

  lemma {:induction false} NulAtBound(name: string, tail: string)
    requires NUL !in name
    ensures NulAt(name + [NUL] + tail) == |name|
    ensures NulAt(name) == |name|
    decreases |name|
  {
    if name == [] {
      assert name + [NUL] + tail == [NUL] + tail;
    } else {
      assert (name + [NUL] + tail)[1..] == name[1..] + [NUL] + tail;
      NulAtBound(name[1..], tail);
    }
  }

  /** unbind_name */
  function UnbindName(s: string, names: seq<string>): string {
    var z := NulAt(s);
    if z == |s| then s
    else
      var k := Number(s[z + 1..]);
      if k < |names| then names[k] else s
  }

  lemma UnbindBound(name: string, serial: nat, names: seq<string>)
    requires NUL !in name && serial < |names| && names[serial] == name
    ensures UnbindName(BoundName(name, serial), names) == name
    ensures UnbindName(name, names) == name
  {
    NulAtBound(name, Digits(serial));
    NumberOfDigits(serial);
    assert BoundName(name, serial)[|name| + 1..] == Digits(serial);
  }

  lemma BoundNamesDiffer(a: string, i: nat, b: string, j: nat)
    requires NUL !in a && NUL !in b
    ensures BoundName(a, i) == BoundName(b, j) <==> a == b && i == j
    ensures BoundName(a, i) != b
  {
    NulAtBound(a, Digits(i));
    NulAtBound(b, Digits(j));
    NumberOfDigits(i);
    NumberOfDigits(j);
    if BoundName(a, i) == BoundName(b, j) {
      assert a == BoundName(a, i)[..|a|] == BoundName(b, j)[..|b|] == b;
      assert Digits(i) == BoundName(a, i)[|a| + 1..] == BoundName(b, j)[|b| + 1..] == Digits(j);
    }
    assert BoundName(a, i)[|a|] == NUL;
  }

  // ----- what binding means -----

  predicate Anchors(e: Event) {
    e.typ != DocStart && e.anchor.Some? && e.anchor.value != ""
  }

  /** How many of the first `n` events carry an anchor. */
  function Serial(evs: seq<Event>, n: nat): nat
    requires n <= |evs|
  {
    if n == 0 then 0 else Serial(evs, n - 1) + if Anchors(evs[n - 1]) then 1 else 0
  }

  /** A backward linear search from before `n`, no further than the document's start. */
  function Latest(evs: seq<Event>, n: nat, name: string): (r: Option<nat>)
    requires n <= |evs|
    ensures r.Some? ==> r.value < n && Anchors(evs[r.value]) && evs[r.value].anchor.value == name
  {
    if n == 0 || evs[n - 1].typ == DocStart then None
    else if Anchors(evs[n - 1]) && evs[n - 1].anchor.value == name then Some(n - 1)
    else Latest(evs, n - 1, name)
  }

  /** The name the alias at `i` gets. */
  function AliasTarget(evs: seq<Event>, i: nat): string
    requires i < |evs|
  {
    match Latest(evs, i + 1, evs[i].value)
    case None => evs[i].value
    case Some(j) => BoundName(evs[i].value, Serial(evs, j + 1))
  }

  function BoundEvent(evs: seq<Event>, i: nat): Event
    requires i < |evs|
  {
    var e := evs[i];
    e.(anchor := if Anchors(e) then Some(BoundName(e.anchor.value, Serial(evs, i + 1))) else e.anchor,
       value := if e.typ == AliasEvent then AliasTarget(evs, i) else e.value)
  }

  function BoundEvents(evs: seq<Event>): (r: seq<Event>)
    ensures |r| == |evs|
  {
    seq(|evs|, i requires 0 <= i < |evs| => BoundEvent(evs, i))
  }

  function UnboundEvent(e: Event, names: seq<string>): Event {
    e.(anchor := if e.anchor.Some? then Some(UnbindName(e.anchor.value, names)) else e.anchor,
       value := if e.typ == AliasEvent then UnbindName(e.value, names) else e.value)
  }

  /** Names as the scanner makes them: it ends a name at a NUL. */
  predicate Original(e: Event) {
    (e.anchor.Some? ==> NUL !in e.anchor.value) && (e.typ == AliasEvent ==> NUL !in e.value)
  }

  /** `names` gives back the name of every anchor by its serial number. */
  ghost predicate NamesOf(evs: seq<Event>, names: seq<string>) {
    |names| == Serial(evs, |evs|) + 1 &&
    forall j | 0 <= j < |evs| && Anchors(evs[j]) ::
      Serial(evs, j + 1) < |names| && names[Serial(evs, j + 1)] == evs[j].anchor.value
  }

  // ----- the code -----

  method CountAnchors(evs: seq<Event>) returns (n: nat)
    ensures n == Serial(evs, |evs|)
  {
    n := 0;
    for i := 0 to |evs|
      invariant n == Serial(evs, i)
    {
      if Anchors(evs[i]) { n := n + 1; }
    }
  }

  lemma {:induction false} SerialGrows(evs: seq<Event>, i: nat, j: nat)
    requires i <= j <= |evs|
    ensures Serial(evs, i) <= Serial(evs, j)
  {
    if i < j { SerialGrows(evs, i, j - 1); }
  }

  lemma SerialStrict(evs: seq<Event>, i: nat, j: nat)
    requires i < j <= |evs| && Anchors(evs[j - 1])
    ensures Serial(evs, i) < Serial(evs, j)
  {
    SerialGrows(evs, i, j - 1);
  }

  /** The serial of the anchor a search would find. */
  function LatestSerial(evs: seq<Event>, n: nat, name: string): Option<nat>
    requires n <= |evs|
  {
    match Latest(evs, n, name)
    case None => None
    case Some(j) => Some(Serial(evs, j + 1))
  }

  /** The table holds, for each name, that serial. */
  ghost predicate Tracks(m: map<string, nat>, evs: seq<Event>, n: nat)
    requires n <= |evs|
  {
    forall name :: LatestSerial(evs, n, name) == if name in m then Some(m[name]) else None
  }

  lemma TracksClear(evs: seq<Event>, i: nat)
    requires i < |evs| && evs[i].typ == DocStart
    ensures Tracks(map[], evs, i + 1)
  {}

  lemma TracksNext(m: map<string, nat>, evs: seq<Event>, i: nat)
    requires i < |evs| && evs[i].typ != DocStart && Tracks(m, evs, i)
    ensures Tracks(if Anchors(evs[i]) then m[evs[i].anchor.value := Serial(evs, i + 1)] else m, evs, i + 1)
  {
    if Anchors(evs[i]) {
      var m' := m[evs[i].anchor.value := Serial(evs, i + 1)];
      forall name ensures LatestSerial(evs, i + 1, name) == if name in m' then Some(m'[name]) else None {
        LatestNext(evs, i, name);
        assert LatestSerial(evs, i, name) == if name in m then Some(m[name]) else None;
      }
    } else {
      forall name ensures LatestSerial(evs, i + 1, name) == if name in m then Some(m[name]) else None {
        LatestNext(evs, i, name);
      }
    }
  }

  lemma LatestNext(evs: seq<Event>, i: nat, name: string)
    requires i < |evs| && evs[i].typ != DocStart
    ensures LatestSerial(evs, i + 1, name) ==
            if Anchors(evs[i]) && evs[i].anchor.value == name then Some(Serial(evs, i + 1)) else LatestSerial(evs, i, name)
  {}

  /** An event between document starts: its anchor enters the table, its alias
      is looked up there. */
  method BindEvent(e: Event, tab: Table, serial: nat, ghost evs: seq<Event>, ghost i: nat) returns (r: Event)
    requires i < |evs| && e == evs[i] && e.typ != DocStart && serial == Serial(evs, i) + 1
    requires tab.Valid() && tab.Room() >= (if Anchors(e) then 1 else 0) && Tracks(tab.contents, evs, i)
    modifies tab, tab.slots
    ensures r == BoundEvent(evs, i)
    ensures tab.Valid() && Tracks(tab.contents, evs, i + 1)
    ensures tab.Room() >= old(tab.Room()) - if Anchors(e) then 1 else 0
  {
    r := e;
    TracksNext(tab.contents, evs, i);
    if Anchors(e) {
      tab.Put(e.anchor.value, serial);
      r := r.(anchor := Some(BoundName(e.anchor.value, serial)));
    }
    if e.typ == AliasEvent {
      var found := tab.Get(e.value);
      if found.Some? { r := r.(value := BoundName(e.value, found.value)); }
      assert r.value == AliasTarget(evs, i);
    }
  }

  /** The table is right for the first `i` events and has room for the rest. */
  ghost predicate Ready(tab: Table, evs: seq<Event>, i: nat)
    requires i <= |evs|
    reads tab, tab.slots
  {
    tab.Valid() && Tracks(tab.contents, evs, i) &&
    tab.slots.Length - 1 >= Serial(evs, |evs|) && tab.Room() >= Serial(evs, |evs|) - Serial(evs, i)
  }

  lemma StartReady(tab: Table, evs: seq<Event>)
    requires tab.Valid() && tab.contents == map[] && tab.Room() == tab.slots.Length - 1 >= Serial(evs, |evs|)
    ensures Ready(tab, evs, 0)
  {}

  /** One event of the array: a document start empties the table. */
  method BindNext(e: Event, tab: Table, serial: nat, ghost evs: seq<Event>, ghost i: nat) returns (r: Event)
    requires i < |evs| && e == evs[i] && serial == Serial(evs, i) + 1 && Ready(tab, evs, i)
    modifies tab, tab.slots
    ensures r == BoundEvent(evs, i) && Ready(tab, evs, i + 1)
  {
    SerialGrows(evs, i + 1, |evs|);
    if e.typ == DocStart {
      TracksClear(evs, i);
      tab.Clear();
      NoBind(evs, i);
      r := e;
    } else {
      r := BindEvent(e, tab, serial, evs, i);
    }
  }

  /** bind_anchors, over the event array in place; also the names by serial. */
  method BindAnchors(events: array<Event>, hash: string -> nat) returns (names: seq<string>)
    modifies events
    ensures events[..] == BoundEvents(old(events[..]))
    ensures NamesOf(old(events[..]), names)
  {
    hide BoundEvents, BoundEvent, Tracks, LatestSerial, NamesTo, Ready, Serial;
    ghost var evs := events[..];
    var count := CountAnchors(events[..]);
    names := [""];
    if count == 0 {
      NoAnchors(evs);
      return;
    }
    var tab := new Table(hash, count);
    StartReady(tab, evs);
    NamesNone(evs);
    for i := 0 to events.Length
      invariant fresh(tab) && fresh(tab.slots) && Ready(tab, evs, i)
      invariant events[..] == BoundEvents(evs)[..i] + evs[i..]
      invariant names == NamesTo(evs, i)
    {
      NamesNext(evs, i);
      BoundNext(evs, i);
      ghost var before := events[..];
      var e := events[i];
      var r := BindNext(e, tab, |names|, evs, i);
      if Anchors(e) { names := names + [e.anchor.value]; }
      events[i] := r;
      assert events[..] == before[i := r];
    }
    NamesToOf(evs, |evs|);
  }

  lemma BoundNext(evs: seq<Event>, i: nat)
    requires i < |evs|
    ensures var cur := BoundEvents(evs)[..i] + evs[i..];
            cur[i] == evs[i] && cur[i := BoundEvent(evs, i)] == BoundEvents(evs)[..i + 1] + evs[i + 1..]
  {}

  lemma NoBind(evs: seq<Event>, i: nat)
    requires i < |evs| && evs[i].typ == DocStart
    ensures BoundEvent(evs, i) == evs[i] && Serial(evs, i + 1) == Serial(evs, i)
  {}

  /** The names of the anchors before `n`, by serial. */
  function NamesTo(evs: seq<Event>, n: nat): seq<string>
    requires n <= |evs|
  {
    if n == 0 then [""] else NamesTo(evs, n - 1) + if Anchors(evs[n - 1]) then [evs[n - 1].anchor.value] else []
  }

  lemma NamesNone(evs: seq<Event>)
    ensures NamesTo(evs, 0) == [""]
  {}

  lemma NamesNext(evs: seq<Event>, i: nat)
    requires i < |evs|
    ensures |NamesTo(evs, i)| == Serial(evs, i) + 1
    ensures NamesTo(evs, i + 1) == NamesTo(evs, i) + if Anchors(evs[i]) then [evs[i].anchor.value] else []
  {
    NamesToOf(evs, i);
  }

  lemma {:induction false} NamesToOf(evs: seq<Event>, n: nat)
    requires n <= |evs|
    ensures |NamesTo(evs, n)| == Serial(evs, n) + 1
    ensures forall j | 0 <= j < n && Anchors(evs[j]) ::
              Serial(evs, j + 1) < |NamesTo(evs, n)| && NamesTo(evs, n)[Serial(evs, j + 1)] == evs[j].anchor.value
  {
    if n > 0 { NamesToOf(evs, n - 1); }
  }

  lemma {:induction false} NoAnchors(evs: seq<Event>)
    requires Serial(evs, |evs|) == 0
    ensures BoundEvents(evs) == evs && forall i | 0 <= i < |evs| :: !Anchors(evs[i])
  {
    forall i | 0 <= i < |evs| ensures !Anchors(evs[i]) {
      if Anchors(evs[i]) { SerialStrict(evs, 0, i + 1); SerialGrows(evs, i + 1, |evs|); }
    }
    forall i | 0 <= i < |evs| ensures Latest(evs, i + 1, evs[i].value) == None {}
  }

  /** unbind_anchors, in place. */
  method UnbindAnchors(events: array<Event>, names: seq<string>)
    modifies events
    ensures forall i | 0 <= i < events.Length :: events[i] == UnboundEvent(old(events[i]), names)
  {
    for i := 0 to events.Length
      invariant forall k | 0 <= k < i :: events[k] == UnboundEvent(old(events[k]), names)
      invariant forall k | i <= k < events.Length :: events[k] == old(events[k])
    {
      events[i] := UnboundEvent(events[i], names);
    }
  }

  // ----- what binding promises -----

  /** Unbinding gives back every original name. */
  lemma UnbindUndoes(evs: seq<Event>, names: seq<string>, i: nat)
    requires i < |evs| && NamesOf(evs, names) && forall e | e in evs :: Original(e)
    ensures UnboundEvent(BoundEvent(evs, i), names) == evs[i]
  {
    var e := evs[i];
    assert Original(e);
    if Anchors(e) {
      UnbindBound(e.anchor.value, Serial(evs, i + 1), names);
    } else if e.anchor.Some? {
      NulAtBound(e.anchor.value, "");
    }
    if e.typ == AliasEvent {
      NulAtBound(e.value, "");
      match Latest(evs, i + 1, e.value)
      case None =>
      case Some(j) => UnbindBound(e.value, Serial(evs, j + 1), names);
    }
  }

  /** Bound anchors have different names. */
  lemma BoundAnchorsUnique(evs: seq<Event>, i: nat, j: nat)
    requires i < j < |evs| && Anchors(evs[i]) && Anchors(evs[j]) && Original(evs[i]) && Original(evs[j])
    ensures BoundEvent(evs, i).anchor != BoundEvent(evs, j).anchor
  {
    SerialStrict(evs, i + 1, j + 1);
    BoundNamesDiffer(evs[i].anchor.value, Serial(evs, i + 1), evs[j].anchor.value, Serial(evs, j + 1));
  }

  /** A bound alias names an anchor exactly when that anchor is the latest of
      its name before the alias in the document. */
  lemma AliasFindsLatest(evs: seq<Event>, i: nat, j: nat)
    requires i < |evs| && j < |evs| && evs[i].typ == AliasEvent && Anchors(evs[j]) && Original(evs[i]) && Original(evs[j])
    ensures BoundEvent(evs, j).anchor == Some(BoundEvent(evs, i).value) <==> Latest(evs, i + 1, evs[i].value) == Some(j)
  {
    var name := evs[i].value;
    var found := Latest(evs, i + 1, name);
    if found.None? {
      BoundNamesDiffer(evs[j].anchor.value, Serial(evs, j + 1), name, 0);
    } else {
      var k := found.value;
      BoundNamesDiffer(evs[j].anchor.value, Serial(evs, j + 1), name, Serial(evs, k + 1));
      SerialsDiffer(evs, j, k);
    }
  }

  lemma SerialsDiffer(evs: seq<Event>, j: nat, k: nat)
    requires j < |evs| && k < |evs| && Anchors(evs[j]) && Anchors(evs[k])
    ensures Serial(evs, j + 1) == Serial(evs, k + 1) <==> j == k
  {
    if j < k { SerialStrict(evs, j + 1, k + 1); }
    if k < j { SerialStrict(evs, k + 1, j + 1); }
  }
}
