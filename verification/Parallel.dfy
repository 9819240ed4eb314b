/**
 * The parallel benchmark's protocol: threads take chunk indices from a shared
 * counter, parse at most a window ahead of delivery, and the main thread
 * delivers chunks in order and parses one when none is ready. Every load and
 * store of a shared variable is a step of its own, and threads take their steps
 * in any order.
 */
module Parallel {
  /** Chunks, worker threads besides the main one, and chunks parsed ahead of
      delivery (0: no limit). */
  datatype Setup = Setup(n: nat, workers: nat, window: nat)

  datatype Worker = Fetch | Gate(i: nat) | Parsing(i: nat) | Exited

  datatype MainThread = Poll | Check | Claim | Help(i: nat) | Hand | Publish | Joining

  /** `claims`: which thread took each ticket, so that the counter is |claims|;
      `k`: the main thread's next chunk; `parsed` and `out`: the chunks parsed
      and handed over so far, in that order. */
  datatype State = State(claims: seq<nat>, done: seq<bool>, delivered: nat, workers: seq<Worker>,
                         main: MainThread, k: nat, parsed: seq<nat>, out: seq<nat>)

  const MAIN: nat := 0

  function Start(c: Setup): State {
    State([], seq(c.n, _ => false), 0, seq(c.workers, _ => Fetch), Poll, 0, [], [])
  }

  function Limit(c: Setup, k: nat): nat {
    if c.window > 0 && k + c.window < c.n then k + c.window else c.n
  }

  /** parse_chunk, when it is over. */
  function Parse(s: State, i: nat): State {
    s.(done := if i < |s.done| then s.done[i := true] else s.done, parsed := s.parsed + [i])
  }

  /** A step of worker `t`. */
  function WorkerStep(c: Setup, s: State, t: nat): State
    requires t < |s.workers|
  {
    match s.workers[t]
    case Fetch =>
      var i := |s.claims|;
      s.(claims := s.claims + [t + 1], workers := s.workers[t := if i < c.n then Gate(i) else Exited])
    case Gate(i) =>
      if c.window > 0 && i >= s.delivered + c.window then s
      else s.(workers := s.workers[t := Parsing(i)])
    case Parsing(i) => Parse(s, i).(workers := s.workers[t := Fetch])
    case Exited => s
  }

  function MainStep(c: Setup, s: State): State {
    match s.main
    case Poll =>
      if s.k >= c.n then s.(main := Joining)
      else s.(main := if s.k < |s.done| && s.done[s.k] then Hand else Check)
    case Check => s.(main := if |s.claims| < Limit(c, s.k) then Claim else Poll)
    case Claim =>
      var i := |s.claims|;
      s.(claims := s.claims + [MAIN], main := if i < c.n then Help(i) else Poll)
    case Help(i) => Parse(s, i).(main := Poll)
    case Hand => s.(out := s.out + [s.k], k := s.k + 1, main := Publish)
    case Publish => s.(delivered := s.k, main := Poll)
    case Joining => s
  }

  /** A step of thread `t`: the main thread is 0, worker w is w + 1. */
  function Step(c: Setup, s: State, t: nat): State {
    if t == MAIN then MainStep(c, s)
    else if t <= |s.workers| then WorkerStep(c, s, t - 1)
    else s
  }

  /** An interleaving: which thread moves when. */
  function Run(c: Setup, s: State, schedule: seq<nat>): State
    decreases |schedule|
  {
    if schedule == [] then s else Run(c, Step(c, s, schedule[0]), schedule[1..])
  }

  lemma {:induction false} RunMore(c: Setup, s: State, a: seq<nat>, b: seq<nat>)
    ensures Run(c, s, a + b) == Run(c, Run(c, s, a), b)
    decreases |a|
  {
    if a == [] {
      assert a + b == b;
    } else {
      assert (a + b)[1..] == a[1..] + b;
      RunMore(c, Step(c, s, a[0]), a[1..], b);
    }
  }

  // ----- each chunk has one owner -----

  /** Thread `t` has taken chunk `i` and not finished it. */
  predicate Owns(s: State, t: nat, i: nat) {
    if t == MAIN then s.main == Help(i)
    else t <= |s.workers| && (s.workers[t - 1] == Gate(i) || s.workers[t - 1] == Parsing(i))
  }

  predicate Mine(c: Setup, s: State, t: nat, i: nat) {
    i < c.n && i < |s.claims| && s.claims[i] == t && i < |s.done| && !s.done[i]
  }

  /** A chunk taken and not done is with the thread that took it, and with no other. */
  ghost predicate Owned(c: Setup, s: State) {
    && |s.workers| == c.workers && |s.done| == c.n
    && (forall t: nat, i: nat :: Owns(s, t, i) ==> Mine(c, s, t, i))
    && (forall i: nat | i < c.n && i < |s.claims| && !s.done[i] :: Owns(s, s.claims[i], i))
    && (forall i: nat | i < c.n && s.done[i] :: i < |s.claims|)
  }

  predicate Distinct(a: seq<nat>) {
    forall i, j | 0 <= i < j < |a| :: a[i] != a[j]
  }

  /** The chunks parsed are those done, each parsed once. */
  ghost predicate ParsedOnce(c: Setup, s: State) {
    && |s.done| == c.n && Distinct(s.parsed)
    && (forall i: nat :: i in s.parsed <==> i < c.n && s.done[i])
  }

  // ----- chunks are delivered in order, when done -----

  function UpTo(k: nat): seq<nat> { seq(k, i requires 0 <= i < k => i) }

  predicate DoneBelow(s: State, k: nat) {
    k <= |s.done| && forall i | 0 <= i < k :: s.done[i]
  }

  predicate InOrder(c: Setup, s: State) {
    && |s.done| == c.n && s.out == UpTo(s.k) && DoneBelow(s, s.k)
    && s.k == s.delivered + (if s.main == Publish then 1 else 0)
    && (s.main == Check || s.main == Claim || s.main == Hand || s.main.Help? ==> s.k < c.n)
    && (s.main == Hand ==> s.done[s.k])
    && (s.main == Joining ==> s.k == c.n)
  }

  // ----- nobody runs far ahead -----

  /** Tickets `lo` and above are with workers held at the gate. */
  predicate Gated(c: Setup, s: State, lo: nat) {
    forall i: nat | lo <= i < |s.claims| && i < c.n ::
      1 <= s.claims[i] <= |s.workers| && s.workers[s.claims[i] - 1] == Gate(i)
  }

  /** The furthest chunk the main thread may come to parse. */
  predicate Near(c: Setup, k: nat, i: nat) {
    i < k + c.window || (c.workers > 0 && i <= k + c.window + c.workers)
  }

  predicate Bounded(c: Setup, s: State) {
    c.window > 0 ==>
      && (forall t: nat | t < |s.workers| && s.workers[t].Parsing? :: s.workers[t].i < s.delivered + c.window)
      && (s.main == Claim ==> Gated(c, s, s.k + c.window) && (c.workers == 0 ==> |s.claims| < s.k + c.window))
      && (s.main.Help? ==> Near(c, s.k, s.main.i))
  }

  ghost predicate Inv(c: Setup, s: State) {
    Owned(c, s) && ParsedOnce(c, s) && InOrder(c, s) && Bounded(c, s)
  }

  lemma StartInv(c: Setup)
    ensures Inv(c, Start(c))
  {}

  /** Threads that do not move keep what they own. */
  lemma OthersKeep(c: Setup, s: State, t: nat, u: nat, i: nat)
    requires Owned(c, s) && t != u
    ensures Owns(Step(c, s, t), u, i) <==> Owns(s, u, i)
  {}

  /** Only the owner finishes a chunk. */
  lemma OwnerFinishes(c: Setup, s: State, t: nat, i: nat)
    requires Owned(c, s) && i < c.n
    ensures Step(c, s, t).done[i] != s.done[i] ==> Owns(s, t, i) && !s.done[i]
  {
    assert s.main.Help? ==> Owns(s, MAIN, s.main.i);
    if 1 <= t <= |s.workers| && s.workers[t - 1].Parsing? { assert Owns(s, t, s.workers[t - 1].i); }
  }

  /** The thread that moves: it owns what it has just taken or already had. */
  lemma MoverOwns(c: Setup, s: State, t: nat, i: nat)
    requires Owned(c, s) && Owns(Step(c, s, t), t, i)
    ensures Mine(c, Step(c, s, t), t, i)
  {
    assert Owns(s, t, i) ==> Mine(c, s, t, i);
  }

  lemma StaysMine(c: Setup, s: State, t: nat, u: nat, i: nat)
    requires Owned(c, s) && t != u && Owns(Step(c, s, t), u, i)
    ensures Mine(c, Step(c, s, t), u, i)
  {
    OthersKeep(c, s, t, u, i);
    assert Mine(c, s, u, i);
    OwnerFinishes(c, s, t, i);
    assert Owns(s, t, i) ==> Mine(c, s, t, i);
  }

  lemma StaysOwned(c: Setup, s: State, t: nat, i: nat)
    requires Owned(c, s)
    ensures var s' := Step(c, s, t); i < c.n && i < |s'.claims| && !s'.done[i] ==> Owns(s', s'.claims[i], i)
  {
    var s' := Step(c, s, t);
    if i < |s.claims| && i < c.n && !s'.done[i] {
      assert !s.done[i];
      assert Owns(s, s.claims[i], i);
      if s.claims[i] != t { OthersKeep(c, s, t, s.claims[i], i); }
    }
  }

  lemma StepOwned(c: Setup, s: State, t: nat)
    requires Owned(c, s)
    ensures Owned(c, Step(c, s, t))
  {
    var s' := Step(c, s, t);
    forall u: nat, i: nat | Owns(s', u, i) ensures Mine(c, s', u, i) {
      if u == t { MoverOwns(c, s, t, i); } else { StaysMine(c, s, t, u, i); }
    }
    forall i: nat | i < c.n && i < |s'.claims| && !s'.done[i] ensures Owns(s', s'.claims[i], i) {
      StaysOwned(c, s, t, i);
    }
    forall i: nat | i < c.n && s'.done[i] ensures i < |s'.claims| {
      if !s.done[i] { OwnerFinishes(c, s, t, i); assert Mine(c, s, t, i); }
    }
  }

  lemma StepParsed(c: Setup, s: State, t: nat)
    requires Owned(c, s) && ParsedOnce(c, s)
    ensures ParsedOnce(c, Step(c, s, t))
  {
    if t == MAIN && s.main.Help? {
      assert Owns(s, MAIN, s.main.i);
      assert Mine(c, s, MAIN, s.main.i);
    } else if 1 <= t <= |s.workers| && s.workers[t - 1].Parsing? {
      assert Owns(s, t, s.workers[t - 1].i);
      assert Mine(c, s, t, s.workers[t - 1].i);
    }
  }

  lemma StepInOrder(c: Setup, s: State, t: nat)
    requires Owned(c, s) && InOrder(c, s)
    ensures InOrder(c, Step(c, s, t))
  {
    if s.main == Hand { assert UpTo(s.k) + [s.k] == UpTo(s.k + 1); }
  }

  /** While the main thread goes to take a ticket, those past the window stay at the gate. */
  lemma StaysGated(c: Setup, s: State, t: nat)
    requires Owned(c, s) && InOrder(c, s) && Bounded(c, s) && c.window > 0 && s.main == Claim && t != MAIN
    ensures var s' := Step(c, s, t);
            Gated(c, s', s'.k + c.window) && (c.workers == 0 ==> |s'.claims| < s'.k + c.window)
  {
    var s', lo := Step(c, s, t), s.k + c.window;
    forall i: nat | lo <= i < |s'.claims| && i < c.n
      ensures 1 <= s'.claims[i] <= |s'.workers| && s'.workers[s'.claims[i] - 1] == Gate(i)
    {
      if i < |s.claims| { assert s.workers[s.claims[i] - 1] == Gate(i); }
    }
  }

  /** A worker holds one chunk, so at most one each is past the window. */
  lemma GatedFew(c: Setup, s: State, lo: nat)
    requires |s.workers| == c.workers && Gated(c, s, lo) && lo <= |s.claims| <= c.n
    ensures |s.claims| - lo <= c.workers
  {
    var a := s.claims[lo..];
    forall i, j | 0 <= i < j < |a| ensures a[i] != a[j] {
      assert s.workers[s.claims[lo + i] - 1] == Gate(lo + i);
      assert s.workers[s.claims[lo + j] - 1] == Gate(lo + j);
    }
    Pigeonhole(a, c.workers);
  }

  lemma {:induction false} Pigeonhole(a: seq<nat>, m: nat)
    requires Distinct(a) && forall i | 0 <= i < |a| :: 1 <= a[i] <= m
    ensures |a| <= m
  {
    if a != [] {
      assert 1 <= a[0] <= m;
      if m in a {
        var j :| 0 <= j < |a| && a[j] == m;
        Pigeonhole(a[..j] + a[j + 1..], m - 1);
      } else {
        Pigeonhole(a, m - 1);
      }
    }
  }

  lemma StepBounded(c: Setup, s: State, t: nat)
    requires Owned(c, s) && InOrder(c, s) && Bounded(c, s)
    ensures Bounded(c, Step(c, s, t))
  {
    var s' := Step(c, s, t);
    if c.window > 0 {
      if t == MAIN {
        MainBounded(c, s);
      } else {
        assert s'.main == s.main && s'.k == s.k && s'.delivered == s.delivered;
        if s.main == Claim { StaysGated(c, s, t); }
      }
    }
  }

  lemma MainBounded(c: Setup, s: State)
    requires Owned(c, s) && InOrder(c, s) && Bounded(c, s) && c.window > 0
    ensures Bounded(c, MainStep(c, s))
  {
    if s.main == Claim && |s.claims| < c.n && s.k + c.window <= |s.claims| {
      GatedFew(c, s, s.k + c.window);
    }
  }

  lemma {:induction false} RunInv(c: Setup, s: State, schedule: seq<nat>)
    requires Inv(c, s)
    ensures Inv(c, Run(c, s, schedule))
    decreases |schedule|
  {
    if schedule != [] {
      StepOwned(c, s, schedule[0]);
      StepParsed(c, s, schedule[0]);
      StepInOrder(c, s, schedule[0]);
      StepBounded(c, s, schedule[0]);
      RunInv(c, Step(c, s, schedule[0]), schedule[1..]);
    }
  }

  /** In every interleaving: a chunk is parsed by the thread that took it and
      only once, chunks are delivered once each in index order and only when
      done, a worker parses inside the window, and the main thread at most one
      chunk per thread past it. */
  lemma Safe(c: Setup, schedule: seq<nat>)
    ensures var s := Run(c, Start(c), schedule);
            && Distinct(s.parsed)
            && s.out == UpTo(s.k) && (forall i: nat | i < s.k :: i in s.parsed)
            && (forall t: nat, u: nat, i: nat | Owns(s, t, i) && Owns(s, u, i) :: t == u)
            && (forall t: nat, i: nat | Owns(s, t, i) :: i !in s.parsed)
            && (c.window > 0 ==> forall t: nat | t < |s.workers| && s.workers[t].Parsing? :: s.workers[t].i < s.delivered + c.window)
            && (c.window > 0 && s.main.Help? ==> Near(c, s.delivered, s.main.i))
  {
    StartInv(c);
    RunInv(c, Start(c), schedule);
    var s := Run(c, Start(c), schedule);
    forall t: nat, u: nat, i: nat | Owns(s, t, i) && Owns(s, u, i) ensures t == u {
      assert Mine(c, s, t, i) && Mine(c, s, u, i);
    }
    forall t: nat, i: nat | Owns(s, t, i) ensures i !in s.parsed {
      assert Mine(c, s, t, i);
    }
  }

  // ----- the main thread can get that far ahead -----

  /** The main thread has seen room, and the first worker then parses `j` chunks. */
  predicate Raced(c: Setup, s: State, j: nat) {
    && s.main == Claim && s.k == 0 && s.delivered == 0 && |s.claims| == j
    && |s.workers| == c.workers && |s.done| == c.n
    && forall t: nat | t < c.workers :: s.workers[t] == Fetch
  }

  /** After the window is parsed, `m` workers have taken a ticket each. */
  predicate Waiting(c: Setup, s: State, m: nat) {
    && s.main == Claim && s.k == 0 && |s.claims| == c.window + m && |s.workers| == c.workers
    && forall t: nat | m <= t < c.workers :: s.workers[t] == Fetch
  }

  lemma {:induction false} Race(c: Setup, j: nat) returns (schedule: seq<nat>)
    requires c.workers > 0 && j <= c.window < c.n && c.window > 0
    ensures Raced(c, Run(c, Start(c), schedule), j)
  {
    if j == 0 {
      schedule := [MAIN, MAIN];
      assert schedule[1..] == [MAIN] && schedule[1..][1..] == [];
      var s := Step(c, Start(c), MAIN);
      assert Run(c, s, schedule[1..]) == Step(c, s, MAIN);
    } else {
      var before := Race(c, j - 1);
      schedule := before + [1, 1, 1];
      RunMore(c, Start(c), before, [1, 1, 1]);
      OneChunk(c, Run(c, Start(c), before), j - 1);
    }
  }

  lemma OneChunk(c: Setup, s: State, j: nat)
    requires c.workers > 0 && j < c.window < c.n && Raced(c, s, j)
    ensures Raced(c, Run(c, s, [1, 1, 1]), j + 1)
  {
    assert [1, 1, 1][1..] == [1, 1] && [1, 1][1..] == [1] && [1][1..] == [];
    var a := WorkerStep(c, s, 0);
    var b := WorkerStep(c, a, 0);
    assert a.workers[0] == Gate(j) && b.workers[0] == Parsing(j);
    assert Step(c, s, 1) == a && Step(c, a, 1) == b;
    assert Run(c, b, [1]) == WorkerStep(c, b, 0);
    assert Run(c, a, [1, 1]) == Run(c, b, [1]);
    assert Run(c, s, [1, 1, 1]) == Run(c, a, [1, 1]);
  }

  lemma {:induction false} QueueUp(c: Setup, s: State, m: nat) returns (schedule: seq<nat>)
    requires Raced(c, s, c.window) && m <= c.workers
    ensures Waiting(c, Run(c, s, schedule), m)
  {
    if m == 0 {
      schedule := [];
    } else {
      var before := QueueUp(c, s, m - 1);
      schedule := before + [m];
      RunMore(c, s, before, [m]);
      assert [m][1..] == [];
    }
  }

  /** The furthest chunk there is within the main thread's bound. */
  function Furthest(c: Setup): nat
    requires c.n > 0
  {
    if c.n <= c.window + c.workers then c.n - 1 else c.window + c.workers
  }

  /** The bound on the main thread is exact, whenever there are workers and more
      chunks than the window: between its test and its taking a ticket the
      workers can move on, so that it parses the furthest chunk the bound allows
      when none has been delivered. */
  lemma BoundReached(c: Setup) returns (schedule: seq<nat>)
    requires c.window > 0 && c.workers > 0 && c.n > c.window
    ensures var s := Run(c, Start(c), schedule);
            s.delivered == 0 && s.main == Help(Furthest(c))
  {
    var race := Race(c, c.window);
    var s := Run(c, Start(c), race);
    var queue := QueueUp(c, s, Furthest(c) - c.window);
    schedule := race + queue + [MAIN];
    RunMore(c, Start(c), race, queue);
    RunMore(c, Start(c), race + queue, [MAIN]);
    assert [MAIN][1..] == [];
    StartInv(c);
    RunInv(c, Start(c), race + queue);
  }

  /** The main thread keeps inside the window. */
  predicate KeepsWindow(c: Setup, s: State) {
    s.main.Help? ==> s.main.i < s.delivered + c.window
  }

  /** When the read-ahead window holds for the delivering thread too: exactly
      without workers, or when no chunk is beyond the window. */
  lemma WindowKept(c: Setup)
    requires c.window > 0
    ensures (forall schedule :: KeepsWindow(c, Run(c, Start(c), schedule))) <==> c.workers == 0 || c.n <= c.window
  {
    forall schedule | c.workers == 0 || c.n <= c.window
      ensures KeepsWindow(c, Run(c, Start(c), schedule))
    {
      Safe(c, schedule);
      StartInv(c);
      RunInv(c, Start(c), schedule);
      var s := Run(c, Start(c), schedule);
      if s.main.Help? { assert Owns(s, MAIN, s.main.i); }
    }
    if c.workers > 0 && c.n > c.window {
      var schedule := BoundReached(c);
      assert !KeepsWindow(c, Run(c, Start(c), schedule));
    }
  }

  // ----- and every chunk can always still be delivered -----

  predicate Finished(c: Setup, s: State) {
    s.main == Joining && forall t | 0 <= t < |s.workers| :: s.workers[t] == Exited
  }

  function WorkerRank(w: Worker): nat {
    match w case Fetch => 3 case Gate(_) => 2 case Parsing(_) => 1 case Exited => 0
  }

  function WorkerRanks(ws: seq<Worker>): nat {
    if ws == [] then 0 else WorkerRank(ws[0]) + WorkerRanks(ws[1..])
  }

  function MainRank(c: Setup, s: State): nat {
    var ready := s.k < |s.done| && s.done[s.k];
    var open := |s.claims| < c.n;
    match s.main
    case Poll => if s.k >= c.n then 1 else if ready then 4 else if open then 9 else 5
    case Check => if ready then 6 else if open then 8 else 4
    case Claim => if ready then 5 else if open then 7 else 6
    case Help(_) => 1
    case Hand => 3
    case Publish => 10
    case Joining => 0
  }

  function Undone(done: seq<bool>): nat {
    if done == [] then 0 else (if done[0] then 0 else 1) + Undone(done[1..])
  }

  function Measure(c: Setup, s: State): nat {
    20 * Undone(s.done) + 10 * (if s.k <= c.n then c.n - s.k else 0) + WorkerRanks(s.workers) + MainRank(c, s)
  }

  lemma {:induction false} RanksUpdate(ws: seq<Worker>, t: nat, w: Worker)
    requires t < |ws|
    ensures WorkerRanks(ws[t := w]) == WorkerRanks(ws) - WorkerRank(ws[t]) + WorkerRank(w)
  {
    if t == 0 {
      assert ws[t := w][1..] == ws[1..];
    } else {
      assert ws[t := w][1..] == ws[1..][t - 1 := w];
      RanksUpdate(ws[1..], t - 1, w);
    }
  }

  lemma {:induction false} UndoneUpdate(done: seq<bool>, i: nat)
    requires i < |done| && !done[i]
    ensures Undone(done[i := true]) == Undone(done) - 1
  {
    if i == 0 {
      assert done[i := true][1..] == done[1..];
    } else {
      assert done[i := true][1..] == done[1..][i - 1 := true];
      UndoneUpdate(done[1..], i - 1);
    }
  }

  /** The two loops that wait: the gate, and the main thread with nothing to do. */
  predicate Spins(c: Setup, s: State, t: nat) {
    if t == MAIN then
      s.main == Joining || (s.main == Check && s.k < |s.done| && !s.done[s.k] && |s.claims| >= Limit(c, s.k))
    else if t <= |s.workers| then
      match s.workers[t - 1]
      case Gate(i) => c.window > 0 && i >= s.delivered + c.window
      case Exited => true
      case Fetch => false
      case Parsing(_) => false
    else true
  }

  lemma MainDecreases(c: Setup, s: State)
    requires Inv(c, s) && !Spins(c, s, MAIN)
    ensures Measure(c, MainStep(c, s)) < Measure(c, s)
  {
    if s.main.Help? {
      assert Owns(s, MAIN, s.main.i);
      UndoneUpdate(s.done, s.main.i);
    }
  }

  lemma WorkerDecreases(c: Setup, s: State, t: nat)
    requires Inv(c, s) && t < |s.workers| && !Spins(c, s, t + 1)
    ensures Measure(c, WorkerStep(c, s, t)) < Measure(c, s)
  {
    RanksUpdate(s.workers, t, WorkerStep(c, s, t).workers[t]);
    if s.workers[t].Parsing? {
      assert Owns(s, t + 1, s.workers[t].i);
      UndoneUpdate(s.done, s.workers[t].i);
    }
  }

  /** Until all is over, some thread has a step that is not waiting. */
  lemma SomeMoves(c: Setup, s: State) returns (t: nat)
    requires Inv(c, s) && !Finished(c, s)
    ensures !Spins(c, s, t)
  {
    if !Spins(c, s, MAIN) {
      t := MAIN;
    } else if s.main == Joining {
      var w :| 0 <= w < |s.workers| && s.workers[w] != Exited;
      t := w + 1;
      assert s.workers[w].Gate? ==> Owns(s, t, s.workers[w].i);
    } else {
      t := s.claims[s.k];
      assert Owns(s, t, s.k);
    }
  }

  /** From wherever an interleaving has got to, a bounded number of steps
      delivers every chunk: there is no deadlock, whatever the window. */
  lemma {:induction false} CanFinish(c: Setup, s: State) returns (schedule: seq<nat>)
    requires Inv(c, s)
    ensures |schedule| <= Measure(c, s)
    ensures Finished(c, Run(c, s, schedule)) && Run(c, s, schedule).out == UpTo(c.n)
    decreases Measure(c, s)
  {
    if Finished(c, s) {
      schedule := [];
    } else {
      var t := SomeMoves(c, s);
      if t == MAIN { MainDecreases(c, s); } else { WorkerDecreases(c, s, t - 1); }
      StepOwned(c, s, t);
      StepParsed(c, s, t);
      StepInOrder(c, s, t);
      StepBounded(c, s, t);
      var rest := CanFinish(c, Step(c, s, t));
      schedule := [t] + rest;
      assert schedule[1..] == rest;
    }
  }

  lemma Delivers(c: Setup, schedule: seq<nat>) returns (more: seq<nat>)
    ensures var s := Run(c, Start(c), schedule + more); Finished(c, s) && s.out == UpTo(c.n)
    ensures |more| <= 30 * c.n + 3 * c.workers + 10
  {
    StartInv(c);
    RunInv(c, Start(c), schedule);
    more := CanFinish(c, Run(c, Start(c), schedule));
    RunMore(c, Start(c), schedule, more);
    MeasureBound(c, Run(c, Start(c), schedule));
  }

  lemma MeasureBound(c: Setup, s: State)
    requires |s.workers| == c.workers && |s.done| == c.n
    ensures Measure(c, s) <= 30 * c.n + 3 * c.workers + 10
  {
    RanksBound(s.workers);
    UndoneBound(s.done);
  }

  lemma {:induction false} RanksBound(ws: seq<Worker>)
    ensures WorkerRanks(ws) <= 3 * |ws|
  {
    if ws != [] { RanksBound(ws[1..]); }
  }

  lemma {:induction false} UndoneBound(done: seq<bool>)
    ensures Undone(done) <= |done|
  {
    if done != [] { UndoneBound(done[1..]); }
  }

  // ----- and under every fair schedule all are delivered -----

  /** Every thread moves at least once. */
  predicate Round(c: Setup, r: seq<nat>) {
    forall t: nat | t <= c.workers :: t in r
  }

  function Flatten(rounds: seq<seq<nat>>): seq<nat> {
    if rounds == [] then [] else rounds[0] + Flatten(rounds[1..])
  }

  /** The rank with waiting left out: the main thread's test and its look at the
      counter rank alike while there is nothing for it to do. */
  function Left(c: Setup, s: State): nat {
    Measure(c, s) + if s.main == Check && s.k < |s.done| && !s.done[s.k] then 1 else 0
  }

  /** Everything but where the main thread is in its waiting loop. */
  predicate Alike(s: State, s': State) {
    s' == s.(main := s'.main) && (s'.main == s.main || (s.main in {Poll, Check} && s'.main in {Poll, Check}))
  }

  /** No step raises the rank; a step that leaves it changes nothing but waiting. */
  lemma StepLeft(c: Setup, s: State, t: nat)
    requires Inv(c, s)
    ensures var s' := Step(c, s, t); Left(c, s') < Left(c, s) || (Left(c, s') == Left(c, s) && Alike(s, s'))
  {
    if t == MAIN {
      if !Spins(c, s, MAIN) { MainDecreases(c, s); }
    } else if t <= |s.workers| && !Spins(c, s, t) {
      WorkerDecreases(c, s, t - 1);
      WorkerReady(c, s, t - 1);
    }
  }

  /** A worker's step never takes back that the main thread's chunk is done. */
  lemma WorkerReady(c: Setup, s: State, t: nat)
    requires Inv(c, s) && t < |s.workers|
    ensures var s' := WorkerStep(c, s, t); s'.main == s.main && s'.k == s.k && |s'.done| == |s.done|
    ensures s.k < |s.done| && s.done[s.k] ==> WorkerStep(c, s, t).done[s.k]
  {}

  lemma StepInv(c: Setup, s: State, t: nat)
    requires Inv(c, s)
    ensures Inv(c, Step(c, s, t))
  {
    StepOwned(c, s, t);
    StepParsed(c, s, t);
    StepInOrder(c, s, t);
    StepBounded(c, s, t);
  }

  lemma {:induction false} RunLeft(c: Setup, s: State, schedule: seq<nat>)
    requires Inv(c, s)
    ensures var s' := Run(c, s, schedule); Inv(c, s') && (Left(c, s') < Left(c, s) || (Left(c, s') == Left(c, s) && Alike(s, s')))
    decreases |schedule|
  {
    if schedule != [] {
      StepLeft(c, s, schedule[0]);
      StepInv(c, s, schedule[0]);
      RunLeft(c, Step(c, s, schedule[0]), schedule[1..]);
    }
  }

  /** Thread `t` moves on whatever the main thread does in its waiting loop. */
  predicate Moves(c: Setup, s: State, t: nat) {
    if t == MAIN then !Spins(c, s, MAIN) && !(s.main == Poll && s.k < |s.done| && !s.done[s.k])
    else !Spins(c, s, t)
  }

  lemma {:induction false} MoveLowers(c: Setup, s: State, t: nat, schedule: seq<nat>)
    requires Inv(c, s) && Moves(c, s, t) && t in schedule
    ensures Left(c, Run(c, s, schedule)) < Left(c, s)
    decreases |schedule|
  {
    var u := schedule[0];
    var s' := Step(c, s, u);
    StepLeft(c, s, u);
    StepInv(c, s, u);
    RunLeft(c, s', schedule[1..]);
    if Left(c, s') == Left(c, s) {
      MoveStays(c, s, t, u);
      MoveLowers(c, s', t, schedule[1..]);
    }
  }

  lemma MoverLowers(c: Setup, s: State, t: nat)
    requires Inv(c, s) && Moves(c, s, t)
    ensures Left(c, Step(c, s, t)) < Left(c, s)
  {
    if t == MAIN {
      MainDecreases(c, s);
    } else {
      WorkerDecreases(c, s, t - 1);
      WorkerReady(c, s, t - 1);
    }
  }

  /** A thread that can move keeps able to, until it does. */
  lemma MoveStays(c: Setup, s: State, t: nat, u: nat)
    requires Inv(c, s) && Moves(c, s, t) && Left(c, Step(c, s, u)) == Left(c, s)
    ensures t != u && Moves(c, Step(c, s, u), t)
  {
    StepLeft(c, s, u);
    MoverLowers(c, s, t);
  }

  lemma {:induction false} MainStill(c: Setup, s: State, schedule: seq<nat>)
    requires MAIN !in schedule
    ensures Run(c, s, schedule).main == s.main
    decreases |schedule|
  {
    if schedule != [] { MainStill(c, Step(c, s, schedule[0]), schedule[1..]); }
  }

  /** Waiting, with room for a ticket: the main thread comes to look at the counter. */
  lemma {:induction false} PollTurns(c: Setup, s: State, schedule: seq<nat>)
    requires Inv(c, s) && s.main == Poll && s.k < c.n && !s.done[s.k] && |s.claims| < Limit(c, s.k) && MAIN in schedule
    ensures Left(c, Run(c, s, schedule)) < Left(c, s) || Run(c, s, schedule) == s.(main := Check)
    decreases |schedule|
  {
    var u, rest := schedule[0], schedule[1..];
    var s' := Step(c, s, u);
    StepLeft(c, s, u);
    StepInv(c, s, u);
    RunLeft(c, s', rest);
    if u == MAIN {
      if MAIN in rest { MoveLowers(c, s', MAIN, rest); } else { MainStill(c, s', rest); }
    } else if Left(c, s') == Left(c, s) {
      OthersLeave(c, s, u);
      PollTurns(c, s', rest);
    }
  }

  lemma OthersLeave(c: Setup, s: State, u: nat)
    requires Inv(c, s) && u != MAIN && Left(c, Step(c, s, u)) == Left(c, s)
    ensures Step(c, s, u) == s
  {
    StepLeft(c, s, u);
    assert Step(c, s, u).main == s.main;
  }

  /** In two rounds something happens. */
  lemma RoundsLower(c: Setup, s: State, a: seq<nat>, b: seq<nat>)
    requires Inv(c, s) && !Finished(c, s) && Round(c, a) && Round(c, b)
    ensures Left(c, Run(c, s, a + b)) < Left(c, s)
  {
    RunMore(c, s, a, b);
    RunLeft(c, s, a);
    var s' := Run(c, s, a);
    RunLeft(c, s', b);
    var t := SomeMoves(c, s);
    if Moves(c, s, t) {
      InRound(c, s, t, a);
      MoveLowers(c, s, t, a);
    } else if |s.claims| < Limit(c, s.k) {
      PollTurns(c, s, a);
      if Left(c, s') == Left(c, s) { MoveLowers(c, s', MAIN, b); }
    } else {
      var w := s.claims[s.k];
      assert Owns(s, w, s.k);
      InRound(c, s, w, a);
      MoveLowers(c, s, w, a);
    }
  }

  lemma InRound(c: Setup, s: State, t: nat, r: seq<nat>)
    requires Inv(c, s) && Moves(c, s, t) && Round(c, r)
    ensures t in r
  {}

  lemma {:induction false} FinishedStays(c: Setup, s: State, schedule: seq<nat>)
    requires Finished(c, s)
    ensures Run(c, s, schedule) == s
    decreases |schedule|
  {
    if schedule != [] { FinishedStays(c, s, schedule[1..]); }
  }

  lemma {:induction false} FairFrom(c: Setup, s: State, rounds: seq<seq<nat>>)
    requires Inv(c, s) && (forall r | r in rounds :: Round(c, r)) && |rounds| >= 2 * Left(c, s)
    ensures Finished(c, Run(c, s, Flatten(rounds)))
    ensures Run(c, s, Flatten(rounds)).out == UpTo(c.n)
    decreases |rounds|
  {
    if Finished(c, s) {
      FinishedStays(c, s, Flatten(rounds));
    } else {
      var t := SomeMoves(c, s);
      if t == MAIN { MainDecreases(c, s); } else { WorkerDecreases(c, s, t - 1); }
      var a, b, rest := rounds[0], rounds[1], rounds[2..];
      assert rounds[1..][1..] == rest && rounds[1..][0] == b;
      assert Flatten(rounds) == a + b + Flatten(rest) by { assert a + (b + Flatten(rest)) == a + b + Flatten(rest); }
      RunMore(c, s, a + b, Flatten(rest));
      RoundsLower(c, s, a, b);
      RunLeft(c, s, a + b);
      FairFrom(c, Run(c, s, a + b), rest);
    }
  }

  /** Under every schedule in which all threads keep moving, every chunk is
      delivered and every thread ends. */
  lemma FairFinishes(c: Setup, rounds: seq<seq<nat>>)
    requires (forall r | r in rounds :: Round(c, r)) && |rounds| >= 60 * c.n + 6 * c.workers + 22
    ensures var s := Run(c, Start(c), Flatten(rounds)); Finished(c, s) && s.out == UpTo(c.n)
  {
    StartInv(c);
    MeasureBound(c, Start(c));
    FairFrom(c, Start(c), rounds);
  }
}
