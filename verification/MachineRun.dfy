/**
 * Whole runs of the incremental parser. The step loop always ends, so a run is
 * a function of the configuration it starts from.
 */
module MachineRun {
  import opened Events
  import opened FlowGrammar
  import opened Machine
  import opened MachineInvariant
  import opened MachineTermination
  import opened EventGrammar
  import opened MachineGrammar

  /** How a run ends, with every event it emitted. */
  datatype Outcome = Finished(evs: seq<Event>) | ToEager(evs: seq<Event>) | Error(evs: seq<Event>)

  function Prepend(out: seq<Event>, o: Outcome): Outcome {
    match o
    case Finished(evs) => Finished(out + evs)
    case ToEager(evs) => ToEager(out + evs)
    case Error(evs) => Error(out + evs)
  }

  /** Steps until the stream is done, the eager parser is asked for, or an error. */
  function Run(inp: Input, c: Config): Outcome
    requires Inv(inp, c)
    decreases Measure(inp, c)
  {
    if c.state == Stream(StDone) then Finished([])
    else if c.state == StEagerDrain then ToEager([])
    else
      StepKeepsInv(inp, c);
      StepLowers(inp, c);
      match StepOf(inp, c)
      case Failed(out) => Error(out)
      case Next(d, out) => Prepend(out, Run(inp, d))
  }

  /** What a run emits follows the grammar from where the acceptor stands. */
  lemma {:induction false} RunFollows(inp: Input, c: Config)
    requires Inv(inp, c) && c.state != StEagerDrain
    ensures var o := Run(inp, c);
      Accept(StageOf(c), o.evs).Some? && (o.Finished? ==> Accept(StageOf(c), o.evs) == Some(Closed))
    decreases Measure(inp, c)
  {
    if c.state != Stream(StDone) {
      hide StepOf, StageOf;
      StepKeepsInv(inp, c);
      StepLowers(inp, c);
      StepFollows(inp, c);
      match StepOf(inp, c)
      case Failed(_) =>
      case Next(d, out) =>
        if d.state != StEagerDrain {
          RunFollows(inp, d);
          AcceptConcat(StageOf(c), out, Run(inp, d).evs);
        } else {
          assert out + [] == out;
        }
    }
  }

  /** A finished run emitted exactly a stream of documents; any other run a prefix of one. */
  lemma RunIsStream(inp: Input)
    ensures Inv(inp, Initial())
    ensures var o := Run(inp, Initial());
      if o.Finished? then exists docs :: IsStream(o.evs, docs) else exists rest, docs :: IsStream(o.evs + rest, docs)
  {
    RunFollows(inp, Initial());
    var evs := Run(inp, Initial()).evs;
    AcceptsStreams(evs);
    AcceptsPrefixes(evs);
  }

  /** The first `n` steps: where they lead and all they emitted. */
  function Steps(inp: Input, n: nat): Step {
    if n == 0 then Next(Initial(), [])
    else match Steps(inp, n - 1)
      case Failed(out) => Failed(out)
      case Next(c, out) =>
        match StepOf(inp, c)
        case Failed(more) => Failed(out + more)
        case Next(d, more) => Next(d, out + more)
  }

  /** In every reachable configuration the invariant holds and the open
      collections of all emitted events are those of the frames. */
  lemma {:induction false} ReachableInv(inp: Input, n: nat)
    ensures var s := Steps(inp, n);
      Accept(Before, s.out).Some? &&
      (s.Next? ==> Inv(inp, s.c) && (s.c.state != StEagerDrain ==> Accept(Before, s.out) == Some(StageOf(s.c))))
  {
    if n > 0 {
      ReachableInv(inp, n - 1);
      if Steps(inp, n - 1).Next? { ReachableStep(inp, Steps(inp, n - 1).c, Steps(inp, n - 1).out); }
    }
  }

  lemma ReachableStep(inp: Input, c: Config, evs: seq<Event>)
    requires Inv(inp, c) && Accept(Before, evs).Some?
    requires c.state != StEagerDrain ==> Accept(Before, evs) == Some(StageOf(c))
    ensures var s := StepOf(inp, c);
      Accept(Before, evs + s.out).Some? &&
      (s.Next? ==> Inv(inp, s.c) && (s.c.state != StEagerDrain ==> Accept(Before, evs + s.out) == Some(StageOf(s.c))))
  {
    StepKeepsInv(inp, c);
    AcceptConcat(Before, evs, StepOf(inp, c).out);
    if c.state == StEagerDrain {
      assert evs + [] == evs;
    } else {
      StepFollows(inp, c);
    }
  }

  // ----- more collections than frames -----

  /** The state of the innermost collection: a pending node goes back to it. */
  function Innermost(c: Config): State {
    if c.state.Node? || c.state == StFlowNode then c.nodeReturn else c.state
  }

  /** In every reachable configuration with frames, the events emitted so far
      leave open one collection for each frame and one for each open pair. */
  lemma ReachableOpen(inp: Input, n: nat)
    requires Steps(inp, n).Next?
    requires var c := Steps(inp, n).c; c.frames != [] && c.state != StEagerDrain
    ensures var s := Steps(inp, n); var g := Accept(Before, s.out);
      g.Some? && g.value.InDocument? && |g.value.stack| == |s.c.frames| + |Pairs(s.c.frames, Innermost(s.c))|
  {
    ReachableInv(inp, n);
    var c := Steps(inp, n).c;
    InnermostOpen(inp, c);
  }

  lemma InnermostOpen(inp: Input, c: Config)
    requires Inv(inp, c) && c.frames != [] && c.state != StEagerDrain
    ensures StageOf(c).InDocument? && |StageOf(c).stack| == |c.frames| + |Pairs(c.frames, Innermost(c))|
  {
    OpenCollections(c.frames, Innermost(c));
  }

  /** "[ a :" n times, and another bracket. */
  function Deep(n: nat): Input {
    Input(seq(3 * n + 2, i requires 0 <= i => DeepToken(i)), _ => false, _ => false)
  }

  function DeepToken(i: nat): Token {
    var typ := if i == 0 then TokStreamStart else if i % 3 == 1 then TokFlowSeqStart else if i % 3 == 2 then TokScalar else TokMapValue;
    Token(typ, "a", None, Plain, Mark(i, 1, i + 1), Mark(i + 1, 1, i + 2))
  }

  /** `k` sequences are open, a pair in each, and the innermost value is pending. */
  predicate Nested(c: Config, k: nat) {
    c.state == StFlowNode && c.pos == 1 + 3 * k && c.props == NO_PROPS && |c.frames| == k &&
    (k > 0 ==> c.nodeReturn == FSeq(StFSeqImplicitEnd)) &&
    forall i | 0 < i < k :: c.frames[i].ret == FSeq(StFSeqImplicitEnd)
  }

  lemma StepsOn(inp: Input, n: nat, m: nat)
    requires m + 1 == n && Steps(inp, m).Next? && StepOf(inp, Steps(inp, m).c).Next?
    ensures Steps(inp, n).Next? && Steps(inp, n).c == StepOf(inp, Steps(inp, m).c).c
  {
    hide StepOf;
  }

  lemma DeepTokens(n: nat, k: nat)
    requires k <= n
    ensures |Deep(n).toks| == 3 * n + 2 && forall offset :: !Deep(n).isKey(offset)
    ensures Deep(n).toks[1 + 3 * k].typ == TokFlowSeqStart
    ensures k < n ==> Deep(n).toks[2 + 3 * k].typ == TokScalar && Deep(n).toks[3 + 3 * k].typ == TokMapValue
  {
    assert DeepToken(1 + 3 * k).typ == TokFlowSeqStart && DeepToken(2 + 3 * k).typ == TokScalar && DeepToken(3 + 3 * k).typ == TokMapValue;
  }

  /** The configuration after `i` steps towards a root that is a flow sequence. */
  predicate Prelude(c: Config, i: nat) {
    c.frames == [] && c.props == NO_PROPS && c.pos == (if i == 0 then 0 else 1) && c.docOpen == (i > 3) && i <= 6 &&
    c.state == [Stream(StStreamStart), Stream(StDocLoop), Stream(StDocDirectives), Stream(StDocStartImplicit),
                Doc(StDocContent), Node(StBlockNode), StFlowNode][i] &&
    (c.state.Node? ==> c.nodeReturn == Doc(StDocEndExplicit))
  }

  lemma InPrelude(inp: Input, c: Config, i: nat)
    requires |inp.toks| > 1 && inp.toks[1].typ == TokFlowSeqStart && !inp.isKey(inp.toks[1].start.offset)
    requires 0 < i <= 6 && Prelude(c, i - 1)
    ensures StepOf(inp, c).Next? && Prelude(StepOf(inp, c).c, i)
  {}

  lemma {:induction false} DeepStarts(n: nat, i: nat)
    requires i <= 6
    ensures Steps(Deep(n), i).Next? && Prelude(Steps(Deep(n), i).c, i)
  {
    hide StepOf, Deep;
    if i > 0 {
      DeepStarts(n, i - 1);
      DeepTokens(n, 0);
      InPrelude(Deep(n), Steps(Deep(n), i - 1).c, i);
    }
  }

  lemma AtBracket(inp: Input, c: Config)
    requires c.state == StFlowNode && Has(inp, c.pos) && inp.toks[c.pos].typ == TokFlowSeqStart && c.props == NO_PROPS
    ensures var s := StepOf(inp, c);
            s.Next? && s.c.state == FSeq(StFSeqLoop) && s.c.pos == c.pos + 1 && s.c.props == NO_PROPS &&
            s.c.frames == c.frames + [Frame(FlowSequence, inp.toks[c.pos].Col(), c.nodeReturn)]
  {}

  lemma AtKey(inp: Input, c: Config)
    requires c.state == FSeq(StFSeqLoop) && Has(inp, c.pos + 1) && c.props == NO_PROPS
    requires inp.toks[c.pos].typ == TokScalar && inp.toks[c.pos + 1].typ == TokMapValue
    ensures var s := StepOf(inp, c);
            s.Next? && s.c.state == FSeq(StFSeqEntryKey) && s.c.pos == c.pos + 1 && s.c.props == NO_PROPS && s.c.frames == c.frames
  {}

  lemma AtValue(inp: Input, c: Config)
    requires c.state == FSeq(StFSeqEntryKey) && Has(inp, c.pos + 1) && inp.toks[c.pos + 1].typ == TokFlowSeqStart
    ensures var s := StepOf(inp, c);
            s.Next? && s.c.state == StFlowNode && s.c.nodeReturn == FSeq(StFSeqImplicitEnd) &&
            s.c.pos == c.pos + 1 && s.c.props == c.props && s.c.frames == c.frames
  {}

  /** A bracket, a key and a ':' open one frame and two collections. */
  lemma DeepGoesOn(n: nat, k: nat, m: nat)
    requires k < n && Steps(Deep(n), m).Next? && Nested(Steps(Deep(n), m).c, k)
    ensures Steps(Deep(n), m + 3).Next? && Nested(Steps(Deep(n), m + 3).c, k + 1)
  {
    hide Steps, StepOf, Deep;
    var inp := Deep(n);
    DeepTokens(n, k);
    DeepTokens(n, k + 1);
    AtBracket(inp, Steps(inp, m).c);
    StepsOn(inp, m + 1, m);
    AtKey(inp, Steps(inp, m + 1).c);
    StepsOn(inp, m + 2, m + 1);
    AtValue(inp, Steps(inp, m + 2).c);
    StepsOn(inp, m + 3, m + 2);
  }

  lemma {:induction false} DeepReaches(n: nat, k: nat)
    requires k <= n
    ensures Steps(Deep(n), 6 + 3 * k).Next? && Nested(Steps(Deep(n), 6 + 3 * k).c, k)
  {
    hide Steps, Deep;
    if k == 0 {
      DeepStarts(n, 6);
    } else {
      DeepReaches(n, k - 1);
      DeepGoesOn(n, k - 1, 6 + 3 * (k - 1));
    }
  }

  /** The bound of twice the frames is reached at every depth. */
  lemma TwiceReached(n: nat)
    ensures Steps(Deep(n), 6 + 3 * n).Next? && |Steps(Deep(n), 6 + 3 * n).c.frames| == n
    ensures var g := Accept(Before, Steps(Deep(n), 6 + 3 * n).out); g.Some? && g.value.InDocument? && |g.value.stack| == 2 * n
  {
    hide Steps, Deep, Accept;
    DeepReaches(n, n);
    ReachableInv(Deep(n), 6 + 3 * n);
    NestedOpen(Deep(n), Steps(Deep(n), 6 + 3 * n).c, n);
  }

  lemma NestedOpen(inp: Input, c: Config, k: nat)
    requires Inv(inp, c) && Nested(c, k)
    ensures StageOf(c).InDocument? && |StageOf(c).stack| == 2 * k
  {
    if k > 0 {
      OpenCollections(c.frames, c.nodeReturn);
      forall i: nat | i < k ensures InPair(FrameState(c.frames, c.nodeReturn, i)) {}
    }
  }
}
