/**
 * What the incremental parser's events are, token by token, in every
 * configuration it reaches: inside flow collections and outside them.
 */
module MachineYield {
  import opened Events
  import opened FlowGrammar
  import opened Machine
  import opened MachineInvariant
  import opened MachineTermination
  import opened EventGrammar
  import opened MachineGrammar
  import opened MachineRun
  import opened Origins
  import opened FlowYield

  /** The key that is read but not yet emitted, for its mapping starts first. */
  function Pending(c: Config): seq<Event> {
    if c.state in {FSeq(StFSeqEntryKey), Node(StNodeScalarKey), Node(StNodeAliasKey)} then [c.saved] else []
  }

  /** Behind a node: no node begins here. */
  predicate Behind(inp: Input, c: Config) {
    c.props == NO_PROPS &&
    (c.state in {FMap(StFMapValue), FMap(StFMapSep), FMap(StFMapEnd), FSeq(StFSeqImplicitEnd), FSeq(StFSeqExplicitValue),
                 FSeq(StFSeqExplicitEnd), FSeq(StFSeqSep), FSeq(StFSeqEnd)} ||
     (c.state == FMap(StFMapLoop) && Sees(inp, c, TokFlowMapEnd)) || (c.state == FSeq(StFSeqLoop) && Sees(inp, c, TokFlowSeqEnd)))
  }

  /** What is held for the next node are the properties from `b` on. */
  predicate Holds(inp: Input, c: Config, b: nat) {
    c.state == StEagerDrain ||
    (Gathered(inp.toks, b, c.pos, c.props) && (Clear(inp.toks, b) || Behind(inp, c)))
  }

  /** From `a` on the step's events, with the key it saves, account for the tokens
      it consumes, up to the properties that it holds. */
  ghost predicate Moves(inp: Input, a: nat, s: Step) {
    if s.Failed? then exists b, src :: Explains(inp.toks, a, b, s.out, src)
    else exists b, src :: Explains(inp.toks, a, b, s.out + Pending(s.c), src) && Holds(inp, s.c, b)
  }

  lemma Onward(inp: Input, a: nat, b: nat, d: Config, out: seq<Event>, src: seq<Origin>)
    requires Explains(inp.toks, a, b, out, src) && Pending(d) == [] && Holds(inp, d, b)
    ensures Moves(inp, a, Next(d, out))
  {
    hide Explains, Holds, Pending;
    assert out + [] == out;
  }

  lemma Halted(inp: Input, a: nat, b: nat, out: seq<Event>, src: seq<Origin>)
    requires Explains(inp.toks, a, b, out, src)
    ensures Moves(inp, a, Failed(out))
  {
    hide Explains;
  }

  lemma Stopped(inp: Input, a: nat)
    requires a <= |inp.toks|
    ensures Moves(inp, a, Failed([]))
  {
    hide Explains;
    ExplainsNothing(inp.toks, a);
  }

  /** Without properties and after a token that is none. */
  lemma Ready(inp: Input, d: Config)
    requires d.props == NO_PROPS && Clear(inp.toks, d.pos)
    ensures Holds(inp, d, d.pos)
  {
    GatheredNothing(inp.toks, d.pos);
  }

  lemma ReadyBehind(inp: Input, d: Config)
    requires d.pos <= |inp.toks| && Behind(inp, d)
    ensures Holds(inp, d, d.pos)
  {
    GatheredNothing(inp.toks, d.pos);
  }

  lemma Unheld(inp: Input, c: Config, a: nat)
    requires Holds(inp, c, a) && c.state != StEagerDrain
    ensures a <= c.pos <= |inp.toks| && Gathered(inp.toks, a, c.pos, c.props) && (Clear(inp.toks, a) || Behind(inp, c))
    ensures c.props == NO_PROPS ==> a == c.pos
  {}

  /** Events, then a token that is none. */
  lemma ThenSilent(toks: seq<Token>, a: nat, at: nat, out: seq<Event>, src: seq<Origin>)
    requires Explains(toks, a, at, out, src) && at < |toks| && !IsContent(toks[at]) && !IsProp(toks[at])
    ensures Explains(toks, a, at + 1, out, src) && Clear(toks, at + 1)
  {
    hide Explains;
    SilentToken(toks, at);
    ExplainsConcat(toks, a, at, at + 1, out, src, [], []);
    assert out + [] == out && src + [] == src;
  }

  /** Events, then a node that is left out. */
  lemma ThenAbsent(toks: seq<Token>, a: nat, at: nat, out: seq<Event>, src: seq<Origin>)
    requires Explains(toks, a, at, out, src) && at < |toks|
    ensures Explains(toks, a, at, out + [EmptyScalar(toks[at].start)], src + [Absent(at)])
  {
    hide Explains;
    NodeAbsent(toks, at);
    ExplainsConcat(toks, a, at, at, out, src, [EmptyScalar(toks[at].start)], [Absent(at)]);
  }

  lemma ThenBracket(toks: seq<Token>, a: nat, at: nat, out: seq<Event>, src: seq<Origin>, e: Event)
    requires Explains(toks, a, at, out, src) && at < |toks| && Looks(toks, Bracket(at), e)
    ensures Explains(toks, a, at, out + [e], src + [Bracket(at)])
  {
    hide Explains, Looks;
    BracketAt(toks, at, e);
    ExplainsConcat(toks, a, at, at, out, src, [e], [Bracket(at)]);
  }

  // ----- flow states -----

  lemma SepMoves(inp: Input, a: nat, c: Config, inSeq: bool, out: seq<Event>, src: seq<Origin>)
    requires Explains(inp.toks, a, c.pos, out, src) && c.props == NO_PROPS && c.pos <= |inp.toks|
    ensures Moves(inp, a, FlowSep(inp, c, inSeq, out))
  {
    hide Explains, Moves, Holds, Clear;
    if !Has(inp, c.pos) {
      Halted(inp, a, c.pos, out, src);
    } else {
      var tt := inp.toks[c.pos].typ;
      if tt == TokFlowEntry {
        var d := c.(pos := c.pos + 1, state := if inSeq then FSeq(StFSeqLoop) else FMap(StFMapLoop));
        ThenSilent(inp.toks, a, c.pos, out, src);
        Ready(inp, d);
        Onward(inp, a, d.pos, d, out, src);
      } else {
        var d := if tt == (if inSeq then TokFlowSeqEnd else TokFlowMapEnd) then c.(state := if inSeq then FSeq(StFSeqEnd) else FMap(StFMapEnd))
                 else c.(state := if inSeq then FSeq(StFSeqSep) else FMap(StFMapSep));
        ReadyBehind(inp, d);
        Onward(inp, a, d.pos, d, out, src);
      }
    }
  }

  /** A node's single token and its properties. */
  lemma TokenMoves(inp: Input, a: nat, c: Config, d: Config, e: Event)
    requires Gathered(inp.toks, a, c.pos, c.props) && Clear(inp.toks, a) && Has(inp, c.pos) && IsBase(inp.toks[c.pos], e)
    requires Sees(inp, c, TokAlias) ==> !c.props.Any()
    requires d.pos == c.pos + 1 && d.props == NO_PROPS && Pending(d) == []
    ensures Moves(inp, a, Next(d, [Attach(e, c.props)])) && Moves(inp, a, Failed([Attach(e, c.props)]))
  {
    hide Explains, Moves, Holds, Attach, Gathered, Pending;
    NodeToken(inp.toks, a, c.pos, c.props, e);
    ClearAfter(inp.toks, c.pos);
    Ready(inp, d);
    Onward(inp, a, d.pos, d, [Attach(e, c.props)], [Content(c.pos)]);
    Halted(inp, a, d.pos, [Attach(e, c.props)], [Content(c.pos)]);
  }

  /** A node with nothing but properties. */
  lemma NothingMoves(inp: Input, a: nat, c: Config)
    requires Gathered(inp.toks, a, c.pos, c.props) && Clear(inp.toks, a) && Has(inp, c.pos) && ReturnOk(c.frames, c.nodeReturn) && InFlow(c.frames)
    ensures Moves(inp, a, Next(Goto(c.(props := NO_PROPS), c.nodeReturn), [Attach(EmptyScalar(inp.toks[c.pos].start), c.props)]))
  {
    hide Explains, Moves, Holds, Attach, Gathered, Clear;
    var e := Goto(c.(props := NO_PROPS), c.nodeReturn);
    NodeEmpty(inp.toks, a, c.pos, c.props);
    ReadyBehind(inp, e);
    Onward(inp, a, c.pos, e, [Attach(EmptyScalar(inp.toks[c.pos].start), c.props)], [Empty(c.pos)]);
  }

  lemma FlowNodeAtMoves(inp: Input, a: nat, c: Config)
    requires Gathered(inp.toks, a, c.pos, c.props) && Clear(inp.toks, a) && Has(inp, c.pos) && ReturnOk(c.frames, c.nodeReturn)
    requires (InFlow(c.frames) || AtFlowStart(inp, c)) && (Sees(inp, c, TokAlias) ==> !c.props.Any())
    ensures Moves(inp, a, FlowNodeAt(inp, c))
  {
    hide Explains, Moves, Holds, Attach, Gathered, Clear;
    var t := inp.toks[c.pos];
    var d := c.(props := NO_PROPS, pos := c.pos + 1);
    match t.typ
    case TokScalar => TokenMoves(inp, a, c, Goto(d, c.nodeReturn), ScalarOf(t));
    case TokAlias => TokenMoves(inp, a, c, Goto(d, c.nodeReturn), AliasOf(t));
    case TokFlowSeqStart =>
      var e := d.(frames := d.frames + [Frame(FlowSequence, t.Col(), d.nodeReturn)], state := FSeq(StFSeqLoop));
      TokenMoves(inp, a, c, e, FlowStart(SequenceStart, t.start, t.end));
    case TokFlowMapStart =>
      var e := d.(frames := d.frames + [Frame(FlowMapping, t.Col(), d.nodeReturn)], state := FMap(StFMapLoop));
      TokenMoves(inp, a, c, e, FlowStart(MappingStart, t.start, t.end));
    case _ =>
      NothingMoves(inp, a, c);
  }

  lemma FlowNodeMoves(inp: Input, a: nat, c: Config)
    requires Inv(inp, c) && c.state == StFlowNode && Holds(inp, c, a)
    ensures Moves(inp, a, StepFlowNode(inp, c))
  {
    hide Moves, Holds, Gathered, Clear, FlowNodeAt, ConsumeProps, FramesOk;
    Unheld(inp, c, a);
    Stopped(inp, a);
    if Has(inp, c.pos) {
      if IsProp(inp.toks[c.pos]) {
        var r := ConsumeProps(inp.toks, c.pos, c.props);
        GatherMore(inp.toks, a, c.pos, c.props);
        AliasStops(inp.toks, c.pos, c.props);
        if r.PropsOk? { FlowNodeAtMoves(inp, a, c.(props := r.props, pos := r.pos)); }
      } else {
        FlowNodeAtMoves(inp, a, c);
      }
    }
  }

  lemma MapValueMoves(inp: Input, a: nat, c: Config, out: seq<Event>, src: seq<Origin>)
    requires Explains(inp.toks, a, c.pos, out, src) && c.props == NO_PROPS && Clear(inp.toks, c.pos)
    ensures Moves(inp, a, FlowMapValue(inp, c, out))
  {
    hide Explains, Moves, Holds, Attach, Clear, FlowSep;
    if !Has(inp, c.pos) {
      Halted(inp, a, c.pos, out, src);
    } else {
      var t := inp.toks[c.pos];
      if t.typ == TokScalar {
        ThenToken(inp.toks, a, c.pos, out, src, ScalarOf(t));
        SepMoves(inp, a, c.(pos := c.pos + 1, props := NO_PROPS), false, out + [Attach(ScalarOf(t), c.props)], src + [Content(c.pos)]);
      } else if t.typ == TokFlowEntry || t.typ == TokFlowMapEnd {
        AbsentMoves(inp, a, c, c.(state := FMap(StFMapSep)), out, src);
      } else {
        Ready(inp, c.(nodeReturn := FMap(StFMapSep), state := StFlowNode));
        Onward(inp, a, c.pos, c.(nodeReturn := FMap(StFMapSep), state := StFlowNode), out, src);
      }
    }
  }

  /** Events, then a node without properties. */
  lemma ThenToken(toks: seq<Token>, a: nat, at: nat, out: seq<Event>, src: seq<Origin>, e: Event)
    requires Explains(toks, a, at, out, src) && at < |toks| && IsBase(toks[at], e) && Clear(toks, at)
    ensures Explains(toks, a, at + 1, out + [Attach(e, NO_PROPS)], src + [Content(at)]) && Clear(toks, at + 1)
    ensures Attach(e, NO_PROPS) == e
  {
    hide Explains, Gathered;
    GatheredNothing(toks, at);
    NodeToken(toks, at, at, NO_PROPS, e);
    ExplainsConcat(toks, a, at, at + 1, out, src, [Attach(e, NO_PROPS)], [Content(at)]);
  }

  /** Events and a node that is left out, and on to a state behind it. */
  lemma AbsentMoves(inp: Input, a: nat, c: Config, d: Config, out: seq<Event>, src: seq<Origin>)
    requires Explains(inp.toks, a, c.pos, out, src) && Has(inp, c.pos) && d.pos == c.pos && Pending(d) == []
    requires Behind(inp, d) || (d.props == NO_PROPS && Clear(inp.toks, d.pos))
    ensures Moves(inp, a, Next(d, out + [EmptyScalar(inp.toks[c.pos].start)]))
  {
    hide Explains, Moves, Holds, Clear, Behind, Pending;
    ThenAbsent(inp.toks, a, c.pos, out, src);
    if Behind(inp, d) { ReadyBehind(inp, d); } else { Ready(inp, d); }
    Onward(inp, a, c.pos, d, out + [EmptyScalar(inp.toks[c.pos].start)], src + [Absent(c.pos)]);
  }

  /** Events, and on to a configuration where a node may begin or one is behind. */
  lemma GoMoves(inp: Input, a: nat, d: Config, out: seq<Event>, src: seq<Origin>)
    requires Explains(inp.toks, a, d.pos, out, src) && d.pos <= |inp.toks| && Pending(d) == []
    requires Behind(inp, d) || (d.props == NO_PROPS && Clear(inp.toks, d.pos))
    ensures Moves(inp, a, Next(d, out))
  {
    hide Explains, Moves, Holds, Clear, Behind, Pending;
    if Behind(inp, d) { ReadyBehind(inp, d); } else { Ready(inp, d); }
    Onward(inp, a, d.pos, d, out, src);
  }

  lemma MapLoopMoves(inp: Input, a: nat, c: Config)
    requires Inv(inp, c) && c.state == FMap(StFMapLoop) && Holds(inp, c, a)
    ensures Moves(inp, a, StepFMapLoop(inp, c))
  {
    hide Explains, Moves, Holds, Gathered, FramesOk, Clear, FlowMapValue;
    Unheld(inp, c, a);
    Stopped(inp, a);
    ExplainsNothing(inp.toks, a);
    if Has(inp, c.pos) {
      match inp.toks[c.pos].typ
      case TokFlowMapEnd => GoMoves(inp, a, Goto(c, FMap(StFMapEnd)), [], []);
      case TokFlowEntry =>
      case TokMapKey => QuestionMoves(inp, a, c);
      case TokScalar => MapKeyMoves(inp, a, c);
      case _ => GoMoves(inp, a, c.(nodeReturn := FMap(StFMapValue), state := StFlowNode), [], []);
    }
  }

  lemma QuestionMoves(inp: Input, a: nat, c: Config)
    requires c.props == NO_PROPS && c.state == FMap(StFMapLoop) && c.pos == a && Sees(inp, c, TokMapKey)
    ensures Moves(inp, a, StepFMapLoop(inp, c))
  {
    hide Explains, Moves, Holds, Gathered, Clear, FlowMapValue;
    Stopped(inp, a);
    ExplainsNothing(inp.toks, a);
    ThenSilent(inp.toks, a, c.pos, [], []);
    if Has(inp, c.pos + 1) {
      var d := c.(pos := c.pos + 1);
      AbsentMoves(inp, a, d, Goto(d, FMap(StFMapValue)), [], []);
      assert [] + [EmptyScalar(inp.toks[c.pos + 1].start)] == [EmptyScalar(inp.toks[c.pos + 1].start)];
      GoMoves(inp, a, d.(nodeReturn := FMap(StFMapValue), state := StFlowNode), [], []);
    }
  }

  lemma MapKeyMoves(inp: Input, a: nat, c: Config)
    requires c.props == NO_PROPS && c.state == FMap(StFMapLoop) && c.pos == a && Sees(inp, c, TokScalar) && Clear(inp.toks, a)
    ensures Moves(inp, a, StepFMapLoop(inp, c))
  {
    hide Explains, Moves, Holds, Attach, Gathered, FlowMapValue, Clear;
    var t := inp.toks[c.pos];
    var key := [Attach(ScalarOf(t), c.props)];
    var d := c.(pos := c.pos + 1, props := NO_PROPS, state := FMap(StFMapValue));
    ExplainsNothing(inp.toks, a);
    ThenToken(inp.toks, a, c.pos, [], [], ScalarOf(t));
    assert [] + key == key && [] + [Content(c.pos)] == [Content(c.pos)];
    if !Has(inp, d.pos) {
      Halted(inp, a, d.pos, key, [Content(c.pos)]);
    } else if inp.toks[d.pos].typ != TokMapValue {
      GoMoves(inp, a, d, key, [Content(c.pos)]);
    } else {
      ThenSilent(inp.toks, a, d.pos, key, [Content(c.pos)]);
      MapValueMoves(inp, a, d.(pos := d.pos + 1), key, [Content(c.pos)]);
    }
  }

  lemma MapColonMoves(inp: Input, a: nat, c: Config)
    requires c.state == FMap(StFMapValue) && c.props == NO_PROPS && Holds(inp, c, a)
    ensures Moves(inp, a, StepFMapValue(inp, c))
  {
    hide Explains, Moves, Holds, Gathered, FlowMapValue, Clear;
    Unheld(inp, c, a);
    Stopped(inp, a);
    ExplainsNothing(inp.toks, a);
    if Has(inp, c.pos) {
      if inp.toks[c.pos].typ == TokMapValue {
        ThenSilent(inp.toks, a, c.pos, [], []);
        MapValueMoves(inp, a, c.(pos := c.pos + 1), [], []);
      }
      AbsentMoves(inp, a, c, Goto(c, FMap(StFMapSep)), [], []);
      assert [] + [EmptyScalar(inp.toks[c.pos].start)] == [EmptyScalar(inp.toks[c.pos].start)];
    }
  }

  lemma MapSepMoves(inp: Input, a: nat, c: Config)
    requires c.state == FMap(StFMapSep) && c.props == NO_PROPS && Holds(inp, c, a)
    ensures Moves(inp, a, StepFMapSep(inp, c))
  {
    hide Explains, Moves, Holds, Gathered, Clear;
    Unheld(inp, c, a);
    Stopped(inp, a);
    ExplainsNothing(inp.toks, a);
    if Sees(inp, c, TokFlowEntry) {
      ThenSilent(inp.toks, a, c.pos, [], []);
      GoMoves(inp, a, c.(pos := c.pos + 1, state := FMap(StFMapLoop)), [], []);
    } else if Sees(inp, c, TokFlowMapEnd) {
      GoMoves(inp, a, Goto(c, FMap(StFMapLoop)), [], []);
    }
  }

  /** The end of a flow collection. */
  lemma FlowEndMoves(inp: Input, a: nat, c: Config, typ: EventType)
    requires c.props == NO_PROPS && Holds(inp, c, a) && c.state != StEagerDrain && FramesOk(c.frames)
    requires (typ == SequenceEnd && Sees(inp, c, TokFlowSeqEnd)) || (typ == MappingEnd && Sees(inp, c, TokFlowMapEnd))
    ensures Moves(inp, a, StepFlowEnd(inp, c, typ))
  {
    hide Explains, Moves, Holds, Gathered, Clear, FramesOk, FlowSep, Pending;
    Unheld(inp, c, a);
    var t := inp.toks[c.pos];
    var out := [Simple(typ, t.start, t.end)];
    var ret := if c.frames == [] then Stream(StDone) else c.frames[|c.frames| - 1].ret;
    var frames := if c.frames == [] then [] else c.frames[..|c.frames| - 1];
    var d := c.(pos := c.pos + 1, frames := frames, state := ret);
    ClosingToken(inp.toks, c.pos);
    ClearAfter(inp.toks, c.pos);
    if ret == FSeq(StFSeqSep) {
      SepMoves(inp, a, d, true, out, [Content(c.pos)]);
    } else if ret == FMap(StFMapSep) {
      SepMoves(inp, a, d, false, out, [Content(c.pos)]);
    } else {
      Returns(c.frames, d);
      GoMoves(inp, a, d, out, [Content(c.pos)]);
    }
  }

  /** Collections do not return to a saved key. */
  lemma Returns(frames: seq<Frame>, d: Config)
    requires FramesOk(frames) && d.state == if frames == [] then Stream(StDone) else frames[|frames| - 1].ret
    ensures Pending(d) == []
  {
    if frames != [] { PopFrames(frames); }
  }

  lemma SeqEntryMoves(inp: Input, a: nat, c: Config, e: Event)
    requires Gathered(inp.toks, a, c.pos, c.props) && Clear(inp.toks, a) && Has(inp, c.pos) && IsBase(inp.toks[c.pos], e)
    requires Sees(inp, c, TokAlias) ==> !c.props.Any()
    ensures Moves(inp, a, FSeqEntry(inp, c, e))
  {
    hide Explains, Moves, Gathered, Clear, Attach, FlowSep, Holds;
    var node := Attach(e, c.props);
    var d := c.(props := NO_PROPS, pos := c.pos + 1);
    GatheredInside(inp.toks, a, c.pos, c.props);
    NodeToken(inp.toks, a, c.pos, c.props, e);
    ClearAfter(inp.toks, c.pos);
    if !Has(inp, d.pos) {
      Stopped(inp, a);
    } else if inp.toks[d.pos].typ == TokMapValue {
      Ready(inp, d.(saved := node, state := FSeq(StFSeqEntryKey)));
      Saved(inp, a, d.(saved := node, state := FSeq(StFSeqEntryKey)), [Content(c.pos)]);
    } else {
      SepMoves(inp, a, d, true, [node], [Content(c.pos)]);
    }
  }

  /** A key is read. */
  lemma Saved(inp: Input, a: nat, d: Config, src: seq<Origin>)
    requires Pending(d) == [d.saved] && Explains(inp.toks, a, d.pos, [d.saved], src) && Holds(inp, d, d.pos)
    ensures Moves(inp, a, Next(d, []))
  {
    hide Explains, Holds, Pending;
    assert [] + [d.saved] == [d.saved];
  }

  lemma PairValueMoves(inp: Input, a: nat, c: Config, out: seq<Event>, src: seq<Origin>)
    requires Explains(inp.toks, a, c.pos, out, src) && c.props == NO_PROPS && Clear(inp.toks, c.pos)
    ensures Moves(inp, a, FSeqPairValue(inp, c, out))
  {
    hide Explains, Moves, Holds, Clear;
    if !Has(inp, c.pos) {
      Halted(inp, a, c.pos, out, src);
    } else {
      AbsentMoves(inp, a, c, Goto(c, FSeq(StFSeqImplicitEnd)), out, src);
      GoMoves(inp, a, c.(nodeReturn := FSeq(StFSeqImplicitEnd), state := StFlowNode), out, src);
    }
  }

  /** A pair whose key has nothing but properties. */
  lemma BareKeyMoves(inp: Input, a: nat, c: Config)
    requires Gathered(inp.toks, a, c.pos, c.props) && Clear(inp.toks, a) && Sees(inp, c, TokMapValue)
    ensures var key := Attach(EmptyScalar(inp.toks[c.pos].start), c.props);
            Moves(inp, a, FSeqPairValue(inp, c.(props := NO_PROPS, pos := c.pos + 1), [FlowStart(MappingStart, key.start, key.start), key]))
  {
    hide Explains, Moves, Holds, Clear, Attach, Gathered, FSeqPairValue;
    var key := Attach(EmptyScalar(inp.toks[c.pos].start), c.props);
    var open := FlowStart(MappingStart, key.start, key.start);
    NodeEmpty(inp.toks, a, c.pos, c.props);
    KeyFirst(inp.toks, a, c.pos, [key], [Empty(c.pos)]);
    assert [open] + [key] == [open, key] && [KeyStart] + [Empty(c.pos)] == [KeyStart, Empty(c.pos)];
    ThenSilent(inp.toks, a, c.pos, [open, key], [KeyStart, Empty(c.pos)]);
    PairValueMoves(inp, a, c.(props := NO_PROPS, pos := c.pos + 1), [open, key], [KeyStart, Empty(c.pos)]);
  }

  lemma SeqPropsMoves(inp: Input, a: nat, c: Config)
    requires Gathered(inp.toks, a, c.pos, c.props) && Clear(inp.toks, a) && c.state == FSeq(StFSeqLoop)
    ensures c.pos <= |inp.toks| && Moves(inp, a, FSeqProps(inp, c))
  {
    hide Explains, Moves, Holds, Clear, Attach, Gathered, ConsumeProps, FlowSep;
    GatheredInside(inp.toks, a, c.pos, c.props);
    Stopped(inp, a);
    GatherMore(inp.toks, a, c.pos, c.props);
    var r := ConsumeProps(inp.toks, c.pos, c.props);
    if r.PropsOk? {
      var d := c.(props := NO_PROPS, pos := r.pos);
      NodeEmpty(inp.toks, a, r.pos, r.props);
      SepMoves(inp, a, d, true, [Attach(EmptyScalar(inp.toks[r.pos].start), r.props)], [Empty(r.pos)]);
      Gathers(inp, a, c.(props := r.props, pos := r.pos));
    }
  }

  /** Properties are read, or nothing happened. */
  lemma Gathers(inp: Input, a: nat, d: Config)
    requires Gathered(inp.toks, a, d.pos, d.props) && Clear(inp.toks, a) && Pending(d) == []
    ensures Moves(inp, a, Next(d, []))
  {
    hide Explains, Moves, Clear, Gathered, Pending;
    GatheredInside(inp.toks, a, d.pos, d.props);
    ExplainsNothing(inp.toks, a);
    Onward(inp, a, a, d, [], []);
  }

  lemma SeqNestedMoves(inp: Input, a: nat, c: Config, t: Token)
    requires Gathered(inp.toks, a, c.pos, c.props) && Clear(inp.toks, a)
    ensures Moves(inp, a, FSeqNested(inp, c, t))
  {
    hide Explains, Moves, Clear, Gathered;
    Gathers(inp, a, Goto(c, StEagerDrain));
    Gathers(inp, a, c.(nodeReturn := FSeq(StFSeqSep), state := StFlowNode));
  }

  lemma SeqLoopMoves(inp: Input, a: nat, c: Config)
    requires Inv(inp, c) && c.state == FSeq(StFSeqLoop) && Holds(inp, c, a)
    ensures Moves(inp, a, StepFSeqLoop(inp, c))
  {
    hide Explains, Moves, Holds, Clear, Gathered, Attach, FramesOk, FSeqEntry, FSeqNested, FSeqProps, FSeqPairValue;
    Unheld(inp, c, a);
    Stopped(inp, a);
    ExplainsNothing(inp.toks, a);
    if Has(inp, c.pos) {
      var t := inp.toks[c.pos];
      match t.typ
      case TokFlowSeqEnd => GoMoves(inp, a, Goto(c, FSeq(StFSeqEnd)), [], []);
      case TokMapKey => Gathers(inp, a, Goto(c, FSeq(StFSeqExplicitKey)));
      case TokScalar => SeqEntryMoves(inp, a, c, ScalarOf(t));
      case TokAlias => SeqEntryMoves(inp, a, c, AliasOf(t));
      case TokFlowSeqStart => SeqNestedMoves(inp, a, c, t);
      case TokFlowMapStart => SeqNestedMoves(inp, a, c, t);
      case TokMapValue => BareKeyMoves(inp, a, c);
      case TokTag => SeqPropsMoves(inp, a, c);
      case TokAnchor => SeqPropsMoves(inp, a, c);
      case _ =>
    }
  }

  lemma PairEndMoves(inp: Input, a: nat, c: Config)
    requires c.props == NO_PROPS && Holds(inp, c, a) && c.state in {FSeq(StFSeqImplicitEnd), FSeq(StFSeqExplicitEnd)}
    ensures Moves(inp, a, StepFSeqPairEnd(inp, c))
  {
    hide Explains, Moves, Holds, Clear, Gathered;
    Unheld(inp, c, a);
    Stopped(inp, a);
    if Has(inp, c.pos) {
      var e := Simple(MappingEnd, inp.toks[c.pos].start, inp.toks[c.pos].start);
      BracketAt(inp.toks, c.pos, e);
      GoMoves(inp, a, Goto(c, FSeq(StFSeqSep)), [e], [Bracket(c.pos)]);
    }
  }

  lemma SeqQuestionMoves(inp: Input, a: nat, c: Config)
    requires c.props == NO_PROPS && Holds(inp, c, a) && c.state == FSeq(StFSeqExplicitKey) && Sees(inp, c, TokMapKey)
    ensures Moves(inp, a, StepFSeqExplicitKey(inp, c))
  {
    hide Explains, Moves, Holds, Clear, Gathered;
    Unheld(inp, c, a);
    var t := inp.toks[c.pos];
    var out := [FlowStart(MappingStart, t.start, t.end)];
    BracketAt(inp.toks, c.pos, out[0]);
    ThenSilent(inp.toks, a, c.pos, out, [Bracket(c.pos)]);
    var d := c.(pos := c.pos + 1);
    if !Has(inp, d.pos) {
      Halted(inp, a, d.pos, out, [Bracket(c.pos)]);
    } else {
      AbsentMoves(inp, a, d, Goto(d, FSeq(StFSeqExplicitValue)), out, [Bracket(c.pos)]);
      GoMoves(inp, a, d.(nodeReturn := FSeq(StFSeqExplicitValue), state := StFlowNode), out, [Bracket(c.pos)]);
    }
  }

  lemma SeqColonMoves(inp: Input, a: nat, c: Config)
    requires c.props == NO_PROPS && Holds(inp, c, a) && c.state == FSeq(StFSeqExplicitValue)
    ensures Moves(inp, a, StepFSeqExplicitValue(inp, c))
  {
    hide Explains, Moves, Holds, Clear, Gathered;
    Unheld(inp, c, a);
    Stopped(inp, a);
    ExplainsNothing(inp.toks, a);
    if Has(inp, c.pos) {
      if inp.toks[c.pos].typ != TokMapValue {
        AbsentMoves(inp, a, c, Goto(c, FSeq(StFSeqExplicitEnd)), [], []);
        assert [] + [EmptyScalar(inp.toks[c.pos].start)] == [EmptyScalar(inp.toks[c.pos].start)];
      } else {
        PastColonMoves(inp, a, c);
      }
    }
  }

  lemma PastColonMoves(inp: Input, a: nat, c: Config)
    requires c.props == NO_PROPS && a == c.pos && c.state == FSeq(StFSeqExplicitValue) && Sees(inp, c, TokMapValue)
    ensures Moves(inp, a, StepFSeqExplicitValue(inp, c))
  {
    hide Explains, Moves, Holds, Clear, Gathered;
    var d := c.(pos := c.pos + 1);
    ExplainsNothing(inp.toks, a);
    ThenSilent(inp.toks, a, c.pos, [], []);
    Stopped(inp, a);
    if Has(inp, d.pos) {
      AbsentMoves(inp, a, d, Goto(d, FSeq(StFSeqExplicitEnd)), [], []);
      assert [] + [EmptyScalar(inp.toks[d.pos].start)] == [EmptyScalar(inp.toks[d.pos].start)];
      GoMoves(inp, a, d.(nodeReturn := FSeq(StFSeqExplicitEnd), state := StFlowNode), [], []);
    }
  }

  lemma SeqSepMoves(inp: Input, a: nat, c: Config)
    requires c.state == FSeq(StFSeqSep) && c.props == NO_PROPS && Holds(inp, c, a)
    ensures Moves(inp, a, StepFSeqSep(inp, c))
  {
    hide Explains, Moves, Holds, Gathered, Clear;
    Unheld(inp, c, a);
    Stopped(inp, a);
    ExplainsNothing(inp.toks, a);
    if Sees(inp, c, TokFlowEntry) {
      ThenSilent(inp.toks, a, c.pos, [], []);
      GoMoves(inp, a, c.(pos := c.pos + 1, state := FSeq(StFSeqLoop)), [], []);
    } else if Sees(inp, c, TokFlowSeqEnd) {
      GoMoves(inp, a, Goto(c, FSeq(StFSeqLoop)), [], []);
    }
  }

  // ----- stream and document states -----

  /** Events, then a token that is a bracket of a stream or document. */
  lemma ThenBracketToken(toks: seq<Token>, a: nat, at: nat, out: seq<Event>, src: seq<Origin>, e: Event)
    requires Explains(toks, a, at, out, src) && at < |toks| && Looks(toks, Bracket(at), e) && !IsContent(toks[at]) && !IsProp(toks[at])
    ensures Explains(toks, a, at + 1, out + [e], src + [Bracket(at)]) && Clear(toks, at + 1)
  {
    hide Explains, Looks;
    ThenBracket(toks, a, at, out, src, e);
    ThenSilent(toks, a, at, out + [e], src + [Bracket(at)]);
  }

  /** The scanner's first token starts the stream. */
  predicate Scanned(inp: Input) { inp.toks != [] ==> inp.toks[0].typ == TokStreamStart }

  /** Where a stream or document bracket is a token of its own. */
  lemma BracketMoves(inp: Input, a: nat, c: Config, d: Config, e: Event)
    requires a == c.pos && Has(inp, c.pos) && !IsContent(inp.toks[c.pos]) && !IsProp(inp.toks[c.pos])
    requires d.pos == c.pos + 1 && d.props == NO_PROPS && Pending(d) == [] && Looks(inp.toks, Bracket(c.pos), e)
    ensures Moves(inp, a, Next(d, [e]))
  {
    hide Explains, Moves, Looks, Pending;
    ExplainsNothing(inp.toks, a);
    ThenBracketToken(inp.toks, a, c.pos, [], [], e);
    assert [] + [e] == [e] && [] + [Bracket(c.pos)] == [Bracket(c.pos)];
    GoMoves(inp, a, d, [e], [Bracket(c.pos)]);
  }

  lemma EndDocumentMoves(inp: Input, a: nat, c: Config, out: seq<Event>, src: seq<Origin>)
    requires Explains(inp.toks, a, c.pos, out, src) && c.props == NO_PROPS && Clear(inp.toks, c.pos) && a <= |inp.toks|
    ensures Moves(inp, a, EndDocument(inp, c, out))
  {
    hide Explains, Moves, Clear;
    Stopped(inp, a);
    if !Has(inp, c.pos) {
      Halted(inp, a, c.pos, out, src);
    } else {
      var t := inp.toks[c.pos];
      if t.typ == TokDocEnd {
        var e, d := DocEvent(DocEnd, false, t.start, t.end), c.(pos := c.pos + 1, docOpen := false, state := Stream(StDocLoop));
        ThenBracketToken(inp.toks, a, c.pos, out, src, e);
        GoMoves(inp, a, d, out + [e], src + [Bracket(c.pos)]);
      } else if t.typ == TokDocStart || t.typ == TokStreamEnd {
        var e, d := DocEvent(DocEnd, true, t.start, t.start), c.(docOpen := false, state := Stream(StDocLoop));
        ThenBracket(inp.toks, a, c.pos, out, src, e);
        GoMoves(inp, a, d, out + [e], src + [Bracket(c.pos)]);
      }
    }
  }

  /** A bracket that consumes no token. */
  lemma BracketHere(inp: Input, a: nat, d: Config, e: Event)
    requires a == d.pos && Has(inp, a) && d.props == NO_PROPS && Clear(inp.toks, a) && Pending(d) == [] && Looks(inp.toks, Bracket(a), e)
    ensures Moves(inp, a, Next(d, [e])) && Moves(inp, a, Failed([e]))
  {
    hide Explains, Moves, Looks, Pending, Clear;
    BracketAt(inp.toks, a, e);
    GoMoves(inp, a, d, [e], [Bracket(a)]);
    Halted(inp, a, a, [e], [Bracket(a)]);
  }

  lemma DocStartMoves(inp: Input, a: nat, c: Config, explicit: bool)
    requires Inv(inp, c) && c.state == Stream(if explicit then StDocStartExplicit else StDocStartImplicit)
    requires a == c.pos && c.props == NO_PROPS && Clear(inp.toks, a)
    ensures Moves(inp, a, StepDocStart(inp, c, explicit))
  {
    hide Explains, Moves, Clear, FramesOk;
    var t := inp.toks[c.pos];
    var e := DocEvent(DocStart, !explicit, t.start, if explicit then t.end else t.start);
    assert [] + [e] == [e];
    if explicit {
      BracketMoves(inp, a, c, c.(docStartLine := t.start.line, pos := c.pos + 1, docOpen := true, state := Doc(StDocContent)), e);
    } else {
      BracketHere(inp, a, c.(docStartLine := 0, docOpen := true, state := Doc(StDocContent)), e);
    }
  }

  lemma StreamEndsMove(inp: Input, a: nat, c: Config)
    requires Inv(inp, c) && c.state in {Stream(StStreamStart), Stream(StStreamEnd)} && Scanned(inp)
    requires c.state == Stream(StStreamStart) ==> c.pos == 0
    requires a == c.pos && c.props == NO_PROPS && Has(inp, c.pos)
    ensures c.state == Stream(StStreamStart) ==> Moves(inp, a, StepStreamStart(inp, c))
    ensures c.state == Stream(StStreamEnd) ==> Moves(inp, a, StepStreamEnd(inp, c))
  {
    hide Explains, Moves, FramesOk;
    var t := inp.toks[c.pos];
    var d := c.(pos := c.pos + 1);
    if c.state == Stream(StStreamStart) {
      BracketMoves(inp, a, c, Goto(d, Stream(StDocLoop)), Simple(StreamStart, t.start, t.end));
    } else {
      BracketMoves(inp, a, c, Goto(d, Stream(StDone)), Simple(StreamEnd, t.start, t.end));
    }
  }

  lemma StreamMoves(inp: Input, a: nat, c: Config)
    requires Inv(inp, c) && c.state.Stream? && c.state.stream != StDone && Scanned(inp)
    requires c.state == Stream(StStreamStart) ==> c.pos == 0
    requires a == c.pos && c.props == NO_PROPS && Clear(inp.toks, a)
    ensures Moves(inp, a, StepOf(inp, c))
  {
    hide Explains, Moves, Clear, FramesOk, StepDocStart, StepDocDirectives, StreamOk;
    DirectivesMoves(inp, a, c);
    DocLoopMoves(inp, a, c);
    Stopped(inp, a);
    match c.state.stream
    case StStreamStart => if Has(inp, c.pos) { StreamEndsMove(inp, a, c); }
    case StDocLoop =>
    case StStreamEnd => if Has(inp, c.pos) { StreamEndsMove(inp, a, c); }
    case StDocDirectives =>
    case StDocStartExplicit => DocStartMoves(inp, a, c, true);
    case StDocStartImplicit => DocStartMoves(inp, a, c, false);
  }

  lemma DocLoopMoves(inp: Input, a: nat, c: Config)
    requires a == c.pos <= |inp.toks| && c.props == NO_PROPS && Clear(inp.toks, a)
    ensures Moves(inp, a, StepDocLoop(inp, c))
  {
    hide Explains, Moves, Clear;
    ExplainsNothing(inp.toks, a);
    if c.pos == |inp.toks| { Stopped(inp, a); } else { GoMoves(inp, a, StepDocLoop(inp, c).c, [], []); }
  }

  lemma DirectivesMoves(inp: Input, a: nat, c: Config)
    requires a == c.pos <= |inp.toks| && c.props == NO_PROPS && Clear(inp.toks, a)
    ensures Moves(inp, a, StepDocDirectives(inp, c))
  {
    hide Explains, Moves, Clear;
    ExplainsNothing(inp.toks, a);
    if c.pos == |inp.toks| {
      Stopped(inp, a);
    } else if inp.toks[c.pos].typ == TokDocEnd {
      ThenSilent(inp.toks, a, c.pos, [], []);
      GoMoves(inp, a, c.(pos := c.pos + 1, state := Stream(StDocLoop)), [], []);
    } else {
      GoMoves(inp, a, StepDocDirectives(inp, c).c, [], []);
    }
  }

  lemma DocMoves(inp: Input, a: nat, c: Config)
    requires c.state.Doc? && a == c.pos <= |inp.toks| && c.props == NO_PROPS && Clear(inp.toks, a)
    ensures Moves(inp, a, StepOf(inp, c))
  {
    hide Explains, Moves, Clear, EndDocument;
    Stopped(inp, a);
    ExplainsNothing(inp.toks, a);
    EndDocumentMoves(inp, a, c, [], []);
    if c.state == Doc(StDocContent) && Has(inp, c.pos) {
      var t := inp.toks[c.pos];
      var empty, end := EmptyScalar(t.start), DocEvent(DocEnd, true, t.start, t.start);
      ThenAbsent(inp.toks, a, c.pos, [], []);
      assert [] + [empty] == [empty] && [] + [Absent(c.pos)] == [Absent(c.pos)];
      assert [empty] + [end] == [empty, end] && [Absent(c.pos)] + [Bracket(c.pos)] == [Absent(c.pos), Bracket(c.pos)];
      if t.typ == TokDocEnd {
        GoMoves(inp, a, Goto(c, Doc(StDocEndExplicit)), [empty], [Absent(c.pos)]);
      } else if t.typ == TokDocStart || t.typ == TokStreamEnd {
        ThenBracket(inp.toks, a, c.pos, [empty], [Absent(c.pos)], end);
        GoMoves(inp, a, StepDocContent(inp, c).c, [empty, end], [Absent(c.pos), Bracket(c.pos)]);
      } else {
        GoMoves(inp, a, StepDocContent(inp, c).c, [], []);
      }
    }
  }

  // ----- block states -----

  /** At a token, with nothing held: what every block state starts from. */
  predicate Fresh(inp: Input, a: nat, c: Config) {
    a == c.pos <= |inp.toks| && c.props == NO_PROPS && Clear(inp.toks, a)
  }

  lemma Here(inp: Input, a: nat, d: Config)
    requires Fresh(inp, a, d) && Pending(d) == []
    ensures Moves(inp, a, Next(d, []))
  {
    hide Explains, Moves, Clear, Pending;
    ExplainsNothing(inp.toks, a);
    GoMoves(inp, a, d, [], []);
  }

  lemma AbsentHere(inp: Input, a: nat, d: Config)
    requires Fresh(inp, a, d) && Has(inp, a) && Pending(d) == []
    ensures Moves(inp, a, Next(d, [EmptyScalar(inp.toks[a].start)]))
  {
    hide Explains, Moves, Clear, Pending;
    ExplainsNothing(inp.toks, a);
    AbsentMoves(inp, a, d, d, [], []);
    assert [] + [EmptyScalar(inp.toks[a].start)] == [EmptyScalar(inp.toks[a].start)];
  }

  /** Past a token that is no event, with or without a node left out after it. */
  lemma PastSilent(inp: Input, a: nat, d: Config)
    requires Has(inp, a) && !IsContent(inp.toks[a]) && !IsProp(inp.toks[a]) && d.pos == a + 1 && d.props == NO_PROPS && Pending(d) == []
    ensures Moves(inp, a, Next(d, []))
    ensures Has(inp, d.pos) ==> Moves(inp, a, Next(d, [EmptyScalar(inp.toks[d.pos].start)]))
  {
    hide Explains, Moves, Clear, Pending;
    ExplainsNothing(inp.toks, a);
    ThenSilent(inp.toks, a, a, [], []);
    GoMoves(inp, a, d, [], []);
    if Has(inp, d.pos) {
      AbsentMoves(inp, a, d, d, [], []);
      assert [] + [EmptyScalar(inp.toks[d.pos].start)] == [EmptyScalar(inp.toks[d.pos].start)];
    }
  }

  /** A scalar or alias without properties. */
  lemma LeafHere(inp: Input, a: nat, d: Config, e: Event)
    requires Has(inp, a) && Clear(inp.toks, a) && IsBase(inp.toks[a], e) && d.pos == a + 1 && d.props == NO_PROPS
    ensures Explains(inp.toks, a, d.pos, [e], [Content(a)]) && Holds(inp, d, d.pos)
    ensures Pending(d) == [] ==> Moves(inp, a, Next(d, [e]))
  {
    hide Explains, Moves, Clear, Pending, IsBase, Holds;
    ExplainsNothing(inp.toks, a);
    ThenToken(inp.toks, a, a, [], [], e);
    assert [] + [e] == [e] && [] + [Content(a)] == [Content(a)];
    Ready(inp, d);
    if Pending(d) == [] { GoMoves(inp, a, d, [e], [Content(a)]); }
  }

  lemma BlockNodeMoves(inp: Input, a: nat, c: Config)
    requires Fresh(inp, a, c)
    ensures Moves(inp, a, StepBlockNode(inp, c))
  {
    hide Explains, Moves, Clear, BlockNodeFlow;
    Stopped(inp, a);
    if Has(inp, c.pos) {
      BlockNodeFlowMoves(inp, a, c, inp.toks[c.pos]);
      if StepBlockNode(inp, c).Next? && inp.toks[c.pos].typ !in {TokFlowSeqStart, TokFlowMapStart} { Here(inp, a, StepBlockNode(inp, c).c); }
    }
  }

  lemma BlockNodeFlowMoves(inp: Input, a: nat, c: Config, t: Token)
    requires Fresh(inp, a, c)
    ensures Moves(inp, a, BlockNodeFlow(inp, c, t))
  {
    hide Explains, Moves, Clear;
    Here(inp, a, Goto(c, StFlowNode));
    Here(inp, a, Goto(c, StEagerDrain));
  }

  lemma LeafMoves(inp: Input, a: nat, c: Config, e: Event, key: State)
    requires Fresh(inp, a, c) && Has(inp, c.pos) && IsBase(inp.toks[c.pos], e) && !InFlow(c.frames) && ReturnOk(c.frames, c.nodeReturn)
    requires key == Node(StNodeScalarKey) || key == Node(StNodeAliasKey)
    ensures Moves(inp, a, StepNodeLeaf(inp, c, e, key))
  {
    hide Explains, Moves, Clear, IsBase, Holds;
    var d := c.(pos := c.pos + 1);
    Stopped(inp, a);
    LeafHere(inp, a, Goto(d, c.nodeReturn), e);
    var k := d.(saved := e, savedCol := inp.toks[c.pos].Col(), state := key);
    LeafHere(inp, a, k, e);
    Saved(inp, a, k, [Content(a)]);
  }

  lemma PushMoves(inp: Input, a: nat, c: Config, typ: FrameType, indent: int, s: State, line: nat, e: Event)
    requires Fresh(inp, a, c) && Has(inp, a) && Pending(Goto(c, s)) == [] && Looks(inp.toks, Bracket(a), e)
    ensures Moves(inp, a, PushFrame(c, typ, indent, s, line, [e]))
  {
    hide Explains, Moves, Clear, Looks;
    BracketHere(inp, a, c.(frames := c.frames + [Frame(typ, indent, c.nodeReturn)], state := s), e);
  }

  lemma NodeSeqMoves(inp: Input, a: nat, c: Config)
    requires Fresh(inp, a, c)
    ensures Sees(inp, c, TokSeqEntry) ==> Moves(inp, a, StepNodeSeq(inp, c))
    ensures Sees(inp, c, TokMapKey) ==> Moves(inp, a, StepNodeExplicitKey(inp, c))
  {
    hide Explains, Moves, Clear, PushFrame;
    if Has(inp, c.pos) {
      var t := inp.toks[c.pos];
      if t.typ == TokSeqEntry {
        PushMoves(inp, a, c, BlockSeq, t.Col(), Seq(StSeqLoop), t.start.line, Simple(SequenceStart, t.start, t.end));
      } else if t.typ == TokMapKey {
        PushMoves(inp, a, c, BlockMap, t.Col(), Map(StMapLoop), t.start.line, Simple(MappingStart, t.start, t.end));
      }
    }
  }

  lemma BareValueMoves(inp: Input, a: nat, c: Config)
    requires Fresh(inp, a, c) && Sees(inp, c, TokMapValue)
    ensures Moves(inp, a, StepNodeBareValue(inp, c))
  {
    hide Explains, Moves, Clear;
    var t := inp.toks[c.pos];
    var open, key := Simple(MappingStart, t.start, t.end), EmptyScalar(t.start);
    BracketAt(inp.toks, a, open);
    ThenAbsent(inp.toks, a, a, [open], [Bracket(a)]);
    assert [open] + [key] == [open, key] && [Bracket(a)] + [Absent(a)] == [Bracket(a), Absent(a)];
    var d := c.(frames := c.frames + [Frame(BlockMap, t.Col(), c.nodeReturn)], state := Map(StMapValue));
    GoMoves(inp, a, d, [open, key], [Bracket(a), Absent(a)]);
    Halted(inp, a, a, [open, key], [Bracket(a), Absent(a)]);
  }

  lemma NodeEmptyMoves(inp: Input, a: nat, c: Config)
    requires Fresh(inp, a, c) && !InFlow(c.frames) && ReturnOk(c.frames, c.nodeReturn)
    ensures Moves(inp, a, StepNodeEmpty(inp, c))
  {
    hide Explains, Moves, Clear;
    Stopped(inp, a);
    if Has(inp, c.pos) {
      var e := Simple(ScalarEvent, inp.toks[a].start, inp.toks[a].end);
      MissingHere(inp.toks, a);
      GoMoves(inp, a, Goto(c, c.nodeReturn), [e], [Missing(a)]);
    }
  }

  lemma MissingHere(toks: seq<Token>, at: nat)
    requires at < |toks|
    ensures Explains(toks, at, at, [Simple(ScalarEvent, toks[at].start, toks[at].end)], [Missing(at)])
  {
    BornSingle(Missing(at));
    AnchorsSingle(Simple(ScalarEvent, toks[at].start, toks[at].end));
  }

  lemma BlockMapMoves(inp: Input, a: nat, c: Config)
    requires Fresh(inp, a, c)
    ensures Moves(inp, a, StepMapLoop(inp, c)) && Moves(inp, a, StepMapPostKey(inp, c))
  {
    hide Explains, Moves, Clear;
    Stopped(inp, a);
    if Has(inp, c.pos) {
      Here(inp, a, Goto(c, Map(StMapExplicitKey)));
      Here(inp, a, Goto(c, Map(StMapSimpleKey)));
      Here(inp, a, Goto(c, StEagerDrain));
      Here(inp, a, Goto(c, Map(StMapEnd)));
      Here(inp, a, Goto(c, Map(StMapValue)));
      AbsentHere(inp, a, Goto(c, Map(StMapValue)));
      AbsentHere(inp, a, Goto(c, Map(StMapLoop)));
    }
  }

  lemma BlockQuestionMoves(inp: Input, a: nat, c: Config)
    requires Fresh(inp, a, c) && Sees(inp, c, TokMapKey)
    ensures Moves(inp, a, StepMapExplicitKey(inp, c))
  {
    hide Explains, Moves, Clear;
    Stopped(inp, a);
    var d := c.(pos := c.pos + 1);
    PastSilent(inp, a, Goto(d, Map(StMapPostKey)));
    PastSilent(inp, a, d.(nodeReturn := Map(StMapPostKey), state := Node(StBlockNode)));
  }

  /** The second and every later key of a block mapping. */
  lemma SimpleKeyMoves(inp: Input, a: nat, c: Config)
    requires Fresh(inp, a, c)
    ensures Moves(inp, a, StepMapSimpleKey(inp, c))
  {
    hide Explains, Moves, Clear;
    Stopped(inp, a);
    if Has(inp, c.pos) {
      var t := inp.toks[c.pos];
      Here(inp, a, Goto(c, StEagerDrain));
      if t.typ == TokScalar || t.typ == TokAlias {
        LeafHere(inp, a, c.(pos := c.pos + 1, state := Map(StMapValue)), if t.typ == TokScalar then ScalarOf(t) else AliasOf(t));
        Drained(inp, a, c.(pos := c.pos + 1, state := StEagerDrain));
      }
    }
  }

  /** The eager parser takes over. */
  lemma Drained(inp: Input, a: nat, d: Config)
    requires d.state == StEagerDrain && a <= |inp.toks|
    ensures Moves(inp, a, Next(d, []))
  {
    hide Explains, Moves;
    ExplainsNothing(inp.toks, a);
    Onward(inp, a, a, d, [], []);
  }

  lemma BlockColonMoves(inp: Input, a: nat, c: Config)
    requires Fresh(inp, a, c)
    ensures Moves(inp, a, StepMapValue(inp, c))
  {
    hide Explains, Moves, Clear;
    Stopped(inp, a);
    if Has(inp, c.pos) {
      var colon := inp.toks[c.pos];
      AbsentHere(inp, a, Goto(c, Map(StMapLoop)));
      if colon.typ == TokMapValue {
        var d := c.(pos := c.pos + 1, colonLine := colon.start.line, colonStartsLine := inp.startsLine(colon.start.offset));
        PastSilent(inp, a, Goto(d, Map(StMapLoop)));
        PastSilent(inp, a, d.(nodeReturn := Map(StMapLoop), state := Node(StBlockNode)));
      }
    }
  }

  lemma BlockSeqMoves(inp: Input, a: nat, c: Config)
    requires Fresh(inp, a, c)
    ensures Moves(inp, a, StepSeqLoop(inp, c)) && (Sees(inp, c, TokSeqEntry) ==> Moves(inp, a, StepSeqEntry(inp, c)))
  {
    hide Explains, Moves, Clear;
    Stopped(inp, a);
    Here(inp, a, Goto(c, Seq(StSeqEntry)));
    Here(inp, a, Goto(c, Seq(StSeqEnd)));
    if Sees(inp, c, TokSeqEntry) {
      var d := c.(pos := c.pos + 1);
      PastSilent(inp, a, Goto(d, Seq(StSeqLoop)));
      PastSilent(inp, a, d.(nodeReturn := Seq(StSeqLoop), state := Node(StBlockNode)));
    }
  }

  lemma BlockEndMoves(inp: Input, a: nat, c: Config, typ: EventType)
    requires Fresh(inp, a, c) && FramesOk(c.frames) && (typ == MappingEnd || typ == SequenceEnd)
    ensures Moves(inp, a, StepBlockEnd(inp, c, typ))
  {
    hide Explains, Moves, Clear, FramesOk, EndDocument;
    Stopped(inp, a);
    if Has(inp, c.pos) {
      var t := inp.toks[c.pos];
      var e := Simple(typ, t.start, t.start);
      var ret := if c.frames == [] then Stream(StDone) else c.frames[|c.frames| - 1].ret;
      var frames := if c.frames == [] then [] else c.frames[..|c.frames| - 1];
      var d := c.(frames := frames, state := ret);
      BracketAt(inp.toks, a, e);
      Returns(c.frames, d);
      BracketHere(inp, a, d, e);
      EndDocumentMoves(inp, a, d, [e], [Bracket(a)]);
    }
  }

  // ----- every step -----

  predicate Outer(c: Config) { c.state.Stream? || c.state.Doc? || c.state.Node? || c.state.Map? || c.state.Seq? }

  lemma OuterFresh(inp: Input, a: nat, c: Config)
    requires Inv(inp, c) && Holds(inp, c, a) && Outer(c)
    ensures Fresh(inp, a, c)
  {
    hide Gathered, Clear, FramesOk;
    Unheld(inp, c, a);
  }

  lemma NodeMoves(inp: Input, a: nat, c: Config)
    requires Inv(inp, c) && c.state.Node? && Fresh(inp, a, c) && Pending(c) == []
    ensures Moves(inp, a, StepOf(inp, c))
  {
    hide Explains, Moves, Clear, FramesOk, StepBlockNode, StepNodeLeaf, StepNodeSeq, StepNodeExplicitKey, StepNodeBareValue, StepNodeEmpty;
    Stopped(inp, a);
    match c.state.node
    case StBlockNode => BlockNodeMoves(inp, a, c);
    case StNodeScalar => LeafMoves(inp, a, c, ScalarOf(inp.toks[c.pos]), Node(StNodeScalarKey));
    case StNodeAlias => LeafMoves(inp, a, c, AliasOf(inp.toks[c.pos]), Node(StNodeAliasKey));
    case StNodeSeq => NodeSeqMoves(inp, a, c);
    case StNodeExplicitKey => NodeSeqMoves(inp, a, c);
    case StNodeBareValue => BareValueMoves(inp, a, c);
    case StNodeEmpty => NodeEmptyMoves(inp, a, c);
    case _ =>
  }

  lemma MapMoves(inp: Input, a: nat, c: Config)
    requires Inv(inp, c) && c.state.Map? && Fresh(inp, a, c)
    ensures Moves(inp, a, StepOf(inp, c))
  {
    hide Explains, Moves, Clear, FramesOk, StepMapLoop, StepMapExplicitKey, StepMapSimpleKey, StepMapPostKey, StepMapValue, StepBlockEnd;
    match c.state.inMap
    case StMapLoop => BlockMapMoves(inp, a, c);
    case StMapExplicitKey => BlockQuestionMoves(inp, a, c);
    case StMapSimpleKey => SimpleKeyMoves(inp, a, c);
    case StMapPostKey => BlockMapMoves(inp, a, c);
    case StMapValue => BlockColonMoves(inp, a, c);
    case StMapEnd => BlockEndMoves(inp, a, c, MappingEnd);
    case StMapValueNode =>
  }

  lemma SeqMoves(inp: Input, a: nat, c: Config)
    requires Inv(inp, c) && c.state.Seq? && Fresh(inp, a, c)
    ensures Moves(inp, a, StepOf(inp, c))
  {
    hide Explains, Moves, Clear, FramesOk, StepSeqLoop, StepSeqEntry, StepBlockEnd;
    match c.state.inSeq
    case StSeqLoop => BlockSeqMoves(inp, a, c);
    case StSeqEntry => BlockSeqMoves(inp, a, c);
    case StSeqEnd => BlockEndMoves(inp, a, c, SequenceEnd);
    case StSeqEntryNode =>
  }

  lemma FMapMoves(inp: Input, a: nat, c: Config)
    requires Inv(inp, c) && c.state.FMap? && Holds(inp, c, a)
    ensures Moves(inp, a, StepOf(inp, c))
  {
    hide Explains, Moves, Holds, FramesOk, StepFMapLoop, StepFMapValue, StepFMapSep, StepFlowEnd;
    match c.state.inFMap
    case StFMapLoop => MapLoopMoves(inp, a, c);
    case StFMapValue => MapColonMoves(inp, a, c);
    case StFMapSep => MapSepMoves(inp, a, c);
    case StFMapEnd => FlowEndMoves(inp, a, c, MappingEnd);
  }

  lemma FSeqMoves(inp: Input, a: nat, c: Config)
    requires Inv(inp, c) && c.state.FSeq? && Holds(inp, c, a) && Pending(c) == []
    ensures Moves(inp, a, StepOf(inp, c))
  {
    hide Explains, Moves, Holds, FramesOk, StepFSeqLoop, FSeqEntry, StepFSeqPairEnd, StepFSeqExplicitKey, StepFSeqExplicitValue,
         StepFSeqSep, StepFlowEnd;
    match c.state.inFSeq
    case StFSeqLoop => SeqLoopMoves(inp, a, c);
    case StFSeqImplicitEnd => PairEndMoves(inp, a, c);
    case StFSeqExplicitKey => SeqQuestionMoves(inp, a, c);
    case StFSeqExplicitValue => SeqColonMoves(inp, a, c);
    case StFSeqExplicitEnd => PairEndMoves(inp, a, c);
    case StFSeqSep => SeqSepMoves(inp, a, c);
    case StFSeqEnd => FlowEndMoves(inp, a, c, SequenceEnd);
    case _ =>
  }

  /** Nothing happens any more. */
  lemma Idle(inp: Input, a: nat, c: Config)
    requires Holds(inp, c, a) && a <= |inp.toks| && Pending(c) == []
    ensures Moves(inp, a, Next(c, []))
  {
    hide Explains, Moves, Holds, Pending;
    ExplainsNothing(inp.toks, a);
    Onward(inp, a, a, c, [], []);
  }

  /** Every step accounts for the tokens it consumes. */
  lemma StepMoves(inp: Input, a: nat, c: Config)
    requires Inv(inp, c) && Holds(inp, c, a) && a <= |inp.toks| && Pending(c) == [] && Scanned(inp)
    requires c.state == Stream(StStreamStart) ==> c.pos == 0
    ensures Moves(inp, a, StepOf(inp, c))
  {
    hide Explains, Moves, Holds, Inv, Scanned;
    if Outer(c) { OuterFresh(inp, a, c); }
    match c.state
    case Stream(s) => if s == StDone { Idle(inp, a, c); } else { StreamMoves(inp, a, c); }
    case Doc(_) => DocMoves(inp, a, c);
    case Node(_) => NodeMoves(inp, a, c);
    case Map(_) => MapMoves(inp, a, c);
    case Seq(_) => SeqMoves(inp, a, c);
    case FMap(_) => FMapMoves(inp, a, c);
    case FSeq(_) => FSeqMoves(inp, a, c);
    case StFlowNode => FlowNodeMoves(inp, a, c);
    case StEagerDrain => Idle(inp, a, c);
    case StUnroll => NoUnroll(inp, c);
  }

  lemma NoUnroll(inp: Input, c: Config)
    requires Inv(inp, c)
    ensures c.state != StUnroll
  {}

  // ----- whole runs -----

  /** The step, after these events. */
  function Following(evs: seq<Event>, s: Step): Step {
    if s.Failed? then Failed(evs + s.out) else Next(s.c, evs + s.out)
  }

  lemma MovesOn(inp: Input, a: nat, b: nat, evs: seq<Event>, src: seq<Origin>, s: Step)
    requires Explains(inp.toks, a, b, evs, src) && Moves(inp, b, s)
    ensures Moves(inp, a, Following(evs, s))
  {
    hide Explains, Holds, Pending;
    if s.Failed? {
      var e, more :| Explains(inp.toks, b, e, s.out, more);
      ExplainsConcat(inp.toks, a, b, e, evs, src, s.out, more);
    } else {
      var e, more :| Explains(inp.toks, b, e, s.out + Pending(s.c), more) && Holds(inp, s.c, e);
      ExplainsConcat(inp.toks, a, b, e, evs, src, s.out + Pending(s.c), more);
      assert evs + (s.out + Pending(s.c)) == evs + s.out + Pending(s.c);
    }
  }

  /** The start of a mapping before the last event, its first key. */
  lemma KeyLast(toks: seq<Token>, b: nat, evs: seq<Event>, key: Event, src: seq<Origin>, open: Event)
    requires Explains(toks, 0, b, evs + [key], src) && Looks(toks, KeyStart, open) && Unpropped(open) && open.start == key.start
    ensures |src| == |evs| + 1 && Explains(toks, 0, b, evs + [open, key], src[..|evs|] + [KeyStart, src[|evs|]])
  {
    hide Looks, ContentIn, AnchorsIn, TagsIn, Born, AnchorsOf, TagsOf, Placed, Unpropped;
    LastDescribed(toks, evs, key, src, open);
    var front, last := src[..|evs|], src[|evs|];
    assert src == front + [last] && front + [KeyStart, last] == front + ([KeyStart] + [last]) && evs + [open, key] == evs + ([open] + [key]);
    BornConcat(front, [last]);
    BornConcat(front, [KeyStart] + [last]);
    BornConcat([KeyStart], [last]);
    BornSingle(KeyStart);
    NamesConcat(evs, [key]);
    NamesConcat(evs, [open] + [key]);
    NamesConcat([open], [key]);
    Nameless(open);
    LastPlaced(0, b, front, last);
  }

  lemma Nameless(e: Event)
    requires Unpropped(e)
    ensures AnchorsOf([e]) == [] && TagsOf([e]) == []
  {
    AnchorsSingle(e);
  }

  lemma LastPlaced(a: nat, b: nat, front: seq<Origin>, last: Origin)
    requires Placed(a, b, front + [last])
    ensures Placed(a, b, front + [KeyStart, last])
  {
    var src, more := front + [last], front + [KeyStart, last];
    forall i | 0 <= i < |more| ensures Within(a, b, more[i]) {
      if i < |front| { assert more[i] == src[i]; } else if i > |front| { assert more[i] == src[|front|]; }
    }
    forall i, j | 0 <= i < j < |more| ensures NotAfter(more[i], more[j]) {
      if i < |front| && j < |front| {
        assert NotAfter(src[i], src[j]);
      } else if i < |front| && j > |front| {
        assert NotAfter(src[i], src[|front|]);
      }
    }
  }

  lemma LastDescribed(toks: seq<Token>, evs: seq<Event>, key: Event, src: seq<Origin>, open: Event)
    requires Described(toks, evs + [key], src) && Looks(toks, KeyStart, open) && open.start == key.start
    ensures |src| == |evs| + 1 && Described(toks, evs + [open, key], src[..|evs|] + [KeyStart, src[|evs|]])
  {
    hide Looks;
    var was, now, more := evs + [key], evs + [open, key], src[..|evs|] + [KeyStart, src[|evs|]];
    forall i | 0 <= i < |more| ensures Looks(toks, more[i], now[i]) {
      if i < |evs| { assert Looks(toks, src[i], was[i]); } else if i > |evs| { assert Looks(toks, src[|evs|], was[|evs|]); }
    }
    forall i | 0 <= i < |more| && more[i].KeyStart? ensures i + 1 < |now| && now[i].start == now[i + 1].start {
      if i < |evs| { assert src[i].KeyStart? && was[i].start == was[i + 1].start; }
    }
  }

  /** A step with a key saved emits its mapping's start, the key, and goes on. */
  lemma SavedMoves(inp: Input, c: Config, evs: seq<Event>, src: seq<Origin>)
    requires Inv(inp, c) && Pending(c) == [c.saved] && Explains(inp.toks, 0, c.pos, evs + [c.saved], src) && Holds(inp, c, c.pos)
    ensures Moves(inp, 0, Following(evs, StepOf(inp, c)))
  {
    hide Explains, Holds, Moves, FramesOk, ReturnOk, FSeqPairValue, Looks;
    SavedHere(inp, c);
    var flow := c.state == FSeq(StFSeqEntryKey);
    var open := if flow then FlowStart(MappingStart, c.saved.start, c.saved.start) else Simple(MappingStart, c.saved.start, c.saved.start);
    OpenLooks(inp.toks, c.saved.start);
    KeyLast(inp.toks, c.pos, evs, c.saved, src, open);
    var out, more := evs + [open, c.saved], src[..|evs|] + [KeyStart, src[|evs|]];
    if flow {
      ThenSilent(inp.toks, 0, c.pos, out, more);
      PairValueMoves(inp, 0, c.(pos := c.pos + 1), out, more);
      PairValueAfter(inp, c.(pos := c.pos + 1), evs, [open, c.saved]);
    } else {
      Halted(inp, 0, c.pos, out, more);
      GoMoves(inp, 0, c.(frames := c.frames + [Frame(BlockMap, c.savedCol, c.nodeReturn)], state := Map(StMapValue)), out, more);
    }
  }

  lemma SavedHere(inp: Input, c: Config)
    requires Inv(inp, c) && Pending(c) != [] && Holds(inp, c, c.pos)
    ensures c.props == NO_PROPS && Clear(inp.toks, c.pos) && Sees(inp, c, TokMapValue)
  {
    hide FramesOk, Gathered, Clear, ReturnOk;
  }

  lemma OpenLooks(toks: seq<Token>, at: Mark)
    ensures Looks(toks, KeyStart, FlowStart(MappingStart, at, at)) && Looks(toks, KeyStart, Simple(MappingStart, at, at))
  {}

  lemma PairValueAfter(inp: Input, c: Config, evs: seq<Event>, out: seq<Event>)
    ensures Following(evs, FSeqPairValue(inp, c, out)) == FSeqPairValue(inp, c, evs + out)
  {
    if Has(inp, c.pos) {
      assert evs + (out + [EmptyScalar(inp.toks[c.pos].start)]) == evs + out + [EmptyScalar(inp.toks[c.pos].start)];
    }
  }

  /** All events so far are accounted for, with the key that is saved. */
  ghost predicate Accounted(inp: Input, s: Step) {
    Moves(inp, 0, s) && (s.Next? ==> Inv(inp, s.c) && (s.c.state == Stream(StStreamStart) ==> s.c.pos == 0))
  }

  lemma Extends(inp: Input, c: Config, evs: seq<Event>)
    requires Accounted(inp, Next(c, evs)) && Scanned(inp)
    ensures Accounted(inp, Following(evs, StepOf(inp, c)))
  {
    hide StepOf, Explains, Holds, Inv, Scanned, Pending;
    var b, src :| Explains(inp.toks, 0, b, evs + Pending(c), src) && Holds(inp, c, b);
    StepKeepsInv(inp, c);
    StartsOnce(inp, c);
    PendingIs(inp, c, b);
    if Pending(c) == [] {
      assert evs + Pending(c) == evs;
      ExplainedTo(inp.toks, b, evs, src);
      StepMoves(inp, b, c);
      MovesOn(inp, 0, b, evs, src, StepOf(inp, c));
    } else {
      SavedMoves(inp, c, evs, src);
    }
  }

  lemma ExplainedTo(toks: seq<Token>, b: nat, evs: seq<Event>, src: seq<Origin>)
    requires Explains(toks, 0, b, evs, src)
    ensures b <= |toks|
  {}

  lemma PendingIs(inp: Input, c: Config, b: nat)
    requires Inv(inp, c) && Holds(inp, c, b)
    ensures Pending(c) == [] || (Pending(c) == [c.saved] && b == c.pos)
  {
    hide FramesOk, Gathered, Clear, ReturnOk;
    if Pending(c) != [] { Unheld(inp, c, b); }
  }

  lemma {:induction false} NeverBefore(g: Stage, evs: seq<Event>)
    requires Accept(g, evs) == Some(Before)
    ensures g == Before && evs == []
    decreases |evs|
  {
    if evs != [] { NeverBefore(Accept1(g, evs[0]).value, evs[1..]); }
  }

  /** No step leads back to the start of the stream. */
  lemma StartsOnce(inp: Input, c: Config)
    requires Inv(inp, c)
    ensures var s := StepOf(inp, c); s.Next? ==> s.c.state != Stream(StStreamStart)
  {
    hide Inv;
    if c.state == StEagerDrain || c.state == Stream(StStreamStart) {
    } else {
      hide StepOf;
      StepFollows(inp, c);
      var s := StepOf(inp, c);
      if s.Next? && s.c.state == Stream(StStreamStart) { NeverBefore(StageOf(c), s.out); }
    }
  }

  lemma InitialAccounted(inp: Input)
    ensures Accounted(inp, Next(Initial(), []))
  {
    hide Explains;
    InitialInv(inp);
    ExplainsNothing(inp.toks, 0);
    Ready(inp, Initial());
    Onward(inp, 0, 0, Initial(), [], []);
  }

  lemma {:induction false} StepsAccounted(inp: Input, n: nat)
    requires Scanned(inp)
    ensures Accounted(inp, Steps(inp, n))
  {
    hide Accounted, StepOf, Scanned;
    if n == 0 {
      InitialAccounted(inp);
    } else {
      StepsAccounted(inp, n - 1);
      if Steps(inp, n - 1).Next? { Extends(inp, Steps(inp, n - 1).c, Steps(inp, n - 1).out); }
    }
  }

  /** Said of every configuration that the parser reaches: the events emitted so far,
      with a key that is saved, are in order one for each scalar, alias and bracket
      of a flow collection among the tokens read, with that token's value, style and
      extent and with the anchor and tag directly before it; every anchor and tag is
      on one event, in order; and the other events are empty nodes and brackets,
      each at a token between its neighbours'. Only the properties that wait for
      their node are not counted yet. */
  lemma ReachableTokens(inp: Input, n: nat) returns (hi: nat, src: seq<Origin>)
    requires Scanned(inp)
    ensures var s := Steps(inp, n);
            var evs := if s.Next? then s.out + Pending(s.c) else s.out;
            && hi <= |inp.toks| && Described(inp.toks, evs, src) && Placed(0, hi, src) && Born(src) == ContentIn(inp.toks, 0, hi)
            && AnchorsOf(evs) == AnchorsIn(inp.toks, 0, hi) && TagsOf(evs) == TagsIn(inp.toks, 0, hi)
    ensures var s := Steps(inp, n);
            s.Next? && s.c.state != StEagerDrain ==>
              && hi <= s.c.pos <= |inp.toks| && (forall k | hi <= k < s.c.pos :: IsProp(inp.toks[k]))
              && (s.c.props == NO_PROPS ==> hi == s.c.pos)
  {
    hide StepOf, Described, Placed, Scanned, Born, ContentIn, AnchorsOf, AnchorsIn, TagsOf, TagsIn, Inv, Steps, Clear, Pending;
    StepsAccounted(inp, n);
    var s := Steps(inp, n);
    if s.Failed? {
      hi, src :| Explains(inp.toks, 0, hi, s.out, src);
    } else {
      hi, src :| Explains(inp.toks, 0, hi, s.out + Pending(s.c), src) && Holds(inp, s.c, hi);
    }
  }

  lemma {:induction false} RunAccounted(inp: Input, c: Config, evs: seq<Event>)
    requires Accounted(inp, Next(c, evs)) && Scanned(inp) && Inv(inp, c)
    ensures exists hi, src :: Explains(inp.toks, 0, hi, evs + Run(inp, c).evs, src)
    decreases Measure(inp, c)
  {
    hide Accounted, StepOf, Scanned, Inv, Measure, Explains;
    if c.state == Stream(StDone) || c.state == StEagerDrain {
      assert evs + Run(inp, c).evs == evs;
      Unsaved(inp, c, evs);
    } else {
      StepKeepsInv(inp, c);
      StepLowers(inp, c);
      Extends(inp, c, evs);
      var s := StepOf(inp, c);
      if s.Failed? {
        FailedAccounted(inp, evs + s.out);
        assert evs + Run(inp, c).evs == evs + s.out;
      } else {
        RunAccounted(inp, s.c, evs + s.out);
        assert Run(inp, c).evs == s.out + Run(inp, s.c).evs;
        assert evs + s.out + Run(inp, s.c).evs == evs + (s.out + Run(inp, s.c).evs);
      }
    }
  }

  lemma FailedAccounted(inp: Input, evs: seq<Event>)
    requires Accounted(inp, Failed(evs))
    ensures exists hi, src :: Explains(inp.toks, 0, hi, evs, src)
  {
    hide Explains;
  }

  lemma Unsaved(inp: Input, c: Config, evs: seq<Event>)
    requires Accounted(inp, Next(c, evs)) && Pending(c) == []
    ensures exists hi, src :: Explains(inp.toks, 0, hi, evs, src)
  {
    hide Explains, Holds, Inv, Pending;
    assert evs + Pending(c) == evs;
  }

  /** The events of a whole run, however it ends, account for the tokens it read. */
  lemma RunTokens(inp: Input) returns (hi: nat, src: seq<Origin>)
    requires Scanned(inp)
    ensures Inv(inp, Initial())
    ensures var evs := Run(inp, Initial()).evs;
            && hi <= |inp.toks| && Described(inp.toks, evs, src) && Placed(0, hi, src) && Born(src) == ContentIn(inp.toks, 0, hi)
            && AnchorsOf(evs) == AnchorsIn(inp.toks, 0, hi) && TagsOf(evs) == TagsIn(inp.toks, 0, hi)
  {
    hide Run, Described, Placed, Scanned, Born, ContentIn, AnchorsOf, AnchorsIn, TagsOf, TagsIn, Inv, Accounted;
    InitialInv(inp);
    InitialAccounted(inp);
    RunAccounted(inp, Initial(), []);
    var evs := Run(inp, Initial()).evs;
    assert [] + evs == evs;
    hi, src :| Explains(inp.toks, 0, hi, evs, src);
  }

  /** No alias and no closing event of a run carries an anchor or a tag. */
  lemma RunTidy(inp: Input)
    requires Scanned(inp)
    ensures Inv(inp, Initial())
    ensures forall e | e in Run(inp, Initial()).evs && (e.typ == AliasEvent || IsClosing(e.typ)) :: e.anchor == None && e.tag == None
  {
    hide Run, Placed, Scanned, Born, ContentIn, AnchorsOf, AnchorsIn, TagsOf, TagsIn, Inv, Looks;
    var hi, src := RunTokens(inp);
    var evs := Run(inp, Initial()).evs;
    forall e | e in evs && (e.typ == AliasEvent || IsClosing(e.typ)) ensures e.anchor == None && e.tag == None {
      var i :| 0 <= i < |evs| && evs[i] == e;
      assert Looks(inp.toks, src[i], e);
      LooksTidy(inp.toks, src[i], e);
    }
  }

  lemma LooksTidy(toks: seq<Token>, o: Origin, e: Event)
    requires Looks(toks, o, e)
    ensures e.typ == AliasEvent || IsClosing(e.typ) ==> e.anchor == None && e.tag == None
  {
    hide Propped;
  }
}
