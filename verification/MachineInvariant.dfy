/**
 * What every reachable configuration of the incremental parser satisfies, and
 * why the step loop ends: each step keeps Inv and lowers Measure.
 */
module MachineInvariant {
  import opened Events
  import opened FlowGrammar
  import opened Machine

  /** Where a node may return to, given the collection it is in. */
  predicate ReturnOk(frames: seq<Frame>, ret: State) {
    if frames == [] then ret == Doc(StDocEndExplicit)
    else match frames[|frames| - 1].typ
      case BlockMap => ret == Map(StMapLoop) || ret == Map(StMapPostKey)
      case BlockSeq => ret == Seq(StSeqLoop)
      case FlowMapping => ret == FMap(StFMapValue) || ret == FMap(StFMapSep)
      case FlowSequence => ret == FSeq(StFSeqSep) || ret == FSeq(StFSeqImplicitEnd) || ret == FSeq(StFSeqExplicitValue) || ret == FSeq(StFSeqExplicitEnd)
  }

  predicate Flow(t: FrameType) { t == FlowMapping || t == FlowSequence }

  predicate InFlow(frames: seq<Frame>) {
    frames != [] && Flow(frames[|frames| - 1].typ)
  }

  /** Every frame returns into the one below it; flow collections hold no block ones. */
  predicate FramesOk(frames: seq<Frame>)
    decreases |frames|
  {
    frames == [] ||
    var below := frames[..|frames| - 1];
    FramesOk(below) && ReturnOk(below, frames[|frames| - 1].ret) &&
    (InFlow(below) ==> InFlow(frames))
  }

  predicate Top(c: Config, t: FrameType) {
    c.docOpen && c.frames != [] && c.frames[|c.frames| - 1].typ == t
  }

  predicate Sees(inp: Input, c: Config, t: TokenType) {
    Has(inp, c.pos) && inp.toks[c.pos].typ == t
  }

  predicate AtFlowStart(inp: Input, c: Config) {
    Sees(inp, c, TokFlowSeqStart) || Sees(inp, c, TokFlowMapStart)
  }

  /** Properties read ahead in a flow sequence wait for one of these tokens. */
  predicate PropsWait(inp: Input, c: Config) {
    Has(inp, c.pos) && inp.toks[c.pos].typ !in {TokFlowEntry, TokFlowSeqEnd, TokAlias, TokTag, TokAnchor}
  }

  predicate Outside(c: Config) { c.frames == [] && !c.docOpen }

  predicate StreamOk(inp: Input, c: Config, s: StreamState) {
    Outside(c) &&
    match s
    case StStreamEnd => Sees(inp, c, TokStreamEnd)
    case StDocStartExplicit => Sees(inp, c, TokDocStart)
    case StDocStartImplicit =>
      Has(inp, c.pos) && inp.toks[c.pos].typ !in {TokDirective, TokDocStart, TokDocEnd, TokStreamEnd}
    case _ => true
  }

  predicate NodeOk(inp: Input, c: Config, s: NodeState) {
    c.docOpen && ReturnOk(c.frames, c.nodeReturn) && !InFlow(c.frames) &&
    match s
    case StNodeScalar => Sees(inp, c, TokScalar)
    case StNodeScalarKey => Sees(inp, c, TokMapValue) && c.saved.typ == ScalarEvent
    case StNodeAlias => Sees(inp, c, TokAlias)
    case StNodeAliasKey => Sees(inp, c, TokMapValue) && c.saved.typ == AliasEvent
    case StNodeSeq => Sees(inp, c, TokSeqEntry)
    case StNodeExplicitKey => Sees(inp, c, TokMapKey)
    case StNodeBareValue => Sees(inp, c, TokMapValue)
    case _ => true
  }

  predicate MapOk(inp: Input, c: Config, s: MapState) {
    Top(c, BlockMap) &&
    match s
    case StMapExplicitKey => Sees(inp, c, TokMapKey)
    case StMapSimpleKey => Sees(inp, c, TokScalar) || Sees(inp, c, TokAlias)
    case StMapValue => Sees(inp, c, TokMapValue)
    case StMapValueNode => false
    case _ => true
  }

  predicate SeqOk(inp: Input, c: Config, s: SeqState) {
    Top(c, BlockSeq) && s != StSeqEntryNode && (s == StSeqEntry ==> Sees(inp, c, TokSeqEntry))
  }

  predicate FSeqOk(inp: Input, c: Config, s: FlowSeqState) {
    Top(c, FlowSequence) &&
    match s
    case StFSeqEntryKey => Sees(inp, c, TokMapValue) && (c.saved.typ == ScalarEvent || c.saved.typ == AliasEvent)
    case StFSeqExplicitKey => Sees(inp, c, TokMapKey)
    case StFSeqEnd => Sees(inp, c, TokFlowSeqEnd)
    case StFSeqEntry => false
    case StFSeqCheckColon => false
    case _ => true
  }

  /** What each state says about the frames, the token and the registers. The
      states that no assignment in the code leads to are excluded. */
  predicate StateOk(inp: Input, c: Config) {
    match c.state
    case Stream(s) => StreamOk(inp, c, s)
    case Doc(_) => c.frames == [] && c.docOpen
    case Node(s) => NodeOk(inp, c, s)
    case Map(s) => MapOk(inp, c, s)
    case Seq(s) => SeqOk(inp, c, s)
    case StFlowNode => c.docOpen && ReturnOk(c.frames, c.nodeReturn) && (InFlow(c.frames) || AtFlowStart(inp, c))
    case FMap(s) => Top(c, FlowMapping) && (s == StFMapEnd ==> Sees(inp, c, TokFlowMapEnd))
    case FSeq(s) => FSeqOk(inp, c, s)
    case StUnroll => false
    case StEagerDrain => true
  }

  predicate PropsOkay(inp: Input, c: Config) {
    c.props == NO_PROPS || c.state == StEagerDrain ||
    (c.state == FSeq(StFSeqLoop) && c.props.Any() && PropsWait(inp, c)) ||
    (c.state == StFlowNode && c.props.Any() && AtFlowStart(inp, c))
  }

  predicate Inv(inp: Input, c: Config) {
    c.pos <= |inp.toks| && FramesOk(c.frames) && StateOk(inp, c) && PropsOkay(inp, c)
  }

  lemma InitialInv(inp: Input)
    ensures Inv(inp, Initial())
  {}

  /** Frames below the top of a valid stack. */
  lemma PopFrames(frames: seq<Frame>)
    requires FramesOk(frames) && frames != []
    ensures FramesOk(frames[..|frames| - 1]) && ReturnOk(frames[..|frames| - 1], frames[|frames| - 1].ret)
    ensures InFlow(frames[..|frames| - 1]) ==> InFlow(frames)
  {}

  lemma PushFrames(frames: seq<Frame>, f: Frame)
    requires FramesOk(frames) && ReturnOk(frames, f.ret) && (InFlow(frames) ==> Flow(f.typ))
    ensures FramesOk(frames + [f])
  {
    assert (frames + [f])[..|frames|] == frames;
  }

  lemma ConsumePropsStops(toks: seq<Token>, pos: nat, p: Props)
    requires pos <= |toks|
    ensures var r := ConsumeProps(toks, pos, p);
      r.PropsOk? ==>
        && (r.pos > pos ==> r.props.Any())
        && (r.pos == pos ==> r.props == p)
        && (p.Any() ==> r.props.Any())
        && !(toks[r.pos].typ == TokAlias && r.props.Any())
        && (pos < |toks| && (toks[pos].typ == TokTag || toks[pos].typ == TokAnchor) && p == NO_PROPS ==> r.pos > pos)
    decreases |toks| - pos
  {
  }

  predicate Keeps(inp: Input, s: Step) { s.Next? ==> Inv(inp, s.c) }

  lemma PushFrameKeeps(inp: Input, c: Config, typ: FrameType, indent: int, s: State, line: nat, out: seq<Event>)
    requires FramesOk(c.frames) && ReturnOk(c.frames, c.nodeReturn) && (InFlow(c.frames) ==> Flow(typ)) && c.docOpen
    ensures var r := PushFrame(c, typ, indent, s, line, out);
      r.Next? ==> FramesOk(r.c.frames) && Top(r.c, typ) && r.c == c.(frames := r.c.frames, state := s)
  {
    PushFrames(c.frames, Frame(typ, indent, c.nodeReturn));
  }

  lemma ResumeInv(inp: Input, d: Config)
    requires d.pos <= |inp.toks| && d.props == NO_PROPS && d.docOpen && FramesOk(d.frames) && ReturnOk(d.frames, d.state)
    ensures Inv(inp, d)
  {}

  /** Just inside a flow collection. */
  lemma EnteredInv(inp: Input, d: Config)
    requires d.pos <= |inp.toks| && d.props == NO_PROPS && FramesOk(d.frames)
    requires (d.state == FSeq(StFSeqLoop) && Top(d, FlowSequence)) || (d.state == FMap(StFMapLoop) && Top(d, FlowMapping))
    ensures Inv(inp, d)
  {
    hide FramesOk;
  }

  lemma FlowNodeAtKeeps(inp: Input, c: Config)
    requires c.pos < |inp.toks| && FramesOk(c.frames) && c.docOpen && ReturnOk(c.frames, c.nodeReturn)
    requires InFlow(c.frames) || AtFlowStart(inp, c)
    ensures Keeps(inp, FlowNodeAt(inp, c))
  {
    hide FramesOk, ReturnOk, Inv, PushFrame, Attach;
    var t := inp.toks[c.pos];
    var d := c.(props := NO_PROPS, pos := c.pos + 1);
    if t.typ == TokFlowSeqStart {
      FlowStartKeeps(inp, d, FlowSequence, t, [Attach(FlowStart(SequenceStart, t.start, t.end), c.props)]);
    } else if t.typ == TokFlowMapStart {
      FlowStartKeeps(inp, d, FlowMapping, t, [Attach(FlowStart(MappingStart, t.start, t.end), c.props)]);
    } else {
      var e := if t.typ == TokScalar || t.typ == TokAlias then d else c.(props := NO_PROPS);
      ResumeInv(inp, e.(state := c.nodeReturn));
    }
  }

  /** A flow collection opens. */
  lemma FlowStartKeeps(inp: Input, d: Config, typ: FrameType, t: Token, out: seq<Event>)
    requires d.pos <= |inp.toks| && FramesOk(d.frames) && d.docOpen && ReturnOk(d.frames, d.nodeReturn) && d.props == NO_PROPS && Flow(typ)
    ensures Keeps(inp, PushFrame(d, typ, t.Col(), if typ == FlowSequence then FSeq(StFSeqLoop) else FMap(StFMapLoop), t.start.line, out))
  {
    hide FramesOk, ReturnOk, PushFrame;
    var s := if typ == FlowSequence then FSeq(StFSeqLoop) else FMap(StFMapLoop);
    PushFrameKeeps(inp, d, typ, t.Col(), s, t.start.line, out);
    var r := PushFrame(d, typ, t.Col(), s, t.start.line, out);
    if r.Next? { EnteredInv(inp, r.c); }
  }

  lemma FlowNodeKeeps(inp: Input, c: Config)
    requires Inv(inp, c) && c.state == StFlowNode
    ensures Keeps(inp, StepFlowNode(inp, c))
  {
    if Sees(inp, c, TokTag) || Sees(inp, c, TokAnchor) {
      var r := ConsumeProps(inp.toks, c.pos, c.props);
      if r.PropsOk? { FlowNodeAtKeeps(inp, c.(props := r.props, pos := r.pos)); }
    } else if Has(inp, c.pos) {
      FlowNodeAtKeeps(inp, c);
    }
  }

  lemma FlowSepKeeps(inp: Input, c: Config, inSeq: bool, out: seq<Event>)
    requires c.pos <= |inp.toks| && FramesOk(c.frames) && c.props == NO_PROPS
    requires Top(c, if inSeq then FlowSequence else FlowMapping)
    ensures Keeps(inp, FlowSep(inp, c, inSeq, out))
  {}

  lemma FlowMapValueKeeps(inp: Input, c: Config, out: seq<Event>)
    requires c.pos <= |inp.toks| && FramesOk(c.frames) && c.props == NO_PROPS && Top(c, FlowMapping)
    ensures Keeps(inp, FlowMapValue(inp, c, out))
  {
    if Sees(inp, c, TokScalar) {
      FlowSepKeeps(inp, c.(pos := c.pos + 1, props := NO_PROPS), false, out + [Attach(ScalarOf(inp.toks[c.pos]), c.props)]);
    }
  }

  lemma FlowMapLoopKeeps(inp: Input, c: Config)
    requires Inv(inp, c) && c.state == FMap(StFMapLoop)
    ensures Keeps(inp, StepFMapLoop(inp, c))
  {
    hide FramesOk;
    if Sees(inp, c, TokScalar) && Has(inp, c.pos + 1) && inp.toks[c.pos + 1].typ == TokMapValue {
      FlowMapValueKeeps(inp, c.(pos := c.pos + 2, state := FMap(StFMapValue)), [Attach(ScalarOf(inp.toks[c.pos]), c.props)]);
    }
  }

  lemma FlowMapKeeps(inp: Input, c: Config, s: FlowMapState)
    requires Inv(inp, c) && c.state == FMap(s) && (s == StFMapValue || s == StFMapSep)
    ensures Keeps(inp, StepFlow(inp, c))
  {
    hide FramesOk;
    if s == StFMapValue && Has(inp, c.pos) { FlowMapValueKeeps(inp, c.(pos := c.pos + 1), []); }
  }

  lemma FlowEndKeeps(inp: Input, c: Config, typ: EventType)
    requires Inv(inp, c) && (c.state == FMap(StFMapEnd) || c.state == FSeq(StFSeqEnd))
    ensures Keeps(inp, StepFlowEnd(inp, c, typ))
  {
    hide FramesOk, FlowSep;
    PopFrames(c.frames);
    if Has(inp, c.pos) {
      var n := |c.frames| - 1;
      var d := c.(pos := c.pos + 1, frames := c.frames[..n], state := c.frames[n].ret);
      var out := [Simple(typ, inp.toks[c.pos].start, inp.toks[c.pos].end)];
      if d.state == FSeq(StFSeqSep) {
        FlowSepKeeps(inp, d, true, out);
      } else if d.state == FMap(StFMapSep) {
        FlowSepKeeps(inp, d, false, out);
      } else {
        ResumeInv(inp, d);
      }
    }
  }

  lemma FSeqPairValueKeeps(inp: Input, c: Config, out: seq<Event>)
    requires c.pos <= |inp.toks| && FramesOk(c.frames) && c.props == NO_PROPS && Top(c, FlowSequence)
    ensures Keeps(inp, FSeqPairValue(inp, c, out))
  {}

  lemma FSeqEntryKeeps(inp: Input, c: Config, e: Event)
    requires c.pos < |inp.toks| && FramesOk(c.frames) && Top(c, FlowSequence) && (e.typ == ScalarEvent || e.typ == AliasEvent)
    ensures Keeps(inp, FSeqEntry(inp, c, e))
  {
    var d := c.(props := NO_PROPS, pos := c.pos + 1);
    if Has(inp, d.pos) && inp.toks[d.pos].typ != TokMapValue {
      FlowSepKeeps(inp, d, true, [Attach(e, c.props)]);
      assert FSeqEntry(inp, c, e) == FlowSep(inp, d, true, [Attach(e, c.props)]);
    }
  }

  lemma FSeqPropsKeeps(inp: Input, c: Config)
    requires Inv(inp, c) && c.state == FSeq(StFSeqLoop) && (Sees(inp, c, TokTag) || Sees(inp, c, TokAnchor))
    ensures Keeps(inp, FSeqProps(inp, c))
  {
    ConsumePropsStops(inp.toks, c.pos, c.props);
    var r := ConsumeProps(inp.toks, c.pos, c.props);
    if r.PropsOk? {
      FlowSepKeeps(inp, c.(props := NO_PROPS, pos := r.pos), true, [Attach(EmptyScalar(inp.toks[r.pos].start), r.props)]);
    }
  }

  lemma FlowSeqLoopKeeps(inp: Input, c: Config)
    requires Inv(inp, c) && c.state == FSeq(StFSeqLoop)
    ensures Keeps(inp, StepFSeqLoop(inp, c))
  {
    if Has(inp, c.pos) {
      var t := inp.toks[c.pos];
      match t.typ
      case TokScalar => FSeqEntryKeeps(inp, c, ScalarOf(t));
      case TokAlias => FSeqEntryKeeps(inp, c, AliasOf(t));
      case TokTag | TokAnchor => FSeqPropsKeeps(inp, c);
      case TokMapValue =>
        var key := Attach(EmptyScalar(t.start), c.props);
        FSeqPairValueKeeps(inp, c.(props := NO_PROPS, pos := c.pos + 1), [FlowStart(MappingStart, key.start, key.start), key]);
      case _ =>
    }
  }

  lemma FlowSeqKeeps(inp: Input, c: Config, s: FlowSeqState)
    requires Inv(inp, c) && c.state == FSeq(s) && s != StFSeqLoop && s != StFSeqEnd
    ensures Keeps(inp, StepFlow(inp, c))
  {
    hide FramesOk, FSeqPairValue;
    if s == StFSeqEntryKey {
      FSeqPairValueKeeps(inp, c.(pos := c.pos + 1), [FlowStart(MappingStart, c.saved.start, c.saved.start), c.saved]);
    }
  }

  lemma StreamKeeps(inp: Input, c: Config, s: StreamState)
    requires Inv(inp, c) && c.state == Stream(s)
    ensures Keeps(inp, StepOf(inp, c))
  {}

  lemma DocKeeps(inp: Input, c: Config, s: DocState)
    requires Inv(inp, c) && c.state == Doc(s)
    ensures Keeps(inp, StepOf(inp, c))
  {}

  lemma BlockDispatchKeeps(inp: Input, c: Config)
    requires Inv(inp, c) && c.state == Node(StBlockNode)
    ensures Keeps(inp, StepBlockNode(inp, c))
  {
    hide FramesOk;
  }

  lemma BlockNodeKeeps(inp: Input, c: Config)
    requires Inv(inp, c) && (c.state == Node(StNodeScalar) || c.state == Node(StNodeAlias) || c.state == Node(StNodeEmpty))
    ensures Keeps(inp, StepOf(inp, c))
  {
    hide FramesOk;
  }

  lemma BlockKeyKeeps(inp: Input, c: Config)
    requires Inv(inp, c) && (c.state == Node(StNodeScalarKey) || c.state == Node(StNodeAliasKey))
    ensures Keeps(inp, StepNodeKey(inp, c))
  {
    PushFrameKeeps(inp, c, BlockMap, c.savedCol, Map(StMapValue), inp.toks[c.pos].start.line,
                   [Simple(MappingStart, c.saved.start, c.saved.start), c.saved]);
  }

  lemma BlockStartKeeps(inp: Input, c: Config)
    requires Inv(inp, c) && c.pos < |inp.toks|
    requires c.state == Node(StNodeSeq) || c.state == Node(StNodeExplicitKey) || c.state == Node(StNodeBareValue)
    ensures c.state == Node(StNodeSeq) ==> Keeps(inp, StepNodeSeq(inp, c))
    ensures c.state == Node(StNodeExplicitKey) ==> Keeps(inp, StepNodeExplicitKey(inp, c))
    ensures c.state == Node(StNodeBareValue) ==> Keeps(inp, StepNodeBareValue(inp, c))
  {
    var t := inp.toks[c.pos];
    if c.state == Node(StNodeSeq) {
      PushFrameKeeps(inp, c, BlockSeq, t.Col(), Seq(StSeqLoop), t.start.line, [Simple(SequenceStart, t.start, t.end)]);
    } else if c.state == Node(StNodeExplicitKey) {
      PushFrameKeeps(inp, c, BlockMap, t.Col(), Map(StMapLoop), t.start.line, [Simple(MappingStart, t.start, t.end)]);
    } else {
      PushFrameKeeps(inp, c, BlockMap, t.Col(), Map(StMapValue), t.start.line,
                     [Simple(MappingStart, t.start, t.end), EmptyScalar(t.start)]);
    }
  }

  lemma MapLoopKeeps(inp: Input, c: Config)
    requires Inv(inp, c) && c.state == Map(StMapLoop)
    ensures Keeps(inp, StepMapLoop(inp, c))
  {
    hide FramesOk;
  }

  lemma MapExplicitKeyKeeps(inp: Input, c: Config)
    requires Inv(inp, c) && c.state == Map(StMapExplicitKey)
    ensures Keeps(inp, StepMapExplicitKey(inp, c))
  {
    hide FramesOk;
  }

  lemma MapSimpleKeyKeeps(inp: Input, c: Config)
    requires Inv(inp, c) && c.state == Map(StMapSimpleKey)
    ensures Keeps(inp, StepMapSimpleKey(inp, c))
  {
    hide FramesOk;
  }

  lemma MapPostKeyKeeps(inp: Input, c: Config)
    requires Inv(inp, c) && c.state == Map(StMapPostKey)
    ensures Keeps(inp, StepMapPostKey(inp, c))
  {
    hide FramesOk;
  }

  lemma MapValueKeeps(inp: Input, c: Config)
    requires Inv(inp, c) && c.state == Map(StMapValue)
    ensures Keeps(inp, StepMapValue(inp, c))
  {
    hide FramesOk;
  }

  lemma BlockMapKeeps(inp: Input, c: Config, s: MapState)
    requires Inv(inp, c) && c.state == Map(s) && s != StMapEnd
    ensures Keeps(inp, StepOf(inp, c))
  {
    hide FramesOk, StepMapLoop, StepMapExplicitKey, StepMapSimpleKey, StepMapPostKey, StepMapValue;
    match s {
      case StMapLoop => MapLoopKeeps(inp, c);
      case StMapExplicitKey => MapExplicitKeyKeeps(inp, c);
      case StMapSimpleKey => MapSimpleKeyKeeps(inp, c);
      case StMapPostKey => MapPostKeyKeeps(inp, c);
      case StMapValue => MapValueKeeps(inp, c);
    }
  }

  lemma BlockSeqKeeps(inp: Input, c: Config, s: SeqState)
    requires Inv(inp, c) && c.state == Seq(s) && s != StSeqEnd
    ensures Keeps(inp, StepOf(inp, c))
  {}

  lemma BlockEndKeeps(inp: Input, c: Config, typ: EventType)
    requires Inv(inp, c) && (c.state == Map(StMapEnd) || c.state == Seq(StSeqEnd))
    ensures Keeps(inp, StepBlockEnd(inp, c, typ))
  {
    PopFrames(c.frames);
  }

  /** Every step keeps the invariant. */
  lemma StepKeepsInv(inp: Input, c: Config)
    requires Inv(inp, c)
    ensures Keeps(inp, StepOf(inp, c))
  {
    match c.state
    case StFlowNode => FlowNodeKeeps(inp, c);
    case FMap(s) =>
      if s == StFMapEnd { FlowEndKeeps(inp, c, MappingEnd); }
      else if s == StFMapLoop { FlowMapLoopKeeps(inp, c); }
      else { FlowMapKeeps(inp, c, s); }
    case FSeq(s) =>
      if s == StFSeqEnd { FlowEndKeeps(inp, c, SequenceEnd); }
      else if s == StFSeqLoop { FlowSeqLoopKeeps(inp, c); }
      else { FlowSeqKeeps(inp, c, s); }
    case Node(s) =>
      if s == StBlockNode { BlockDispatchKeeps(inp, c); }
      else if s in {StNodeScalar, StNodeAlias, StNodeEmpty} { BlockNodeKeeps(inp, c); }
      else if s in {StNodeScalarKey, StNodeAliasKey} { BlockKeyKeeps(inp, c); }
      else { BlockStartKeeps(inp, c); }
    case Map(s) =>
      if s == StMapEnd { BlockEndKeeps(inp, c, MappingEnd); } else { BlockMapKeeps(inp, c, s); }
    case Seq(s) =>
      if s == StSeqEnd { BlockEndKeeps(inp, c, SequenceEnd); } else { BlockSeqKeeps(inp, c, s); }
    case Stream(s) => StreamKeeps(inp, c, s);
    case Doc(s) => DocKeeps(inp, c, s);
    case StEagerDrain =>
  }
}
