/**
 * The step loop ends: away from its final states every step lowers Measure. A
 * consumed token pays for a pushed frame and any rank; a frame pushed or an
 * empty node emitted without consuming is paid for by the rank it leaves.
 */
module MachineTermination {
  import opened Events
  import opened FlowGrammar
  import opened Machine
  import opened MachineInvariant

  /** Tokens that a document's content cannot start with. */
  predicate Marker(t: TokenType) {
    t == TokDirective || t == TokDocStart || t == TokDocEnd || t == TokStreamEnd
  }

  predicate SeesMarker(inp: Input, c: Config) {
    Has(inp, c.pos) && Marker(inp.toks[c.pos].typ)
  }

  function StreamRank(s: StreamState, marker: bool): nat {
    match s
    case StDone => 0
    case StStreamEnd => 1
    case StDocStartExplicit => 1
    case StDocStartImplicit => 53
    case StDocDirectives => if marker then 2 else 54
    case StDocLoop => if marker then 3 else 55
    case StStreamStart => 60
  }

  function MapRank(s: MapState): nat {
    match s
    case StMapLoop => 6
    case StMapPostKey => 7
    case StMapEnd => 4
    case _ => 1
  }

  function SeqRank(s: SeqState): nat {
    match s
    case StSeqLoop => 5
    case StSeqEnd => 4
    case _ => 1
  }

  function FMapRank(s: FlowMapState, closing: bool): nat {
    match s
    case StFMapLoop => if closing then 3 else 46
    case StFMapValue => 10
    case StFMapSep => 8
    case StFMapEnd => 1
  }

  function FSeqRank(s: FlowSeqState, closing: bool): nat {
    match s
    case StFSeqLoop => if closing then 3 else 46
    case StFSeqImplicitEnd => 9
    case StFSeqExplicitValue => 10
    case StFSeqExplicitEnd => 9
    case StFSeqSep => 8
    case _ => 1
  }

  function Rank(inp: Input, c: Config): (r: nat)
    ensures r <= 60
  {
    match c.state
    case Stream(s) => StreamRank(s, SeesMarker(inp, c))
    case Doc(s) => if s == StDocContent then 52 else 4
    case Node(s) => if s == StBlockNode then 50 else 40
    case Map(s) => MapRank(s)
    case Seq(s) => SeqRank(s)
    case StFlowNode => 45
    case FMap(s) => FMapRank(s, Sees(inp, c, TokFlowMapEnd))
    case FSeq(s) => FSeqRank(s, Sees(inp, c, TokFlowSeqEnd))
    case StUnroll => 0
    case StEagerDrain => 0
  }

  function Measure(inp: Input, c: Config): nat
    requires c.pos <= |inp.toks|
  {
    100 * (|inp.toks| - c.pos) + 20 * |c.frames| + Rank(inp, c)
  }

  predicate Final(c: Config) {
    c.state == StEagerDrain || c.state == Stream(StDone)
  }

  predicate Lowers(inp: Input, c: Config, s: Step)
    requires c.pos <= |inp.toks|
  {
    s.Next? ==> s.c.pos <= |inp.toks| && Measure(inp, s.c) < Measure(inp, c)
  }

  lemma Ranked(inp: Input, c: Config, d: Config)
    requires c.pos == d.pos <= |inp.toks| && 20 * |d.frames| + Rank(inp, d) < 20 * |c.frames| + Rank(inp, c)
    ensures Measure(inp, d) < Measure(inp, c)
  {}

  lemma FlowNodeLowers(inp: Input, c: Config)
    requires Inv(inp, c) && c.state == StFlowNode
    ensures Lowers(inp, c, StepFlowNode(inp, c))
  {
    hide FramesOk, ConsumeProps, FlowNodeAt, AtFlowStart;
    if Has(inp, c.pos) {
      FlowNodeAtLowers(inp, c, c);
      var r := ConsumeProps(inp.toks, c.pos, c.props);
      if r.PropsOk? { FlowNodeAtLowers(inp, c, c.(props := r.props, pos := r.pos)); }
    }
  }

  /** Once the properties of `c` are read, in `d`. */
  lemma FlowNodeAtLowers(inp: Input, c: Config, d: Config)
    requires c.state == d.state == StFlowNode && c.pos <= d.pos < |inp.toks| && c.frames == d.frames
    requires ReturnOk(d.frames, d.nodeReturn)
    ensures Lowers(inp, c, FlowNodeAt(inp, d))
  {
    hide Attach, PushFrame, ReturnOk;
    var e := d.(props := NO_PROPS, pos := d.pos + 1);
    var t := inp.toks[d.pos];
    if t.typ == TokFlowSeqStart {
      PushLowers(inp, c, e, FlowSequence, t, FSeq(StFSeqLoop), [Attach(FlowStart(SequenceStart, t.start, t.end), d.props)]);
    } else if t.typ == TokFlowMapStart {
      PushLowers(inp, c, e, FlowMapping, t, FMap(StFMapLoop), [Attach(FlowStart(MappingStart, t.start, t.end), d.props)]);
    } else {
      ReturnRank(inp, d.(props := NO_PROPS, state := d.nodeReturn));
    }
  }

  /** What a node returns to ranks lower than a pending flow node. */
  lemma ReturnRank(inp: Input, c: Config)
    requires ReturnOk(c.frames, c.state)
    ensures Rank(inp, c) < 45
  {}

  /** A token pays for a frame. */
  lemma PushLowers(inp: Input, c: Config, d: Config, typ: FrameType, t: Token, s: State, out: seq<Event>)
    requires c.pos < d.pos <= |inp.toks| && d.frames == c.frames
    ensures Lowers(inp, c, PushFrame(d, typ, t.Col(), s, t.start.line, out))
  {}

  lemma FlowMapLoopLowers(inp: Input, c: Config)
    requires Inv(inp, c) && c.state == FMap(StFMapLoop)
    ensures Lowers(inp, c, StepFMapLoop(inp, c))
  {
    hide FramesOk, ConsumeProps;
  }

  lemma FlowMapLowers(inp: Input, c: Config, s: FlowMapState)
    requires Inv(inp, c) && c.state == FMap(s)
    ensures Lowers(inp, c, StepFlow(inp, c))
  {
    hide FramesOk, ConsumeProps, StepFMapLoop;
    match s {
      case StFMapLoop => FlowMapLoopLowers(inp, c);
      case StFMapValue => assert Lowers(inp, c, StepFMapValue(inp, c));
      case StFMapSep => assert Lowers(inp, c, StepFMapSep(inp, c));
      case StFMapEnd => assert Lowers(inp, c, StepFlowEnd(inp, c, MappingEnd));
    }
  }

  lemma FlowSeqEntryLowers(inp: Input, c: Config, e: Event)
    requires Inv(inp, c) && c.state == FSeq(StFSeqLoop) && Has(inp, c.pos)
    ensures Lowers(inp, c, FSeqEntry(inp, c, e))
  {
    hide FramesOk, ReturnOk, Attach;
  }

  lemma FlowSeqLoopLowers(inp: Input, c: Config)
    requires Inv(inp, c) && c.state == FSeq(StFSeqLoop)
    ensures Lowers(inp, c, StepFSeqLoop(inp, c))
  {
    hide FramesOk, ConsumeProps, FSeqProps, FSeqEntry, ReturnOk, Attach;
    if Sees(inp, c, TokScalar) { FlowSeqEntryLowers(inp, c, ScalarOf(inp.toks[c.pos])); }
    if Sees(inp, c, TokAlias) { FlowSeqEntryLowers(inp, c, AliasOf(inp.toks[c.pos])); }
    if Sees(inp, c, TokTag) || Sees(inp, c, TokAnchor) { FlowSeqPropsLowers(inp, c); }
  }

  lemma FlowSeqPropsLowers(inp: Input, c: Config)
    requires Inv(inp, c) && c.state == FSeq(StFSeqLoop) && (Sees(inp, c, TokTag) || Sees(inp, c, TokAnchor))
    ensures Lowers(inp, c, FSeqProps(inp, c))
  {
    hide FramesOk, ConsumeProps;
    ConsumePropsStops(inp.toks, c.pos, c.props);
  }

  lemma FlowSeqLowers(inp: Input, c: Config, s: FlowSeqState)
    requires Inv(inp, c) && c.state == FSeq(s) && s != StFSeqLoop
    ensures Lowers(inp, c, StepFlow(inp, c))
  {
    hide FramesOk, ConsumeProps;
  }

  lemma StreamLowers(inp: Input, c: Config, s: StreamState)
    requires Inv(inp, c) && c.state == Stream(s) && s != StDone
    ensures Lowers(inp, c, StepOf(inp, c))
  {}

  lemma DocLowers(inp: Input, c: Config, s: DocState)
    requires Inv(inp, c) && c.state == Doc(s)
    ensures Lowers(inp, c, StepOf(inp, c))
  {}

  lemma BlockNodeLowers(inp: Input, c: Config)
    requires Inv(inp, c) && c.state == Node(StBlockNode)
    ensures Lowers(inp, c, StepBlockNode(inp, c))
  {
    hide FramesOk, ReturnOk;
  }

  lemma NodePushLowers(inp: Input, c: Config, s: NodeState)
    requires Inv(inp, c) && c.state == Node(s) && s != StBlockNode
    ensures Lowers(inp, c, StepNodeKey(inp, c)) && Lowers(inp, c, StepNodeSeq(inp, c))
    ensures Lowers(inp, c, StepNodeExplicitKey(inp, c)) && Lowers(inp, c, StepNodeBareValue(inp, c))
  {
    hide FramesOk, ReturnOk;
  }

  lemma NodeLowers(inp: Input, c: Config, s: NodeState)
    requires Inv(inp, c) && c.state == Node(s)
    ensures Lowers(inp, c, StepOf(inp, c))
  {
    hide FramesOk, StepBlockNode, StepNodeKey, StepNodeSeq, StepNodeExplicitKey, StepNodeBareValue;
    if s == StBlockNode { BlockNodeLowers(inp, c); } else { NodePushLowers(inp, c, s); }
  }

  lemma MapLowers(inp: Input, c: Config, s: MapState)
    requires Inv(inp, c) && c.state == Map(s)
    ensures Lowers(inp, c, StepOf(inp, c))
  {
    hide FramesOk, StepMapLoop, StepMapPostKey, StepMapValue;
    PopFrames(c.frames);
    MapTokenLowers(inp, c);
  }

  lemma MapTokenLowers(inp: Input, c: Config)
    requires Inv(inp, c) && c.state.Map?
    ensures c.state == Map(StMapLoop) ==> Lowers(inp, c, StepMapLoop(inp, c))
    ensures c.state == Map(StMapPostKey) ==> Lowers(inp, c, StepMapPostKey(inp, c))
    ensures c.state == Map(StMapValue) ==> Lowers(inp, c, StepMapValue(inp, c))
  {
    hide FramesOk, ReturnOk;
  }

  lemma SeqLowers(inp: Input, c: Config, s: SeqState)
    requires Inv(inp, c) && c.state == Seq(s)
    ensures Lowers(inp, c, StepOf(inp, c))
  {
    PopFrames(c.frames);
  }

  /** Every step out of a non-final configuration lowers the measure. */
  lemma StepLowers(inp: Input, c: Config)
    requires Inv(inp, c) && !Final(c)
    ensures Lowers(inp, c, StepOf(inp, c))
  {
    match c.state
    case StFlowNode => FlowNodeLowers(inp, c);
    case FMap(s) => FlowMapLowers(inp, c, s);
    case FSeq(s) => if s == StFSeqLoop { FlowSeqLoopLowers(inp, c); } else { FlowSeqLowers(inp, c, s); }
    case Stream(s) => StreamLowers(inp, c, s);
    case Doc(s) => DocLowers(inp, c, s);
    case Node(s) => NodeLowers(inp, c, s);
    case Map(s) => MapLowers(inp, c, s);
    case Seq(s) => SeqLowers(inp, c, s);
  }
}
