/**
 * The incremental parser: one step of parser_step / parser_step_flow as a
 * function on configurations. `pos` is the index of the first token not yet
 * consumed; looking at a token past the end of the sequence is a scanner error.
 */
module Machine {
  import opened Events
  import opened FlowGrammar

  // The states of the C enum, grouped by the construct they work on.

  datatype StreamState =
    | StStreamStart | StDocLoop | StStreamEnd | StDocDirectives | StDocStartExplicit | StDocStartImplicit | StDone

  datatype DocState = StDocEndExplicit | StDocContent

  datatype NodeState =
    | StBlockNode | StNodeScalar | StNodeScalarKey | StNodeAlias | StNodeAliasKey
    | StNodeSeq | StNodeExplicitKey | StNodeBareValue | StNodeEmpty

  datatype MapState =
    | StMapLoop | StMapExplicitKey | StMapSimpleKey | StMapPostKey | StMapValue | StMapValueNode | StMapEnd

  datatype SeqState = StSeqLoop | StSeqEntry | StSeqEntryNode | StSeqEnd

  datatype FlowMapState = StFMapLoop | StFMapValue | StFMapSep | StFMapEnd

  datatype FlowSeqState =
    | StFSeqLoop | StFSeqEntry | StFSeqEntryKey | StFSeqImplicitEnd
    | StFSeqExplicitKey | StFSeqExplicitValue | StFSeqExplicitEnd | StFSeqCheckColon | StFSeqSep | StFSeqEnd

  datatype State =
    | Stream(stream: StreamState)
    | Doc(doc: DocState)
    | Node(node: NodeState)
    | Map(inMap: MapState)
    | Seq(inSeq: SeqState)
    | StFlowNode
    | FMap(inFMap: FlowMapState)
    | FSeq(inFSeq: FlowSeqState)
    | StUnroll
    | StEagerDrain

  datatype FrameType = BlockMap | BlockSeq | FlowMapping | FlowSequence

  datatype Frame = Frame(typ: FrameType, indent: int, ret: State)

  /** The token sequence, the flow-as-key lookahead (true: "is a key") and
      whether only blanks come before an offset on its line. */
  datatype Input = Input(toks: seq<Token>, isKey: nat -> bool, startsLine: nat -> bool)

  datatype Config = Config(
    state: State, frames: seq<Frame>, nodeReturn: State, pos: nat,
    props: Props, saved: Event, savedCol: int,
    docOpen: bool, docStartLine: nat,
    colonLine: nat, colonStartsLine: bool, unrollReturn: State)

  /** A step's new configuration and the events it emits; or an error, with the
      events of the same step that are still delivered before it (a scanner
      error or a refused frame lets them through, a parse error does not). */
  datatype Step = Next(c: Config, out: seq<Event>) | Failed(out: seq<Event>)

  function Initial(): Config {
    Config(Stream(StStreamStart), [], Stream(StStreamStart), 0, NO_PROPS, Simple(ScalarEvent, ORIGIN, ORIGIN), 0,
           false, 0, 0, false, Stream(StStreamStart))
  }

  predicate Has(inp: Input, pos: nat) { pos < |inp.toks| }

  /** The indentation of the innermost collection; 0 if there is none. */
  function TopIndent(c: Config): int {
    if c.frames == [] then 0 else c.frames[|c.frames| - 1].indent
  }

  function Goto(c: Config, s: State): Config { c.(state := s) }

  function Emit(c: Config, s: State, e: Event): Step { Next(c.(state := s), [e]) }

  /** inc_push_frame; `line` is the current token's. */
  function PushFrame(c: Config, typ: FrameType, indent: int, s: State, line: nat, out: seq<Event>): Step {
    if (typ == BlockMap || typ == BlockSeq) && c.docStartLine != 0 && line == c.docStartLine then Failed(out)
    else Next(c.(frames := c.frames + [Frame(typ, indent, c.nodeReturn)], state := s), out)
  }

  /** inc_flow_sep, after `out` was emitted. */
  function FlowSep(inp: Input, c: Config, inSeq: bool, out: seq<Event>): Step {
    if !Has(inp, c.pos) then Failed(out)
    else
      var tt := inp.toks[c.pos].typ;
      if tt == TokFlowEntry then Next(c.(pos := c.pos + 1, state := if inSeq then FSeq(StFSeqLoop) else FMap(StFMapLoop)), out)
      else if tt == (if inSeq then TokFlowSeqEnd else TokFlowMapEnd) then
        Next(c.(state := if inSeq then FSeq(StFSeqEnd) else FMap(StFMapEnd)), out)
      else Next(c.(state := if inSeq then FSeq(StFSeqSep) else FMap(StFMapSep)), out)
  }

  /** inc_flow_map_value: the ':' is consumed and `out` emitted. */
  function FlowMapValue(inp: Input, c: Config, out: seq<Event>): Step {
    if !Has(inp, c.pos) then Failed(out)
    else
      var t := inp.toks[c.pos];
      if t.typ == TokScalar then
        FlowSep(inp, c.(pos := c.pos + 1, props := NO_PROPS), false, out + [Attach(ScalarOf(t), c.props)])
      else if t.typ == TokFlowEntry || t.typ == TokFlowMapEnd then
        Next(c.(state := FMap(StFMapSep)), out + [EmptyScalar(t.start)])
      else Next(c.(nodeReturn := FMap(StFMapSep), state := StFlowNode), out)
  }

  /** inc_end_document, after `out` was emitted. */
  function EndDocument(inp: Input, c: Config, out: seq<Event>): Step {
    if !Has(inp, c.pos) then Failed(out)
    else
      var t := inp.toks[c.pos];
      if t.typ == TokDocEnd then
        Next(c.(pos := c.pos + 1, docOpen := false, state := Stream(StDocLoop)), out + [DocEvent(DocEnd, false, t.start, t.end)])
      else if t.typ == TokDocStart || t.typ == TokStreamEnd then
        Next(c.(docOpen := false, state := Stream(StDocLoop)), out + [DocEvent(DocEnd, true, t.start, t.start)])
      else Failed([])
  }

  // ----- flow states -----

  function StepFlowNode(inp: Input, c: Config): Step {
    if !Has(inp, c.pos) then Failed([])
    else if inp.toks[c.pos].typ == TokTag || inp.toks[c.pos].typ == TokAnchor then
      match ConsumeProps(inp.toks, c.pos, c.props)
      case PropsError => Failed([])
      case PropsOk(props, at) => FlowNodeAt(inp, c.(props := props, pos := at))
    else FlowNodeAt(inp, c)
  }

  function FlowNodeAt(inp: Input, c: Config): Step
    requires Has(inp, c.pos)
  {
    var t := inp.toks[c.pos];
    var d := c.(props := NO_PROPS, pos := c.pos + 1);
    match t.typ
    case TokScalar => Emit(d, c.nodeReturn, Attach(ScalarOf(t), c.props))
    case TokAlias => Emit(d, c.nodeReturn, Attach(AliasOf(t), c.props))
    case TokFlowSeqStart =>
      PushFrame(d, FlowSequence, t.Col(), FSeq(StFSeqLoop), t.start.line,
                [Attach(FlowStart(SequenceStart, t.start, t.end), c.props)])
    case TokFlowMapStart =>
      PushFrame(d, FlowMapping, t.Col(), FMap(StFMapLoop), t.start.line,
                [Attach(FlowStart(MappingStart, t.start, t.end), c.props)])
    case _ => Emit(c.(props := NO_PROPS), c.nodeReturn, Attach(EmptyScalar(t.start), c.props))
  }

  function StepFMapLoop(inp: Input, c: Config): Step {
    if !Has(inp, c.pos) then Failed([])
    else
      var t := inp.toks[c.pos];
      match t.typ
      case TokFlowMapEnd => Next(Goto(c, FMap(StFMapEnd)), [])
      case TokFlowEntry => Failed([])
      case TokMapKey =>
        if !Has(inp, c.pos + 1) then Failed([])
        else
          var k := inp.toks[c.pos + 1];
          var d := c.(pos := c.pos + 1);
          if k.typ == TokMapValue || k.typ == TokFlowEntry || k.typ == TokFlowMapEnd then
            Emit(d, FMap(StFMapValue), EmptyScalar(k.start))
          else Next(d.(nodeReturn := FMap(StFMapValue), state := StFlowNode), [])
      case TokScalar =>
        var key := [Attach(ScalarOf(t), c.props)];
        var d := c.(pos := c.pos + 1, props := NO_PROPS, state := FMap(StFMapValue));
        if !Has(inp, d.pos) then Failed(key)
        else if inp.toks[d.pos].typ != TokMapValue then Next(d, key)
        else FlowMapValue(inp, d.(pos := d.pos + 1), key)
      case _ => Next(c.(nodeReturn := FMap(StFMapValue), state := StFlowNode), [])
  }

  function StepFMapValue(inp: Input, c: Config): Step {
    if !Has(inp, c.pos) then Failed([])
    else if inp.toks[c.pos].typ == TokMapValue then FlowMapValue(inp, c.(pos := c.pos + 1), [])
    else Emit(c, FMap(StFMapSep), EmptyScalar(inp.toks[c.pos].start))
  }

  function StepFMapSep(inp: Input, c: Config): Step {
    if !Has(inp, c.pos) then Failed([])
    else match inp.toks[c.pos].typ
      case TokFlowEntry => Next(c.(pos := c.pos + 1, state := FMap(StFMapLoop)), [])
      case TokFlowMapEnd => Next(Goto(c, FMap(StFMapLoop)), [])
      case _ => Failed([])
  }

  /** Closes the innermost flow collection; a ',' or the next close after it
      is dealt with in the same step. */
  function StepFlowEnd(inp: Input, c: Config, typ: EventType): Step {
    if !Has(inp, c.pos) then Failed([])
    else
      var t := inp.toks[c.pos];
      var out := [Simple(typ, t.start, t.end)];
      var ret := if c.frames == [] then Stream(StDone) else c.frames[|c.frames| - 1].ret;
      var frames := if c.frames == [] then [] else c.frames[..|c.frames| - 1];
      var d := c.(pos := c.pos + 1, frames := frames, state := ret);
      if ret == FSeq(StFSeqSep) then FlowSep(inp, d, true, out)
      else if ret == FMap(StFMapSep) then FlowSep(inp, d, false, out)
      else Next(d, out)
  }

  function StepFSeqLoop(inp: Input, c: Config): Step {
    if !Has(inp, c.pos) then Failed([])
    else
      var t := inp.toks[c.pos];
      match t.typ
      case TokFlowSeqEnd => Next(Goto(c, FSeq(StFSeqEnd)), [])
      case TokMapKey => if c.props.Any() then Failed([]) else Next(Goto(c, FSeq(StFSeqExplicitKey)), [])
      case TokScalar => FSeqEntry(inp, c, ScalarOf(t))
      case TokAlias => FSeqEntry(inp, c, AliasOf(t))
      case TokFlowSeqStart => FSeqNested(inp, c, t)
      case TokFlowMapStart => FSeqNested(inp, c, t)
      case TokMapValue =>
        var key := Attach(EmptyScalar(t.start), c.props);
        FSeqPairValue(inp, c.(props := NO_PROPS, pos := c.pos + 1), [FlowStart(MappingStart, key.start, key.start), key])
      case TokTag => FSeqProps(inp, c)
      case TokAnchor => FSeqProps(inp, c)
      case _ => Failed([])
  }

  /** A scalar or alias entry: a ':' after it makes it a pair's key. */
  function FSeqEntry(inp: Input, c: Config, e: Event): Step {
    var node := Attach(e, c.props);
    var d := c.(props := NO_PROPS, pos := c.pos + 1);
    if !Has(inp, d.pos) then Failed([])
    else if inp.toks[d.pos].typ == TokMapValue then Next(d.(saved := node, state := FSeq(StFSeqEntryKey)), [])
    else FlowSep(inp, d, true, [node])
  }

  function FSeqNested(inp: Input, c: Config, t: Token): Step {
    if inp.isKey(t.start.offset) then Next(Goto(c, StEagerDrain), [])
    else Next(c.(nodeReturn := FSeq(StFSeqSep), state := StFlowNode), [])
  }

  function FSeqProps(inp: Input, c: Config): Step
    requires c.pos <= |inp.toks|
  {
    match ConsumeProps(inp.toks, c.pos, c.props)
    case PropsError => Failed([])
    case PropsOk(props, at) =>
      var t := inp.toks[at];
      if t.typ == TokFlowEntry || t.typ == TokFlowSeqEnd then
        FlowSep(inp, c.(props := NO_PROPS, pos := at), true, [Attach(EmptyScalar(t.start), props)])
      else if t.typ == TokTag || t.typ == TokAnchor then Failed([])
      else Next(c.(props := props, pos := at), [])
  }

  /** The value of an implicit pair, its ':' consumed and `out` emitted. */
  function FSeqPairValue(inp: Input, c: Config, out: seq<Event>): Step {
    if !Has(inp, c.pos) then Failed(out)
    else
      var t := inp.toks[c.pos];
      if t.typ == TokFlowEntry || t.typ == TokFlowSeqEnd then
        Next(Goto(c, FSeq(StFSeqImplicitEnd)), out + [EmptyScalar(t.start)])
      else Next(c.(nodeReturn := FSeq(StFSeqImplicitEnd), state := StFlowNode), out)
  }

  function StepFSeqEntryKey(inp: Input, c: Config): Step {
    FSeqPairValue(inp, c.(pos := c.pos + 1), [FlowStart(MappingStart, c.saved.start, c.saved.start), c.saved])
  }

  /** The end of an implicit or explicit pair. */
  function StepFSeqPairEnd(inp: Input, c: Config): Step {
    if !Has(inp, c.pos) then Failed([])
    else Emit(c, FSeq(StFSeqSep), Simple(MappingEnd, inp.toks[c.pos].start, inp.toks[c.pos].start))
  }

  function StepFSeqExplicitKey(inp: Input, c: Config): Step {
    if !Has(inp, c.pos) then Failed([])
    else
      var t := inp.toks[c.pos];
      var out := [FlowStart(MappingStart, t.start, t.end)];
      var d := c.(pos := c.pos + 1);
      if !Has(inp, d.pos) then Failed(out)
      else
        var k := inp.toks[d.pos];
        if k.typ == TokMapValue || k.typ == TokFlowEntry || k.typ == TokFlowSeqEnd then
          Next(Goto(d, FSeq(StFSeqExplicitValue)), out + [EmptyScalar(k.start)])
        else Next(d.(nodeReturn := FSeq(StFSeqExplicitValue), state := StFlowNode), out)
  }

  function StepFSeqExplicitValue(inp: Input, c: Config): Step {
    if !Has(inp, c.pos) then Failed([])
    else if inp.toks[c.pos].typ != TokMapValue then Emit(c, FSeq(StFSeqExplicitEnd), EmptyScalar(inp.toks[c.pos].start))
    else
      var d := c.(pos := c.pos + 1);
      if !Has(inp, d.pos) then Failed([])
      else
        var v := inp.toks[d.pos];
        if v.typ == TokFlowEntry || v.typ == TokFlowSeqEnd then Emit(d, FSeq(StFSeqExplicitEnd), EmptyScalar(v.start))
        else Next(d.(nodeReturn := FSeq(StFSeqExplicitEnd), state := StFlowNode), [])
  }

  function StepFSeqSep(inp: Input, c: Config): Step {
    if !Has(inp, c.pos) then Failed([])
    else match inp.toks[c.pos].typ
      case TokFlowEntry => Next(c.(pos := c.pos + 1, state := FSeq(StFSeqLoop)), [])
      case TokFlowSeqEnd => Next(Goto(c, FSeq(StFSeqLoop)), [])
      case _ => Failed([])
  }

  function StepFSeqCheckColon(inp: Input, c: Config): Step {
    if !Has(inp, c.pos) then Failed([])
    else if inp.toks[c.pos].typ == TokMapValue then Next(Goto(c, StEagerDrain), [])
    else Next(Goto(c, FSeq(StFSeqSep)), [])
  }

  /** parser_step_flow */
  function StepFlow(inp: Input, c: Config): Step {
    match c.state
    case StFlowNode => StepFlowNode(inp, c)
    case FMap(StFMapLoop) => StepFMapLoop(inp, c)
    case FMap(StFMapValue) => StepFMapValue(inp, c)
    case FMap(StFMapSep) => StepFMapSep(inp, c)
    case FMap(StFMapEnd) => StepFlowEnd(inp, c, MappingEnd)
    case FSeq(StFSeqLoop) => StepFSeqLoop(inp, c)
    case FSeq(StFSeqEntry) =>
      if !Has(inp, c.pos) then Failed([])
      else FSeqEntry(inp, c, if inp.toks[c.pos].typ == TokScalar then ScalarOf(inp.toks[c.pos]) else AliasOf(inp.toks[c.pos]))
    case FSeq(StFSeqEntryKey) => StepFSeqEntryKey(inp, c)
    case FSeq(StFSeqImplicitEnd) => StepFSeqPairEnd(inp, c)
    case FSeq(StFSeqExplicitKey) => StepFSeqExplicitKey(inp, c)
    case FSeq(StFSeqExplicitValue) => StepFSeqExplicitValue(inp, c)
    case FSeq(StFSeqExplicitEnd) => StepFSeqPairEnd(inp, c)
    case FSeq(StFSeqCheckColon) => StepFSeqCheckColon(inp, c)
    case FSeq(StFSeqSep) => StepFSeqSep(inp, c)
    case FSeq(StFSeqEnd) => StepFlowEnd(inp, c, SequenceEnd)
    case _ => Failed([])
  }

  // ----- stream and document states -----

  function StepStreamStart(inp: Input, c: Config): Step {
    if !Has(inp, c.pos) then Failed([])
    else Emit(c.(pos := c.pos + 1), Stream(StDocLoop), Simple(StreamStart, inp.toks[c.pos].start, inp.toks[c.pos].end))
  }

  function StepDocLoop(inp: Input, c: Config): Step {
    if !Has(inp, c.pos) then Failed([])
    else Next(Goto(c, if inp.toks[c.pos].typ == TokStreamEnd then Stream(StStreamEnd) else Stream(StDocDirectives)), [])
  }

  function StepStreamEnd(inp: Input, c: Config): Step {
    if !Has(inp, c.pos) then Failed([])
    else Emit(c.(pos := c.pos + 1), Stream(StDone), Simple(StreamEnd, inp.toks[c.pos].start, inp.toks[c.pos].end))
  }

  function StepDocDirectives(inp: Input, c: Config): Step {
    if !Has(inp, c.pos) then Failed([])
    else match inp.toks[c.pos].typ
      case TokDirective => Next(Goto(c, StEagerDrain), [])
      case TokDocStart => Next(Goto(c, Stream(StDocStartExplicit)), [])
      case TokDocEnd => Next(c.(pos := c.pos + 1, state := Stream(StDocLoop)), [])
      case TokStreamEnd => Next(Goto(c, Stream(StStreamEnd)), [])
      case _ => Next(Goto(c, Stream(StDocStartImplicit)), [])
  }

  function StepDocStart(inp: Input, c: Config, explicit: bool): Step {
    if c.docOpen && c.frames != [] then Next(c.(unrollReturn := c.state, state := StUnroll), [])
    else if !Has(inp, c.pos) then Failed([])
    else
      var t := inp.toks[c.pos];
      var close := if c.docOpen then [DocEvent(DocEnd, true, t.start, t.start)] else [];
      if explicit then
        Next(c.(docStartLine := t.start.line, pos := c.pos + 1, docOpen := true, state := Doc(StDocContent)),
             close + [DocEvent(DocStart, false, t.start, t.end)])
      else
        Next(c.(docStartLine := 0, docOpen := true, state := Doc(StDocContent)),
             close + [DocEvent(DocStart, true, t.start, t.start)])
  }

  function StepDocContent(inp: Input, c: Config): Step {
    if !Has(inp, c.pos) then Failed([])
    else
      var t := inp.toks[c.pos];
      var empty := EmptyScalar(t.start);
      match t.typ
      case TokDocEnd => Emit(c, Doc(StDocEndExplicit), empty)
      case TokDocStart =>
        Next(c.(docOpen := false, state := Stream(StDocLoop)), [empty, DocEvent(DocEnd, true, t.start, t.start)])
      case TokStreamEnd =>
        Next(c.(docOpen := false, state := Stream(StStreamEnd)), [empty, DocEvent(DocEnd, true, t.start, t.start)])
      case _ => Next(c.(nodeReturn := Doc(StDocEndExplicit), state := Node(StBlockNode)), [])
  }

  // ----- block states -----

  function StepBlockNode(inp: Input, c: Config): Step {
    if !Has(inp, c.pos) then Failed([])
    else
      var t := inp.toks[c.pos];
      match t.typ
      case TokTag => Next(Goto(c, StEagerDrain), [])
      case TokAnchor => Next(Goto(c, StEagerDrain), [])
      case TokAlias => Next(Goto(c, Node(StNodeAlias)), [])
      case TokSeqEntry => Next(Goto(c, Node(StNodeSeq)), [])
      case TokMapKey => Next(Goto(c, Node(StNodeExplicitKey)), [])
      case TokMapValue => Next(Goto(c, Node(StNodeBareValue)), [])
      case TokFlowSeqStart => BlockNodeFlow(inp, c, t)
      case TokFlowMapStart => BlockNodeFlow(inp, c, t)
      case TokScalar => Next(Goto(c, Node(StNodeScalar)), [])
      case TokFlowSeqEnd => Failed([])
      case TokFlowMapEnd => Failed([])
      case TokFlowEntry => Failed([])
      case TokDirective => Failed([])
      case _ => Next(Goto(c, Node(StNodeEmpty)), [])
  }

  /** A flow collection that may be an implicit key goes to the eager parser;
      a value on an implicit key's line cannot be one. */
  function BlockNodeFlow(inp: Input, c: Config, t: Token): Step {
    if (c.nodeReturn == Map(StMapLoop) && t.start.line == c.colonLine && !c.colonStartsLine) || !inp.isKey(t.start.offset)
    then Next(Goto(c, StFlowNode), [])
    else Next(Goto(c, StEagerDrain), [])
  }

  /** A scalar or alias node: a ':' on its line makes it a mapping's first key. */
  function StepNodeLeaf(inp: Input, c: Config, e: Event, key: State): Step
    requires Has(inp, c.pos)
  {
    var d := c.(pos := c.pos + 1);
    if !Has(inp, d.pos) then Failed([])
    else
      var n := inp.toks[d.pos];
      if n.typ == TokMapValue && n.start.line == e.start.line then
        Next(d.(saved := e, savedCol := inp.toks[c.pos].Col(), state := key), [])
      else Emit(d, c.nodeReturn, e)
  }

  function StepNodeKey(inp: Input, c: Config): Step {
    if !Has(inp, c.pos) then Failed([])
    else
      PushFrame(c, BlockMap, c.savedCol, Map(StMapValue), inp.toks[c.pos].start.line,
                [Simple(MappingStart, c.saved.start, c.saved.start), c.saved])
  }

  function StepNodeSeq(inp: Input, c: Config): Step {
    if !Has(inp, c.pos) then Failed([])
    else
      var t := inp.toks[c.pos];
      PushFrame(c, BlockSeq, t.Col(), Seq(StSeqLoop), t.start.line, [Simple(SequenceStart, t.start, t.end)])
  }

  function StepNodeExplicitKey(inp: Input, c: Config): Step {
    if !Has(inp, c.pos) then Failed([])
    else
      var t := inp.toks[c.pos];
      PushFrame(c, BlockMap, t.Col(), Map(StMapLoop), t.start.line, [Simple(MappingStart, t.start, t.end)])
  }

  function StepNodeBareValue(inp: Input, c: Config): Step {
    if !Has(inp, c.pos) then Failed([])
    else
      var t := inp.toks[c.pos];
      PushFrame(c, BlockMap, t.Col(), Map(StMapValue), t.start.line,
                [Simple(MappingStart, t.start, t.end), EmptyScalar(t.start)])
  }

  function StepNodeEmpty(inp: Input, c: Config): Step {
    if !Has(inp, c.pos) then Failed([])
    else Emit(c, c.nodeReturn, Simple(ScalarEvent, inp.toks[c.pos].start, inp.toks[c.pos].end))
  }

  function StepMapLoop(inp: Input, c: Config): Step {
    if !Has(inp, c.pos) then Failed([])
    else
      var t := inp.toks[c.pos];
      var here := t.Col() == TopIndent(c);
      if t.typ == TokMapKey && here then Next(Goto(c, Map(StMapExplicitKey)), [])
      else if (t.typ == TokScalar || t.typ == TokAlias) && here then Next(Goto(c, Map(StMapSimpleKey)), [])
      else if t.typ == TokMapValue && here then Emit(c, Map(StMapValue), EmptyScalar(t.start))
      else if t.typ == TokTag || t.typ == TokAnchor || t.typ == TokFlowSeqStart || t.typ == TokFlowMapStart then
        Next(Goto(c, StEagerDrain), [])
      else Next(Goto(c, Map(StMapEnd)), [])
  }

  function StepMapExplicitKey(inp: Input, c: Config): Step {
    if !Has(inp, c.pos) || !Has(inp, c.pos + 1) then Failed([])
    else
      var t := inp.toks[c.pos + 1];
      var d := c.(pos := c.pos + 1);
      if t.Col() < TopIndent(c) || (t.Col() == TopIndent(c) && t.typ != TokSeqEntry) ||
         t.typ == TokDocStart || t.typ == TokDocEnd || t.typ == TokStreamEnd then
        Emit(d, Map(StMapPostKey), EmptyScalar(t.start))
      else Next(d.(nodeReturn := Map(StMapPostKey), state := Node(StBlockNode)), [])
  }

  function StepMapSimpleKey(inp: Input, c: Config): Step {
    if !Has(inp, c.pos) then Failed([])
    else
      var t := inp.toks[c.pos];
      if t.typ != TokScalar && t.typ != TokAlias then Next(Goto(c, StEagerDrain), [])
      else if !Has(inp, c.pos + 1) then Failed([])
      else if inp.toks[c.pos + 1].typ == TokMapValue then
        Emit(c.(pos := c.pos + 1), Map(StMapValue), if t.typ == TokScalar then ScalarOf(t) else AliasOf(t))
      else Next(c.(pos := c.pos + 1, state := StEagerDrain), [])
  }

  function StepMapPostKey(inp: Input, c: Config): Step {
    if !Has(inp, c.pos) then Failed([])
    else
      var t := inp.toks[c.pos];
      if t.typ == TokMapValue && t.Col() == TopIndent(c) then Next(Goto(c, Map(StMapValue)), [])
      else if t.typ == TokMapValue && t.Col() > TopIndent(c) then Failed([])
      else Emit(c, Map(StMapLoop), EmptyScalar(t.start))
  }

  function StepMapValue(inp: Input, c: Config): Step {
    if !Has(inp, c.pos) then Failed([])
    else
      var colon := inp.toks[c.pos];
      if colon.typ != TokMapValue then Emit(c, Map(StMapLoop), EmptyScalar(colon.start))
      else if !Has(inp, c.pos + 1) then Failed([])
      else
        var t := inp.toks[c.pos + 1];
        var d := c.(pos := c.pos + 1, colonLine := colon.start.line,
                    colonStartsLine := inp.startsLine(colon.start.offset));
        if t.typ == TokDocStart || t.typ == TokDocEnd || t.typ == TokStreamEnd ||
           t.Col() < TopIndent(c) || (t.Col() == TopIndent(c) && t.typ != TokSeqEntry) then
          Emit(d, Map(StMapLoop), EmptyScalar(t.start))
        else Next(d.(nodeReturn := Map(StMapLoop), state := Node(StBlockNode)), [])
  }

  function StepSeqLoop(inp: Input, c: Config): Step {
    if !Has(inp, c.pos) then Failed([])
    else
      var t := inp.toks[c.pos];
      Next(Goto(c, if t.typ == TokSeqEntry && t.Col() == TopIndent(c) then Seq(StSeqEntry) else Seq(StSeqEnd)), [])
  }

  function StepSeqEntry(inp: Input, c: Config): Step {
    if !Has(inp, c.pos) || !Has(inp, c.pos + 1) then Failed([])
    else
      var t := inp.toks[c.pos + 1];
      var d := c.(pos := c.pos + 1);
      if t.Col() <= TopIndent(c) || t.typ == TokDocStart || t.typ == TokDocEnd || t.typ == TokStreamEnd then
        Emit(d, Seq(StSeqLoop), EmptyScalar(t.start))
      else Next(d.(nodeReturn := Seq(StSeqLoop), state := Node(StBlockNode)), [])
  }

  /** Pops a block collection; after the document's root, ends the document. */
  function StepBlockEnd(inp: Input, c: Config, typ: EventType): Step {
    if !Has(inp, c.pos) then Failed([])
    else
      var t := inp.toks[c.pos];
      var out := [Simple(typ, t.start, t.start)];
      var ret := if c.frames == [] then Stream(StDone) else c.frames[|c.frames| - 1].ret;
      var frames := if c.frames == [] then [] else c.frames[..|c.frames| - 1];
      var d := c.(frames := frames, state := ret);
      if ret == Doc(StDocEndExplicit) then EndDocument(inp, d, out) else Next(d, out)
  }

  function StepUnroll(inp: Input, c: Config): Step {
    if c.frames == [] then Next(Goto(c, c.unrollReturn), [])
    else if !Has(inp, c.pos) then Failed([])
    else
      var f := c.frames[|c.frames| - 1];
      var at := inp.toks[c.pos].start;
      Next(c.(frames := c.frames[..|c.frames| - 1]),
           [Simple(if f.typ == BlockMap || f.typ == FlowMapping then MappingEnd else SequenceEnd, at, at)])
  }

  /** parser_step */
  function StepOf(inp: Input, c: Config): Step {
    match c.state
    case Stream(StStreamStart) => StepStreamStart(inp, c)
    case Stream(StDocLoop) => StepDocLoop(inp, c)
    case Stream(StStreamEnd) => StepStreamEnd(inp, c)
    case Stream(StDocDirectives) => StepDocDirectives(inp, c)
    case Stream(StDocStartExplicit) => StepDocStart(inp, c, true)
    case Stream(StDocStartImplicit) => StepDocStart(inp, c, false)
    case Doc(StDocEndExplicit) => EndDocument(inp, c, [])
    case Doc(StDocContent) => StepDocContent(inp, c)
    case Node(StBlockNode) => StepBlockNode(inp, c)
    case Node(StNodeScalar) => if !Has(inp, c.pos) then Failed([]) else StepNodeLeaf(inp, c, ScalarOf(inp.toks[c.pos]), Node(StNodeScalarKey))
    case Node(StNodeScalarKey) => StepNodeKey(inp, c)
    case Node(StNodeAlias) => if !Has(inp, c.pos) then Failed([]) else StepNodeLeaf(inp, c, AliasOf(inp.toks[c.pos]), Node(StNodeAliasKey))
    case Node(StNodeAliasKey) => StepNodeKey(inp, c)
    case Node(StNodeSeq) => StepNodeSeq(inp, c)
    case Node(StNodeExplicitKey) => StepNodeExplicitKey(inp, c)
    case Node(StNodeBareValue) => StepNodeBareValue(inp, c)
    case Node(StNodeEmpty) => StepNodeEmpty(inp, c)
    case Map(StMapLoop) => StepMapLoop(inp, c)
    case Map(StMapExplicitKey) => StepMapExplicitKey(inp, c)
    case Map(StMapSimpleKey) => StepMapSimpleKey(inp, c)
    case Map(StMapPostKey) => StepMapPostKey(inp, c)
    case Map(StMapValue) => StepMapValue(inp, c)
    case Map(StMapValueNode) => Next(Goto(c, Map(StMapLoop)), [])
    case Map(StMapEnd) => StepBlockEnd(inp, c, MappingEnd)
    case Seq(StSeqLoop) => StepSeqLoop(inp, c)
    case Seq(StSeqEntry) => StepSeqEntry(inp, c)
    case Seq(StSeqEntryNode) => Next(Goto(c, Seq(StSeqLoop)), [])
    case Seq(StSeqEnd) => StepBlockEnd(inp, c, SequenceEnd)
    case StUnroll => StepUnroll(inp, c)
    case StEagerDrain => Next(c, [])
    case Stream(StDone) => Next(c, [])
    case _ => StepFlow(inp, c)
  }
}
