/**
 * The events of every run follow the event grammar: after each step the
 * acceptor stands where the frames, and the pair mappings open in flow
 * sequences, say it does. No step emits more than three events.
 */
module MachineGrammar {
  import opened Events
  import opened FlowGrammar
  import opened Machine
  import opened MachineInvariant
  import opened EventGrammar

  /** What the innermost frame's collection, and a pair open in it, expect in a state. */
  function Opens(s: State): seq<Open> {
    match s
    case Map(m) => [if m == StMapPostKey || m == StMapValue then ValueNext else KeyNext]
    case Seq(_) => [InSequence]
    case FMap(m) => [if m == StFMapValue then ValueNext else KeyNext]
    case FSeq(q) =>
      (match q
       case StFSeqImplicitEnd => [InSequence, KeyNext]
       case StFSeqExplicitEnd => [InSequence, KeyNext]
       case StFSeqExplicitValue => [InSequence, ValueNext]
       case _ => [InSequence])
    case _ => []
  }

  /** The open collections, the innermost one being in state `s`. */
  function Stack(frames: seq<Frame>, s: State): seq<Open>
    decreases |frames|
  {
    if frames == [] then []
    else Stack(frames[..|frames| - 1], frames[|frames| - 1].ret) + Opens(s)
  }

  /** The part of the stack below the innermost frame. */
  function Base(c: Config): seq<Open>
    requires c.frames != []
  {
    Stack(c.frames[..|c.frames| - 1], c.frames[|c.frames| - 1].ret)
  }

  /** Where the acceptor stands. A pending node has not begun yet: it takes
      back what its return state says has happened. */
  function StageOf(c: Config): Stage {
    match c.state
    case Stream(s) => if s == StStreamStart then Before else if s == StDone then Closed else Between
    case Doc(s) => InDocument([], s == StDocEndExplicit)
    case Node(_) => InDocument(Flip(Stack(c.frames, c.nodeReturn)), c.frames != [])
    case StFlowNode => InDocument(Flip(Stack(c.frames, c.nodeReturn)), c.frames != [])
    case _ => InDocument(Stack(c.frames, c.state), true)
  }

  /** The step's events take the acceptor from its old place to its new one. */
  predicate Follows(c: Config, s: Step) {
    |s.out| <= 3 && Accept(StageOf(c), s.out).Some? &&
    (s.Next? ==> s.c.state == StEagerDrain || Accept(StageOf(c), s.out).value == StageOf(s.c))
  }

  /** The stage in a state of the innermost collection. */
  lemma StageIn(c: Config)
    requires c.frames != [] && (c.state.Map? || c.state.Seq? || c.state.FMap? || c.state.FSeq?)
    ensures StageOf(c) == InDocument(Base(c) + Opens(c.state), true)
  {}

  /** The stage with a node of the innermost collection pending. */
  lemma StagePending(c: Config)
    requires c.frames != [] && (c.state.Node? || c.state == StFlowNode)
    ensures StageOf(c) == InDocument(Flip(Base(c) + Opens(c.nodeReturn)), true)
  {}

  lemma AcceptNothing(g: Stage)
    ensures Accept(g, []) == Some(g)
  {}

  lemma FlipOver(a: seq<Open>, b: seq<Open>)
    requires b != []
    ensures Flip(a + b) == a + Flip(b)
  {
    var front, last := b[..|b| - 1], b[|b| - 1];
    assert b == front + [last] && a + b == a + front + [last];
    FlipTop(front, last);
    FlipTop(a + front, last);
  }

  lemma LeafStage(stack: seq<Open>, e: Event)
    requires stack != [] && IsLeafEvent(e)
    ensures Accept(InDocument(stack, true), [e]) == Some(InDocument(Flip(stack), true))
  {
    AcceptNothing(InDocument(Flip(stack), true));
    assert [e][1..] == [];
  }

  /** After `out`, with `o` open in the innermost collection: a step that stays,
      begins a node, or emits a leaf. */
  predicate Shape(d: Config, out: seq<Event>, o: seq<Open>, s: Step) {
    if s.Failed? then s.out == out
    else if s.c.state == StEagerDrain then s.out == out
    else
      s.c.frames == d.frames &&
      if s.c.state.Node? || s.c.state == StFlowNode then s.out == out && Opens(s.c.nodeReturn) == Flip(o)
      else
        (s.c.state.Map? || s.c.state.Seq? || s.c.state.FMap? || s.c.state.FSeq?) &&
        ((s.out == out && Opens(s.c.state) == o) ||
         (|s.out| > 0 && s.out == out + [s.out[|s.out| - 1]] && IsLeafEvent(s.out[|s.out| - 1]) && Opens(s.c.state) == Flip(o)))
  }

  lemma ShapeFollows(c: Config, d: Config, out: seq<Event>, o: seq<Open>, s: Step)
    requires d.frames != [] && o != [] && |out| <= 2 && Accept(StageOf(c), out) == Some(InDocument(Base(d) + o, true))
    requires Shape(d, out, o, s)
    ensures Follows(c, s)
  {
    hide Accept, Stack, Opens;
    if s.Next? && s.c.state != StEagerDrain {
      assert Base(s.c) == Base(d);
      if s.c.state.Node? || s.c.state == StFlowNode {
        ShapeNode(d, o, s.c);
      } else {
        StageIn(s.c);
        if s.out != out { ShapeLeaf(c, d, out, o, s.out[|s.out| - 1]); }
      }
    }
  }

  lemma ShapeNode(d: Config, o: seq<Open>, n: Config)
    requires d.frames != [] && n.frames == d.frames && o != [] && Opens(n.nodeReturn) == Flip(o) && (n.state.Node? || n.state == StFlowNode)
    ensures StageOf(n) == InDocument(Base(d) + o, true)
  {
    StagePending(n);
    hide Accept, Stack, Opens;
    FlipOver(Base(d), Flip(o));
    FlipFlip(o);
  }

  lemma ShapeLeaf(c: Config, d: Config, out: seq<Event>, o: seq<Open>, e: Event)
    requires d.frames != [] && o != [] && Accept(StageOf(c), out) == Some(InDocument(Base(d) + o, true)) && IsLeafEvent(e)
    ensures Accept(StageOf(c), out + [e]) == Some(InDocument(Base(d) + Flip(o), true))
  {
    hide Accept, Stack, Opens;
    FlipOver(Base(d), o);
    LeafStage(Base(d) + o, e);
    AcceptConcat(StageOf(c), out, [e]);
  }

  lemma InnerFollows(c: Config, s: Step)
    requires c.frames != [] && (c.state.Map? || c.state.Seq? || c.state.FMap? || c.state.FSeq?)
    requires Shape(c, [], Opens(c.state), s)
    ensures Follows(c, s)
  {
    hide Accept, Stack;
    StageIn(c);
    AcceptNothing(StageOf(c));
    ShapeFollows(c, c, [], Opens(c.state), s);
  }

  /** One more leaf event. */
  lemma LeafMore(c: Config, out: seq<Event>, base: seq<Open>, top: Open, e: Event)
    requires Accept(StageOf(c), out) == Some(InDocument(base + [top], true)) && IsLeafEvent(e)
    ensures Accept(StageOf(c), out + [e]) == Some(InDocument(base + [FlipOne(top)], true))
  {
    hide Accept1, Stack;
    AcceptsLeaf(base, top, e, []);
    assert [e] + [] == [e];
    AcceptConcat(StageOf(c), out, [e]);
  }

  lemma StackPush(frames: seq<Frame>, f: Frame, s: State)
    ensures Stack(frames + [f], s) == Stack(frames, f.ret) + Opens(s)
  {
    assert (frames + [f])[..|frames|] == frames;
  }

  lemma FlipFlip(stack: seq<Open>)
    ensures Flip(Flip(stack)) == stack
  {}

  lemma FlipEmpty(stack: seq<Open>)
    ensures Flip(stack) == [] <==> stack == []
  {}

  /** Events that begin or are a node, in an open collection. */
  lemma AcceptsLeaf(base: seq<Open>, top: Open, e: Event, tail: seq<Event>)
    requires IsLeafEvent(e)
    ensures Accept(InDocument(base + [top], true), [e] + tail) == Accept(InDocument(base + [FlipOne(top)], true), tail)
  {
    FlipTop(base, top);
    AcceptCons(InDocument(base + [top], true), e, tail);
  }

  lemma AcceptsPair(base: seq<Open>, open: Event, key: Event, tail: seq<Event>)
    requires open.typ == MappingStart && IsLeafEvent(key)
    ensures Accept(InDocument(base + [InSequence], true), [open] + tail) ==
            Accept(InDocument(base + [InSequence, KeyNext], true), tail)
    ensures Accept(InDocument(base + [InSequence], true), [open, key] + tail) ==
            Accept(InDocument(base + [InSequence, ValueNext], true), tail)
  {
    FlipTop(base, InSequence);
    var g := InDocument(base + [InSequence], true);
    var b := base + [InSequence];
    assert b + [KeyNext] == base + [InSequence, KeyNext];
    assert b + [ValueNext] == base + [InSequence, ValueNext];
    AcceptCons(g, open, tail);
    AcceptCons(g, open, [key] + tail);
    AcceptsLeaf(b, KeyNext, key, tail);
    assert [open, key] + tail == [open] + ([key] + tail);
  }

  /** A whole pending node: the node's return state follows. */
  lemma NodeFollows(c: Config, d: Config, e: Event)
    requires c.state.Node? || c.state == StFlowNode
    requires ReturnOk(c.frames, c.nodeReturn) && d.frames == c.frames && d.state == c.nodeReturn && IsLeafEvent(e)
    ensures Follows(c, Next(d, [e]))
  {
    if c.frames == [] {
      assert [e][1..] == [];
    } else {
      NodeInside(c, d, e);
    }
  }

  lemma NodeInside(c: Config, d: Config, e: Event)
    requires c.frames != [] && (c.state.Node? || c.state == StFlowNode)
    requires ReturnOk(c.frames, c.nodeReturn) && d.frames == c.frames && d.state == c.nodeReturn && IsLeafEvent(e)
    ensures Follows(c, Next(d, [e]))
  {
    hide Accept, Stack, Flip;
    StagePending(c);
    StageIn(d);
    var o := Opens(c.nodeReturn);
    FlipEmpty(o);
    FlipOver(Base(c), o);
    LeafStage(Base(c) + Flip(o), e);
    FlipOver(Base(c), Flip(o));
    FlipFlip(o);
  }

  lemma StackNonEmpty(frames: seq<Frame>, s: State)
    requires frames != [] && Opens(s) != []
    ensures Stack(frames, s) != []
  {}

  /** A pending node that opens a collection. */
  lemma PushFollows(c: Config, typ: FrameType, indent: int, s: State, line: nat, open: Event, more: seq<Event>)
    requires c.state.Node? || c.state == StFlowNode
    requires ReturnOk(c.frames, c.nodeReturn) && (s.Map? || s.Seq? || s.FMap? || s.FSeq?)
    requires open.typ == MappingStart || open.typ == SequenceStart
    requires more == [] || (|more| == 1 && IsLeafEvent(more[0]))
    requires var o := if open.typ == MappingStart then KeyNext else InSequence;
             Opens(s) == if more == [] then [o] else [FlipOne(o)]
    ensures Follows(c, PushFrame(c, typ, indent, s, line, [open] + more))
  {
    hide Accept, Accept1, Stack, ReturnOk, Flip, Opens;
    var stack := Stack(c.frames, c.nodeReturn);
    var o := if open.typ == MappingStart then KeyNext else InSequence;
    PendingStage(c);
    OpenAccepts(stack, open, o, more);
    StackPush(c.frames, Frame(typ, indent, c.nodeReturn), s);
  }

  lemma PendingStage(c: Config)
    requires (c.state.Node? || c.state == StFlowNode) && ReturnOk(c.frames, c.nodeReturn)
    ensures var stack := Stack(c.frames, c.nodeReturn); StageOf(c) == InDocument(Flip(stack), stack != [])
  {
    if c.frames != [] { StackNonEmpty(c.frames, c.nodeReturn); }
  }

  /** An opening event, and perhaps one leaf, where a node is expected. */
  lemma OpenAccepts(stack: seq<Open>, open: Event, o: Open, more: seq<Event>)
    requires (open.typ == MappingStart && o == KeyNext) || (open.typ == SequenceStart && o == InSequence)
    requires more == [] || (|more| == 1 && IsLeafEvent(more[0]))
    ensures Accept(InDocument(Flip(stack), stack != []), [open] + more) ==
            Some(InDocument(stack + (if more == [] then [o] else [FlipOne(o)]), true))
  {
    hide Accept, Flip;
    FlipFlip(stack);
    FlipEmpty(stack);
    AcceptCons(InDocument(Flip(stack), stack != []), open, more);
    AcceptNothing(InDocument(stack + [o], true));
    if more != [] {
      assert more == [more[0]] + [];
      AcceptsLeaf(stack, o, more[0], []);
      AcceptNothing(InDocument(stack + [FlipOne(o)], true));
    }
  }

  lemma FlowNodeFollows(inp: Input, c: Config)
    requires Inv(inp, c) && c.state == StFlowNode
    ensures Follows(c, StepFlowNode(inp, c))
  {
    if Sees(inp, c, TokTag) || Sees(inp, c, TokAnchor) {
      var r := ConsumeProps(inp.toks, c.pos, c.props);
      if r.PropsOk? { FlowNodeAtFollows(inp, c.(props := r.props, pos := r.pos)); }
    } else if Has(inp, c.pos) {
      FlowNodeAtFollows(inp, c);
    }
  }

  lemma Alone<T>(e: T)
    ensures [e] + [] == [e]
  {}

  lemma FlowNodeAtFollows(inp: Input, c: Config)
    requires c.pos < |inp.toks| && c.state == StFlowNode && ReturnOk(c.frames, c.nodeReturn)
    ensures Follows(c, FlowNodeAt(inp, c))
  {
    hide Accept, Stack, StageOf, Follows, ReturnOk, PushFrame;
    var t := inp.toks[c.pos];
    var d := c.(props := NO_PROPS, pos := c.pos + 1);
    match t.typ
    case TokScalar => NodeFollows(c, d.(state := c.nodeReturn), Attach(ScalarOf(t), c.props));
    case TokAlias => NodeFollows(c, d.(state := c.nodeReturn), Attach(AliasOf(t), c.props));
    case TokFlowSeqStart => FlowStartFollows(c, d, FlowSequence, t, Attach(FlowStart(SequenceStart, t.start, t.end), c.props));
    case TokFlowMapStart => FlowStartFollows(c, d, FlowMapping, t, Attach(FlowStart(MappingStart, t.start, t.end), c.props));
    case _ => NodeFollows(c, c.(props := NO_PROPS, state := c.nodeReturn), Attach(EmptyScalar(t.start), c.props));
  }

  /** A flow collection opens in `d`, past the bracket. */
  lemma FlowStartFollows(c: Config, d: Config, typ: FrameType, t: Token, open: Event)
    requires c.state == d.state == StFlowNode && ReturnOk(c.frames, c.nodeReturn) && d.frames == c.frames && d.nodeReturn == c.nodeReturn
    requires (typ == FlowSequence && open.typ == SequenceStart) || (typ == FlowMapping && open.typ == MappingStart)
    ensures Follows(c, PushFrame(d, typ, t.Col(), if typ == FlowSequence then FSeq(StFSeqLoop) else FMap(StFMapLoop), t.start.line, [open]))
  {
    hide Accept, Stack, PushFrame;
    Alone(open);
    PushFollows(d, typ, t.Col(), if typ == FlowSequence then FSeq(StFSeqLoop) else FMap(StFMapLoop), t.start.line, open, []);
  }

  lemma FlowSepFollows(inp: Input, c: Config, d: Config, inSeq: bool, out: seq<Event>)
    requires d.frames != [] && |out| <= 3
    requires Accept(StageOf(c), out) == Some(InDocument(Base(d) + [if inSeq then InSequence else KeyNext], true))
    ensures Follows(c, FlowSep(inp, d, inSeq, out))
  {
    hide Accept, Stack;
    var s := FlowSep(inp, d, inSeq, out);
    if s.Next? {
      assert Base(s.c) == Base(d);
      StageIn(s.c);
    }
  }

  lemma FlowMapValueFollows(inp: Input, c: Config, d: Config, out: seq<Event>)
    requires d.frames != [] && |out| <= 2
    requires Accept(StageOf(c), out) == Some(InDocument(Base(d) + [ValueNext], true))
    ensures Follows(c, FlowMapValue(inp, d, out))
  {
    hide Accept, Stack, FlowSep;
    if Sees(inp, d, TokScalar) {
      var e := Attach(ScalarOf(inp.toks[d.pos]), d.props);
      LeafMore(c, out, Base(d), ValueNext, e);
      FlowSepFollows(inp, c, d.(pos := d.pos + 1, props := NO_PROPS), false, out + [e]);
    } else {
      ShapeFollows(c, d, out, [ValueNext], FlowMapValue(inp, d, out));
    }
  }

  lemma FlowMapLoopFollows(inp: Input, c: Config)
    requires Inv(inp, c) && c.state == FMap(StFMapLoop)
    ensures Follows(c, StepFMapLoop(inp, c))
  {
    hide Accept, Stack, FlowMapValue;
    if Sees(inp, c, TokScalar) {
      ScalarKeyFollows(inp, c);
    } else {
      InnerFollows(c, StepFMapLoop(inp, c));
    }
  }

  lemma AttachLeaf(e: Event, p: Props)
    ensures IsLeafEvent(Attach(e, p)) <==> IsLeafEvent(e)
  {}

  lemma ScalarKeyFollows(inp: Input, c: Config)
    requires c.frames != [] && c.state == FMap(StFMapLoop) && Sees(inp, c, TokScalar)
    ensures Follows(c, StepFMapLoop(inp, c))
  {
    hide Accept, Accept1, Flip, Stack, StageOf, FlowMapValue, Attach;
    var key := Attach(ScalarOf(inp.toks[c.pos]), c.props);
    AttachLeaf(ScalarOf(inp.toks[c.pos]), c.props);
    StageIn(c);
    AcceptNothing(StageOf(c));
    LeafMore(c, [], Base(c), KeyNext, key);
    assert [] + [key] == [key];
    if Has(inp, c.pos + 1) && inp.toks[c.pos + 1].typ == TokMapValue {
      FlowMapValueFollows(inp, c, c.(pos := c.pos + 2, props := NO_PROPS, state := FMap(StFMapValue)), [key]);
    } else {
      StageIn(c.(pos := c.pos + 1, props := NO_PROPS, state := FMap(StFMapValue)));
    }
  }

  lemma FlowMapFollows(inp: Input, c: Config, s: FlowMapState)
    requires Inv(inp, c) && c.state == FMap(s) && (s == StFMapValue || s == StFMapSep)
    ensures Follows(c, StepFlow(inp, c))
  {
    hide Accept, Stack, FlowMapValue, FramesOk;
    if s == StFMapValue && Sees(inp, c, TokMapValue) {
      StageIn(c);
      AcceptNothing(StageOf(c));
      FlowMapValueFollows(inp, c, c.(pos := c.pos + 1), []);
    } else {
      InnerFollows(c, StepFlow(inp, c));
    }
  }

  /** The end of the innermost collection. */
  lemma EndFollows(c: Config, d: Config, close: Event)
    requires FramesOk(c.frames) && c.frames != [] && d.frames == c.frames[..|c.frames| - 1]
    requires d.state == c.frames[|c.frames| - 1].ret
    requires ((c.state == FMap(StFMapEnd) || c.state == Map(StMapEnd)) && close.typ == MappingEnd)
          || ((c.state == FSeq(StFSeqEnd) || c.state == Seq(StSeqEnd)) && close.typ == SequenceEnd)
    ensures Follows(c, Next(d, [close]))
    ensures StageOf(d) == InDocument(Stack(d.frames, d.state), true)
  {
    hide Accept, Stack, StageOf, FramesOk, Flip;
    StageIn(c);
    StageBelow(c, d);
    AcceptClose(Base(c), if close.typ == MappingEnd then KeyNext else InSequence, close);
  }

  /** The stage once the innermost collection is over. */
  lemma StageBelow(c: Config, d: Config)
    requires FramesOk(c.frames) && c.frames != [] && d.frames == c.frames[..|c.frames| - 1]
    requires d.state == c.frames[|c.frames| - 1].ret
    ensures StageOf(d) == InDocument(Base(c), true) == InDocument(Stack(d.frames, d.state), true)
  {
    hide FramesOk, Flip;
    PopFrames(c.frames);
  }

  lemma FlowEndFollows(inp: Input, c: Config, typ: EventType)
    requires Inv(inp, c)
    requires (c.state == FMap(StFMapEnd) && typ == MappingEnd) || (c.state == FSeq(StFSeqEnd) && typ == SequenceEnd)
    ensures Follows(c, StepFlowEnd(inp, c, typ))
  {
    hide Accept, FlowSep, FramesOk;
    PopFrames(c.frames);
    var t := inp.toks[c.pos];
    var d := c.(pos := c.pos + 1, frames := c.frames[..|c.frames| - 1], state := c.frames[|c.frames| - 1].ret);
    var close := Simple(typ, t.start, t.end);
    EndFollows(c, d, close);
    if d.state == FSeq(StFSeqSep) {
      FlowSepFollows(inp, c, d, true, [close]);
    } else if d.state == FMap(StFMapSep) {
      FlowSepFollows(inp, c, d, false, [close]);
    }
  }

  /** The acceptor after the events of a pair's key, and after an empty value too. */
  lemma PairStages(c: Config, d: Config, open: Event, key: Event, value: Event)
    requires d.frames != [] && StageOf(c) == InDocument(Base(d) + [InSequence], true)
    requires open.typ == MappingStart && IsLeafEvent(key) && IsLeafEvent(value)
    ensures Accept(StageOf(c), [open]) == Some(InDocument(Base(d) + [InSequence, KeyNext], true))
    ensures Accept(StageOf(c), [open, key]) == Some(InDocument(Base(d) + [InSequence, ValueNext], true))
    ensures Accept(StageOf(c), [open, key] + [value]) == Some(InDocument(Base(d) + [InSequence, KeyNext], true))
  {
    var base := Base(d);
    AcceptsPair(base, open, key, []);
    assert [open] + [] == [open] && [open, key] + [] == [open, key] && [value] + [] == [value];
    PairOpen(base);
    AcceptsPair(base, open, key, [value]);
    AcceptsLeaf(base + [InSequence], ValueNext, value, []);
  }

  lemma FSeqPairValueFollows(inp: Input, c: Config, d: Config, open: Event, key: Event)
    requires d.frames != [] && StageOf(c) == InDocument(Base(d) + [InSequence], true)
    requires open.typ == MappingStart && IsLeafEvent(key)
    ensures Follows(c, FSeqPairValue(inp, d, [open, key]))
  {
    hide Accept, Stack;
    PairStages(c, d, open, key, EmptyScalar(ORIGIN));
    ShapeFollows(c, d, [open, key], [InSequence, ValueNext], FSeqPairValue(inp, d, [open, key]));
  }

  /** The two entries of a pair's stack, seen from its own mapping. */
  lemma PairOpen(base: seq<Open>)
    ensures base + [InSequence, KeyNext] == base + [InSequence] + [KeyNext]
    ensures base + [InSequence, ValueNext] == base + [InSequence] + [ValueNext]
    ensures Flip(base + [InSequence, KeyNext]) == base + [InSequence, ValueNext]
    ensures Flip(base + [InSequence, ValueNext]) == base + [InSequence, KeyNext]
    ensures Flip(base + [InSequence]) == base + [InSequence]
  {
    assert base + [InSequence, KeyNext] == base + [InSequence] + [KeyNext];
    assert base + [InSequence, ValueNext] == base + [InSequence] + [ValueNext];
    FlipTop(base + [InSequence], KeyNext);
    FlipTop(base + [InSequence], ValueNext);
    FlipTop(base, InSequence);
  }

  lemma FSeqEntryFollows(inp: Input, c: Config, e: Event)
    requires c.state == FSeq(StFSeqLoop) && c.frames != [] && IsLeafEvent(e)
    ensures Follows(c, FSeqEntry(inp, c, e))
  {
    hide Accept, Stack, FlowSep;
    var node := Attach(e, c.props);
    var d := c.(props := NO_PROPS, pos := c.pos + 1);
    StageIn(c);
    AcceptNothing(StageOf(c));
    LeafMore(c, [], Base(c), InSequence, node);
    assert [] + [node] == [node];
    FlowSepFollows(inp, c, d, true, [node]);
    var k := d.(saved := node, state := FSeq(StFSeqEntryKey));
    StageIn(k);
  }

  lemma FSeqPropsFollows(inp: Input, c: Config)
    requires Inv(inp, c) && c.state == FSeq(StFSeqLoop)
    ensures Follows(c, FSeqProps(inp, c))
  {
    var r := ConsumeProps(inp.toks, c.pos, c.props);
    if r.PropsOk? {
      var e := Attach(EmptyScalar(inp.toks[r.pos].start), r.props);
      AcceptsLeaf(Base(c), InSequence, e, []);
      assert [e] + [] == [e];
      FlowSepFollows(inp, c, c.(props := NO_PROPS, pos := r.pos), true, [e]);
    }
  }

  lemma FSeqColonFollows(inp: Input, c: Config)
    requires Inv(inp, c) && c.state == FSeq(StFSeqLoop) && Sees(inp, c, TokMapValue)
    ensures Follows(c, StepFSeqLoop(inp, c))
  {
    hide Accept, Stack, FramesOk, PropsOkay, FSeqPairValue;
    InnerFrame(inp, c);
    StageIn(c);
    var key := Attach(EmptyScalar(inp.toks[c.pos].start), c.props);
    FSeqPairValueFollows(inp, c, c.(props := NO_PROPS, pos := c.pos + 1), FlowStart(MappingStart, key.start, key.start), key);
  }

  lemma FSeqNestedFollows(inp: Input, c: Config)
    requires Inv(inp, c) && c.state == FSeq(StFSeqLoop) && AtFlowStart(inp, c)
    ensures Follows(c, StepFSeqLoop(inp, c))
  {
    hide Accept, Stack;
    InnerFollows(c, StepFSeqLoop(inp, c));
  }

  lemma FlowSeqLoopFollows(inp: Input, c: Config)
    requires Inv(inp, c) && c.state == FSeq(StFSeqLoop)
    ensures Follows(c, StepFSeqLoop(inp, c))
  {
    if Has(inp, c.pos) {
      var t := inp.toks[c.pos];
      match t.typ
      case TokScalar => FSeqEntryFollows(inp, c, ScalarOf(t));
      case TokAlias => FSeqEntryFollows(inp, c, AliasOf(t));
      case TokTag | TokAnchor => FSeqPropsFollows(inp, c);
      case TokFlowSeqStart | TokFlowMapStart => FSeqNestedFollows(inp, c);
      case TokMapValue => FSeqColonFollows(inp, c);
      case _ =>
    }
  }

  lemma FlowSeqExplicitFollows(inp: Input, c: Config)
    requires Inv(inp, c) && c.state == FSeq(StFSeqExplicitKey)
    ensures Follows(c, StepFSeqExplicitKey(inp, c))
  {
    hide Accept, Stack;
    var t := inp.toks[c.pos];
    var open := FlowStart(MappingStart, t.start, t.end);
    StageIn(c);
    PairStages(c, c, open, EmptyScalar(ORIGIN), EmptyScalar(ORIGIN));
    ShapeFollows(c, c, [open], [InSequence, KeyNext], StepFSeqExplicitKey(inp, c));
  }

  lemma FSeqExplicitValueFollows(inp: Input, c: Config)
    requires Inv(inp, c) && c.state == FSeq(StFSeqExplicitValue)
    ensures Follows(c, StepFSeqExplicitValue(inp, c))
  {
    hide Accept, Stack;
    InnerFollows(c, StepFSeqExplicitValue(inp, c));
  }

  lemma FlowSeqFollows(inp: Input, c: Config, s: FlowSeqState)
    requires Inv(inp, c) && c.state == FSeq(s) && (s == StFSeqEntryKey || s == StFSeqSep)
    ensures Follows(c, StepFlow(inp, c))
  {
    if s == StFSeqEntryKey {
      FSeqPairValueFollows(inp, c, c.(pos := c.pos + 1), FlowStart(MappingStart, c.saved.start, c.saved.start), c.saved);
    }
  }

  lemma InnerFrame(inp: Input, c: Config)
    requires Inv(inp, c) && c.state.FSeq?
    ensures c.frames != []
  {}

  lemma FlowSeqPairEndFollows(inp: Input, c: Config, s: FlowSeqState)
    requires Inv(inp, c) && c.state == FSeq(s) && (s == StFSeqImplicitEnd || s == StFSeqExplicitEnd)
    ensures Follows(c, StepFSeqPairEnd(inp, c))
  {
    hide Accept, Stack, FramesOk, PropsOkay, StateOk, Inv;
    InnerFrame(inp, c);
    PairOpen(Base(c));
    StageIn(c);
    AcceptNothing(StageOf(c));
    if Has(inp, c.pos) {
      var d := c.(state := FSeq(StFSeqSep));
      assert Base(d) == Base(c);
      StageIn(d);
      AcceptClose(Base(c) + [InSequence], KeyNext, Simple(MappingEnd, inp.toks[c.pos].start, inp.toks[c.pos].start));
    }
  }

  lemma StreamFollows(inp: Input, c: Config, s: StreamState)
    requires Inv(inp, c) && c.state == Stream(s)
    ensures Follows(c, StepOf(inp, c))
  {
    forall e: Event ensures [e][1..] == [] {}
  }

  lemma EndAccepts(g: Stage, out: seq<Event>, e: Event)
    requires Accept(g, out) == Some(InDocument([], true)) && e.typ == DocEnd
    ensures Accept(g, out + [e]) == Some(Between)
  {
    hide Accept;
    assert [e] == [e] + [];
    AcceptCons(InDocument([], true), e, []);
    AcceptNothing(Between);
    AcceptConcat(g, out, [e]);
  }

  lemma EndDocumentFollows(inp: Input, c: Config, d: Config, out: seq<Event>)
    requires Accept(StageOf(c), out) == Some(InDocument([], true)) && |out| <= 1
    ensures Follows(c, EndDocument(inp, d, out))
  {
    hide Accept, Stack;
    AcceptNothing(StageOf(c));
    if Has(inp, d.pos) {
      var t := inp.toks[d.pos];
      EndAccepts(StageOf(c), out, DocEvent(DocEnd, false, t.start, t.end));
      EndAccepts(StageOf(c), out, DocEvent(DocEnd, true, t.start, t.start));
    }
  }

  lemma DocFollows(inp: Input, c: Config, s: DocState)
    requires Inv(inp, c) && c.state == Doc(s)
    ensures Follows(c, StepOf(inp, c))
  {
    hide Accept, FramesOk, EndDocument;
    AcceptNothing(StageOf(c));
    if s == StDocEndExplicit {
      EndDocumentFollows(inp, c, c, []);
    } else if Has(inp, c.pos) {
      var t := inp.toks[c.pos];
      EmptyRoot(EmptyScalar(t.start), DocEvent(DocEnd, true, t.start, t.start));
    }
  }

  /** A document with nothing in it. */
  lemma EmptyRoot(empty: Event, close: Event)
    requires IsLeafEvent(empty) && close.typ == DocEnd
    ensures Accept(InDocument([], false), [empty]) == Some(InDocument([], true))
    ensures Accept(InDocument([], false), [empty, close]) == Some(Between)
  {
    AcceptCons(InDocument([], false), empty, []);
    AcceptCons(InDocument([], false), empty, [close]);
    AcceptCons(InDocument([], true), close, []);
    assert [empty] + [] == [empty] && [close] + [] == [close] && [empty] + [close] == [empty, close];
  }

  lemma NodeLeafFollows(inp: Input, c: Config, e: Event, key: State)
    requires Inv(inp, c) && c.pos < |inp.toks| && IsLeafEvent(e)
    requires (c.state == Node(StNodeScalar) && key == Node(StNodeScalarKey))
          || (c.state == Node(StNodeAlias) && key == Node(StNodeAliasKey))
    ensures Follows(c, StepNodeLeaf(inp, c, e, key))
  {
    NodeFollows(c, c.(pos := c.pos + 1, state := c.nodeReturn), e);
  }

  lemma NodeKeyFollows(inp: Input, c: Config)
    requires Inv(inp, c) && (c.state == Node(StNodeScalarKey) || c.state == Node(StNodeAliasKey))
    ensures Follows(c, StepNodeKey(inp, c))
  {
    PushFollows(c, BlockMap, c.savedCol, Map(StMapValue), inp.toks[c.pos].start.line,
                Simple(MappingStart, c.saved.start, c.saved.start), [c.saved]);
  }

  lemma NodeSeqFollows(inp: Input, c: Config)
    requires Inv(inp, c) && c.state == Node(StNodeSeq)
    ensures Follows(c, StepNodeSeq(inp, c))
  {
    var t := inp.toks[c.pos];
    PushFollows(c, BlockSeq, t.Col(), Seq(StSeqLoop), t.start.line, Simple(SequenceStart, t.start, t.end), []);
  }

  lemma NodeExplicitKeyFollows(inp: Input, c: Config)
    requires Inv(inp, c) && c.state == Node(StNodeExplicitKey)
    ensures Follows(c, StepNodeExplicitKey(inp, c))
  {
    var t := inp.toks[c.pos];
    PushFollows(c, BlockMap, t.Col(), Map(StMapLoop), t.start.line, Simple(MappingStart, t.start, t.end), []);
  }

  lemma NodeBareValueFollows(inp: Input, c: Config)
    requires Inv(inp, c) && c.state == Node(StNodeBareValue)
    ensures Follows(c, StepNodeBareValue(inp, c))
  {
    var t := inp.toks[c.pos];
    PushFollows(c, BlockMap, t.Col(), Map(StMapValue), t.start.line, Simple(MappingStart, t.start, t.end), [EmptyScalar(t.start)]);
  }

  lemma NodeEmptyFollows(inp: Input, c: Config)
    requires Inv(inp, c) && c.state == Node(StNodeEmpty)
    ensures Follows(c, StepNodeEmpty(inp, c))
  {
    if Has(inp, c.pos) {
      NodeFollows(c, c.(state := c.nodeReturn), Simple(ScalarEvent, inp.toks[c.pos].start, inp.toks[c.pos].end));
    }
  }

  lemma BlockDispatchShape(inp: Input, c: Config)
    ensures var s := StepBlockNode(inp, c);
      s.out == [] && (s.Next? ==> (s.c.state.Node? || s.c.state == StFlowNode || s.c.state == StEagerDrain) && s.c == c.(state := s.c.state))
  {}

  lemma SameStage(c: Config, d: Config)
    requires c.frames == d.frames && c.nodeReturn == d.nodeReturn
    requires (c.state.Node? || c.state == StFlowNode) && (d.state.Node? || d.state == StFlowNode)
    ensures StageOf(c) == StageOf(d)
  {}

  lemma BlockDispatchFollows(inp: Input, c: Config)
    requires Inv(inp, c) && c.state == Node(StBlockNode)
    ensures Follows(c, StepBlockNode(inp, c))
  {
    BlockDispatchShape(inp, c);
    var s := StepBlockNode(inp, c);
    if s.Next? && s.c.state != StEagerDrain { SameStage(c, s.c); }
  }

  lemma BlockNodeFollows(inp: Input, c: Config, s: NodeState)
    requires Inv(inp, c) && c.state == Node(s)
    ensures Follows(c, StepOf(inp, c))
  {
    match s
    case StBlockNode => BlockDispatchFollows(inp, c);
    case StNodeScalar => NodeLeafFollows(inp, c, ScalarOf(inp.toks[c.pos]), Node(StNodeScalarKey));
    case StNodeAlias => NodeLeafFollows(inp, c, AliasOf(inp.toks[c.pos]), Node(StNodeAliasKey));
    case StNodeScalarKey | StNodeAliasKey => NodeKeyFollows(inp, c);
    case StNodeSeq => NodeSeqFollows(inp, c);
    case StNodeExplicitKey => NodeExplicitKeyFollows(inp, c);
    case StNodeBareValue => NodeBareValueFollows(inp, c);
    case StNodeEmpty => NodeEmptyFollows(inp, c);
  }

  lemma MapLoopShape(inp: Input, c: Config)
    requires Inv(inp, c) && c.state == Map(StMapLoop)
    ensures Shape(c, [], Opens(c.state), StepMapLoop(inp, c))
  {
    hide Accept, Stack, FramesOk;
  }

  lemma MapExplicitKeyShape(inp: Input, c: Config)
    requires Inv(inp, c) && c.state == Map(StMapExplicitKey)
    ensures Shape(c, [], Opens(c.state), StepMapExplicitKey(inp, c))
  {
    hide Accept, Stack, FramesOk;
  }

  lemma MapSimpleKeyShape(inp: Input, c: Config)
    requires Inv(inp, c) && c.state == Map(StMapSimpleKey)
    ensures Shape(c, [], Opens(c.state), StepMapSimpleKey(inp, c))
  {
    hide Accept, Stack, FramesOk;
  }

  lemma MapPostKeyShape(inp: Input, c: Config)
    requires Inv(inp, c) && c.state == Map(StMapPostKey)
    ensures Shape(c, [], Opens(c.state), StepMapPostKey(inp, c))
  {
    hide Accept, Stack, FramesOk;
  }

  lemma MapValueShape(inp: Input, c: Config)
    requires Inv(inp, c) && c.state == Map(StMapValue)
    ensures Shape(c, [], Opens(c.state), StepMapValue(inp, c))
  {
    hide Accept, Stack, FramesOk;
  }

  lemma BlockMapFollows(inp: Input, c: Config, s: MapState)
    requires Inv(inp, c) && c.state == Map(s) && s != StMapEnd
    ensures Follows(c, StepOf(inp, c))
  {
    hide Accept, Stack, Shape, StepMapLoop, StepMapExplicitKey, StepMapSimpleKey, StepMapPostKey, StepMapValue;
    match s {
      case StMapLoop => MapLoopShape(inp, c);
      case StMapExplicitKey => MapExplicitKeyShape(inp, c);
      case StMapSimpleKey => MapSimpleKeyShape(inp, c);
      case StMapPostKey => MapPostKeyShape(inp, c);
      case StMapValue => MapValueShape(inp, c);
    }
    InnerFollows(c, StepOf(inp, c));
  }

  lemma BlockSeqFollows(inp: Input, c: Config, s: SeqState)
    requires Inv(inp, c) && c.state == Seq(s) && s != StSeqEnd
    ensures Follows(c, StepOf(inp, c))
  {
    hide Accept, Stack;
    InnerFollows(c, StepOf(inp, c));
  }

  lemma BlockEndFollows(inp: Input, c: Config, typ: EventType)
    requires Inv(inp, c)
    requires (c.state == Map(StMapEnd) && typ == MappingEnd) || (c.state == Seq(StSeqEnd) && typ == SequenceEnd)
    ensures Follows(c, StepBlockEnd(inp, c, typ))
  {
    PopFrames(c.frames);
    if Has(inp, c.pos) {
      var close := Simple(typ, inp.toks[c.pos].start, inp.toks[c.pos].start);
      var d := c.(frames := c.frames[..|c.frames| - 1], state := c.frames[|c.frames| - 1].ret);
      EndFollows(c, d, close);
      if d.state == Doc(StDocEndExplicit) { EndDocumentFollows(inp, c, d, [close]); }
    }
  }

  /** Every step's events follow the grammar, at most three of them. */
  lemma StepFollows(inp: Input, c: Config)
    requires Inv(inp, c) && c.state != StEagerDrain
    ensures Follows(c, StepOf(inp, c))
  {
    match c.state
    case StFlowNode => FlowNodeFollows(inp, c);
    case FMap(s) =>
      if s == StFMapEnd { FlowEndFollows(inp, c, MappingEnd); }
      else if s == StFMapLoop { FlowMapLoopFollows(inp, c); }
      else { FlowMapFollows(inp, c, s); }
    case FSeq(s) =>
      match s {
       case StFSeqEnd => FlowEndFollows(inp, c, SequenceEnd);
       case StFSeqLoop => FlowSeqLoopFollows(inp, c);
       case StFSeqExplicitKey => FlowSeqExplicitFollows(inp, c);
       case StFSeqExplicitValue => FSeqExplicitValueFollows(inp, c);
       case StFSeqImplicitEnd | StFSeqExplicitEnd => FlowSeqPairEndFollows(inp, c, s);
       case _ => FlowSeqFollows(inp, c, s);
      }
    case Node(s) => BlockNodeFollows(inp, c, s);
    case Map(s) => if s == StMapEnd { BlockEndFollows(inp, c, MappingEnd); } else { BlockMapFollows(inp, c, s); }
    case Seq(s) => if s == StSeqEnd { BlockEndFollows(inp, c, SequenceEnd); } else { BlockSeqFollows(inp, c, s); }
    case Stream(s) => StreamFollows(inp, c, s);
    case Doc(s) => DocFollows(inp, c, s);
  }

  // ----- how many collections are open -----

  /** A pair mapping is open inside the flow sequence. */
  predicate InPair(s: State) {
    s.FSeq? && (s.inFSeq == StFSeqImplicitEnd || s.inFSeq == StFSeqExplicitEnd || s.inFSeq == StFSeqExplicitValue)
  }

  /** The state a frame's collection is in: what the frame above it returns to. */
  function FrameState(frames: seq<Frame>, s: State, i: nat): State
    requires i < |frames|
  {
    if i + 1 == |frames| then s else frames[i + 1].ret
  }

  /** The frames with an open pair. */
  function Pairs(frames: seq<Frame>, s: State): set<nat> {
    set i: nat | i < |frames| && InPair(FrameState(frames, s, i))
  }

  lemma PairsBelow(frames: seq<Frame>, s: State)
    requires frames != []
    ensures var n := |frames| - 1;
            Pairs(frames, s) == Pairs(frames[..n], frames[n].ret) + if InPair(s) then {n} else {}
  {
    var n := |frames| - 1;
    forall i: nat | i < n ensures FrameState(frames[..n], frames[n].ret, i) == FrameState(frames, s, i) {}
  }

  /** The open collections are the frames and one for each open pair: as many as
      the frames exactly when no pair is open, at most twice as many, and that
      exactly when there is a pair in every frame. */
  lemma {:induction false} OpenCollections(frames: seq<Frame>, s: State)
    requires FramesOk(frames)
    requires frames != [] ==> s.Map? || s.Seq? || s.FMap? || s.FSeq?
    ensures |Stack(frames, s)| == |frames| + |Pairs(frames, s)| <= 2 * |frames|
    ensures |Stack(frames, s)| == |frames| <==> forall i: nat | i < |frames| :: !InPair(FrameState(frames, s, i))
    ensures |Stack(frames, s)| == 2 * |frames| <==> forall i: nat | i < |frames| :: InPair(FrameState(frames, s, i))
    decreases |frames|
  {
    StackCount(frames, s);
    hide FramesOk, Stack, InPair;
    SomeOrAll(frames, s);
  }

  lemma {:induction false} StackCount(frames: seq<Frame>, s: State)
    requires FramesOk(frames)
    requires frames != [] ==> s.Map? || s.Seq? || s.FMap? || s.FSeq?
    ensures |Stack(frames, s)| == |frames| + |Pairs(frames, s)|
    decreases |frames|
  {
    if frames != [] {
      PopFrames(frames);
      StackCount(frames[..|frames| - 1], frames[|frames| - 1].ret);
      PairsBelow(frames, s);
    }
  }

  /** The pairs are none, or one in each frame, when their number says so. */
  lemma SomeOrAll(frames: seq<Frame>, s: State)
    ensures |Pairs(frames, s)| <= |frames|
    ensures |Pairs(frames, s)| == 0 <==> forall i: nat | i < |frames| :: !InPair(FrameState(frames, s, i))
    ensures |Pairs(frames, s)| == |frames| <==> forall i: nat | i < |frames| :: InPair(FrameState(frames, s, i))
  {
    hide FrameState, InPair;
    var pairs := Pairs(frames, s);
    AtMost(pairs, |frames|);
    assert forall i: nat | i < |frames| :: i in pairs <==> InPair(FrameState(frames, s, i));
    if |pairs| == 0 { assert pairs == {}; }
  }

  lemma {:induction false} AtMost(s: set<nat>, n: nat)
    requires forall i | i in s :: i < n
    ensures |s| <= n && (|s| == n <==> forall i: nat | i < n :: i in s)
  {
    if n > 0 {
      var rest := s - {n - 1};
      AtMost(rest, n - 1);
      assert n - 1 !in s ==> rest == s;
    }
  }
}
