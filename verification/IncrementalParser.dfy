/**
 * The incremental parser as an object: parser_step changes its fields one by
 * one. Each state's method is proved to make exactly the step of Machine, and
 * next_event to hand out the events of the run, each once and in order.
 */
module IncrementalParser {
  import opened Events
  import opened FlowGrammar
  import opened Machine
  import opened MachineInvariant
  import opened MachineTermination
  import opened MachineGrammar
  import opened MachineRun

  /** What a step reports: a scanner error and a refused frame let the events
      queued before them through, a parse error does not. */
  datatype Status = Fine | ScanError | Refused | ParseError

  /** What next_event hands out. */
  datatype Reply = Delivered(e: Event) | NoMore | WantsEager | Broken

  /** An empty node if the token at hand is outside the collection, else a pending one. */
  function ContentStep(inp: Input, d: Config, outside: bool, ret: State): Step
    requires Has(inp, d.pos)
  {
    var t := inp.toks[d.pos];
    if outside || t.typ == TokDocStart || t.typ == TokDocEnd || t.typ == TokStreamEnd then
      Next(d.(state := ret), [EmptyScalar(t.start)])
    else Next(d.(nodeReturn := ret, state := Node(StBlockNode)), [])
  }

  lemma MapValueStep(inp: Input, c: Config)
    requires Has(inp, c.pos) && inp.toks[c.pos].typ == TokMapValue
    ensures var colon := inp.toks[c.pos].start;
      StepMapValue(inp, c) ==
      if !Has(inp, c.pos + 1) then Failed([])
      else
        var t := inp.toks[c.pos + 1];
        ContentStep(inp, c.(pos := c.pos + 1, colonLine := colon.line, colonStartsLine := inp.startsLine(colon.offset)),
                    t.Col() < TopIndent(c) || (t.Col() == TopIndent(c) && t.typ != TokSeqEntry), Map(StMapLoop))
  {}

  lemma ColonStep(inp: Input, c: Config)
    requires Has(inp, c.pos) && inp.toks[c.pos].typ == TokMapValue
    ensures var key := Attach(EmptyScalar(inp.toks[c.pos].start), c.props);
      StepFSeqLoop(inp, c) ==
      FSeqPairValue(inp, c.(props := NO_PROPS, pos := c.pos + 1), [FlowStart(MappingStart, key.start, key.start), key])
  {}

  lemma MapKeyStep(inp: Input, c: Config)
    ensures StepMapExplicitKey(inp, c) ==
      if !Has(inp, c.pos) || !Has(inp, c.pos + 1) then Failed([])
      else
        var t := inp.toks[c.pos + 1];
        ContentStep(inp, c.(pos := c.pos + 1), t.Col() < TopIndent(c) || (t.Col() == TopIndent(c) && t.typ != TokSeqEntry), Map(StMapPostKey))
  {}

  class StepParser {
    const inp: Input
    var cur: Token           // the token last scanned
    var haveTok: bool        // it is not consumed yet
    var scanned: nat         // tokens scanned so far
    var state: State
    var frames: seq<Frame>
    var nodeReturn: State
    var props: Props
    var saved: Event
    var savedCol: int
    var docOpen: bool
    var docStartLine: nat
    var colonLine: nat
    var colonStartsLine: bool
    var unrollReturn: State
    var out: seq<Event>      // the 8-slot output buffer

    constructor (input: Input)
      ensures inp == input && TokensOk() && Cfg() == Initial() && out == []
    {
      inp := input;
      cur := Token(TokNone, "", None, Plain, ORIGIN, ORIGIN);
      haveTok, scanned := false, 0;
      state, frames, nodeReturn := Stream(StStreamStart), [], Stream(StStreamStart);
      props, saved, savedCol := NO_PROPS, Simple(ScalarEvent, ORIGIN, ORIGIN), 0;
      docOpen, docStartLine, colonLine, colonStartsLine := false, 0, 0, false;
      unrollReturn := Stream(StStreamStart);
      out := [];
    }

    predicate TokensOk()
      reads this
    {
      scanned <= |inp.toks| && (haveTok ==> scanned > 0 && cur == inp.toks[scanned - 1])
    }

    /** The configuration these fields stand for. */
    function Cfg(): Config
      reads this
      requires TokensOk()
    {
      Config(state, frames, nodeReturn, scanned - (if haveTok then 1 else 0), props, saved, savedCol,
             docOpen, docStartLine, colonLine, colonStartsLine, unrollReturn)
    }

    /** Ready for a step. */
    predicate Start()
      reads this
    {
      TokensOk() && out == [] && Cfg().pos <= |inp.toks|
    }

    /** The fields did what the step `s` says. */
    predicate Took(s: Step, st: Status)
      reads this
    {
      TokensOk() && (st == Fine <==> s.Next?) &&
      (st == Fine ==> Cfg() == s.c && out == s.out) &&
      (st == ParseError ==> s.out == []) &&
      (st == ScanError || st == Refused ==> out == s.out)
    }

    // ----- tokens, events and frames -----

    /** Scans the next token unless one is held. */
    method Peek() returns (st: Status)
      requires TokensOk()
      modifies this`cur, this`haveTok, this`scanned
      ensures TokensOk() && Cfg() == old(Cfg())
      ensures st == Fine || st == ScanError
      ensures st == Fine <==> Has(inp, Cfg().pos)
      ensures st == Fine ==> haveTok && cur == inp.toks[Cfg().pos]
    {
      if haveTok { return Fine; }
      if scanned == |inp.toks| { return ScanError; }
      cur, haveTok, scanned := inp.toks[scanned], true, scanned + 1;
      st := Fine;
    }

    /** The token held is the one at the position. */
    lemma Held()
      requires TokensOk() && haveTok
      ensures Has(inp, Cfg().pos) && cur == inp.toks[Cfg().pos]
    {}

    lemma PropsHeld()
      requires TokensOk()
      ensures props == Cfg().props && Cfg().pos <= |inp.toks|
    {}

    method Consume()
      requires TokensOk() && haveTok
      modifies this`haveTok
      ensures TokensOk() && !haveTok && Cfg() == old(Cfg()).(pos := old(Cfg()).pos + 1)
    {
      haveTok := false;
    }

    method Goto(s: State)
      requires TokensOk()
      modifies this`state
      ensures TokensOk() && Cfg() == old(Cfg()).(state := s)
    {
      state := s;
    }

    /** Back from a node. */
    method Return()
      requires TokensOk()
      modifies this`state
      ensures TokensOk() && Cfg() == old(Cfg()).(state := old(Cfg()).nodeReturn)
    {
      state := nodeReturn;
    }

    /** A node is pending in state `s`; after it comes `ret`. */
    method Await(ret: State, s: State)
      requires TokensOk()
      modifies this`nodeReturn, this`state
      ensures TokensOk() && Cfg() == old(Cfg()).(nodeReturn := ret, state := s)
    {
      nodeReturn, state := ret, s;
    }

    /** The event is kept as a key. */
    method SaveKey(e: Event, s: State)
      requires TokensOk()
      modifies this`saved, this`state
      ensures TokensOk() && Cfg() == old(Cfg()).(saved := e, state := s)
    {
      saved, state := e, s;
    }

    /** A leaf at column `col` that is a mapping's first key. */
    method SaveFirst(e: Event, col: int, s: State)
      requires TokensOk()
      modifies this`saved, this`savedCol, this`state
      ensures TokensOk() && Cfg() == old(Cfg()).(saved := e, savedCol := col, state := s)
    {
      saved, savedCol, state := e, col, s;
    }

    /** A full buffer drops the event. */
    method Emit(e: Event)
      requires TokensOk()
      modifies this`out
      ensures TokensOk() && Cfg() == old(Cfg())
      ensures out == if |old(out)| < 8 then old(out) + [e] else old(out)
      ensures old(out) == [] ==> out == [e]
    {
      if |out| < 8 { out := out + [e]; }
    }

    method EmitWithProps(e: Event)
      requires TokensOk() && |out| < 8
      modifies this`out, this`props
      ensures TokensOk() && Cfg() == old(Cfg()).(props := NO_PROPS) && props == NO_PROPS
      ensures out == old(out) + [Attach(e, old(Cfg()).props)]
      ensures old(out) == [] ==> out == [Attach(e, old(Cfg()).props)]
    {
      Emit(Attach(e, props));
      props := NO_PROPS;
    }

    /** inc_push_frame; the collection's events are queued already. */
    method Push(typ: FrameType, indent: int, s: State, line: nat) returns (st: Status)
      requires TokensOk()
      modifies this`frames, this`state
      ensures TokensOk() && Took(PushFrame(old(Cfg()), typ, indent, s, line, out), st)
    {
      if (typ == BlockMap || typ == BlockSeq) && docStartLine != 0 && line == docStartLine { return Refused; }
      frames := frames + [Frame(typ, indent, nodeReturn)];
      state := s;
      st := Fine;
    }

    method Pop() returns (f: Frame)
      requires frames != []
      modifies this`frames
      ensures f == old(frames)[|old(frames)| - 1] && frames == old(frames)[..|old(frames)| - 1]
    {
      f := frames[|frames| - 1];
      frames := frames[..|frames| - 1];
    }

    method SetProps(p: Props)
      requires TokensOk()
      modifies this`props
      ensures TokensOk() && Cfg() == old(Cfg()).(props := p) && props == p
    {
      props := p;
    }

    method TakeProps() returns (st: Status)
      requires TokensOk()
      modifies this`cur, this`haveTok, this`scanned, this`props
      ensures TokensOk()
      ensures var r := ConsumeProps(inp.toks, old(Cfg()).pos, old(Cfg()).props);
        st in {Fine, ScanError, ParseError} && (st == Fine <==> r.PropsOk?) &&
        (st == Fine ==> haveTok && Cfg() == old(Cfg()).(pos := r.pos, props := r.props))
    {
      hide TokensOk, Cfg;
      PropsHeld();
      while true
        invariant TokensOk() && props == Cfg().props && Cfg() == old(Cfg()).(pos := Cfg().pos, props := props)
        invariant Cfg().pos <= |inp.toks|
        invariant ConsumeProps(inp.toks, Cfg().pos, props) == ConsumeProps(inp.toks, old(Cfg()).pos, old(Cfg()).props)
        decreases |inp.toks| - Cfg().pos
      {
        st := Peek();
        if st != Fine { return; }
        if cur.typ == TokAnchor && props.anchor.None? {
          SetProps(Props(Some(cur.value), props.tag, if props.tag.None? then cur.start else props.start));
          Consume();
        } else if cur.typ == TokTag && props.tag.None? {
          if cur.tag.None? { return ParseError; }
          SetProps(Props(props.anchor, cur.tag, if props.anchor.None? then cur.start else props.start));
          Consume();
        } else {
          return if cur.typ == TokAlias && props.Any() then ParseError else Fine;
        }
      }
    }

    // ----- flow states -----

    /** inc_flow_sep */
    method DoFlowSep(inSeq: bool) returns (st: Status)
      requires TokensOk()
      modifies this`cur, this`haveTok, this`scanned, this`state
      ensures Took(FlowSep(inp, old(Cfg()), inSeq, out), st)
    {
      hide Cfg, TokensOk;
      st := Peek();
      if st != Fine { return; }
      if cur.typ == TokFlowEntry {
        Consume();
        Goto(if inSeq then FSeq(StFSeqLoop) else FMap(StFMapLoop));
      } else if cur.typ == (if inSeq then TokFlowSeqEnd else TokFlowMapEnd) {
        Goto(if inSeq then FSeq(StFSeqEnd) else FMap(StFMapEnd));
      } else {
        Goto(if inSeq then FSeq(StFSeqSep) else FMap(StFMapSep));
      }
    }

    /** inc_flow_map_value */
    method DoFlowMapValue() returns (st: Status)
      requires TokensOk() && |out| < 8
      modifies this
      ensures Took(FlowMapValue(inp, old(Cfg()), old(out)), st)
    {
      hide Cfg, TokensOk;
      st := Peek();
      if st != Fine { return; }
      if cur.typ == TokScalar {
        st := DoScalarValue();
      } else if cur.typ == TokFlowEntry || cur.typ == TokFlowMapEnd {
        Emit(EmptyScalar(cur.start));
        Goto(FMap(StFMapSep));
      } else {
        Await(FMap(StFMapSep), StFlowNode);
      }
    }

    method DoScalarValue() returns (st: Status)
      requires TokensOk() && |out| < 8 && haveTok && cur.typ == TokScalar
      modifies this
      ensures Took(FlowMapValue(inp, old(Cfg()), old(out)), st)
    {
      hide FlowSep;
      EmitWithProps(ScalarOf(cur));
      Consume();
      assert Cfg() == old(Cfg()).(pos := old(Cfg()).pos + 1, props := NO_PROPS);
      st := DoFlowSep(false);
    }

    method DoFlowNode() returns (st: Status)
      requires Start()
      modifies this
      ensures Took(StepFlowNode(inp, old(Cfg())), st)
    {
      st := Peek();
      if st != Fine { return; }
      if cur.typ == TokTag || cur.typ == TokAnchor {
        st := TakeProps();
        if st != Fine { return; }
      }
      st := DoFlowNodeAt();
    }

    method DoFlowNodeAt() returns (st: Status)
      requires Start() && haveTok
      modifies this
      ensures Took(FlowNodeAt(inp, old(Cfg())), st)
    {
      hide Cfg, TokensOk, Attach, PushFrame;
      Held();
      if cur.typ == TokFlowSeqStart || cur.typ == TokFlowMapStart {
        st := DoFlowOpen(cur.typ == TokFlowSeqStart);
      } else {
        ghost var c := Cfg();
        var t := cur;
        st := Fine;
        if t.typ == TokScalar || t.typ == TokAlias {
          EmitWithProps(if t.typ == TokScalar then ScalarOf(t) else AliasOf(t));
          Consume();
        } else {
          EmitWithProps(EmptyScalar(t.start));
        }
        Return();
        assert Cfg() == c.(props := NO_PROPS, pos := Cfg().pos, state := c.nodeReturn);
      }
    }

    method DoFlowOpen(isSeq: bool) returns (st: Status)
      requires Start() && haveTok && cur.typ == (if isSeq then TokFlowSeqStart else TokFlowMapStart)
      modifies this
      ensures Took(FlowNodeAt(inp, old(Cfg())), st)
    {
      hide Cfg, TokensOk;
      Held();
      var t := cur;
      EmitWithProps(FlowStart(if isSeq then SequenceStart else MappingStart, t.start, t.end));
      Consume();
      st := Push(if isSeq then FlowSequence else FlowMapping, t.Col(),
                 if isSeq then FSeq(StFSeqLoop) else FMap(StFMapLoop), t.start.line);
    }

    method DoFMapLoop() returns (st: Status)
      requires Start()
      modifies this
      ensures Took(StepFMapLoop(inp, old(Cfg())), st)
    {
      hide Cfg, TokensOk;
      st := Peek();
      if st != Fine { return; }
      match cur.typ
      case TokFlowMapEnd => Goto(FMap(StFMapEnd));
      case TokFlowEntry => st := ParseError;
      case TokMapKey => st := DoFMapExplicitKey();
      case TokScalar => st := DoFMapScalarKey();
      case _ => Await(FMap(StFMapValue), StFlowNode);
    }

    method DoFMapExplicitKey() returns (st: Status)
      requires Start() && haveTok && cur.typ == TokMapKey
      modifies this
      ensures Took(StepFMapLoop(inp, old(Cfg())), st)
    {
      hide Cfg, TokensOk;
      Held();
      Consume();
      st := Peek();
      if st != Fine { return; }
      DoFlowContent(cur.typ == TokMapValue || cur.typ == TokFlowEntry || cur.typ == TokFlowMapEnd, FMap(StFMapValue));
    }

    /** What follows a '?' inside brackets: nothing, or a flow node. */
    method DoFlowContent(absent: bool, ret: State)
      requires TokensOk() && haveTok && |out| < 8
      modifies this`out, this`state, this`nodeReturn
      ensures TokensOk()
      ensures var c := old(Cfg());
        if absent then Cfg() == c.(state := ret) && out == old(out) + [EmptyScalar(cur.start)]
        else Cfg() == c.(nodeReturn := ret, state := StFlowNode) && out == old(out)
    {
      hide Cfg, TokensOk;
      if absent {
        Emit(EmptyScalar(cur.start));
        Goto(ret);
      } else {
        Await(ret, StFlowNode);
      }
    }

    /** The common case: a scalar key, and its value too when that is a scalar. */
    method DoFMapScalarKey() returns (st: Status)
      requires Start() && haveTok && cur.typ == TokScalar
      modifies this
      ensures Took(StepFMapLoop(inp, old(Cfg())), st)
    {
      hide FlowMapValue, Cfg, TokensOk;
      Held();
      ghost var c := Cfg();
      EmitWithProps(ScalarOf(cur));
      Consume();
      Goto(FMap(StFMapValue));
      ghost var d := Cfg();
      assert d == c.(pos := c.pos + 1, props := NO_PROPS, state := FMap(StFMapValue));
      st := Peek();
      if st != Fine || cur.typ != TokMapValue { return; }
      Consume();
      assert StepFMapLoop(inp, c) == FlowMapValue(inp, d.(pos := d.pos + 1), out);
      st := DoFlowMapValue();
    }

    method DoFMapValue() returns (st: Status)
      requires Start()
      modifies this
      ensures Took(StepFMapValue(inp, old(Cfg())), st)
    {
      hide FlowMapValue, Cfg, TokensOk;
      st := Peek();
      if st != Fine { return; }
      if cur.typ == TokMapValue {
        Consume();
        assert Cfg() == old(Cfg()).(pos := old(Cfg()).pos + 1);
        st := DoFlowMapValue();
      } else {
        Emit(EmptyScalar(cur.start));
        Goto(FMap(StFMapSep));
      }
    }

    method DoSep(inSeq: bool) returns (st: Status)
      requires Start()
      modifies this
      ensures Took(if inSeq then StepFSeqSep(inp, old(Cfg())) else StepFMapSep(inp, old(Cfg())), st)
    {
      hide Cfg, TokensOk;
      st := Peek();
      if st != Fine { return; }
      if cur.typ == TokFlowEntry {
        Consume();
      } else if cur.typ != (if inSeq then TokFlowSeqEnd else TokFlowMapEnd) {
        return ParseError;
      }
      Goto(if inSeq then FSeq(StFSeqLoop) else FMap(StFMapLoop));
    }

    method DoFlowEnd(typ: EventType) returns (st: Status)
      requires Start() && frames != []
      modifies this
      ensures Took(StepFlowEnd(inp, old(Cfg()), typ), st)
    {
      hide FlowSep;
      ghost var c := Cfg();
      st := Peek();
      if st != Fine { return; }
      Emit(Simple(typ, cur.start, cur.end));
      Consume();
      var f := Pop();
      Goto(f.ret);
      ghost var d := Cfg();
      assert d == c.(pos := c.pos + 1, frames := c.frames[..|c.frames| - 1], state := f.ret);
      if state == FSeq(StFSeqSep) {
        assert StepFlowEnd(inp, c, typ) == FlowSep(inp, d, true, out);
        st := DoFlowSep(true);
      } else if state == FMap(StFMapSep) {
        assert StepFlowEnd(inp, c, typ) == FlowSep(inp, d, false, out);
        st := DoFlowSep(false);
      }
    }

    method DoFSeqLoop() returns (st: Status)
      requires Start()
      modifies this
      ensures Took(StepFSeqLoop(inp, old(Cfg())), st)
    {
      hide FSeqEntry, FSeqNested, FSeqPairValue, FSeqProps;
      st := Peek();
      if st != Fine { return; }
      match cur.typ
      case TokFlowSeqEnd => Goto(FSeq(StFSeqEnd));
      case TokMapKey =>
        if props.Any() { return ParseError; }
        Goto(FSeq(StFSeqExplicitKey));
      case TokScalar => st := DoFSeqEntry(ScalarOf(cur));
      case TokAlias => st := DoFSeqEntry(AliasOf(cur));
      case TokFlowSeqStart => DoFSeqNested();
      case TokFlowMapStart => DoFSeqNested();
      case TokMapValue => st := DoFSeqColon();
      case TokTag => st := DoFSeqProps();
      case TokAnchor => st := DoFSeqProps();
      case _ => st := ParseError;
    }

    /** A pair begins with its key. */
    method EmitPair(key: Event)
      requires TokensOk() && out == []
      modifies this`out
      ensures TokensOk() && Cfg() == old(Cfg()) && out == [FlowStart(MappingStart, key.start, key.start), key]
    {
      hide Cfg, TokensOk;
      Emit(FlowStart(MappingStart, key.start, key.start));
      Emit(key);
    }

    /** An entry that begins with ':' has an empty key. */
    method DoFSeqColon() returns (st: Status)
      requires Start() && haveTok && cur.typ == TokMapValue
      modifies this
      ensures Took(StepFSeqLoop(inp, old(Cfg())), st)
    {
      hide FSeqPairValue, StepFSeqLoop, Cfg, TokensOk, Attach;
      Held();
      PropsHeld();
      ColonStep(inp, Cfg());
      var key := Attach(EmptyScalar(cur.start), props);
      SetProps(NO_PROPS);
      EmitPair(key);
      Consume();
      assert Cfg() == old(Cfg()).(props := NO_PROPS, pos := old(Cfg()).pos + 1);
      st := DoFSeqPairValue();
    }

    method DoFSeqNested()
      requires Start() && haveTok
      modifies this
      ensures Took(FSeqNested(inp, old(Cfg()), old(cur)), Fine)
    {
      if inp.isKey(cur.start.offset) {
        Goto(StEagerDrain);
      } else {
        Await(FSeq(StFSeqSep), StFlowNode);
      }
    }

    method DoFSeqEntry(e: Event) returns (st: Status)
      requires Start() && haveTok
      modifies this
      ensures Took(FSeqEntry(inp, old(Cfg()), e), st)
    {
      hide FlowSep;
      var node := Attach(e, props);
      props := NO_PROPS;
      Consume();
      assert Cfg() == old(Cfg()).(props := NO_PROPS, pos := old(Cfg()).pos + 1);
      st := Peek();
      if st != Fine { return; }
      if cur.typ == TokMapValue {
        SaveKey(node, FSeq(StFSeqEntryKey));
      } else {
        Emit(node);
        st := DoFlowSep(true);
      }
    }

    method DoFSeqProps() returns (st: Status)
      requires Start()
      modifies this
      ensures Took(FSeqProps(inp, old(Cfg())), st)
    {
      hide FlowSep, ConsumeProps;
      st := TakeProps();
      if st != Fine { return; }
      if cur.typ == TokFlowEntry || cur.typ == TokFlowSeqEnd {
        EmitWithProps(EmptyScalar(cur.start));
        assert Cfg() == old(Cfg()).(props := NO_PROPS, pos := Cfg().pos);
        st := DoFlowSep(true);
      } else if cur.typ == TokTag || cur.typ == TokAnchor {
        st := ParseError;
      }
    }

    method DoFSeqPairValue() returns (st: Status)
      requires TokensOk() && |out| < 8
      modifies this
      ensures Took(FSeqPairValue(inp, old(Cfg()), old(out)), st)
    {
      hide Cfg, TokensOk;
      st := Peek();
      if st != Fine { return; }
      if cur.typ == TokFlowEntry || cur.typ == TokFlowSeqEnd {
        Emit(EmptyScalar(cur.start));
        Goto(FSeq(StFSeqImplicitEnd));
      } else {
        Await(FSeq(StFSeqImplicitEnd), StFlowNode);
      }
    }

    method DoFSeqEntryKey() returns (st: Status)
      requires Start() && Has(inp, Cfg().pos)
      modifies this
      ensures Took(StepFSeqEntryKey(inp, old(Cfg())), st)
    {
      hide FSeqPairValue;
      EmitPair(saved);
      st := Peek();
      Consume();
      assert Cfg() == old(Cfg()).(pos := old(Cfg()).pos + 1);
      st := DoFSeqPairValue();
    }

    method DoFSeqPairEnd() returns (st: Status)
      requires Start()
      modifies this
      ensures Took(StepFSeqPairEnd(inp, old(Cfg())), st)
    {
      hide Cfg, TokensOk;
      st := Peek();
      if st != Fine { return; }
      Emit(Simple(MappingEnd, cur.start, cur.start));
      Goto(FSeq(StFSeqSep));
    }

    method DoFSeqExplicitKey() returns (st: Status)
      requires Start()
      modifies this
      ensures Took(StepFSeqExplicitKey(inp, old(Cfg())), st)
    {
      hide Cfg, TokensOk;
      st := Peek();
      if st != Fine { return; }
      Emit(FlowStart(MappingStart, cur.start, cur.end));
      Consume();
      assert Cfg() == old(Cfg()).(pos := old(Cfg()).pos + 1);
      st := Peek();
      if st != Fine { return; }
      DoFlowContent(cur.typ == TokMapValue || cur.typ == TokFlowEntry || cur.typ == TokFlowSeqEnd, FSeq(StFSeqExplicitValue));
    }

    method DoFSeqExplicitValue() returns (st: Status)
      requires Start()
      modifies this
      ensures Took(StepFSeqExplicitValue(inp, old(Cfg())), st)
    {
      hide Cfg, TokensOk;
      st := Peek();
      if st != Fine { return; }
      if cur.typ != TokMapValue {
        Emit(EmptyScalar(cur.start));
        Goto(FSeq(StFSeqExplicitEnd));
        return;
      }
      Consume();
      assert Cfg() == old(Cfg()).(pos := old(Cfg()).pos + 1);
      st := DoFSeqExplicitTail();
    }

    /** After the ':' of an explicit pair. */
    method DoFSeqExplicitTail() returns (st: Status)
      requires Start()
      modifies this
      ensures var d := old(Cfg());
        Took(if !Has(inp, d.pos) then Failed([])
             else if inp.toks[d.pos].typ == TokFlowEntry || inp.toks[d.pos].typ == TokFlowSeqEnd
             then Machine.Emit(d, FSeq(StFSeqExplicitEnd), EmptyScalar(inp.toks[d.pos].start))
             else Next(d.(nodeReturn := FSeq(StFSeqExplicitEnd), state := StFlowNode), []), st)
    {
      hide Cfg, TokensOk;
      st := Peek();
      if st != Fine { return; }
      if cur.typ == TokFlowEntry || cur.typ == TokFlowSeqEnd {
        Emit(EmptyScalar(cur.start));
        Goto(FSeq(StFSeqExplicitEnd));
      } else {
        Await(FSeq(StFSeqExplicitEnd), StFlowNode);
      }
    }

    // ----- stream and document states -----

    method DoStream(s: StreamState) returns (st: Status)
      requires Start() && Inv(inp, Cfg()) && state == Stream(s) && s != StDone
      modifies this
      ensures Took(StepOf(inp, old(Cfg())), st)
    {
      match s
      case StStreamStart => st := DoStreamEdge(StreamStart, StDocLoop);
      case StStreamEnd => st := DoStreamEdge(StreamEnd, StDone);
      case StDocLoop =>
        st := Peek();
        if st != Fine { return; }
        Goto(Stream(if cur.typ == TokStreamEnd then StStreamEnd else StDocDirectives));
      case StDocDirectives => st := DoDirectives();
      case StDocStartExplicit => st := DoDocStart(true);
      case StDocStartImplicit => st := DoDocStart(false);
    }

    method DoStreamEdge(typ: EventType, next: StreamState) returns (st: Status)
      requires Start() && ((typ == StreamStart && next == StDocLoop) || (typ == StreamEnd && next == StDone))
      modifies this
      ensures Took(if typ == StreamStart then StepStreamStart(inp, old(Cfg())) else StepStreamEnd(inp, old(Cfg())), st)
    {
      hide Cfg, TokensOk;
      st := Peek();
      if st != Fine { return; }
      Emit(Simple(typ, cur.start, cur.end));
      Consume();
      Goto(Stream(next));
    }

    method DoDirectives() returns (st: Status)
      requires Start()
      modifies this
      ensures Took(StepDocDirectives(inp, old(Cfg())), st)
    {
      hide Cfg, TokensOk;
      st := Peek();
      if st != Fine { return; }
      if cur.typ == TokDirective { Goto(StEagerDrain); }
      else if cur.typ == TokDocStart { Goto(Stream(StDocStartExplicit)); }
      else if cur.typ == TokStreamEnd { Goto(Stream(StStreamEnd)); }
      else if cur.typ == TokDocEnd {
        Consume();
        Goto(Stream(StDocLoop));
      }
      else { Goto(Stream(StDocStartImplicit)); }
    }

    /** The invariant keeps the document closed here, so there is none to end first. */
    method DoDocStart(explicit: bool) returns (st: Status)
      requires Start() && !docOpen
      modifies this
      ensures Took(StepDocStart(inp, old(Cfg()), explicit), st)
    {
      st := Peek();
      if st != Fine { return; }
      var t := cur;
      if explicit {
        Consume();
        Emit(DocEvent(DocStart, false, t.start, t.end));
        EnterDocument(t.start.line);
      } else {
        Emit(DocEvent(DocStart, true, t.start, t.start));
        EnterDocument(0);
      }
    }

    method DoDocContent() returns (st: Status)
      requires Start()
      modifies this
      ensures Took(StepDocContent(inp, old(Cfg())), st)
    {
      hide Cfg, TokensOk;
      st := Peek();
      if st != Fine { return; }
      match cur.typ
      case TokDocEnd =>
        Emit(EmptyScalar(cur.start));
        Goto(Doc(StDocEndExplicit));
      case TokDocStart => EmptyDocument(StDocLoop);
      case TokStreamEnd => EmptyDocument(StStreamEnd);
      case _ => Await(Doc(StDocEndExplicit), Node(StBlockNode));
    }

    method EmptyDocument(next: StreamState)
      requires Start() && haveTok
      modifies this`out, this`docOpen, this`state
      ensures TokensOk() && out == [EmptyScalar(cur.start), DocEvent(DocEnd, true, cur.start, cur.start)]
      ensures Cfg() == old(Cfg()).(docOpen := false, state := Stream(next))
    {
      hide Cfg, TokensOk;
      Emit(EmptyScalar(cur.start));
      Emit(DocEvent(DocEnd, true, cur.start, cur.start));
      LeaveDocument(next);
    }

    method LeaveDocument(next: StreamState)
      requires TokensOk()
      modifies this`docOpen, this`state
      ensures TokensOk() && Cfg() == old(Cfg()).(docOpen := false, state := Stream(next))
    {
      docOpen, state := false, Stream(next);
    }

    method EnterDocument(line: nat)
      requires TokensOk()
      modifies this`docOpen, this`docStartLine, this`state
      ensures TokensOk() && Cfg() == old(Cfg()).(docOpen := true, docStartLine := line, state := Doc(StDocContent))
    {
      docOpen, docStartLine, state := true, line, Doc(StDocContent);
    }

    /** inc_end_document */
    method DoEndDocument() returns (st: Status)
      requires TokensOk() && |out| < 8
      modifies this
      ensures Took(EndDocument(inp, old(Cfg()), old(out)), st)
    {
      hide Cfg, TokensOk;
      st := Peek();
      if st != Fine { return; }
      match cur.typ
      case TokDocEnd => CloseDocument(DocEvent(DocEnd, false, cur.start, cur.end), true);
      case TokDocStart => CloseDocument(DocEvent(DocEnd, true, cur.start, cur.start), false);
      case TokStreamEnd => CloseDocument(DocEvent(DocEnd, true, cur.start, cur.start), false);
      case _ => st := ParseError;
    }

    method CloseDocument(e: Event, consume: bool)
      requires TokensOk() && haveTok && |out| < 8
      modifies this`haveTok, this`out, this`docOpen, this`state
      ensures TokensOk() && out == old(out) + [e]
      ensures var c := old(Cfg());
        Cfg() == c.(pos := if consume then c.pos + 1 else c.pos, docOpen := false, state := Stream(StDocLoop))
    {
      hide Cfg, TokensOk;
      if consume { Consume(); }
      Emit(e);
      LeaveDocument(StDocLoop);
    }

    // ----- block states -----

    method DoBlockNode() returns (st: Status)
      requires Start()
      modifies this
      ensures Took(StepBlockNode(inp, old(Cfg())), st)
    {
      hide Cfg, TokensOk;
      st := Peek();
      if st != Fine { return; }
      match cur.typ
      case TokTag => Goto(StEagerDrain);
      case TokAnchor => Goto(StEagerDrain);
      case TokAlias => Goto(Node(StNodeAlias));
      case TokSeqEntry => Goto(Node(StNodeSeq));
      case TokMapKey => Goto(Node(StNodeExplicitKey));
      case TokMapValue => Goto(Node(StNodeBareValue));
      case TokFlowSeqStart => DoBlockNodeFlow();
      case TokFlowMapStart => DoBlockNodeFlow();
      case TokScalar => Goto(Node(StNodeScalar));
      case TokFlowSeqEnd => st := ParseError;
      case TokFlowMapEnd => st := ParseError;
      case TokFlowEntry => st := ParseError;
      case TokDirective => st := ParseError;
      case _ => Goto(Node(StNodeEmpty));
    }

    method DoBlockNodeFlow()
      requires Start() && haveTok
      modifies this
      ensures Took(BlockNodeFlow(inp, old(Cfg()), old(cur)), Fine)
    {
      var afterKey := nodeReturn == Map(StMapLoop) && cur.start.line == colonLine && !colonStartsLine;
      Goto(if afterKey || !inp.isKey(cur.start.offset) then StFlowNode else StEagerDrain);
    }

    method DoNodeLeaf(alias: bool) returns (st: Status)
      requires Start() && Has(inp, Cfg().pos)
      modifies this
      ensures var c := old(Cfg());
        Took(if alias then StepNodeLeaf(inp, c, AliasOf(inp.toks[c.pos]), Node(StNodeAliasKey))
             else StepNodeLeaf(inp, c, ScalarOf(inp.toks[c.pos]), Node(StNodeScalarKey)), st)
    {
      hide Cfg, TokensOk;
      st := Peek();
      var e := if alias then AliasOf(cur) else ScalarOf(cur);
      var col := cur.Col();
      Consume();
      st := Peek();
      if st != Fine { return; }
      if cur.typ == TokMapValue && cur.start.line == e.start.line {
        SaveFirst(e, col, Node(if alias then StNodeAliasKey else StNodeScalarKey));
      } else {
        Emit(e);
        Return();
      }
    }

    method DoNodeKey() returns (st: Status)
      requires Start() && Has(inp, Cfg().pos)
      modifies this
      ensures Took(StepNodeKey(inp, old(Cfg())), st)
    {
      Emit(Simple(MappingStart, saved.start, saved.start));
      Emit(saved);
      st := Peek();
      st := Push(BlockMap, savedCol, Map(StMapValue), cur.start.line);
    }

    method DoNodeSeq() returns (st: Status)
      requires Start()
      modifies this
      ensures Took(StepNodeSeq(inp, old(Cfg())), st)
    {
      hide Cfg, TokensOk;
      st := Peek();
      if st != Fine { return; }
      Emit(Simple(SequenceStart, cur.start, cur.end));
      st := Push(BlockSeq, cur.Col(), Seq(StSeqLoop), cur.start.line);
    }

    method DoNodeExplicitKey() returns (st: Status)
      requires Start()
      modifies this
      ensures Took(StepNodeExplicitKey(inp, old(Cfg())), st)
    {
      hide Cfg, TokensOk;
      st := Peek();
      if st != Fine { return; }
      Emit(Simple(MappingStart, cur.start, cur.end));
      st := Push(BlockMap, cur.Col(), Map(StMapLoop), cur.start.line);
    }

    method DoNodeBareValue() returns (st: Status)
      requires Start()
      modifies this
      ensures Took(StepNodeBareValue(inp, old(Cfg())), st)
    {
      st := Peek();
      if st != Fine { return; }
      Emit(Simple(MappingStart, cur.start, cur.end));
      Emit(EmptyScalar(cur.start));
      st := Push(BlockMap, cur.Col(), Map(StMapValue), cur.start.line);
    }

    method DoNodeEmpty() returns (st: Status)
      requires Start()
      modifies this
      ensures Took(StepNodeEmpty(inp, old(Cfg())), st)
    {
      hide Cfg, TokensOk;
      st := Peek();
      if st != Fine { return; }
      Emit(Simple(ScalarEvent, cur.start, cur.end));
      Return();
    }

    function Indent(): (i: int)
      requires TokensOk()
      reads this
      ensures i == TopIndent(Cfg())
    {
      if frames == [] then 0 else frames[|frames| - 1].indent
    }

    method DoMapLoop() returns (st: Status)
      requires Start()
      modifies this
      ensures Took(StepMapLoop(inp, old(Cfg())), st)
    {
      hide Cfg, TokensOk;
      st := Peek();
      if st != Fine { return; }
      var here := cur.Col() == Indent();
      if cur.typ == TokMapKey && here { Goto(Map(StMapExplicitKey)); }
      else if (cur.typ == TokScalar || cur.typ == TokAlias) && here { Goto(Map(StMapSimpleKey)); }
      else if cur.typ == TokMapValue && here {
        Emit(EmptyScalar(cur.start));
        Goto(Map(StMapValue));
      }
      else if cur.typ in {TokTag, TokAnchor, TokFlowSeqStart, TokFlowMapStart} { Goto(StEagerDrain); }
      else { Goto(Map(StMapEnd)); }
    }

    method DoMapExplicitKey() returns (st: Status)
      requires Start()
      modifies this
      ensures Took(StepMapExplicitKey(inp, old(Cfg())), st)
    {
      hide StepMapExplicitKey, ContentStep, Cfg, TokensOk;
      MapKeyStep(inp, Cfg());
      st := Peek();
      if st != Fine { return; }
      Consume();
      st := Peek();
      if st != Fine { return; }
      DoContent(cur.Col() < Indent() || (cur.Col() == Indent() && cur.typ != TokSeqEntry), Map(StMapPostKey));
    }

    method DoMapSimpleKey() returns (st: Status)
      requires Start()
      modifies this
      ensures Took(StepMapSimpleKey(inp, old(Cfg())), st)
    {
      hide Cfg, TokensOk, ScalarOf, AliasOf;
      st := Peek();
      if st != Fine { return; }
      var t := cur;
      if t.typ != TokScalar && t.typ != TokAlias { Goto(StEagerDrain); return; }
      Consume();
      st := Peek();
      if st != Fine { return; }
      if cur.typ == TokMapValue {
        Emit(if t.typ == TokScalar then ScalarOf(t) else AliasOf(t));
        Goto(Map(StMapValue));
      } else {
        Goto(StEagerDrain);
      }
    }

    method DoMapPostKey() returns (st: Status)
      requires Start()
      modifies this
      ensures Took(StepMapPostKey(inp, old(Cfg())), st)
    {
      hide Cfg, TokensOk;
      st := Peek();
      if st != Fine { return; }
      if cur.typ == TokMapValue && cur.Col() == Indent() { Goto(Map(StMapValue)); }
      else if cur.typ == TokMapValue && cur.Col() > Indent() { st := ParseError; }
      else {
        Emit(EmptyScalar(cur.start));
        Goto(Map(StMapLoop));
      }
    }

    method DoMapValue() returns (st: Status)
      requires Start()
      modifies this
      ensures Took(StepMapValue(inp, old(Cfg())), st)
    {
      hide Cfg, TokensOk;
      st := Peek();
      if st != Fine { return; }
      if cur.typ == TokMapValue {
        st := DoAfterColon();
      } else {
        Emit(EmptyScalar(cur.start));
        Goto(Map(StMapLoop));
      }
    }

    method DoAfterColon() returns (st: Status)
      requires Start() && haveTok && cur.typ == TokMapValue
      modifies this
      ensures Took(StepMapValue(inp, old(Cfg())), st)
    {
      hide StepMapValue, ContentStep;
      var colon := cur;
      MapValueStep(inp, Cfg());
      Consume();
      st := Peek();
      if st != Fine { return; }
      colonLine, colonStartsLine := colon.start.line, inp.startsLine(colon.start.offset);
      DoContent(cur.Col() < Indent() || (cur.Col() == Indent() && cur.typ != TokSeqEntry), Map(StMapLoop));
    }

    /** What follows a '-', '?' or ':': nothing, or a block node. */
    method DoContent(outside: bool, ret: State)
      requires Start() && haveTok
      modifies this`out, this`state, this`nodeReturn
      ensures Took(ContentStep(inp, old(Cfg()), outside, ret), Fine)
    {
      hide Cfg, TokensOk;
      Held();
      if outside || cur.typ == TokDocStart || cur.typ == TokDocEnd || cur.typ == TokStreamEnd {
        Emit(EmptyScalar(cur.start));
        Goto(ret);
      } else {
        Await(ret, Node(StBlockNode));
      }
    }

    method DoSeqLoop() returns (st: Status)
      requires Start()
      modifies this
      ensures Took(StepSeqLoop(inp, old(Cfg())), st)
    {
      hide Cfg, TokensOk;
      st := Peek();
      if st != Fine { return; }
      Goto(Seq(if cur.typ == TokSeqEntry && cur.Col() == Indent() then StSeqEntry else StSeqEnd));
    }

    method DoSeqEntry() returns (st: Status)
      requires Start()
      modifies this
      ensures Took(StepSeqEntry(inp, old(Cfg())), st)
    {
      hide Cfg, TokensOk;
      st := Peek();
      if st != Fine { return; }
      Consume();
      st := Peek();
      if st != Fine { return; }
      DoContent(cur.Col() <= Indent(), Seq(StSeqLoop));
    }

    method DoBlockEnd(typ: EventType) returns (st: Status)
      requires Start() && frames != []
      modifies this
      ensures Took(StepBlockEnd(inp, old(Cfg()), typ), st)
    {
      hide EndDocument;
      var f := Pop();
      st := Peek();
      if st != Fine { return; }
      Emit(Simple(typ, cur.start, cur.start));
      Goto(f.ret);
      assert Cfg() == old(Cfg()).(frames := frames, state := state);
      if state == Doc(StDocEndExplicit) { st := DoEndDocument(); }
    }

    // ----- dispatch -----

    /** parser_step_flow */
    method DoFlow() returns (st: Status)
      requires Start() && Inv(inp, Cfg()) && (state == StFlowNode || state.FMap? || state.FSeq?)
      modifies this
      ensures Took(StepFlow(inp, old(Cfg())), st)
    {
      match state
      case StFlowNode => st := DoFlowNode();
      case FMap(m) =>
        match m {
          case StFMapLoop => st := DoFMapLoop();
          case StFMapValue => st := DoFMapValue();
          case StFMapSep => st := DoSep(false);
          case StFMapEnd => st := DoFlowEnd(MappingEnd);
        }
      case FSeq(q) =>
        match q {
          case StFSeqLoop => st := DoFSeqLoop();
          case StFSeqEntryKey => st := DoFSeqEntryKey();
          case StFSeqImplicitEnd => st := DoFSeqPairEnd();
          case StFSeqExplicitKey => st := DoFSeqExplicitKey();
          case StFSeqExplicitValue => st := DoFSeqExplicitValue();
          case StFSeqExplicitEnd => st := DoFSeqPairEnd();
          case StFSeqSep => st := DoSep(true);
          case StFSeqEnd => st := DoFlowEnd(SequenceEnd);
        }
    }

    method DoNode(s: NodeState) returns (st: Status)
      requires Start() && Inv(inp, Cfg()) && state == Node(s)
      modifies this
      ensures Took(StepOf(inp, old(Cfg())), st)
    {
      match s
      case StBlockNode => st := DoBlockNode();
      case StNodeScalar => st := DoNodeLeaf(false);
      case StNodeAlias => st := DoNodeLeaf(true);
      case StNodeScalarKey => st := DoNodeKey();
      case StNodeAliasKey => st := DoNodeKey();
      case StNodeEmpty => st := DoNodeEmpty();
      case StNodeSeq => st := DoNodeSeq();
      case StNodeExplicitKey => st := DoNodeExplicitKey();
      case StNodeBareValue => st := DoNodeBareValue();
    }

    method DoBlock() returns (st: Status)
      requires Start() && Inv(inp, Cfg()) && (state.Map? || state.Seq?)
      modifies this
      ensures Took(StepOf(inp, old(Cfg())), st)
    {
      match state
      case Map(m) =>
        match m {
          case StMapLoop => st := DoMapLoop();
          case StMapExplicitKey => st := DoMapExplicitKey();
          case StMapSimpleKey => st := DoMapSimpleKey();
          case StMapPostKey => st := DoMapPostKey();
          case StMapValue => st := DoMapValue();
          case StMapEnd => st := DoBlockEnd(MappingEnd);
        }
      case Seq(q) =>
        match q {
          case StSeqLoop => st := DoSeqLoop();
          case StSeqEntry => st := DoSeqEntry();
          case StSeqEnd => st := DoBlockEnd(SequenceEnd);
        }
    }

    /** parser_step */
    method ParserStep() returns (st: Status)
      requires Start() && Inv(inp, Cfg()) && !Final(Cfg())
      modifies this
      ensures Took(StepOf(inp, old(Cfg())), st)
    {
      match state
      case Stream(s) => st := DoStream(s);
      case Doc(s) => if s == StDocContent { st := DoDocContent(); } else { st := DoEndDocument(); }
      case Node(s) => st := DoNode(s);
      case Map(_) => st := DoBlock();
      case Seq(_) => st := DoBlock();
      case StFlowNode => st := DoFlow();
      case FMap(_) => st := DoFlow();
      case FSeq(_) => st := DoFlow();
    }
  }

  /** One step of a run, with what bounds it. */
  lemma RunStep(inp: Input, c: Config)
    requires Inv(inp, c) && !Final(c)
    ensures var s := StepOf(inp, c);
      if s.Failed? then Run(inp, c) == Error(s.out)
      else Inv(inp, s.c) && Measure(inp, s.c) < Measure(inp, c) && Run(inp, c) == Prepend(s.out, Run(inp, s.c))
  {
    hide StepOf, Inv, Measure;
    StepKeepsInv(inp, c);
    StepLowers(inp, c);
  }

  lemma RunOver(inp: Input, c: Config)
    requires Inv(inp, c)
    ensures c.state == Stream(StDone) ==> Run(inp, c) == Finished([])
    ensures c.state == StEagerDrain ==> Run(inp, c) == ToEager([])
  {
    hide Inv;
  }

  /** oyl_parse_next on the incremental path: hands out buffered events, and
      steps the parser until there are some. */
  class EventSource {
    const machine: StepParser
    var cursor: nat          // events of the buffer already handed out
    var broken: bool         // an error, reported once the buffer is drained
    var delivered: nat

    constructor (input: Input)
      ensures Valid() && fresh(machine) && machine.inp == input && delivered == 0
      ensures Inv(input, Initial()) && Future() == Run(input, Initial())
    {
      machine := new StepParser(input);
      cursor, broken, delivered := 0, false, 0;
      new;
      InitialInv(input);
      PrependNothing(Run(input, Initial()));
    }

    predicate Valid()
      reads this, machine
    {
      machine.TokensOk() && cursor <= |machine.out| && (broken || Inv(machine.inp, machine.Cfg()))
    }

    /** Everything still to come. */
    function Future(): Outcome
      reads this, machine
      requires Valid()
    {
      Prepend(machine.out[cursor..], if broken then Error([]) else Run(machine.inp, machine.Cfg()))
    }

    /** Hands out the next buffered event. */
    method Deliver() returns (e: Event)
      requires Valid() && cursor < |machine.out|
      modifies this`cursor, this`delivered, machine`out
      ensures Valid() && old(Future()) == Prepend([e], Future()) && delivered == old(delivered) + 1
    {
      e := machine.out[cursor];
      ghost var rest := if broken then Error([]) else Run(machine.inp, machine.Cfg());
      PrependHead(machine.out[cursor..], rest);
      cursor := cursor + 1;
      delivered := delivered + 1;
      if cursor == |machine.out| {
        machine.out, cursor := [], 0;
      }
    }

    /** Steps until there is an event to hand out, or the run is over. */
    method Fill() returns (over: Option<Reply>)
      requires Valid() && machine.out == [] && cursor == 0 && !broken
      modifies this`broken, machine
      ensures Valid() && cursor == 0
      ensures over.None? ==> Future() == old(Future()) && machine.out != []
      ensures over.Some? ==> match over.value
        case Delivered(_) => false
        case NoMore => old(Future()) == Finished([])
        case WantsEager => old(Future()) == ToEager([])
        case Broken => old(Future()) == Error([])
    {
      hide Run, StepOf, Inv, Measure;
      while machine.out == []
        invariant Valid() && (machine.out == [] ==> !broken) && Future() == old(Future())
        decreases machine.out == [], if Inv(machine.inp, machine.Cfg()) then Measure(machine.inp, machine.Cfg()) else 0
      {
        PrependNothing(Run(machine.inp, machine.Cfg()));
        RunOver(machine.inp, machine.Cfg());
        if machine.state == Stream(StDone) { return Some(NoMore); }
        if machine.state == StEagerDrain { return Some(WantsEager); }
        RunStep(machine.inp, machine.Cfg());
        var st := machine.ParserStep();
        if st != Fine {
          broken := true;
          if st == ParseError { machine.out := []; }
          if machine.out == [] { return Some(Broken); }
        }
      }
      over := None;
    }

    /** The next event of the run. The step loop always ends. */
    method NextEvent() returns (r: Reply)
      requires Valid()
      modifies this, machine
      ensures Valid()
      ensures match r
        case Delivered(e) => old(Future()) == Prepend([e], Future()) && delivered == old(delivered) + 1
        case NoMore => old(Future()) == Finished([])
        case WantsEager => old(Future()) == ToEager([])
        case Broken => old(Future()) == Error([])
    {
      if cursor == |machine.out| {
        if broken { return Broken; }
        PrependNothing(Run(machine.inp, machine.Cfg()));
        machine.out, cursor := [], 0;
        var over := Fill();
        if over.Some? { return over.value; }
      }
      var e := Deliver();
      r := Delivered(e);
    }
  }

  lemma PrependNothing(o: Outcome)
    ensures Prepend([], o) == o
  {
    assert [] + o.evs == o.evs;
  }

  lemma PrependHead(out: seq<Event>, o: Outcome)
    requires out != []
    ensures Prepend(out, o) == Prepend([out[0]], Prepend(out[1..], o))
  {
    assert out + o.evs == [out[0]] + (out[1..] + o.evs);
  }
}
