/**
 * The incremental parser refines the recursive one on whole streams: a run either
 * emits exactly the events of the recursive grammar, or asks for the eager parser
 * having emitted the first of them; where the recursive grammar fails, so does the
 * run, or it asks. The one assumption is that of FlowRefinement.
 */
module BlockRefinement {
  import opened Events
  import opened FlowGrammar
  import opened BlockGrammar
  import opened Machine
  import opened MachineInvariant
  import opened MachineTermination
  import opened MachineRun
  import opened FlowRefinement

  function Src(inp: Input): Source { Source(inp.toks, inp.startsLine) }

  /** The pending node is not on the line of its implicit key's ':'. */
  predicate MayBeKey(inp: Input, c: Config) {
    Has(inp, c.pos) && !(c.nodeReturn == Map(StMapLoop) && inp.toks[c.pos].start.line == c.colonLine && !c.colonStartsLine)
  }

  /** Configurations of one document. */
  predicate Beside(c: Config, k: Config) {
    k.docOpen == c.docOpen && k.docStartLine == c.docStartLine && k.unrollReturn == c.unrollReturn
  }

  /** The run is back from a node or collection: only dead registers may differ. */
  predicate Back(c: Config, d: Config, ret: State, frames: seq<Frame>, pos: nat) {
    Beside(c, d) && d.state == ret && d.frames == frames && d.pos == pos && d.props == NO_PROPS
  }

  /** The machine from `c` does what the recursive parser's result `r` says. */
  predicate Matches(inp: Input, c: Config, r: Result, ret: State, frames: seq<Frame>, d: Config) {
    match r
    case Read(evs, pos) => Back(c, d, ret, frames, pos) && Leads(inp, c, evs, d, |frames|)
    case Wrong => Fails(inp, c, |frames|)
    case Beyond => Fails(inp, c, |frames|) && Run(inp, c).ToEager?
  }

  /** Events, then what `r` says of the rest. */
  lemma Then(inp: Input, c: Config, evs: seq<Event>, k: Config, n: nat, r: Result, ret: State, frames: seq<Frame>, d: Config)
    requires Beside(c, k) && Leads(inp, c, evs, k, n) && |frames| <= n && Matches(inp, k, r, ret, frames, d)
    ensures Matches(inp, c, After(evs, r), ret, frames, d)
  {
    hide Run, Low, Inv;
    LeadsDown(inp, c, evs, k, n, |frames|);
    if r.Read? { LeadsTrans(inp, c, evs, k, r.evs, d, |frames|); } else { LeadsFails(inp, c, evs, k, |frames|); }
    if r.Beyond? { LeadsAsks(inp, c, evs, k, |frames|); }
  }

  /** Where the run is led to asks, it asks, there or before. */
  lemma LeadsAsks(inp: Input, c: Config, evs: seq<Event>, k: Config, n: nat)
    requires Leads(inp, c, evs, k, n) && Run(inp, k).ToEager?
    ensures Run(inp, c).ToEager?
  {
    hide Run, Low, Inv;
  }

  /** A step, then what `r` says of the rest. */
  lemma Onto(inp: Input, c: Config, k: Config, out: seq<Event>, r: Result, ret: State, frames: seq<Frame>, d: Config)
    requires Beside(c, k) && Inv(inp, c) && !Final(c) && StepOf(inp, c) == Next(k, out) && Matches(inp, k, r, ret, frames, d)
    requires |frames| <= |c.frames|
    ensures Matches(inp, c, After(out, r), ret, frames, d)
    ensures out == [] ==> Matches(inp, c, r, ret, frames, d)
  {
    hide Run, Low, Inv, StepOf, Leads, Fails;
    LeadsStep(inp, c);
    Then(inp, c, out, k, |frames|, r, ret, frames, d);
    if out == [] { AfterNothing(r); }
  }

  lemma AfterNothing(r: Result)
    ensures After([], r) == r
  {
    if r.Read? { assert [] + r.evs == r.evs; }
  }

  /** A step that ends the part. */
  lemma Lands(inp: Input, c: Config, d: Config, out: seq<Event>)
    requires Beside(c, d) && Inv(inp, c) && !Final(c) && StepOf(inp, c) == Next(d, out) && d.props == NO_PROPS && |d.frames| <= |c.frames|
    ensures Matches(inp, c, Read(out, d.pos), d.state, d.frames, d)
  {
    hide Run, Low, Inv, StepOf, Leads, Fails;
    LeadsStep(inp, c);
  }

  lemma Breaks(inp: Input, c: Config, ret: State, frames: seq<Frame>, d: Config)
    requires Inv(inp, c) && !Final(c) && StepOf(inp, c).Failed? && |frames| <= |c.frames|
    ensures Matches(inp, c, Wrong, ret, frames, d)
  {
    hide Run, Low, Inv, StepOf;
    FailsStep(inp, c);
  }

  const ASKING := {TokTag, TokAnchor, TokFlowSeqStart, TokFlowMapStart}

  /** Between the parts of block collections no properties or flow collection can
      stand: the run asks or fails. */
  lemma {:induction false} Stuck(inp: Input, c: Config)
    requires Inv(inp, c) && Has(inp, c.pos) && inp.toks[c.pos].typ in ASKING
    requires c.state in {Map(StMapLoop), Map(StMapPostKey), Map(StMapEnd), Seq(StSeqLoop), Seq(StSeqEnd), Doc(StDocEndExplicit)}
    ensures !Run(inp, c).Finished?
    decreases Measure(inp, c)
  {
    hide StepOf, Inv, Measure;
    StuckStep(inp, c);
    var s := StepOf(inp, c);
    if s.Next? {
      StepKeepsInv(inp, c);
      StepLowers(inp, c);
      if s.c.state != StEagerDrain { Stuck(inp, s.c); }
    }
  }

  lemma StuckStep(inp: Input, c: Config)
    requires Inv(inp, c) && Has(inp, c.pos) && inp.toks[c.pos].typ in ASKING
    requires c.state in {Map(StMapLoop), Map(StMapPostKey), Map(StMapEnd), Seq(StSeqLoop), Seq(StSeqEnd), Doc(StDocEndExplicit)}
    ensures var s := StepOf(inp, c);
            s.Next? ==>
              s.c.pos == c.pos && s.c.state in {Map(StMapLoop), Map(StMapPostKey), Map(StMapEnd), Seq(StSeqLoop), Seq(StSeqEnd), StEagerDrain}
  {
    if c.state == Map(StMapEnd) || c.state == Seq(StSeqEnd) { BelowBlock(inp, c); }
  }

  lemma BelowBlock(inp: Input, c: Config)
    requires Inv(inp, c) && (c.state.Map? || c.state.Seq?)
    ensures c.frames != [] && FramesOk(Below(c)) && ReturnOk(Below(c), TopRet(c)) && !InFlow(Below(c))
    ensures TopRet(c) in {Map(StMapLoop), Map(StMapPostKey), Seq(StSeqLoop), Doc(StDocEndExplicit)}
  {
    PopFrames(c.frames);
  }

  /** The eager parser is asked for. If the part is one that the grammar reads, the
      lookahead answered "key", or the run cannot go on behind the part anyway. */
  lemma Asks(inp: Input, c: Config, r: Result, ret: State, frames: seq<Frame>) returns (d: Config)
    requires Inv(inp, c) && !Final(c) && StepOf(inp, c) == Next(c.(state := StEagerDrain), []) && c.docOpen
    requires FramesOk(frames) && ReturnOk(frames, ret) && |frames| <= |c.frames| && (r.Read? ==> r.pos <= |inp.toks|)
    requires r.Read? && Keyless(inp) ==> r.pos < |inp.toks| && inp.toks[r.pos].typ in ASKING
    requires r.Read? && Keyless(inp) ==> ret in {Map(StMapLoop), Map(StMapPostKey), Seq(StSeqLoop), Doc(StDocEndExplicit)}
    ensures Matches(inp, c, r, ret, frames, d)
  {
    hide Run, Low, StepOf, FramesOk, ReturnOk, Keyless;
    d := c.(state := ret, frames := frames, pos := if r.Read? then r.pos else c.pos, props := NO_PROPS);
    ResumeInv(inp, d);
    AskFails(inp, c);
    if r.Read? && Keyless(inp) { Stuck(inp, d); }
  }

  /** What the machine does where a node may be left out. */
  function PartStep(inp: Input, b: Config, ret: State, indent: int, inSeq: bool): Step {
    if !Has(inp, b.pos) then Failed([])
    else if Nothing(inp.toks[b.pos], indent, inSeq) then Next(b.(state := ret), [EmptyScalar(inp.toks[b.pos].start)])
    else Next(b.(nodeReturn := ret, state := Node(StBlockNode)), [])
  }

  lemma {:induction false} PartMatches(inp: Input, c: Config, b: Config, ret: State, indent: int, inSeq: bool, mayBeKey: bool) returns (d: Config)
    requires SoundKeys(inp) && Inv(inp, c) && !Final(c) && Beside(c, b) && b.frames == c.frames && b.pos <= |inp.toks| && b.props == NO_PROPS
    requires StepOf(inp, c) == PartStep(inp, b, ret, indent, inSeq)
    requires Has(inp, b.pos) ==> mayBeKey == MayBeKey(inp, b.(nodeReturn := ret))
    ensures Matches(inp, c, Part(Src(inp), b.pos, indent, inSeq, c.docStartLine, mayBeKey), ret, c.frames, d)
    decreases |inp.toks| - b.pos, 10
  {
    hide Run, Low, StepOf, Inv, BlockNode, PastClose;
    d := b.(state := ret);
    if !Has(inp, b.pos) {
      Breaks(inp, c, ret, c.frames, d);
    } else if Nothing(inp.toks[b.pos], indent, inSeq) {
      Lands(inp, c, d, [EmptyScalar(inp.toks[b.pos].start)]);
    } else {
      var n := b.(nodeReturn := ret, state := Node(StBlockNode));
      StepKeepsInv(inp, c);
      d := NodeMatches(inp, n);
      Onto(inp, c, n, [], BlockNode(Src(inp), b.pos, c.docStartLine, mayBeKey), ret, c.frames, d);
    }
  }

  /** Where a pending node goes by its first token, or that it fails or asks. */
  lemma Dispatch(inp: Input, c: Config)
    requires c.state == Node(StBlockNode) && Has(inp, c.pos)
    ensures var t, s := inp.toks[c.pos], StepOf(inp, c);
            match t.typ
            case TokScalar => s == Next(Goto(c, Node(StNodeScalar)), [])
            case TokAlias => s == Next(Goto(c, Node(StNodeAlias)), [])
            case TokSeqEntry => s == Next(Goto(c, Node(StNodeSeq)), [])
            case TokMapKey => s == Next(Goto(c, Node(StNodeExplicitKey)), [])
            case TokMapValue => s == Next(Goto(c, Node(StNodeBareValue)), [])
            case TokFlowSeqStart => s == BlockNodeFlow(inp, c, t)
            case TokFlowMapStart => s == BlockNodeFlow(inp, c, t)
            case TokTag => s == Next(Goto(c, StEagerDrain), [])
            case TokAnchor => s == Next(Goto(c, StEagerDrain), [])
            case TokFlowSeqEnd => s == Failed([])
            case TokFlowMapEnd => s == Failed([])
            case TokFlowEntry => s == Failed([])
            case TokDirective => s == Failed([])
            case _ => s == Next(Goto(c, Node(StNodeEmpty)), [])
  {}

  lemma InBlock(inp: Input, c: Config)
    requires Inv(inp, c) && (c.state.Node? || c.state.Map? || c.state.Seq?)
    ensures c.pos <= |inp.toks| && c.props == NO_PROPS && c.docOpen && FramesOk(c.frames)
    ensures c.state.Node? ==> ReturnOk(c.frames, c.nodeReturn)
    ensures c.state.Map? || c.state.Seq? ==> c.frames != []
  {
    hide FramesOk;
  }

  lemma {:induction false} NodeMatches(inp: Input, c: Config) returns (d: Config)
    requires SoundKeys(inp) && Inv(inp, c) && c.state == Node(StBlockNode)
    ensures Matches(inp, c, BlockNode(Src(inp), c.pos, c.docStartLine, MayBeKey(inp, c)), c.nodeReturn, c.frames, d)
    decreases |inp.toks| - c.pos, 9
  {
    hide Run, Low, StepOf, Inv, PastClose, FramesOk, ReturnOk, BlockLeaf, SeqEntries, MapEntries, FlowNode, Leads, Fails, BlockNodeFlow, SoundKeys, Keyless;
    InBlock(inp, c);
    d := c;
    if !Has(inp, c.pos) {
      NoTokenStep(inp, c);
      Breaks(inp, c, c.nodeReturn, c.frames, d);
    } else {
      Dispatch(inp, c);
      StepKeepsInv(inp, c);
      var t := inp.toks[c.pos];
      if IsLeaf(t) {
        var k := Goto(c, if t.typ == TokScalar then Node(StNodeScalar) else Node(StNodeAlias));
        d := LeafMatches(inp, k);
        Onto(inp, c, k, [], BlockLeaf(Src(inp), c.pos, c.docStartLine), c.nodeReturn, c.frames, d);
      } else if t.typ == TokFlowSeqStart || t.typ == TokFlowMapStart {
        d := FlowMatches(inp, c);
      } else if t.typ in {TokSeqEntry, TokMapKey, TokMapValue} {
        var k := StepOf(inp, c).c;
        d := CollectionMatches(inp, k);
        Onto(inp, c, k, [], BlockNode(Src(inp), c.pos, c.docStartLine, MayBeKey(inp, c)), c.nodeReturn, c.frames, d);
      } else if t.typ == TokTag || t.typ == TokAnchor {
        d := Asks(inp, c, BlockNode(Src(inp), c.pos, c.docStartLine, MayBeKey(inp, c)), c.nodeReturn, c.frames);
      } else if t.typ in {TokFlowSeqEnd, TokFlowMapEnd, TokFlowEntry, TokDirective} {
        Breaks(inp, c, c.nodeReturn, c.frames, d);
      } else {
        var k := Goto(c, Node(StNodeEmpty));
        d := MissingMatches(inp, k);
        Onto(inp, c, k, [], BlockNode(Src(inp), c.pos, c.docStartLine, MayBeKey(inp, c)), c.nodeReturn, c.frames, d);
      }
    }
  }

  lemma NoTokenStep(inp: Input, c: Config)
    requires !Has(inp, c.pos) && c.state == Node(StBlockNode)
    ensures StepOf(inp, c) == Failed([])
  {}

  lemma MissingMatches(inp: Input, c: Config) returns (d: Config)
    requires Inv(inp, c) && c.state == Node(StNodeEmpty) && Has(inp, c.pos)
    ensures Matches(inp, c, Read([Simple(ScalarEvent, inp.toks[c.pos].start, inp.toks[c.pos].end)], c.pos), c.nodeReturn, c.frames, d)
  {
    hide Run, Low, FramesOk, ReturnOk, Leads, Fails;
    InBlock(inp, c);
    d := Goto(c, c.nodeReturn);
    Lands(inp, c, d, [Simple(ScalarEvent, inp.toks[c.pos].start, inp.toks[c.pos].end)]);
  }

  /** A flow collection as a block node; the lookahead decides whether it may be a key. */
  lemma FlowMatches(inp: Input, c: Config) returns (d: Config)
    requires SoundKeys(inp) && Inv(inp, c) && c.state == Node(StBlockNode) && AtFlowStart(inp, c)
    ensures Matches(inp, c, BlockFlow(inp.toks, c.pos, MayBeKey(inp, c)), c.nodeReturn, c.frames, d)
  {
    hide Run, Low, StepOf, Inv, PastClose, FramesOk, ReturnOk, FlowNode, Leads, Fails, SoundKeys;
    InBlock(inp, c);
    Dispatch(inp, c);
    StepKeepsInv(inp, c);
    if StepOf(inp, c) == Next(Goto(c, StFlowNode), []) {
      var k := Goto(c, StFlowNode);
      d := NodeRuns(inp, k);
      NodeFromNothing(inp.toks, c.pos);
      NoKey(inp, c);
      assert Matches(inp, k, ReadOr(FlowNode(inp.toks, c.pos)), c.nodeReturn, c.frames, d);
      Onto(inp, c, k, [], ReadOr(FlowNode(inp.toks, c.pos)), c.nodeReturn, c.frames, d);
    } else {
      HasKey(inp, c);
      d := Asks(inp, c, BlockFlow(inp.toks, c.pos, MayBeKey(inp, c)), c.nodeReturn, c.frames);
    }
  }

  /** What the machine reads as a node is no key. */
  lemma NoKey(inp: Input, c: Config)
    requires SoundKeys(inp) && AtFlowStart(inp, c) && c.state == Node(StBlockNode) && StepOf(inp, c) == Next(Goto(c, StFlowNode), [])
    ensures BlockFlow(inp.toks, c.pos, MayBeKey(inp, c)) == ReadOr(FlowNode(inp.toks, c.pos))
  {
    hide PastClose;
    if MayBeKey(inp, c) {
      assert !inp.isKey(inp.toks[c.pos].start.offset);
      assert ConsumeProps(inp.toks, c.pos, NO_PROPS) == PropsOk(NO_PROPS, c.pos);
      CollectionEnd(inp.toks, c.pos, NO_PROPS);
    }
  }

  lemma HasKey(inp: Input, c: Config)
    requires AtFlowStart(inp, c) && c.state == Node(StBlockNode) && StepOf(inp, c) != Next(Goto(c, StFlowNode), [])
    ensures StepOf(inp, c) == Next(Goto(c, StEagerDrain), []) && !Keyless(inp)
  {}

  lemma LeafStep(inp: Input, c: Config)
    requires Inv(inp, c) && (c.state == Node(StNodeScalar) || c.state == Node(StNodeAlias))
    ensures Has(inp, c.pos) && IsLeaf(inp.toks[c.pos])
    ensures StepOf(inp, c) == StepNodeLeaf(inp, c, LeafOf(inp.toks[c.pos]),
                                           if c.state == Node(StNodeScalar) then Node(StNodeScalarKey) else Node(StNodeAliasKey))
  {
    hide FramesOk;
  }

  /** A leaf, or the mapping whose first key it is. */
  lemma {:induction false} LeafMatches(inp: Input, c: Config) returns (d: Config)
    requires SoundKeys(inp) && Inv(inp, c) && (c.state == Node(StNodeScalar) || c.state == Node(StNodeAlias))
    ensures Has(inp, c.pos) && IsLeaf(inp.toks[c.pos]) &&
            Matches(inp, c, BlockLeaf(Src(inp), c.pos, c.docStartLine), c.nodeReturn, c.frames, d)
    decreases |inp.toks| - c.pos, 8
  {
    hide Run, Low, StepOf, Inv, PastClose, FramesOk, ReturnOk, MapValue, ThenMap, Leads, Fails, SoundKeys;
    InBlock(inp, c);
    LeafStep(inp, c);
    StepKeepsInv(inp, c);
    var t := inp.toks[c.pos];
    d := c.(pos := c.pos + 1, state := c.nodeReturn);
    if !Has(inp, c.pos + 1) {
      Breaks(inp, c, c.nodeReturn, c.frames, d);
    } else if ColonFollows(inp.toks, c.pos) {
      var k := StepOf(inp, c).c;
      d := KeyMatches(inp, k, t);
      Onto(inp, c, k, [], BlockLeaf(Src(inp), c.pos, c.docStartLine), c.nodeReturn, c.frames, d);
    } else {
      Lands(inp, c, d, [LeafOf(t)]);
    }
  }

  /** The mapping whose first key `t` is read and saved. */
  lemma {:induction false} KeyMatches(inp: Input, c: Config, t: Token) returns (d: Config)
    requires SoundKeys(inp) && Inv(inp, c) && (c.state == Node(StNodeScalarKey) || c.state == Node(StNodeAliasKey))
    requires Sees(inp, c, TokMapValue) && inp.toks[c.pos].start.line == t.start.line && c.saved == LeafOf(t) && c.savedCol == t.Col()
    ensures Matches(inp, c, Opened(c.docStartLine, t, [Simple(MappingStart, t.start, t.start), LeafOf(t)],
                                   ThenMap(Src(inp), MapValue(Src(inp), c.pos, t.Col(), c.docStartLine), t.Col(), c.docStartLine)),
                    c.nodeReturn, c.frames, d)
    decreases |inp.toks| - c.pos, 7
  {
    hide Run, Low, StepOf, Inv, PastClose, FramesOk, ReturnOk, MapValue, ThenMap, Leads, Fails, SoundKeys;
    InBlock(inp, c);
    KeyStep(inp, c);
    StepKeepsInv(inp, c);
    d := c;
    if OnDocLine(c.docStartLine, t) {
      Breaks(inp, c, c.nodeReturn, c.frames, d);
    } else {
      var m := c.(frames := c.frames + [Frame(BlockMap, c.savedCol, c.nodeReturn)], state := Map(StMapValue));
      d := FirstMatches(inp, m, c.pos);
      assert Below(m) == c.frames;
      Onto(inp, c, m, [Simple(MappingStart, t.start, t.start), LeafOf(t)],
           ThenMap(Src(inp), MapValue(Src(inp), c.pos, t.Col(), c.docStartLine), t.Col(), c.docStartLine), c.nodeReturn, c.frames, d);
    }
  }

  lemma KeyStep(inp: Input, c: Config)
    requires (c.state == Node(StNodeScalarKey) || c.state == Node(StNodeAliasKey)) && Has(inp, c.pos)
    ensures StepOf(inp, c) == PushFrame(c, BlockMap, c.savedCol, Map(StMapValue), inp.toks[c.pos].start.line,
                                        [Simple(MappingStart, c.saved.start, c.saved.start), c.saved])
  {}

  /** A mapping from the ':' after its first key. */
  lemma {:induction false} FirstMatches(inp: Input, m: Config, pos: nat) returns (d: Config)
    requires SoundKeys(inp) && Inv(inp, m) && m.state == Map(StMapValue) && Has(inp, m.pos) && m.pos == pos
    ensures m.frames != [] &&
            Matches(inp, m, ThenMap(Src(inp), MapValue(Src(inp), pos, TopIndent(m), m.docStartLine), TopIndent(m), m.docStartLine),
                    TopRet(m), Below(m), d)
    decreases |inp.toks| - pos, 3
  {
    hide Run, Low, StepOf, Inv, PastClose, FramesOk, ReturnOk, MapValue, ThenMap, Leads, Fails, SoundKeys, Matches;
    InBlock(inp, m);
    var v := ValueMatches(inp, m);
    d := RestMatches(inp, m, MapValue(Src(inp), pos, TopIndent(m), m.docStartLine), v);
  }

  /** After a part of a mapping that ends behind its value, the rest of the mapping. */
  lemma {:induction false} RestMatches(inp: Input, c: Config, part: Result, v: Config) returns (d: Config)
    requires SoundKeys(inp) && c.state.Map? && c.frames != [] && Inv(inp, c) && Matches(inp, c, part, Map(StMapLoop), c.frames, v)
    requires part.Read? ==> part.pos <= |inp.toks|
    ensures Matches(inp, c, ThenMap(Src(inp), part, TopIndent(c), c.docStartLine), TopRet(c), Below(c), d)
    decreases if part.Read? then |inp.toks| - part.pos else 0, 6
  {
    hide Inv, StepOf, SoundKeys, MapEntries, Matches;
    d := v;
    if part.Read? {
      Arrives(inp, c, part, Map(StMapLoop), v);
      d := MapMatches(inp, v);
    }
    Sequel(inp, c, part, Map(StMapLoop), v, if part.Read? then MapEntries(Src(inp), part.pos, TopIndent(c), c.docStartLine) else Wrong, d);
  }

  /** Where a part that was read leads. */
  lemma Arrives(inp: Input, c: Config, part: Result, ret: State, v: Config)
    requires part.Read? && Matches(inp, c, part, ret, c.frames, v)
    ensures Inv(inp, v) && v.state == ret && v.frames == c.frames && v.pos == part.pos && v.docStartLine == c.docStartLine
  {
    hide Inv, Run, Low;
  }

  /** A part of a collection and then the rest of it, or no part. */
  lemma Sequel(inp: Input, c: Config, part: Result, ret: State, v: Config, r: Result, d: Config)
    requires c.frames != [] && Matches(inp, c, part, ret, c.frames, v)
    requires part.Read? ==> Matches(inp, v, r, TopRet(c), Below(c), d)
    ensures Matches(inp, c, if part.Read? then After(part.evs, r) else part, TopRet(c), Below(c), d)
  {
    hide Inv, Run, Low, Leads, Fails;
    if part.Read? { Then(inp, c, part.evs, v, |c.frames|, r, TopRet(c), Below(c), d); } else { FailsDown(inp, c); }
  }

  lemma FailsDown(inp: Input, c: Config)
    requires c.frames != [] && Fails(inp, c, |c.frames|)
    ensures Fails(inp, c, |Below(c)|)
  {
    hide Run, Low, Inv;
  }

  lemma ValueStep(inp: Input, c: Config)
    requires c.state == Map(StMapValue) && Sees(inp, c, TokMapValue)
    ensures var b := c.(pos := c.pos + 1, colonLine := inp.toks[c.pos].start.line, colonStartsLine := inp.startsLine(inp.toks[c.pos].start.offset));
            StepOf(inp, c) == PartStep(inp, b, Map(StMapLoop), TopIndent(c), false)
  {}

  /** A mapping's ':' and the value. */
  lemma {:induction false} ValueMatches(inp: Input, c: Config) returns (d: Config)
    requires SoundKeys(inp) && Inv(inp, c) && c.state == Map(StMapValue) && Has(inp, c.pos)
    ensures Matches(inp, c, MapValue(Src(inp), c.pos, TopIndent(c), c.docStartLine), Map(StMapLoop), c.frames, d)
    decreases |inp.toks| - c.pos, 2
  {
    hide Run, Low, StepOf, PastClose, FramesOk, ReturnOk, Leads, Fails, SoundKeys, Matches, Part;
    InBlock(inp, c);
    ValueStep(inp, c);
    var b := c.(pos := c.pos + 1, colonLine := inp.toks[c.pos].start.line, colonStartsLine := inp.startsLine(inp.toks[c.pos].start.offset));
    d := PartMatches(inp, c, b, Map(StMapLoop), TopIndent(c), false, !OnKeyLine(Src(inp), c.pos));
  }

  /** What the loop state does with a token at or past the mapping's indentation. */
  lemma MapLoopStep(inp: Input, c: Config)
    requires c.state == Map(StMapLoop) && Has(inp, c.pos)
    ensures var t, here, s := inp.toks[c.pos], inp.toks[c.pos].Col() == TopIndent(c), StepOf(inp, c);
            if t.typ == TokMapKey && here then s == Next(Goto(c, Map(StMapExplicitKey)), [])
            else if IsLeaf(t) && here then s == Next(Goto(c, Map(StMapSimpleKey)), [])
            else if t.typ == TokMapValue && here then s == Next(Goto(c, Map(StMapValue)), [EmptyScalar(t.start)])
            else if t.typ in {TokTag, TokAnchor, TokFlowSeqStart, TokFlowMapStart} then s == Next(Goto(c, StEagerDrain), [])
            else s == Next(Goto(c, Map(StMapEnd)), [])
  {}

  lemma NoMoreTokens(inp: Input, c: Config)
    requires !Has(inp, c.pos) && c.state in {Map(StMapLoop), Seq(StSeqLoop), Map(StMapPostKey)}
    ensures StepOf(inp, c) == Failed([])
  {}

  lemma MapNone(src: Source, indent: int, doc: nat)
    ensures MapEntries(src, |src.toks|, indent, doc) == Wrong
  {}

  lemma MapStops(src: Source, pos: nat, indent: int, doc: nat)
    requires pos < |src.toks|
    ensures var t, r := src.toks[pos], MapEntries(src, pos, indent, doc);
            && (r.Read? ==> r.pos <= |src.toks|)
            && (t.Col() != indent || (!IsLeaf(t) && t.typ !in {TokMapKey, TokMapValue, TokTag, TokAnchor, TokFlowSeqStart, TokFlowMapStart}) ==>
                  r == Read([Simple(MappingEnd, t.start, t.start)], pos))
            && (t.Col() == indent && t.typ in ASKING ==> r == Beyond)
  {}

  /** An empty key, its value and the rest of the mapping. */
  lemma {:induction false} BareKeyMatches(inp: Input, c: Config) returns (d: Config)
    requires SoundKeys(inp) && Inv(inp, c) && c.state == Map(StMapLoop) && Sees(inp, c, TokMapValue) && inp.toks[c.pos].Col() == TopIndent(c)
    ensures c.frames != [] && Matches(inp, c, MapEntries(Src(inp), c.pos, TopIndent(c), c.docStartLine), TopRet(c), Below(c), d)
    decreases |inp.toks| - c.pos, 4
  {
    hide Run, Low, StepOf, Inv, PastClose, FramesOk, ReturnOk, Leads, Fails, SoundKeys, ThenMap, MapValue, Matches;
    InBlock(inp, c);
    MapLoopStep(inp, c);
    StepKeepsInv(inp, c);
    var k := Goto(c, Map(StMapValue));
    d := FirstMatches(inp, k, c.pos);
    Onto(inp, c, k, [EmptyScalar(inp.toks[c.pos].start)],
         ThenMap(Src(inp), MapValue(Src(inp), c.pos, TopIndent(c), c.docStartLine), TopIndent(c), c.docStartLine), TopRet(c), Below(c), d);
  }

  /** The rest of a mapping. */
  lemma {:induction false} MapMatches(inp: Input, c: Config) returns (d: Config)
    requires SoundKeys(inp) && Inv(inp, c) && c.state == Map(StMapLoop)
    ensures c.frames != [] && Matches(inp, c, MapEntries(Src(inp), c.pos, TopIndent(c), c.docStartLine), TopRet(c), Below(c), d)
    decreases |inp.toks| - c.pos, 5
  {
    hide Run, Low, StepOf, Inv, PastClose, FramesOk, ReturnOk, Leads, Fails, SoundKeys, MapEntries, Matches;
    InBlock(inp, c);
    BelowBlock(inp, c);
    var r := MapEntries(Src(inp), c.pos, TopIndent(c), c.docStartLine);
    d := c;
    MapNone(Src(inp), TopIndent(c), c.docStartLine);
    if !Has(inp, c.pos) {
      NoMoreTokens(inp, c);
      Breaks(inp, c, TopRet(c), Below(c), d);
    } else {
      MapLoopStep(inp, c);
      MapStops(Src(inp), c.pos, TopIndent(c), c.docStartLine);
      StepKeepsInv(inp, c);
      var k := StepOf(inp, c).c;
      if k.state == Map(StMapExplicitKey) {
        d := QuestionMatches(inp, k);
        Onto(inp, c, k, [], r, TopRet(c), Below(c), d);
      } else if k.state == Map(StMapSimpleKey) {
        d := SimpleKeyMatches(inp, k);
        Onto(inp, c, k, [], r, TopRet(c), Below(c), d);
      } else if k.state == Map(StMapValue) {
        d := BareKeyMatches(inp, c);
      } else if k.state == StEagerDrain {
        d := Asks(inp, c, r, TopRet(c), Below(c));
      } else {
        d := EndMatches(inp, k);
        Onto(inp, c, k, [], r, TopRet(c), Below(c), d);
      }
    }
  }

  /** The end of a block collection; a document's end after its root is dealt with in the same step. */
  lemma EndMatches(inp: Input, c: Config) returns (d: Config)
    requires Inv(inp, c) && (c.state == Map(StMapEnd) || c.state == Seq(StSeqEnd)) && Has(inp, c.pos)
    ensures var at := inp.toks[c.pos].start;
            c.frames != [] && Matches(inp, c, Read([Simple(if c.state.Map? then MappingEnd else SequenceEnd, at, at)], c.pos), TopRet(c), Below(c), d)
  {
    hide Run, Low, StepOf, Inv, FramesOk, ReturnOk, Leads, Fails, EndDocument;
    InBlock(inp, c);
    PopFrames(c.frames);
    var out := [Simple(if c.state.Map? then MappingEnd else SequenceEnd, inp.toks[c.pos].start, inp.toks[c.pos].start)];
    d := c.(frames := Below(c), state := TopRet(c));
    EndStep(inp, c);
    ResumeInv(inp, d);
    if d.state == Doc(StDocEndExplicit) {
      EndLeads(inp, c, d, out);
    } else {
      Lands(inp, c, d, out);
    }
  }

  lemma EndStep(inp: Input, c: Config)
    requires (c.state == Map(StMapEnd) || c.state == Seq(StSeqEnd)) && Has(inp, c.pos) && c.frames != []
    ensures var at, d := inp.toks[c.pos].start, c.(frames := Below(c), state := TopRet(c));
            var out := [Simple(if c.state.Map? then MappingEnd else SequenceEnd, at, at)];
            StepOf(inp, c) == if d.state == Doc(StDocEndExplicit) then EndDocument(inp, d, out) else Next(d, out)
  {}

  /** Ending the document at once leads where its own state would. */
  lemma EndLeads(inp: Input, c: Config, d: Config, out: seq<Event>)
    requires Inv(inp, c) && !Final(c) && Inv(inp, d) && d.state == Doc(StDocEndExplicit) && StepOf(inp, c) == EndDocument(inp, d, out)
    requires |d.frames| <= |c.frames| && Has(inp, d.pos)
    ensures Leads(inp, c, out, d, |d.frames|)
  {
    hide Run, Low, Inv;
    var s := EndDocument(inp, d, []);
    EndAfter(inp, d, out);
    assert StepOf(inp, d) == s;
    StepKeepsInv(inp, c);
    hide StepOf, EndDocument;
    if s.Failed? {
      FailsStep(inp, c);
      FailedRun(inp, c);
      FailedRun(inp, d);
    } else {
      EndRuns(inp, c, d, s.c, out, s.out);
    }
  }

  lemma EndAfter(inp: Input, d: Config, out: seq<Event>)
    requires Has(inp, d.pos)
    ensures var s := EndDocument(inp, d, []);
            EndDocument(inp, d, out) == if s.Failed? then Failed([]) else Next(s.c, out + s.out)
  {
    var t := inp.toks[d.pos];
    assert out + ([] + [DocEvent(DocEnd, false, t.start, t.end)]) == out + [DocEvent(DocEnd, false, t.start, t.end)];
    assert out + ([] + [DocEvent(DocEnd, true, t.start, t.start)]) == out + [DocEvent(DocEnd, true, t.start, t.start)];
  }

  lemma EndRuns(inp: Input, c: Config, d: Config, e: Config, out: seq<Event>, more: seq<Event>)
    requires Inv(inp, c) && !Final(c) && Inv(inp, d) && !Final(d) && |d.frames| <= |c.frames|
    requires StepOf(inp, c) == Next(e, out + more) && StepOf(inp, d) == Next(e, more)
    ensures Leads(inp, c, out, d, |d.frames|)
  {
    hide StepOf, Inv;
    StepKeepsInv(inp, c);
    var o := Run(inp, e);
    assert out + (more + o.evs) == out + more + o.evs;
  }

  /** A '?' entry and the rest of the mapping. */
  lemma {:induction false} QuestionMatches(inp: Input, c: Config) returns (d: Config)
    requires SoundKeys(inp) && Inv(inp, c) && c.state == Map(StMapExplicitKey) && Has(inp, c.pos)
    requires inp.toks[c.pos].typ == TokMapKey && inp.toks[c.pos].Col() == TopIndent(c)
    ensures c.frames != [] && Matches(inp, c, MapEntries(Src(inp), c.pos, TopIndent(c), c.docStartLine), TopRet(c), Below(c), d)
    decreases |inp.toks| - c.pos, 4
  {
    hide Run, Low, StepOf, Inv, PastClose, FramesOk, ReturnOk, Leads, Fails, SoundKeys, ThenMap, QuestionValue, Part, Matches;
    InBlock(inp, c);
    var b, indent, doc := c.(pos := c.pos + 1), TopIndent(c), c.docStartLine;
    QuestionStep(inp, c);
    var key := Part(Src(inp), c.pos + 1, indent, false, doc, true);
    d := PartMatches(inp, c, b, Map(StMapPostKey), indent, false, true);
    var v := d;
    if key.Read? {
      Arrives(inp, c, key, Map(StMapPostKey), v);
      d := PostKeyMatches(inp, v);
      d := RestMatches(inp, v, QuestionValue(Src(inp), key.pos, indent, doc), d);
    }
    Sequel(inp, c, key, Map(StMapPostKey), v,
           if key.Read? then ThenMap(Src(inp), QuestionValue(Src(inp), key.pos, indent, doc), indent, doc) else Wrong, d);
  }

  lemma QuestionStep(inp: Input, c: Config)
    requires c.state == Map(StMapExplicitKey) && Sees(inp, c, TokMapKey)
    ensures StepOf(inp, c) == PartStep(inp, c.(pos := c.pos + 1), Map(StMapPostKey), TopIndent(c), false)
  {}

  /** The value of a '?' key. */
  lemma {:induction false} PostKeyMatches(inp: Input, c: Config) returns (d: Config)
    requires SoundKeys(inp) && Inv(inp, c) && c.state == Map(StMapPostKey)
    ensures c.pos <= |inp.toks| && Matches(inp, c, QuestionValue(Src(inp), c.pos, TopIndent(c), c.docStartLine), Map(StMapLoop), c.frames, d)
    decreases |inp.toks| - c.pos, 4
  {
    hide Run, Low, StepOf, Inv, PastClose, FramesOk, ReturnOk, Leads, Fails, SoundKeys, MapValue;
    InBlock(inp, c);
    d := c.(state := Map(StMapLoop));
    if !Has(inp, c.pos) {
      NoMoreTokens(inp, c);
      Breaks(inp, c, Map(StMapLoop), c.frames, d);
    } else {
      var t := inp.toks[c.pos];
      PostKeyStep(inp, c);
      StepKeepsInv(inp, c);
      if t.typ == TokMapValue && t.Col() == TopIndent(c) {
        var k := Goto(c, Map(StMapValue));
        d := ValueMatches(inp, k);
        Onto(inp, c, k, [], MapValue(Src(inp), c.pos, TopIndent(c), c.docStartLine), Map(StMapLoop), c.frames, d);
      } else if t.typ == TokMapValue && t.Col() > TopIndent(c) {
        Breaks(inp, c, Map(StMapLoop), c.frames, d);
      } else {
        Lands(inp, c, d, [EmptyScalar(t.start)]);
      }
    }
  }

  lemma PostKeyStep(inp: Input, c: Config)
    requires c.state == Map(StMapPostKey) && Has(inp, c.pos)
    ensures var t, s := inp.toks[c.pos], StepOf(inp, c);
            if t.typ == TokMapValue && t.Col() == TopIndent(c) then s == Next(Goto(c, Map(StMapValue)), [])
            else if t.typ == TokMapValue && t.Col() > TopIndent(c) then s == Failed([])
            else s == Next(Goto(c, Map(StMapLoop)), [EmptyScalar(t.start)])
  {}

  /** A scalar or alias at the mapping's indentation, which must be a key. */
  lemma {:induction false} SimpleKeyMatches(inp: Input, c: Config) returns (d: Config)
    requires SoundKeys(inp) && Inv(inp, c) && c.state == Map(StMapSimpleKey) && Has(inp, c.pos)
    requires IsLeaf(inp.toks[c.pos]) && inp.toks[c.pos].Col() == TopIndent(c)
    ensures c.frames != [] && Matches(inp, c, MapEntries(Src(inp), c.pos, TopIndent(c), c.docStartLine), TopRet(c), Below(c), d)
    decreases |inp.toks| - c.pos, 4
  {
    hide Run, Low, StepOf, Inv, PastClose, FramesOk, ReturnOk, Leads, Fails, SoundKeys, ThenMap, MapValue;
    InBlock(inp, c);
    PopFrames(c.frames);
    SimpleKeyStep(inp, c);
    StepKeepsInv(inp, c);
    d := c;
    if !Has(inp, c.pos + 1) {
      Breaks(inp, c, TopRet(c), Below(c), d);
    } else if inp.toks[c.pos + 1].typ == TokMapValue {
      var k := c.(pos := c.pos + 1, state := Map(StMapValue));
      d := FirstMatches(inp, k, c.pos + 1);
      Onto(inp, c, k, [LeafOf(inp.toks[c.pos])],
           ThenMap(Src(inp), MapValue(Src(inp), c.pos + 1, TopIndent(c), c.docStartLine), TopIndent(c), c.docStartLine), TopRet(c), Below(c), d);
    } else {
      KeyAsks(inp, c);
    }
  }

  lemma SimpleKeyStep(inp: Input, c: Config)
    requires c.state == Map(StMapSimpleKey) && Has(inp, c.pos) && IsLeaf(inp.toks[c.pos])
    ensures StepOf(inp, c) ==
            if !Has(inp, c.pos + 1) then Failed([])
            else if inp.toks[c.pos + 1].typ == TokMapValue then Next(c.(pos := c.pos + 1, state := Map(StMapValue)), [LeafOf(inp.toks[c.pos])])
            else Next(c.(pos := c.pos + 1, state := StEagerDrain), [])
  {}

  /** A key without its ':' asks for the eager parser. */
  lemma KeyAsks(inp: Input, c: Config)
    requires Inv(inp, c) && !Final(c) && StepOf(inp, c) == Next(c.(pos := c.pos + 1, state := StEagerDrain), []) && c.frames != []
    ensures Fails(inp, c, |Below(c)|)
  {
    hide StepOf, Inv;
    StepKeepsInv(inp, c);
    var e := c.(pos := c.pos + 1, state := StEagerDrain);
    assert Run(inp, e) == ToEager([]) && Low(inp, e) == |c.frames|;
  }

  lemma SeqLoopStep(inp: Input, c: Config)
    requires c.state == Seq(StSeqLoop) && Has(inp, c.pos)
    ensures var t := inp.toks[c.pos];
            StepOf(inp, c) == Next(Goto(c, if t.typ == TokSeqEntry && t.Col() == TopIndent(c) then Seq(StSeqEntry) else Seq(StSeqEnd)), [])
  {}

  lemma SeqEntryStep(inp: Input, c: Config)
    requires c.state == Seq(StSeqEntry) && Has(inp, c.pos)
    ensures StepOf(inp, c) == PartStep(inp, c.(pos := c.pos + 1), Seq(StSeqLoop), TopIndent(c), true)
  {}

  /** The rest of a block sequence. */
  lemma {:induction false} SeqMatches(inp: Input, c: Config) returns (d: Config)
    requires SoundKeys(inp) && Inv(inp, c) && c.state == Seq(StSeqLoop)
    ensures c.frames != [] && Matches(inp, c, SeqEntries(Src(inp), c.pos, TopIndent(c), c.docStartLine), TopRet(c), Below(c), d)
    decreases |inp.toks| - c.pos, 5
  {
    hide Run, Low, StepOf, Inv, PastClose, FramesOk, ReturnOk, Leads, Fails, SoundKeys, Part;
    InBlock(inp, c);
    PopFrames(c.frames);
    var r := SeqEntries(Src(inp), c.pos, TopIndent(c), c.docStartLine);
    d := c;
    if !Has(inp, c.pos) {
      NoMoreTokens(inp, c);
      Breaks(inp, c, TopRet(c), Below(c), d);
    } else {
      SeqLoopStep(inp, c);
      StepKeepsInv(inp, c);
      var k := StepOf(inp, c).c;
      if k.state == Seq(StSeqEntry) { d := EntryMatches(inp, k); } else { d := EndMatches(inp, k); }
      Onto(inp, c, k, [], r, TopRet(c), Below(c), d);
    }
  }

  /** A '-' entry and the rest of the sequence. */
  lemma {:induction false} EntryMatches(inp: Input, c: Config) returns (d: Config)
    requires SoundKeys(inp) && Inv(inp, c) && c.state == Seq(StSeqEntry) && Sees(inp, c, TokSeqEntry) && inp.toks[c.pos].Col() == TopIndent(c)
    ensures c.frames != [] && Matches(inp, c, SeqEntries(Src(inp), c.pos, TopIndent(c), c.docStartLine), TopRet(c), Below(c), d)
    decreases |inp.toks| - c.pos, 4
  {
    hide Run, Low, StepOf, Inv, PastClose, FramesOk, ReturnOk, Leads, Fails, SoundKeys, Part, Matches;
    InBlock(inp, c);
    var b, indent, doc := c.(pos := c.pos + 1), TopIndent(c), c.docStartLine;
    SeqEntryStep(inp, c);
    var entry := Part(Src(inp), c.pos + 1, indent, true, doc, true);
    d := PartMatches(inp, c, b, Seq(StSeqLoop), indent, true, true);
    var v := d;
    if entry.Read? {
      Arrives(inp, c, entry, Seq(StSeqLoop), v);
      d := SeqMatches(inp, v);
    }
    Sequel(inp, c, entry, Seq(StSeqLoop), v, if entry.Read? then SeqEntries(Src(inp), entry.pos, indent, doc) else Wrong, d);
  }

  lemma PushStep(inp: Input, c: Config)
    requires Has(inp, c.pos) && c.state in {Node(StNodeSeq), Node(StNodeExplicitKey), Node(StNodeBareValue)}
    ensures var t := inp.toks[c.pos];
            match c.state.node
            case StNodeSeq => StepOf(inp, c) == PushFrame(c, BlockSeq, t.Col(), Seq(StSeqLoop), t.start.line, [Simple(SequenceStart, t.start, t.end)])
            case StNodeExplicitKey => StepOf(inp, c) == PushFrame(c, BlockMap, t.Col(), Map(StMapLoop), t.start.line, [Simple(MappingStart, t.start, t.end)])
            case _ => StepOf(inp, c) == PushFrame(c, BlockMap, t.Col(), Map(StMapValue), t.start.line,
                                                  [Simple(MappingStart, t.start, t.end), EmptyScalar(t.start)])
  {}

  lemma FirstToken(inp: Input, c: Config)
    requires Inv(inp, c) && c.state in {Node(StNodeSeq), Node(StNodeExplicitKey), Node(StNodeBareValue)}
    ensures Has(inp, c.pos)
    ensures inp.toks[c.pos].typ == if c.state == Node(StNodeSeq) then TokSeqEntry else if c.state == Node(StNodeExplicitKey) then TokMapKey else TokMapValue
  {
    hide FramesOk;
  }

  /** The events that open the collection at a token. */
  function OpenEvents(t: Token): seq<Event> {
    if t.typ == TokSeqEntry then [Simple(SequenceStart, t.start, t.end)]
    else if t.typ == TokMapKey then [Simple(MappingStart, t.start, t.end)]
    else [Simple(MappingStart, t.start, t.end), EmptyScalar(t.start)]
  }

  function AfterOpen(src: Source, pos: nat, doc: nat): (r: Result)
    requires pos < |src.toks| && src.toks[pos].typ in {TokSeqEntry, TokMapKey, TokMapValue}
    ensures r.Read? ==> r.pos <= |src.toks|
  {
    var t := src.toks[pos];
    if t.typ == TokSeqEntry then SeqEntries(src, pos, t.Col(), doc)
    else if t.typ == TokMapKey then MapEntries(src, pos, t.Col(), doc)
    else ThenMap(src, MapValue(src, pos, t.Col(), doc), t.Col(), doc)
  }

  lemma OpensWith(src: Source, pos: nat, doc: nat, mayBeKey: bool)
    requires pos < |src.toks| && src.toks[pos].typ in {TokSeqEntry, TokMapKey, TokMapValue}
    ensures BlockNode(src, pos, doc, mayBeKey) == Opened(doc, src.toks[pos], OpenEvents(src.toks[pos]), AfterOpen(src, pos, doc))
  {
    var t := src.toks[pos];
    if t.typ == TokMapValue {
      var open, key, rest := Simple(MappingStart, t.start, t.end), EmptyScalar(t.start), AfterOpen(src, pos, doc);
      assert MapEntries(src, pos, t.Col(), doc) == After([key], rest);
      if rest.Read? { assert [open] + ([key] + rest.evs) == [open, key] + rest.evs; }
    }
  }

  /** A block collection from its first token. */
  lemma {:induction false} CollectionMatches(inp: Input, c: Config) returns (d: Config)
    requires SoundKeys(inp) && Inv(inp, c) && c.state in {Node(StNodeSeq), Node(StNodeExplicitKey), Node(StNodeBareValue)}
    ensures Matches(inp, c, BlockNode(Src(inp), c.pos, c.docStartLine, MayBeKey(inp, c)), c.nodeReturn, c.frames, d)
    decreases |inp.toks| - c.pos, 8
  {
    hide Run, Low, StepOf, Inv, PastClose, FramesOk, ReturnOk, Leads, Fails, SoundKeys, BlockNode, SeqEntries, MapEntries, MapValue, ThenMap;
    InBlock(inp, c);
    FirstToken(inp, c);
    PushStep(inp, c);
    StepKeepsInv(inp, c);
    var t, doc := inp.toks[c.pos], c.docStartLine;
    OpensWith(Src(inp), c.pos, doc, MayBeKey(inp, c));
    d := c;
    if OnDocLine(doc, t) {
      Breaks(inp, c, c.nodeReturn, c.frames, d);
    } else {
      var m := StepOf(inp, c).c;
      assert Below(m) == c.frames;
      if t.typ == TokSeqEntry { d := SeqMatches(inp, m); }
      else if t.typ == TokMapKey { d := MapMatches(inp, m); }
      else { d := FirstMatches(inp, m, c.pos); }
      Onto(inp, c, m, OpenEvents(t), AfterOpen(Src(inp), c.pos, doc), c.nodeReturn, c.frames, d);
    }
  }

  // ----- documents and the stream -----

  /** The machine from `c` does what `r` says, to a configuration in the state `to`. */
  predicate Gets(inp: Input, c: Config, r: Result, to: StreamState, d: Config) {
    match r
    case Read(evs, pos) => d.state == Stream(to) && d.pos == pos && Leads(inp, c, evs, d, 0)
    case Wrong => Fails(inp, c, 0)
    case Beyond => Fails(inp, c, 0) && Run(inp, c).ToEager?
  }

  lemma GetsThen(inp: Input, c: Config, evs: seq<Event>, k: Config, r: Result, to: StreamState, d: Config)
    requires Leads(inp, c, evs, k, 0) && Gets(inp, k, r, to, d)
    ensures Gets(inp, c, After(evs, r), to, d)
    ensures evs == [] ==> Gets(inp, c, r, to, d)
  {
    hide Run, Low, Inv;
    if r.Read? { LeadsTrans(inp, c, evs, k, r.evs, d, 0); } else { LeadsFails(inp, c, evs, k, 0); }
    if r.Beyond? { LeadsAsks(inp, c, evs, k, 0); }
    if evs == [] { AfterNothing(r); }
  }

  /** One step and what follows it. */
  lemma StepGets(inp: Input, c: Config, k: Config, out: seq<Event>, r: Result, to: StreamState, d: Config)
    requires Inv(inp, c) && !Final(c) && StepOf(inp, c) == Next(k, out) && Gets(inp, k, r, to, d)
    ensures Gets(inp, c, After(out, r), to, d)
    ensures out == [] ==> Gets(inp, c, r, to, d)
  {
    hide Run, Low, Inv, StepOf, Leads, Gets;
    LeadsStep(inp, c);
    GetsThen(inp, c, out, k, r, to, d);
  }

  lemma Gone(inp: Input, c: Config, to: StreamState, d: Config)
    requires Inv(inp, c) && !Final(c) && StepOf(inp, c).Failed?
    ensures Gets(inp, c, Wrong, to, d)
  {
    hide Run, Low, Inv, StepOf;
    FailsStep(inp, c);
  }

  lemma Arrived(inp: Input, c: Config, k: Config, out: seq<Event>, to: StreamState)
    requires Inv(inp, c) && !Final(c) && StepOf(inp, c) == Next(k, out) && k.state == Stream(to)
    ensures Gets(inp, c, Read(out, k.pos), to, k)
  {
    hide Run, Low, Inv, StepOf, Leads;
    LeadsStep(inp, c);
  }

  /** At the end of the stream the loop state goes on as the end state does. */
  lemma LoopEnds(inp: Input, c: Config, k: Config, out: seq<Event>, d: Config)
    requires Inv(inp, c) && !Final(c) && StepOf(inp, c) == Next(k, out) && k.state == Stream(StStreamEnd) && d == Goto(k, Stream(StDocLoop))
    requires Sees(inp, k, TokStreamEnd)
    ensures Inv(inp, d) && Leads(inp, c, out, d, 0)
  {
    hide Run, Low, FramesOk;
    StepKeepsInv(inp, c);
    LoopEndStep(inp, d);
    RunSilent(inp, d, k);
    LeadsStep(inp, c);
    assert Leads(inp, c, out, k, 0);
  }

  lemma LoopEndStep(inp: Input, d: Config)
    requires d.state == Stream(StDocLoop) && Sees(inp, d, TokStreamEnd)
    ensures StepOf(inp, d) == Next(Goto(d, Stream(StStreamEnd)), [])
  {}

  lemma EndingStep(inp: Input, c: Config)
    requires c.state == Doc(StDocEndExplicit)
    ensures StepOf(inp, c) == EndDocument(inp, c, [])
    ensures Has(inp, c.pos) ==>
              var t := inp.toks[c.pos];
              EndDocument(inp, c, []) ==
              if t.typ == TokDocEnd then Next(c.(pos := c.pos + 1, docOpen := false, state := Stream(StDocLoop)), [DocEvent(DocEnd, false, t.start, t.end)])
              else if IsMarker(t) then Next(c.(docOpen := false, state := Stream(StDocLoop)), [DocEvent(DocEnd, true, t.start, t.start)])
              else Failed([])
  {
    if Has(inp, c.pos) {
      var t := inp.toks[c.pos];
      assert [] + [DocEvent(DocEnd, false, t.start, t.end)] == [DocEvent(DocEnd, false, t.start, t.end)];
      assert [] + [DocEvent(DocEnd, true, t.start, t.start)] == [DocEvent(DocEnd, true, t.start, t.start)];
    }
  }

  /** The boundary after a document's root. */
  lemma EndingMatches(inp: Input, c: Config) returns (d: Config)
    requires Inv(inp, c) && c.state == Doc(StDocEndExplicit)
    ensures c.pos <= |inp.toks| && Gets(inp, c, DocumentEnd(inp.toks, c.pos), StDocLoop, d)
  {
    hide Run, Low, StepOf, EndDocument, FramesOk, Gets;
    EndingStep(inp, c);
    d := c;
    if Has(inp, c.pos) && IsMarker(inp.toks[c.pos]) {
      d := StepOf(inp, c).c;
      Arrived(inp, c, d, StepOf(inp, c).out, StDocLoop);
    } else {
      NoEnding(inp, c);
      Gone(inp, c, StDocLoop, d);
    }
  }

  lemma NoEnding(inp: Input, c: Config)
    requires c.state == Doc(StDocEndExplicit) && (Has(inp, c.pos) ==> !IsMarker(inp.toks[c.pos]))
    ensures StepOf(inp, c) == Failed([])
  {}

  lemma ContentStep(inp: Input, c: Config)
    requires c.state == Doc(StDocContent)
    ensures var s := StepOf(inp, c);
            if !Has(inp, c.pos) then s == Failed([])
            else
              var t := inp.toks[c.pos];
              var empty, end := EmptyScalar(t.start), DocEvent(DocEnd, true, t.start, t.start);
              if t.typ == TokDocEnd then s == Next(Goto(c, Doc(StDocEndExplicit)), [empty])
              else if t.typ == TokDocStart then s == Next(c.(docOpen := false, state := Stream(StDocLoop)), [empty, end])
              else if t.typ == TokStreamEnd then s == Next(c.(docOpen := false, state := Stream(StStreamEnd)), [empty, end])
              else s == Next(c.(nodeReturn := Doc(StDocEndExplicit), state := Node(StBlockNode)), [])
  {}

  /** A document without content. */
  lemma NoContentMatches(inp: Input, c: Config) returns (d: Config)
    requires Inv(inp, c) && c.state == Doc(StDocContent) && Has(inp, c.pos) && IsMarker(inp.toks[c.pos])
    ensures Gets(inp, c, Document(Src(inp), c.pos, c.docStartLine), StDocLoop, d)
  {
    hide Run, Low, StepOf, Inv, Leads, Fails, BlockNode;
    ContentStep(inp, c);
    StepKeepsInv(inp, c);
    var t := inp.toks[c.pos];
    var empty, end := EmptyScalar(t.start), DocEvent(DocEnd, true, t.start, t.start);
    assert [empty] + [end] == [empty, end];
    var k := StepOf(inp, c).c;
    if t.typ == TokDocEnd {
      d := EndingMatches(inp, k);
      StepGets(inp, c, k, [empty], DocumentEnd(inp.toks, c.pos), StDocLoop, d);
    } else if t.typ == TokDocStart {
      d := k;
      Arrived(inp, c, k, [empty, end], StDocLoop);
    } else {
      d := Goto(k, Stream(StDocLoop));
      LoopEnds(inp, c, k, [empty, end], d);
    }
  }

  /** A document from after its start. */
  lemma DocumentMatches(inp: Input, c: Config) returns (d: Config)
    requires SoundKeys(inp) && Inv(inp, c) && c.state == Doc(StDocContent)
    ensures c.pos <= |inp.toks| && Gets(inp, c, Document(Src(inp), c.pos, c.docStartLine), StDocLoop, d)
  {
    hide Run, Low, StepOf, Leads, Fails, BlockNode, PastClose, SoundKeys, StateOk;
    ContentStep(inp, c);
    StepKeepsInv(inp, c);
    d := c;
    if !Has(inp, c.pos) {
      Gone(inp, c, StDocLoop, d);
    } else if IsMarker(inp.toks[c.pos]) {
      d := NoContentMatches(inp, c);
    } else {
      var k := c.(nodeReturn := Doc(StDocEndExplicit), state := Node(StBlockNode));
      RootBelow(inp, c);
      var v := NodeMatches(inp, k);
      d := RootMatches(inp, k, BlockNode(Src(inp), c.pos, c.docStartLine, true), v);
      StepGets(inp, c, k, [], Document(Src(inp), c.pos, c.docStartLine), StDocLoop, d);
    }
  }

  lemma RootBelow(inp: Input, c: Config)
    requires Inv(inp, c) && c.state.Doc?
    ensures c.frames == []
  {}

  /** A document's root that was read, and the document's end. */
  lemma RootMatches(inp: Input, c: Config, root: Result, v: Config) returns (d: Config)
    requires c.frames == [] && Matches(inp, c, root, Doc(StDocEndExplicit), [], v) && (root.Read? ==> root.pos <= |inp.toks|)
    ensures Gets(inp, c, if root.Read? then After(root.evs, DocumentEnd(inp.toks, root.pos)) else root, StDocLoop, d)
  {
    hide Run, Low, Inv, Fails, DocumentEnd;
    d := c;
    if root.Read? {
      d := EndingMatches(inp, v);
      GetsThen(inp, c, root.evs, v, DocumentEnd(inp.toks, root.pos), StDocLoop, d);
    }
  }

  lemma LoopStepIs(inp: Input, c: Config)
    requires c.state == Stream(StDocLoop)
    ensures StepOf(inp, c) == if !Has(inp, c.pos) then Failed([])
                              else Next(Goto(c, if inp.toks[c.pos].typ == TokStreamEnd then Stream(StStreamEnd) else Stream(StDocDirectives)), [])
  {}

  lemma DirectivesStep(inp: Input, c: Config)
    requires c.state == Stream(StDocDirectives) && Has(inp, c.pos) && inp.toks[c.pos].typ != TokStreamEnd
    ensures var s := StepOf(inp, c);
            match inp.toks[c.pos].typ
            case TokDirective => s == Next(Goto(c, StEagerDrain), [])
            case TokDocStart => s == Next(Goto(c, Stream(StDocStartExplicit)), [])
            case TokDocEnd => s == Next(c.(pos := c.pos + 1, state := Stream(StDocLoop)), [])
            case _ => s == Next(Goto(c, Stream(StDocStartImplicit)), [])
  {}

  /** A document's start. */
  lemma StartStep(inp: Input, c: Config)
    requires Inv(inp, c) && (c.state == Stream(StDocStartExplicit) || c.state == Stream(StDocStartImplicit))
    ensures Has(inp, c.pos) &&
            var t := inp.toks[c.pos];
            StepOf(inp, c) ==
            if c.state == Stream(StDocStartExplicit)
            then Next(c.(docStartLine := t.start.line, pos := c.pos + 1, docOpen := true, state := Doc(StDocContent)),
                      [DocEvent(DocStart, false, t.start, t.end)])
            else Next(c.(docStartLine := 0, docOpen := true, state := Doc(StDocContent)), [DocEvent(DocStart, true, t.start, t.start)])
  {
    hide FramesOk;
    var t := inp.toks[c.pos];
    assert [] + [DocEvent(DocStart, false, t.start, t.end)] == [DocEvent(DocStart, false, t.start, t.end)];
    assert [] + [DocEvent(DocStart, true, t.start, t.start)] == [DocEvent(DocStart, true, t.start, t.start)];
  }

  /** A document from its start, explicit or not. */
  lemma StartMatches(inp: Input, c: Config) returns (d: Config)
    requires SoundKeys(inp) && Inv(inp, c) && (c.state == Stream(StDocStartExplicit) || c.state == Stream(StDocStartImplicit))
    ensures Has(inp, c.pos) &&
            var t := inp.toks[c.pos];
            Gets(inp, c, if c.state == Stream(StDocStartExplicit)
                         then After([DocEvent(DocStart, false, t.start, t.end)], Document(Src(inp), c.pos + 1, t.start.line))
                         else After([DocEvent(DocStart, true, t.start, t.start)], Document(Src(inp), c.pos, 0)), StDocLoop, d)
  {
    hide Run, Low, StepOf, Inv, Document, Gets, SoundKeys;
    StartStep(inp, c);
    StepKeepsInv(inp, c);
    var k, out := StepOf(inp, c).c, StepOf(inp, c).out;
    d := DocumentMatches(inp, k);
    StepGets(inp, c, k, out, Document(Src(inp), k.pos, k.docStartLine), StDocLoop, d);
  }

  lemma StreamEndStep(inp: Input, c: Config)
    requires c.state == Stream(StStreamEnd) && Has(inp, c.pos)
    ensures StepOf(inp, c) == Next(c.(pos := c.pos + 1, state := Stream(StDone)), [Simple(StreamEnd, inp.toks[c.pos].start, inp.toks[c.pos].end)])
  {}

  /** The end of the stream. */
  lemma StreamEndMatches(inp: Input, c: Config) returns (d: Config)
    requires Inv(inp, c) && c.state == Stream(StStreamEnd) && Has(inp, c.pos)
    ensures Gets(inp, c, Read([Simple(StreamEnd, inp.toks[c.pos].start, inp.toks[c.pos].end)], c.pos + 1), StDone, d)
  {
    hide StepOf, Inv, Gets;
    StreamEndStep(inp, c);
    d := StepOf(inp, c).c;
    Arrived(inp, c, d, StepOf(inp, c).out, StDone);
  }

  /** A document and the rest of the stream. */
  lemma {:induction false} DocumentThen(inp: Input, c: Config) returns (d: Config)
    requires SoundKeys(inp) && Inv(inp, c) && (c.state == Stream(StDocStartExplicit) || c.state == Stream(StDocStartImplicit))
    ensures c.pos <= |inp.toks| && Gets(inp, c, Documents(Src(inp), c.pos), StDone, d)
    decreases |inp.toks| - c.pos, 0
  {
    hide Run, Low, StepOf, Inv, Document, Leads, Fails, SoundKeys;
    StartToken(inp, c);
    var t, explicit := inp.toks[c.pos], c.state == Stream(StDocStartExplicit);
    var body := if explicit then Document(Src(inp), c.pos + 1, t.start.line) else Document(Src(inp), c.pos, 0);
    var open := DocEvent(DocStart, !explicit, t.start, if explicit then t.end else t.start);
    d := StartMatches(inp, c);
    if body.Read? {
      var v := d;
      GetsInv(inp, c, After([open], body), StDocLoop, v);
      d := DocumentsMatch(inp, v);
      GetsThen(inp, c, [open] + body.evs, v, Documents(Src(inp), body.pos), StDone, d);
    }
  }

  lemma GetsInv(inp: Input, c: Config, r: Result, to: StreamState, v: Config)
    requires r.Read? && Gets(inp, c, r, to, v)
    ensures Inv(inp, v) && v.state == Stream(to) && v.pos == r.pos && Leads(inp, c, r.evs, v, 0)
  {
    hide Inv, Run, Low;
  }

  lemma StartToken(inp: Input, c: Config)
    requires Inv(inp, c) && (c.state == Stream(StDocStartExplicit) || c.state == Stream(StDocStartImplicit))
    ensures Has(inp, c.pos) && var t := inp.toks[c.pos];
            if c.state == Stream(StDocStartExplicit) then t.typ == TokDocStart else t.typ !in {TokDirective, TokDocStart, TokDocEnd, TokStreamEnd}
  {
    hide FramesOk;
  }

  /** A directive asks for the eager parser. */
  lemma DirectiveAsks(inp: Input, c: Config, d: Config)
    requires Inv(inp, c) && c.state == Stream(StDocDirectives) && Sees(inp, c, TokDirective)
    ensures Gets(inp, c, Beyond, StDone, d)
  {
    hide StepOf, Inv, Run, Low, FramesOk;
    DirectivesStep(inp, c);
    AskFails(inp, c);
  }

  /** The rest of the stream between two documents. */
  lemma {:induction false} DocumentsMatch(inp: Input, c: Config) returns (d: Config)
    requires SoundKeys(inp) && Inv(inp, c) && c.state == Stream(StDocLoop)
    ensures c.pos <= |inp.toks| && Gets(inp, c, Documents(Src(inp), c.pos), StDone, d)
    decreases |inp.toks| - c.pos, 2
  {
    hide Run, Low, StepOf, Inv, Document, Gets, SoundKeys;
    InTokens(inp, c);
    LoopStepIs(inp, c);
    d := c;
    if !Has(inp, c.pos) {
      Gone(inp, c, StDone, d);
    } else {
      StepKeepsInv(inp, c);
      var k := StepOf(inp, c).c;
      if inp.toks[c.pos].typ == TokStreamEnd { d := StreamEndMatches(inp, k); } else { d := DirectivesMatch(inp, k); }
      StepGets(inp, c, k, [], Documents(Src(inp), c.pos), StDone, d);
    }
  }

  lemma InTokens(inp: Input, c: Config)
    requires Inv(inp, c)
    ensures c.pos <= |inp.toks|
  {}

  lemma {:induction false} DirectivesMatch(inp: Input, c: Config) returns (d: Config)
    requires SoundKeys(inp) && Inv(inp, c) && c.state == Stream(StDocDirectives) && Has(inp, c.pos) && inp.toks[c.pos].typ != TokStreamEnd
    ensures Gets(inp, c, Documents(Src(inp), c.pos), StDone, d)
    decreases |inp.toks| - c.pos, 1
  {
    hide Run, Low, StepOf, Inv, Document, Gets, SoundKeys;
    DirectivesStep(inp, c);
    StepKeepsInv(inp, c);
    d := c;
    if inp.toks[c.pos].typ == TokDirective {
      DirectiveAsks(inp, c, d);
    } else {
      var k := StepOf(inp, c).c;
      if inp.toks[c.pos].typ == TokDocEnd { d := DocumentsMatch(inp, k); } else { d := DocumentThen(inp, k); }
      StepGets(inp, c, k, [], Documents(Src(inp), c.pos), StDone, d);
    }
  }

  lemma StreamStartStep(inp: Input)
    ensures StepOf(inp, Initial()) ==
            if inp.toks == [] then Failed([])
            else Next(Initial().(pos := 1, state := Stream(StDocLoop)), [Simple(StreamStart, inp.toks[0].start, inp.toks[0].end)])
  {}

  lemma StreamMatches(inp: Input) returns (d: Config)
    requires SoundKeys(inp)
    ensures Inv(inp, Initial()) && Gets(inp, Initial(), WholeStream(Src(inp)), StDone, d)
  {
    hide Run, Low, StepOf, Inv, Documents, Gets, SoundKeys;
    InitialInv(inp);
    StreamStartStep(inp);
    StepKeepsInv(inp, Initial());
    d := Initial();
    if inp.toks == [] {
      Gone(inp, Initial(), StDone, d);
    } else {
      var k := StepOf(inp, Initial()).c;
      d := DocumentsMatch(inp, k);
      StepGets(inp, Initial(), k, StepOf(inp, Initial()).out, Documents(Src(inp), 1), StDone, d);
    }
  }

  /** The incremental parser against the recursive one, on whole streams. Where the
      recursive grammar reads the stream, the run finishes with exactly its events,
      or asks for the eager parser having emitted the first of them, because of a
      "key" answer; it does not fail. Where the stream is beyond the grammar the run
      asks; where it is wrong the run does not finish. */
  lemma RunParses(inp: Input)
    requires SoundKeys(inp)
    ensures Inv(inp, Initial())
    ensures var o := Run(inp, Initial());
            match WholeStream(Src(inp))
            case Read(evs, _) => o == Finished(evs) || (o.ToEager? && o.evs <= evs && !Keyless(inp))
            case Beyond => o.ToEager?
            case Wrong => !o.Finished?
  {
    hide StepOf, Inv, WholeStream, Low, SoundKeys, Keyless;
    var d := StreamMatches(inp);
    var r := WholeStream(Src(inp));
    if r.Read? {
      assert Run(inp, d) == Finished([]);
      assert r.evs + [] == r.evs;
    }
  }

  /** A run that finishes has parsed the stream as the recursive grammar does. */
  lemma FinishedParses(inp: Input)
    requires SoundKeys(inp)
    ensures Inv(inp, Initial())
    ensures var r, o := WholeStream(Src(inp)), Run(inp, Initial()); o.Finished? ==> r.Read? && o.evs == r.evs
  {
    hide StepOf, Inv, WholeStream, SoundKeys, Run;
    RunParses(inp);
  }
}
