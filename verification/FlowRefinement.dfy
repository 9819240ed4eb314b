/**
 * The incremental flow states refine the recursive flow parser: on every token
 * sequence the machine either asks for the eager parser, or emits exactly the
 * recursive parser's events and stops at the same token, or both fail. The one
 * assumption is about the lookahead: after a collection it says is not a key,
 * no ':' follows the matching bracket.
 */
module FlowRefinement {
  import opened Events
  import opened FlowGrammar
  import opened Machine
  import opened MachineInvariant
  import opened MachineTermination
  import opened MachineRun

  // ----- the lookahead -----

  predicate Opens(t: TokenType) { t == TokFlowSeqStart || t == TokFlowMapStart }

  predicate Closes(t: TokenType) { t == TokFlowSeqEnd || t == TokFlowMapEnd }

  /** The position past the bracket that closes `depth` open ones, whatever their kinds. */
  function PastClose(toks: seq<Token>, i: nat, depth: nat): nat
    requires i <= |toks|
    decreases |toks| - i
  {
    if depth == 0 || i == |toks| then i
    else PastClose(toks, i + 1,
                   if Opens(toks[i].typ) then depth + 1 else if Closes(toks[i].typ) then depth - 1 else depth)
  }

  /** A "not a key" answer is never wrong. */
  ghost predicate SoundKeys(inp: Input) {
    forall i: nat | i < |inp.toks| && Opens(inp.toks[i].typ) && !inp.isKey(inp.toks[i].start.offset) ::
      var j := PastClose(inp.toks, i + 1, 1);
      j < |inp.toks| ==> inp.toks[j].typ != TokMapValue
  }

  /** `n` brackets more closed than opened from `pos` to `end`: they are skipped together. */
  ghost predicate Balanced(toks: seq<Token>, pos: nat, end: nat, n: nat)
    requires pos <= |toks| && end <= |toks|
  {
    forall depth: nat | depth > n || (depth == n && n > 0) ::
      PastClose(toks, pos, depth) == PastClose(toks, end, depth - n)
  }

  lemma {:induction false} PropsBalanced(toks: seq<Token>, pos: nat, p: Props)
    requires pos <= |toks|
    ensures var r := ConsumeProps(toks, pos, p); r.PropsOk? ==> Balanced(toks, pos, r.pos, 0)
    decreases |toks| - pos
  {
    if pos < |toks| {
      var t := toks[pos];
      if t.typ == TokAnchor && p.anchor.None? {
        PropsBalanced(toks, pos + 1, Props(Some(t.value), p.tag, if p.tag.None? then t.start else p.start));
      } else if t.typ == TokTag && p.tag.None? && t.tag.Some? {
        PropsBalanced(toks, pos + 1, Props(p.anchor, t.tag, if p.anchor.None? then t.start else p.start));
      }
    }
  }

  lemma {:induction false} NodeBalanced(toks: seq<Token>, pos: nat)
    requires pos <= |toks|
    ensures var r := FlowNode(toks, pos); r.Ok? ==> Balanced(toks, pos, r.pos, 0)
    decreases |toks| - pos, 1
  {
    PropsBalanced(toks, pos, NO_PROPS);
    var r := ConsumeProps(toks, pos, NO_PROPS);
    if r.PropsOk? { ContentBalanced(toks, r.pos, r.props); }
  }

  lemma {:induction false} ContentBalanced(toks: seq<Token>, at: nat, props: Props)
    requires at < |toks|
    ensures var r := FlowContent(toks, at, props); r.Ok? ==> Balanced(toks, at, r.pos, 0)
    decreases |toks| - at, 0
  {
    match toks[at].typ
    case TokFlowSeqStart => SeqBalanced(toks, at + 1);
    case TokFlowMapStart => MapBalanced(toks, at + 1);
    case _ =>
  }

  lemma {:induction false} UnlessBalanced(toks: seq<Token>, pos: nat, absent: set<TokenType>)
    requires pos <= |toks|
    ensures var r := NodeUnless(toks, pos, absent); r.Ok? ==> Balanced(toks, pos, r.pos, 0)
    decreases |toks| - pos, 2
  {
    if pos < |toks| && toks[pos].typ !in absent { NodeBalanced(toks, pos); }
  }

  lemma {:induction false} ValueBalanced(toks: seq<Token>, pos: nat, absent: set<TokenType>)
    requires pos <= |toks|
    ensures var r := ValuePart(toks, pos, absent); r.Ok? ==> Balanced(toks, pos, r.pos, 0)
    decreases |toks| - pos, 3
  {
    if pos < |toks| && toks[pos].typ == TokMapValue { UnlessBalanced(toks, pos + 1, absent); }
  }

  lemma TokenBalanced(toks: seq<Token>, pos: nat)
    requires pos < |toks| && !Opens(toks[pos].typ)
    ensures Balanced(toks, pos, pos + 1, if Closes(toks[pos].typ) then 1 else 0)
  {}

  lemma BalancedTrans(toks: seq<Token>, a: nat, b: nat, c: nat, n: nat)
    requires a <= |toks| && b <= |toks| && c <= |toks|
    requires Balanced(toks, a, b, 0) && Balanced(toks, b, c, n)
    ensures Balanced(toks, a, c, n)
  {}

  lemma {:induction false} SeqEntryBalanced(toks: seq<Token>, pos: nat)
    requires pos < |toks|
    ensures var r := SeqEntry(toks, pos); r.Ok? ==> Balanced(toks, pos, r.pos, 0)
    decreases |toks| - pos, 4
  {
    hide Balanced, PastClose, NodeUnless, ValuePart, FlowNode;
    var r := SeqEntry(toks, pos);
    if r.Err? { return; }
    if toks[pos].typ == TokMapKey {
      var key := NodeUnless(toks, pos + 1, KEY_ABSENT_IN_SEQ);
      UnlessBalanced(toks, pos + 1, KEY_ABSENT_IN_SEQ);
      ValueBalanced(toks, key.pos, VALUE_ABSENT_IN_SEQ);
      TokenBalanced(toks, pos);
      BalancedTrans(toks, pos, pos + 1, key.pos, 0);
      BalancedTrans(toks, pos, key.pos, r.pos, 0);
    } else {
      NodeBalanced(toks, pos);
      PairBalanced(toks, pos, FlowNode(toks, pos));
    }
  }

  lemma {:induction false} PairBalanced(toks: seq<Token>, pos: nat, node: Parse)
    requires pos <= |toks| && (node.Ok? ==> pos <= node.pos <= |toks| && node.evs != [] && Balanced(toks, pos, node.pos, 0))
    ensures var r := PairOrNode(toks, pos, node); r.Ok? ==> Balanced(toks, pos, r.pos, 0)
    decreases |toks| - pos, 3
  {
    hide Balanced, PastClose, NodeUnless;
    var r := PairOrNode(toks, pos, node);
    if r.Ok? && toks[node.pos].typ == TokMapValue {
      TokenBalanced(toks, node.pos);
      UnlessBalanced(toks, node.pos + 1, VALUE_ABSENT_IN_SEQ);
      BalancedTrans(toks, node.pos, node.pos + 1, r.pos, 0);
      BalancedTrans(toks, pos, node.pos, r.pos, 0);
    }
  }

  lemma {:induction false} SeqBalanced(toks: seq<Token>, pos: nat)
    requires pos <= |toks|
    ensures var r := FlowSeq(toks, pos); r.Ok? ==> Balanced(toks, pos, r.pos, 1)
    decreases |toks| - pos, 5
  {
    hide Balanced, PastClose, SeqEntry;
    var r := FlowSeq(toks, pos);
    if r.Err? { return; }
    if toks[pos].typ == TokFlowSeqEnd {
      TokenBalanced(toks, pos);
    } else {
      var entry := SeqEntry(toks, pos);
      SeqEntryBalanced(toks, pos);
      assert SeqTail(toks, entry.pos).Ok? && SeqTail(toks, entry.pos).pos == r.pos;
      TokenBalanced(toks, entry.pos);
      if toks[entry.pos].typ == TokFlowEntry {
        SeqBalanced(toks, entry.pos + 1);
        BalancedTrans(toks, entry.pos, entry.pos + 1, r.pos, 1);
      }
      BalancedTrans(toks, pos, entry.pos, r.pos, 1);
    }
  }

  lemma {:induction false} MapEntryBalanced(toks: seq<Token>, pos: nat)
    requires pos < |toks|
    ensures var r := MapEntry(toks, pos); r.Ok? ==> Balanced(toks, pos, r.pos, 0)
    decreases |toks| - pos, 4
  {
    var r := MapEntry(toks, pos);
    if r.Err? { return; }
    var key := if toks[pos].typ == TokMapKey then NodeUnless(toks, pos + 1, KEY_ABSENT_IN_MAP) else FlowNode(toks, pos);
    if toks[pos].typ == TokMapKey {
      TokenBalanced(toks, pos);
      UnlessBalanced(toks, pos + 1, KEY_ABSENT_IN_MAP);
      BalancedTrans(toks, pos, pos + 1, key.pos, 0);
    } else {
      NodeBalanced(toks, pos);
    }
    ValueBalanced(toks, key.pos, VALUE_ABSENT_IN_MAP);
    BalancedTrans(toks, pos, key.pos, r.pos, 0);
  }

  lemma {:induction false} MapBalanced(toks: seq<Token>, pos: nat)
    requires pos <= |toks|
    ensures var r := FlowMap(toks, pos); r.Ok? ==> Balanced(toks, pos, r.pos, 1)
    decreases |toks| - pos, 5
  {
    var r := FlowMap(toks, pos);
    if r.Err? { return; }
    if toks[pos].typ == TokFlowMapEnd {
      TokenBalanced(toks, pos);
    } else {
      var entry := MapEntry(toks, pos);
      MapEntryBalanced(toks, pos);
      assert MapTail(toks, entry.pos).Ok? && MapTail(toks, entry.pos).pos == r.pos;
      TokenBalanced(toks, entry.pos);
      if toks[entry.pos].typ == TokFlowEntry {
        MapBalanced(toks, entry.pos + 1);
        BalancedTrans(toks, entry.pos, entry.pos + 1, r.pos, 1);
      }
      BalancedTrans(toks, pos, entry.pos, r.pos, 1);
    }
  }

  /** Where the recursive parser stops after a collection is past the matching bracket. */
  lemma CollectionEnd(toks: seq<Token>, at: nat, props: Props)
    requires at < |toks| && Opens(toks[at].typ)
    ensures var r := FlowContent(toks, at, props); r.Ok? ==> r.pos == PastClose(toks, at + 1, 1)
  {
    SeqBalanced(toks, at + 1);
    MapBalanced(toks, at + 1);
  }

  // ----- comparing runs -----

  /** The fewest frames of any configuration from `c` to the end of the run. */
  function Low(inp: Input, c: Config): nat
    requires Inv(inp, c)
    decreases Measure(inp, c)
  {
    if Final(c) then |c.frames|
    else
      StepKeepsInv(inp, c);
      StepLowers(inp, c);
      match StepOf(inp, c)
      case Failed(_) => |c.frames|
      case Next(d, _) => Min(|c.frames|, Low(inp, d))
  }

  function Min(a: nat, b: nat): nat { if a < b then a else b }

  /** The run from `c` asks for the eager parser or fails, and never has fewer
      than `n` frames. */
  predicate Fails(inp: Input, c: Config, n: nat) {
    Inv(inp, c) && !Run(inp, c).Finished? && Low(inp, c) >= n
  }

  /** The lookahead answers "key" for no bracket. */
  predicate Keyless(inp: Input) {
    forall i: nat | i < |inp.toks| && Opens(inp.toks[i].typ) :: !inp.isKey(inp.toks[i].start.offset)
  }

  /** The run from `c` emits `evs` and goes on from `d`, with at least `n` frames
      until then; or it asks or fails before that, having emitted the first of
      `evs`, and fails only if the run from `d` fails too. Without "key" answers it
      asks only if the run from `d` does not finish either. */
  predicate Leads(inp: Input, c: Config, evs: seq<Event>, d: Config, n: nat) {
    Inv(inp, c) && Inv(inp, d) &&
    (|| (Run(inp, c) == Prepend(evs, Run(inp, d)) && Low(inp, c) >= Min(n, Low(inp, d)))
     || (Fails(inp, c, n) && Run(inp, c).evs <= evs && (Run(inp, c).Error? ==> Run(inp, d).Error?)
         && (Keyless(inp) ==> !Run(inp, d).Finished?)))
  }

  lemma LeadsStep(inp: Input, c: Config)
    requires Inv(inp, c) && !Final(c) && StepOf(inp, c).Next?
    ensures forall n: nat | n <= |c.frames| :: Leads(inp, c, StepOf(inp, c).out, StepOf(inp, c).c, n)
  {
    hide StepOf, Inv;
    StepKeepsInv(inp, c);
  }

  lemma FailsStep(inp: Input, c: Config)
    requires Inv(inp, c) && !Final(c) && StepOf(inp, c).Failed?
    ensures Run(inp, c).evs == StepOf(inp, c).out
    ensures forall n: nat | n <= |c.frames| :: Fails(inp, c, n)
  {
    hide StepOf, Inv;
  }

  lemma LeadsTrans(inp: Input, c: Config, a: seq<Event>, d: Config, b: seq<Event>, e: Config, n: nat)
    requires Leads(inp, c, a, d, n) && Leads(inp, d, b, e, n)
    ensures Leads(inp, c, a + b, e, n)
  {
    hide Run, Low, Inv;
    var o := Run(inp, e);
    assert a + (b + o.evs) == a + b + o.evs;
  }

  lemma LeadsFails(inp: Input, c: Config, a: seq<Event>, d: Config, n: nat)
    requires Leads(inp, c, a, d, n) && Fails(inp, d, n)
    ensures Fails(inp, c, n)
  {
    hide Run, Low, Inv;
  }

  lemma LeadsDown(inp: Input, c: Config, evs: seq<Event>, d: Config, m: nat, n: nat)
    requires Leads(inp, c, evs, d, m) && n <= m
    ensures Leads(inp, c, evs, d, n)
  {
    hide Run, Low, Inv;
  }

  /** The run is back from a node or collection: only dead registers may differ. */
  predicate Resumes(c: Config, d: Config, ret: State, frames: seq<Frame>, pos: nat) {
    d == c.(state := ret, frames := frames, pos := pos, props := NO_PROPS, nodeReturn := d.nodeReturn, saved := d.saved)
  }

  /** The machine from `c` does what the recursive parser's result `r` says. */
  predicate Refines(inp: Input, c: Config, r: Parse, ret: State, frames: seq<Frame>, d: Config) {
    if r.Ok? then Resumes(c, d, ret, frames, r.pos) && Leads(inp, c, r.evs, d, |frames|) else Fails(inp, c, |frames|)
  }

  /** After a flow node the run fails if there are no more tokens. */
  lemma NoTokenFails(inp: Input, d: Config)
    requires Inv(inp, d) && InFlow(d.frames) && ReturnOk(d.frames, d.state) && !Has(inp, d.pos)
    ensures forall n: nat | n <= |d.frames| :: Fails(inp, d, n)
  {}

  /** The separator shortcut lands where the separator states would. */
  lemma SepSkips(inp: Input, d: Config, inSeq: bool, out: seq<Event>)
    requires Inv(inp, d) && d.state == (if inSeq then FSeq(StFSeqSep) else FMap(StFMapSep))
    ensures var s := FlowSep(inp, d, inSeq, out);
      s.out == out && (s.Failed? ==> Run(inp, d).Error?) &&
      (s.Next? ==> Inv(inp, s.c) && Run(inp, d) == Run(inp, s.c) && Low(inp, d) == Min(|d.frames|, Low(inp, s.c)))
  {
    hide StepOf, Inv, Run, Low;
    SepStep(inp, d, inSeq);
    LowAtMost(inp, d);
    if !Has(inp, d.pos) {
      FailedRun(inp, d);
    } else {
      var e := d.(state := if inSeq then FSeq(StFSeqLoop) else FMap(StFMapLoop));
      var tt := inp.toks[d.pos].typ;
      if tt == (if inSeq then TokFlowSeqEnd else TokFlowMapEnd) {
        RunSilent(inp, d, e);
        CloseStep(inp, e, inSeq);
        RunSilent(inp, e, d.(state := if inSeq then FSeq(StFSeqEnd) else FMap(StFMapEnd)));
      } else if tt == TokFlowEntry {
        RunSilent(inp, d, e.(pos := d.pos + 1));
      } else {
        assert FlowSep(inp, d, inSeq, out) == Next(d, out);
      }
    }
  }

  lemma LowAtMost(inp: Input, c: Config)
    requires Inv(inp, c)
    ensures Low(inp, c) <= |c.frames|
  {
    hide Inv, StepOf;
  }

  lemma FailedRun(inp: Input, c: Config)
    requires Inv(inp, c) && !Final(c) && StepOf(inp, c).Failed?
    ensures Run(inp, c).Error?
  {
    hide Inv, StepOf;
  }

  lemma SepStep(inp: Input, d: Config, inSeq: bool)
    requires d.state == (if inSeq then FSeq(StFSeqSep) else FMap(StFMapSep))
    ensures var e := d.(state := if inSeq then FSeq(StFSeqLoop) else FMap(StFMapLoop));
      StepOf(inp, d) ==
      if !Has(inp, d.pos) then Failed([])
      else if inp.toks[d.pos].typ == TokFlowEntry then Next(e.(pos := d.pos + 1), [])
      else if inp.toks[d.pos].typ == (if inSeq then TokFlowSeqEnd else TokFlowMapEnd) then Next(e, [])
      else Failed([])
  {}

  lemma CloseStep(inp: Input, e: Config, inSeq: bool)
    requires e.state == (if inSeq then FSeq(StFSeqLoop) else FMap(StFMapLoop))
    requires Sees(inp, e, if inSeq then TokFlowSeqEnd else TokFlowMapEnd)
    ensures StepOf(inp, e) == Next(e.(state := if inSeq then FSeq(StFSeqEnd) else FMap(StFMapEnd)), [])
  {}

  lemma RunSilent(inp: Input, c: Config, d: Config)
    requires Inv(inp, c) && !Final(c) && StepOf(inp, c) == Next(d, [])
    ensures Inv(inp, d) && Run(inp, c) == Run(inp, d) && Low(inp, c) == Min(|c.frames|, Low(inp, d))
  {
    hide StepOf;
    StepKeepsInv(inp, c);
    var o := Run(inp, d);
    assert Prepend([], o) == o by { assert [] + o.evs == o.evs; }
  }

  /** A step that ends in the separator shortcut leads to the separator state. */
  lemma SepLeads(inp: Input, c: Config, d: Config, inSeq: bool, out: seq<Event>)
    requires Inv(inp, c) && !Final(c) && Inv(inp, d) && d.state == (if inSeq then FSeq(StFSeqSep) else FMap(StFMapSep))
    requires StepOf(inp, c) == FlowSep(inp, d, inSeq, out) && |d.frames| <= |c.frames|
    ensures Leads(inp, c, out, d, |d.frames|)
  {
    SepSkips(inp, d, inSeq, out);
    if Has(inp, d.pos) { LeadsStep(inp, c); }
  }

  /** Configurations that differ at most in what a flow collection changes. */
  predicate Near(c: Config, k: Config) {
    k == c.(state := k.state, props := k.props, pos := k.pos, nodeReturn := k.nodeReturn, saved := k.saved, frames := k.frames)
  }

  /** Events, then what `r` says of the rest. */
  lemma Compose(inp: Input, c: Config, evs: seq<Event>, k: Config, n: nat, r: Parse, ret: State, frames: seq<Frame>, d: Config)
    requires Near(c, k) && Leads(inp, c, evs, k, n) && |frames| <= n && Refines(inp, k, r, ret, frames, d)
    ensures Refines(inp, c, Prefix(evs, r), ret, frames, d)
  {
    hide Run, Low, Inv;
    LeadsDown(inp, c, evs, k, n, |frames|);
    if r.Ok? { LeadsTrans(inp, c, evs, k, r.evs, d, |frames|); } else { LeadsFails(inp, c, evs, k, |frames|); }
  }

  /** A step that emits nothing. */
  lemma Silent(inp: Input, c: Config, k: Config, r: Parse, ret: State, frames: seq<Frame>, d: Config)
    requires Near(c, k) && Inv(inp, c) && !Final(c) && StepOf(inp, c) == Next(k, []) && Refines(inp, k, r, ret, frames, d)
    requires |frames| <= |c.frames|
    ensures Refines(inp, c, r, ret, frames, d)
  {
    hide Run, Low, Inv, StepOf, Leads, Fails;
    LeadsStep(inp, c);
    Compose(inp, c, [], k, |frames|, r, ret, frames, d);
    if r.Ok? { assert [] + r.evs == r.evs; }
  }

  /** What the machine does where a node may be left out: `out` was emitted. */
  function NodeOr(inp: Input, d: Config, ret: State, absent: set<TokenType>, out: seq<Event>): Step {
    if !Has(inp, d.pos) then Failed(out)
    else if inp.toks[d.pos].typ in absent then Next(d.(state := ret), out + [EmptyScalar(inp.toks[d.pos].start)])
    else Next(d.(nodeReturn := ret, state := StFlowNode), out)
  }

  /** A configuration between tokens of a flow collection. */
  predicate Ready(inp: Input, c: Config) {
    c.pos <= |inp.toks| && FramesOk(c.frames) && c.docOpen && InFlow(c.frames) && c.props == NO_PROPS
  }

  predicate AtLoop(inp: Input, c: Config, s: State) {
    Inv(inp, c) && c.state == s && c.props == NO_PROPS
  }

  function Below(c: Config): seq<Frame>
    requires c.frames != []
  {
    c.frames[..|c.frames| - 1]
  }

  function TopRet(c: Config): State
    requires c.frames != []
  {
    c.frames[|c.frames| - 1].ret
  }

  // ----- facts about the recursive parser -----

  /** A node with the properties read so far. */
  function NodeFrom(toks: seq<Token>, pos: nat, props: Props): (r: Parse)
    requires pos <= |toks|
    ensures r.Ok? ==> pos <= r.pos <= |toks| && r.evs != []
  {
    match ConsumeProps(toks, pos, props)
    case PropsError => Err
    case PropsOk(p, at) => FlowContent(toks, at, p)
  }

  /** A scalar without properties; the token after it is looked at. */
  lemma BareScalar(toks: seq<Token>, pos: nat)
    requires pos < |toks| && toks[pos].typ == TokScalar
    ensures FlowNode(toks, pos) == if pos + 1 == |toks| then Err else Ok([Attach(ScalarOf(toks[pos]), NO_PROPS)], pos + 1)
  {
    assert ConsumeProps(toks, pos, NO_PROPS) == PropsOk(NO_PROPS, pos);
    assert FlowNode(toks, pos) == FlowContent(toks, pos, NO_PROPS);
  }

  lemma ScalarKeyEntry(toks: seq<Token>, pos: nat, key: seq<Event>)
    requires pos + 1 < |toks| && toks[pos].typ == TokScalar && toks[pos + 1].typ == TokMapValue
    requires FlowNode(toks, pos) == Ok(key, pos + 1)
    ensures MapEntry(toks, pos) == Prefix(key, NodeUnless(toks, pos + 2, VALUE_ABSENT_IN_MAP))
  {
    assert ValuePart(toks, pos + 1, VALUE_ABSENT_IN_MAP) == NodeUnless(toks, pos + 2, VALUE_ABSENT_IN_MAP);
  }

  /** The entry from `from` whose content, past the properties, is at `at`. */
  function EntryFrom(toks: seq<Token>, from: nat, at: nat, props: Props): (r: Parse)
    requires from <= at < |toks|
    ensures r.Ok? ==> from <= r.pos <= |toks|
  {
    PairOrNode(toks, from, FlowContent(toks, at, props))
  }

  lemma EntryOfNode(toks: seq<Token>, pos: nat)
    requires pos < |toks| && toks[pos].typ != TokMapKey
    ensures var r := ConsumeProps(toks, pos, NO_PROPS);
      SeqEntry(toks, pos) == if r.PropsError? then Err else EntryFrom(toks, pos, r.pos, r.props)
  {}

  /** An entry that is nothing but its properties. */
  lemma EmptyEntry(toks: seq<Token>, from: nat, at: nat, props: Props)
    requires from <= at < |toks| && toks[at].typ !in {TokAlias, TokScalar, TokFlowSeqStart, TokFlowMapStart, TokMapValue}
    ensures EntryFrom(toks, from, at, props) == Ok([Attach(EmptyScalar(toks[at].start), props)], at)
  {}

  lemma LeafEntry(toks: seq<Token>, from: nat, at: nat, props: Props)
    requires from <= at < |toks| && (toks[at].typ == TokScalar || toks[at].typ == TokAlias)
    ensures var node := Attach(if toks[at].typ == TokScalar then ScalarOf(toks[at]) else AliasOf(toks[at]), props);
      EntryFrom(toks, from, at, props) ==
      if at + 1 == |toks| then Err
      else if toks[at + 1].typ == TokMapValue then PairFrom(toks, node, at + 1)
      else Ok([node], at + 1)
  {}

  /** The pair that a one-event key and the ':' at `colon` begin. */
  function PairFrom(toks: seq<Token>, key: Event, colon: nat): (r: Parse)
    requires colon < |toks|
    ensures r.Ok? ==> colon < r.pos <= |toks|
  {
    ClosePair(toks, Prefix([FlowStart(MappingStart, key.start, key.start), key], NodeUnless(toks, colon + 1, VALUE_ABSENT_IN_SEQ)))
  }

  lemma ColonEntry(toks: seq<Token>, from: nat, at: nat, props: Props)
    requires from <= at < |toks| && toks[at].typ == TokMapValue
    ensures EntryFrom(toks, from, at, props) == PairFrom(toks, Attach(EmptyScalar(toks[at].start), props), at)
  {}

  lemma NestedEntry(toks: seq<Token>, from: nat, at: nat, props: Props)
    requires from <= at < |toks| && Opens(toks[at].typ)
    ensures var node := FlowContent(toks, at, props);
      node.Err? || node.pos == |toks| ==> EntryFrom(toks, from, at, props).Err?
    ensures var node := FlowContent(toks, at, props);
      node.Ok? && node.pos < |toks| && toks[node.pos].typ != TokMapValue ==> EntryFrom(toks, from, at, props) == node
  {}

  lemma ExplicitEntry(toks: seq<Token>, pos: nat)
    requires pos < |toks| && toks[pos].typ == TokMapKey
    ensures var key := NodeUnless(toks, pos + 1, KEY_ABSENT_IN_SEQ);
      SeqEntry(toks, pos) ==
      if key.Err? then Err
      else ClosePair(toks, Prefix([FlowStart(MappingStart, toks[pos].start, toks[pos].end)] + key.evs,
                                  ValuePart(toks, key.pos, VALUE_ABSENT_IN_SEQ)))
  {}

  // ----- the simulation, along the recursive parser -----

  lemma {:induction false} UnlessRuns(inp: Input, c: Config, b: Config, ret: State, absent: set<TokenType>, out: seq<Event>)
    returns (d: Config)
    requires SoundKeys(inp) && Inv(inp, c) && !Final(c) && Ready(inp, b) && ReturnOk(b.frames, ret) && Near(c, b) && b.frames == c.frames
    requires StepOf(inp, c) == NodeOr(inp, b, ret, absent, out)
    ensures Refines(inp, c, Prefix(out, NodeUnless(inp.toks, b.pos, absent)), ret, b.frames, d)
    decreases |inp.toks| - b.pos, 3
  {
    hide Run, Low, StepOf, FramesOk, FlowNode, PastClose;
    d := b.(state := ret);
    if !Has(inp, b.pos) {
      FailsStep(inp, c);
    } else if inp.toks[b.pos].typ in absent {
      LeadsStep(inp, c);
    } else {
      var n := b.(nodeReturn := ret, state := StFlowNode);
      ReadyNode(inp, b, ret);
      LeadsStep(inp, c);
      d := NodeRuns(inp, n);
      NodeFromNothing(inp.toks, b.pos);
      Compose(inp, c, out, n, |b.frames|, FlowNode(inp.toks, b.pos), ret, b.frames, d);
    }
  }

  lemma ReadyNode(inp: Input, b: Config, ret: State)
    requires Ready(inp, b) && ReturnOk(b.frames, ret)
    ensures Inv(inp, b.(nodeReturn := ret, state := StFlowNode))
  {}

  lemma NodeFromNothing(toks: seq<Token>, pos: nat)
    requires pos <= |toks|
    ensures NodeFrom(toks, pos, NO_PROPS) == FlowNode(toks, pos)
  {}

  lemma {:induction false} NodeRuns(inp: Input, c: Config) returns (d: Config)
    requires SoundKeys(inp) && Inv(inp, c) && c.state == StFlowNode
    ensures Refines(inp, c, NodeFrom(inp.toks, c.pos, c.props), c.nodeReturn, c.frames, d)
    decreases |inp.toks| - c.pos, 2
  {
    d := c;
    if !Has(inp, c.pos) {
      FailsStep(inp, c);
    } else if inp.toks[c.pos].typ == TokTag || inp.toks[c.pos].typ == TokAnchor {
      var r := ConsumeProps(inp.toks, c.pos, c.props);
      if r.PropsError? { FailsStep(inp, c); } else { d := ContentRuns(inp, c, c.(props := r.props, pos := r.pos)); }
    } else {
      assert ConsumeProps(inp.toks, c.pos, c.props) == PropsOk(c.props, c.pos);
      d := ContentRuns(inp, c, c);
    }
  }

  /** The opening bracket pushes a frame, in both parsers' terms. */
  lemma OpenStep(inp: Input, c: Config, b: Config, e: Config)
    requires c.state == StFlowNode && AtFlowStart(inp, b) && b == c.(props := b.props, pos := b.pos)
    requires StepOf(inp, c) == FlowNodeAt(inp, b) && StepOf(inp, c) == Next(e, StepOf(inp, c).out)
    ensures e.frames != [] && Below(e) == c.frames && TopRet(e) == c.nodeReturn && e.pos == b.pos + 1 && e.props == NO_PROPS && Near(c, e)
    ensures e.state == if Sees(inp, b, TokFlowSeqStart) then FSeq(StFSeqLoop) else FMap(StFMapLoop)
    ensures FlowContent(inp.toks, b.pos, b.props) ==
            Prefix(StepOf(inp, c).out, if Sees(inp, b, TokFlowSeqStart) then FlowSeq(inp.toks, e.pos) else FlowMap(inp.toks, e.pos))
  {
    hide StepOf, FlowSeq, FlowMap;
  }

  /** A collection from its opening bracket. */
  lemma {:induction false} CollectionRuns(inp: Input, c: Config, b: Config, e: Config) returns (d: Config)
    requires SoundKeys(inp) && Inv(inp, c) && c.state == StFlowNode && AtFlowStart(inp, b)
    requires b == c.(props := b.props, pos := b.pos) && c.pos <= b.pos < |inp.toks|
    requires StepOf(inp, c) == FlowNodeAt(inp, b) && StepOf(inp, c) == Next(e, StepOf(inp, c).out)
    ensures Refines(inp, c, FlowContent(inp.toks, b.pos, b.props), c.nodeReturn, c.frames, d)
    decreases |inp.toks| - b.pos, 0
  {
    hide Run, Low, StepOf, FlowSeq, FlowMap, FlowContent, PastClose, Inv, FlowNodeAt, Refines;
    OpenStep(inp, c, b, e);
    LeadsStep(inp, c);
    StepKeepsInv(inp, c);
    var out := StepOf(inp, c).out;
    if Sees(inp, b, TokFlowSeqStart) {
      d := SeqRuns(inp, e);
      Compose(inp, c, out, e, |c.frames|, FlowSeq(inp.toks, e.pos), c.nodeReturn, c.frames, d);
    } else {
      d := MapRuns(inp, e);
      Compose(inp, c, out, e, |c.frames|, FlowMap(inp.toks, e.pos), c.nodeReturn, c.frames, d);
    }
  }

  lemma {:induction false} ContentRuns(inp: Input, c: Config, b: Config) returns (d: Config)
    requires SoundKeys(inp) && Inv(inp, c) && c.state == StFlowNode
    requires b == c.(props := b.props, pos := b.pos) && c.pos <= b.pos < |inp.toks|
    requires InFlow(b.frames) || AtFlowStart(inp, b)
    requires StepOf(inp, c) == FlowNodeAt(inp, b)
    ensures Refines(inp, c, FlowContent(inp.toks, b.pos, b.props), c.nodeReturn, c.frames, d)
    decreases |inp.toks| - b.pos, 1
  {
    hide Run, Low, FlowContent, PastClose, StepOf, Inv, FlowNodeAt, Refines;
    if AtFlowStart(inp, b) {
      OpensNext(inp, b);
      d := CollectionRuns(inp, c, b, StepOf(inp, c).c);
    } else {
      d := LeafRuns(inp, c, b);
    }
  }

  lemma OpensNext(inp: Input, b: Config)
    requires AtFlowStart(inp, b)
    ensures FlowNodeAt(inp, b).Next?
  {}

  /** A node that is no collection. */
  lemma LeafRuns(inp: Input, c: Config, b: Config) returns (d: Config)
    requires Inv(inp, c) && c.state == StFlowNode
    requires b == c.(props := b.props, pos := b.pos) && c.pos <= b.pos < |inp.toks|
    requires InFlow(b.frames) && !AtFlowStart(inp, b) && StepOf(inp, c) == FlowNodeAt(inp, b)
    ensures Refines(inp, c, FlowContent(inp.toks, b.pos, b.props), c.nodeReturn, c.frames, d)
  {
    hide Run, Low, StepOf, PastClose, FlowSeq, FlowMap, FramesOk, Attach, Keyless;
    d := StepOf(inp, c).c;
    LeadsStep(inp, c);
    if Sees(inp, b, TokScalar) && !Has(inp, b.pos + 1) {
      NoTokenFails(inp, d);
      LeadsFails(inp, c, StepOf(inp, c).out, d, |c.frames|);
    }
  }

  /** The closing bracket pops the frame and returns to what it returns to. */
  lemma CloseRuns(inp: Input, c: Config) returns (d: Config)
    requires Inv(inp, c) && c.props == NO_PROPS && (c.state == FSeq(StFSeqEnd) || c.state == FMap(StFMapEnd))
    ensures var t := inp.toks[c.pos];
      Refines(inp, c, Ok([Simple(if c.state.FSeq? then SequenceEnd else MappingEnd, t.start, t.end)], c.pos + 1),
              TopRet(c), Below(c), d)
  {
    PopFrames(c.frames);
    d := c.(pos := c.pos + 1, frames := Below(c), state := TopRet(c));
    ResumeInv(inp, d);
    var out := [Simple(if c.state.FSeq? then SequenceEnd else MappingEnd, inp.toks[c.pos].start, inp.toks[c.pos].end)];
    if d.state == FSeq(StFSeqSep) { SepLeads(inp, c, d, true, out); }
    else if d.state == FMap(StFMapSep) { SepLeads(inp, c, d, false, out); }
    else { LeadsStep(inp, c); }
  }

  /** At the loop state, a closing bracket. */
  lemma LoopCloses(inp: Input, c: Config) returns (d: Config)
    requires (AtLoop(inp, c, FSeq(StFSeqLoop)) && Sees(inp, c, TokFlowSeqEnd))
          || (AtLoop(inp, c, FMap(StFMapLoop)) && Sees(inp, c, TokFlowMapEnd))
    ensures var t := inp.toks[c.pos];
      Refines(inp, c, Ok([Simple(if c.state.FSeq? then SequenceEnd else MappingEnd, t.start, t.end)], c.pos + 1),
              TopRet(c), Below(c), d)
  {
    var e := c.(state := if c.state.FSeq? then FSeq(StFSeqEnd) else FMap(StFMapEnd));
    assert StepOf(inp, c) == Next(e, []);
    StepKeepsInv(inp, c);
    d := CloseRuns(inp, e);
    var t := inp.toks[c.pos];
    Silent(inp, c, e, Ok([Simple(if c.state.FSeq? then SequenceEnd else MappingEnd, t.start, t.end)], c.pos + 1),
           TopRet(c), Below(c), d);
  }

  lemma {:induction false} SeqRuns(inp: Input, c: Config) returns (d: Config)
    requires SoundKeys(inp) && AtLoop(inp, c, FSeq(StFSeqLoop))
    ensures Refines(inp, c, FlowSeq(inp.toks, c.pos), TopRet(c), Below(c), d)
    decreases |inp.toks| - c.pos, 8
  {
    hide Run, Low, SeqEntry, SeqTail, PastClose;
    d := c;
    if !Has(inp, c.pos) || inp.toks[c.pos].typ == TokFlowEntry {
      FailsStep(inp, c);
    } else if inp.toks[c.pos].typ == TokFlowSeqEnd {
      d := LoopCloses(inp, c);
    } else {
      var s := SeqEntryRuns(inp, c);
      var entry := SeqEntry(inp.toks, c.pos);
      if entry.Ok? {
        d := SeqTailRuns(inp, s);
        Compose(inp, c, entry.evs, s, |c.frames|, SeqTail(inp.toks, entry.pos), TopRet(c), Below(c), d);
      }
    }
  }

  lemma InsideFlow(inp: Input, c: Config)
    requires Inv(inp, c) && (c.state.FSeq? || c.state.FMap?)
    ensures c.pos <= |inp.toks| && c.frames != []
  {}

  lemma {:induction false} SeqTailRuns(inp: Input, c: Config) returns (d: Config)
    requires SoundKeys(inp) && AtLoop(inp, c, FSeq(StFSeqSep))
    ensures Refines(inp, c, SeqTail(inp.toks, c.pos), TopRet(c), Below(c), d)
    decreases |inp.toks| - c.pos, 0
  {
    hide Run, Low, FlowSeq, PastClose, StepOf, Inv, Leads, Fails, Resumes;
    d := c;
    InsideFlow(inp, c);
    SepStep(inp, c, true);
    StepKeepsInv(inp, c);
    if Sees(inp, c, TokFlowEntry) {
      var e := c.(pos := c.pos + 1, state := FSeq(StFSeqLoop));
      d := SeqRuns(inp, e);
      Silent(inp, c, e, SeqTail(inp.toks, c.pos), TopRet(c), Below(c), d);
    } else if Sees(inp, c, TokFlowSeqEnd) {
      var e := c.(state := FSeq(StFSeqLoop));
      d := LoopCloses(inp, e);
      Silent(inp, c, e, SeqTail(inp.toks, c.pos), TopRet(c), Below(c), d);
    } else {
      FailsStep(inp, c);
    }
  }

  /** The end of a pair, after `evs`: MAPPING_END where the next token starts. */
  lemma PairEndRuns(inp: Input, c: Config, evs: seq<Event>, s: Config) returns (d: Config)
    requires Near(c, s) && Leads(inp, c, evs, s, |s.frames|)
    requires AtLoop(inp, s, FSeq(StFSeqImplicitEnd)) || AtLoop(inp, s, FSeq(StFSeqExplicitEnd))
    ensures Refines(inp, c, ClosePair(inp.toks, Ok(evs, s.pos)), FSeq(StFSeqSep), s.frames, d)
  {
    d := s.(state := FSeq(StFSeqSep));
    if Has(inp, s.pos) {
      LeadsStep(inp, s);
      LeadsTrans(inp, c, evs, s, [Simple(MappingEnd, inp.toks[s.pos].start, inp.toks[s.pos].start)], d, |s.frames|);
    } else {
      FailsStep(inp, s);
      LeadsFails(inp, c, evs, s, |s.frames|);
    }
  }

  lemma {:induction false} SeqEntryRuns(inp: Input, c: Config) returns (d: Config)
    requires SoundKeys(inp) && AtLoop(inp, c, FSeq(StFSeqLoop)) && Has(inp, c.pos)
    requires inp.toks[c.pos].typ != TokFlowEntry && inp.toks[c.pos].typ != TokFlowSeqEnd
    ensures Refines(inp, c, SeqEntry(inp.toks, c.pos), FSeq(StFSeqSep), c.frames, d)
    decreases |inp.toks| - c.pos, 7
  {
    var t := inp.toks[c.pos];
    if t.typ == TokMapKey {
      d := ExplicitPairRuns(inp, c);
    } else {
      EntryOfNode(inp.toks, c.pos);
      if t.typ == TokTag || t.typ == TokAnchor {
        d := PropsEntryRuns(inp, c);
      } else {
        assert ConsumeProps(inp.toks, c.pos, NO_PROPS) == PropsOk(NO_PROPS, c.pos);
        d := EntryRuns(inp, c, c.pos);
      }
    }
  }

  /** An entry that begins with properties. */
  lemma {:induction false} PropsEntryRuns(inp: Input, c: Config) returns (d: Config)
    requires SoundKeys(inp) && AtLoop(inp, c, FSeq(StFSeqLoop)) && (Sees(inp, c, TokTag) || Sees(inp, c, TokAnchor))
    ensures var r := ConsumeProps(inp.toks, c.pos, NO_PROPS);
      Refines(inp, c, if r.PropsError? then Err else EntryFrom(inp.toks, c.pos, r.pos, r.props), FSeq(StFSeqSep), c.frames, d)
    decreases |inp.toks| - c.pos, 5
  {
    hide Run, Low, FlowContent, NodeUnless, PastClose;
    ConsumePropsStops(inp.toks, c.pos, NO_PROPS);
    var r := ConsumeProps(inp.toks, c.pos, NO_PROPS);
    if r.PropsError? {
      d := c;
      FailsStep(inp, c);
    } else if inp.toks[r.pos].typ in {TokFlowEntry, TokFlowSeqEnd, TokTag, TokAnchor} {
      d := BarePropsRuns(inp, c, r.props, r.pos);
    } else {
      var b := c.(props := r.props, pos := r.pos);
      PropsStep(inp, c, r.props, r.pos);
      d := EntryRuns(inp, b, c.pos);
      Silent(inp, c, b, EntryFrom(inp.toks, c.pos, r.pos, r.props), FSeq(StFSeqSep), c.frames, d);
    }
  }

  lemma PropsStep(inp: Input, c: Config, props: Props, at: nat)
    requires AtLoop(inp, c, FSeq(StFSeqLoop)) && (Sees(inp, c, TokTag) || Sees(inp, c, TokAnchor))
    requires c.pos <= at < |inp.toks| && ConsumeProps(inp.toks, c.pos, NO_PROPS) == PropsOk(props, at)
    requires inp.toks[at].typ !in {TokFlowEntry, TokFlowSeqEnd, TokTag, TokAnchor}
    ensures var b := c.(props := props, pos := at); StepOf(inp, c) == Next(b, []) && Inv(inp, b)
  {
    StepKeepsInv(inp, c);
  }

  lemma BarePropsStep(inp: Input, c: Config, props: Props, at: nat)
    requires AtLoop(inp, c, FSeq(StFSeqLoop)) && (Sees(inp, c, TokTag) || Sees(inp, c, TokAnchor))
    requires c.pos <= at < |inp.toks| && ConsumeProps(inp.toks, c.pos, NO_PROPS) == PropsOk(props, at)
    requires inp.toks[at].typ in {TokFlowEntry, TokFlowSeqEnd, TokTag, TokAnchor}
    ensures var t := inp.toks[at];
      StepOf(inp, c) == if t.typ == TokFlowEntry || t.typ == TokFlowSeqEnd
                        then FlowSep(inp, c.(state := FSeq(StFSeqSep), pos := at), true, [Attach(EmptyScalar(t.start), props)])
                        else Failed([])
  {
    hide FramesOk, ConsumeProps, Attach;
  }

  /** Properties with no content after them: an empty node, or an error. */
  lemma BarePropsRuns(inp: Input, c: Config, props: Props, at: nat) returns (d: Config)
    requires AtLoop(inp, c, FSeq(StFSeqLoop)) && (Sees(inp, c, TokTag) || Sees(inp, c, TokAnchor))
    requires c.pos <= at < |inp.toks| && ConsumeProps(inp.toks, c.pos, NO_PROPS) == PropsOk(props, at)
    requires inp.toks[at].typ in {TokFlowEntry, TokFlowSeqEnd, TokTag, TokAnchor}
    ensures Refines(inp, c, EntryFrom(inp.toks, c.pos, at, props), FSeq(StFSeqSep), c.frames, d)
  {
    hide FramesOk, ConsumeProps, StepOf, FlowSep;
    hide Run, Low, NodeUnless, FlowContent, PastClose, EntryFrom;
    var t := inp.toks[at];
    EmptyEntry(inp.toks, c.pos, at, props);
    BarePropsStep(inp, c, props, at);
    d := c.(state := FSeq(StFSeqSep), pos := at);
    ResumeInv(inp, d);
    if t.typ == TokFlowEntry || t.typ == TokFlowSeqEnd {
      SepLeads(inp, c, d, true, [Attach(EmptyScalar(t.start), props)]);
    } else {
      FailsStep(inp, c);
      SepFails(inp, d);
    }
  }

  /** At a separator state, no other token than ',' or a closing bracket will do. */
  lemma SepFails(inp: Input, d: Config)
    requires Inv(inp, d) && d.state == FSeq(StFSeqSep) && Has(inp, d.pos)
    requires inp.toks[d.pos].typ != TokFlowEntry && inp.toks[d.pos].typ != TokFlowSeqEnd
    ensures Run(inp, d).Error?
  {}

  lemma PastEntryReady(inp: Input, c: Config)
    requires Inv(inp, c) && c.state == FSeq(StFSeqLoop) && Has(inp, c.pos)
    ensures var b := c.(props := NO_PROPS, pos := c.pos + 1); Ready(inp, b) && Top(b, FlowSequence)
  {}

  /** An entry past its properties; it begins at `from`. */
  lemma {:induction false} EntryRuns(inp: Input, c: Config, from: nat) returns (d: Config)
    requires SoundKeys(inp) && Inv(inp, c) && c.state == FSeq(StFSeqLoop) && Has(inp, c.pos) && from <= c.pos
    requires inp.toks[c.pos].typ !in {TokFlowEntry, TokFlowSeqEnd, TokTag, TokAnchor}
    requires inp.toks[c.pos].typ == TokMapKey ==> c.props.Any()
    ensures Refines(inp, c, EntryFrom(inp.toks, from, c.pos, c.props), FSeq(StFSeqSep), c.frames, d)
    decreases |inp.toks| - c.pos, 3
  {
    hide Run, Low, StepOf, FlowNode, FlowContent, NodeUnless, PastClose, EntryFrom, PairFrom, Refines, Inv, Ready, Top,
      FSeqEntry, FSeqNested, FSeqPairValue, Attach;
    var t := inp.toks[c.pos];
    LoopStep(inp, c);
    PastEntryReady(inp, c);
    if t.typ == TokScalar || t.typ == TokAlias {
      LeafEntry(inp.toks, from, c.pos, c.props);
      d := LeafEntryRuns(inp, c, if t.typ == TokScalar then ScalarOf(t) else AliasOf(t));
    } else if t.typ == TokFlowSeqStart || t.typ == TokFlowMapStart {
      d := NestedEntryRuns(inp, c, from);
    } else if t.typ == TokMapValue {
      ColonEntry(inp.toks, from, c.pos, c.props);
      d := PairRuns(inp, c, c.(props := NO_PROPS, pos := c.pos + 1), Attach(EmptyScalar(t.start), c.props));
    } else {
      d := NoEntryRuns(inp, c, from);
    }
  }

  /** Something that begins no entry: both fail, the machine at once. */
  lemma NoEntryRuns(inp: Input, c: Config, from: nat) returns (d: Config)
    requires Inv(inp, c) && c.state == FSeq(StFSeqLoop) && Has(inp, c.pos) && from <= c.pos
    requires inp.toks[c.pos].typ !in {TokFlowEntry, TokFlowSeqEnd, TokTag, TokAnchor, TokScalar, TokAlias, TokFlowSeqStart, TokFlowMapStart, TokMapValue}
    requires inp.toks[c.pos].typ == TokMapKey ==> c.props.Any()
    ensures Refines(inp, c, EntryFrom(inp.toks, from, c.pos, c.props), FSeq(StFSeqSep), c.frames, d)
  {
    hide Run, Low, StepOf, FramesOk;
    LoopStep(inp, c);
    EmptyEntry(inp.toks, from, c.pos, c.props);
    d := c.(state := FSeq(StFSeqSep), props := NO_PROPS);
    ResumeInv(inp, d);
    FailsStep(inp, c);
    SepFails(inp, d);
  }

  /** What the loop state does with an entry past its properties. */
  lemma LoopStep(inp: Input, c: Config)
    requires c.state == FSeq(StFSeqLoop) && Has(inp, c.pos) && (inp.toks[c.pos].typ == TokMapKey ==> c.props.Any())
    requires inp.toks[c.pos].typ !in {TokFlowEntry, TokFlowSeqEnd, TokTag, TokAnchor}
    ensures var t := inp.toks[c.pos];
      match t.typ
      case TokScalar => StepOf(inp, c) == FSeqEntry(inp, c, ScalarOf(t))
      case TokAlias => StepOf(inp, c) == FSeqEntry(inp, c, AliasOf(t))
      case TokFlowSeqStart => StepOf(inp, c) == FSeqNested(inp, c, t)
      case TokFlowMapStart => StepOf(inp, c) == FSeqNested(inp, c, t)
      case TokMapValue =>
        var key := Attach(EmptyScalar(t.start), c.props);
        StepOf(inp, c) == FSeqPairValue(inp, c.(props := NO_PROPS, pos := c.pos + 1), [FlowStart(MappingStart, key.start, key.start), key])
      case _ => StepOf(inp, c) == Failed([])
  {}

  /** A pair's value: the key is read, its ':' is just before `b.pos`. */
  lemma {:induction false} PairRuns(inp: Input, c: Config, b: Config, key: Event) returns (d: Config)
    requires SoundKeys(inp) && Inv(inp, c) && !Final(c) && Ready(inp, b) && Top(b, FlowSequence) && Near(c, b)
    requires c.frames == b.frames && b.pos > 0
    requires StepOf(inp, c) == FSeqPairValue(inp, b, [FlowStart(MappingStart, key.start, key.start), key])
    ensures Refines(inp, c, PairFrom(inp.toks, key, b.pos - 1), FSeq(StFSeqSep), c.frames, d)
    decreases |inp.toks| - b.pos, 4
  {
    var open := [FlowStart(MappingStart, key.start, key.start), key];
    d := UnlessRuns(inp, c, b, FSeq(StFSeqImplicitEnd), VALUE_ABSENT_IN_SEQ, open);
    var value := Prefix(open, NodeUnless(inp.toks, b.pos, VALUE_ABSENT_IN_SEQ));
    if value.Ok? {
      ResumeInv(inp, d);
      d := PairEndRuns(inp, c, value.evs, d);
    }
  }

  /** A scalar or alias entry `e`: a ':' after it makes it the key of a pair. */
  lemma {:induction false} LeafEntryRuns(inp: Input, c: Config, e: Event) returns (d: Config)
    requires SoundKeys(inp) && Inv(inp, c) && c.state == FSeq(StFSeqLoop) && Has(inp, c.pos)
    requires StepOf(inp, c) == FSeqEntry(inp, c, e)
    ensures var node := Attach(e, c.props);
      var r := if c.pos + 1 == |inp.toks| then Err
               else if inp.toks[c.pos + 1].typ == TokMapValue then PairFrom(inp.toks, node, c.pos + 1)
               else Ok([node], c.pos + 1);
      Refines(inp, c, r, FSeq(StFSeqSep), c.frames, d)
    decreases |inp.toks| - c.pos, 1
  {
    hide Run, Low, StepOf, NodeUnless, PastClose, PairFrom, Refines, Inv, Ready, Top, FSeqEntry, FSeqPairValue, Attach;
    var node := Attach(e, c.props);
    var b := c.(props := NO_PROPS, pos := c.pos + 1);
    d := b.(state := FSeq(StFSeqSep));
    if !Has(inp, b.pos) {
      LeafLast(inp, c, e);
    } else if inp.toks[b.pos].typ == TokMapValue {
      var k := b.(saved := node, state := FSeq(StFSeqEntryKey));
      LeafKeyStep(inp, c, e);
      EntryKeyStep(inp, k);
      d := PairRuns(inp, k, k.(pos := k.pos + 1), node);
      Silent(inp, c, k, PairFrom(inp.toks, node, b.pos), FSeq(StFSeqSep), c.frames, d);
    } else {
      LeafAlone(inp, c, e);
    }
  }

  lemma LeafLast(inp: Input, c: Config, e: Event)
    requires Inv(inp, c) && c.state == FSeq(StFSeqLoop) && StepOf(inp, c) == FSeqEntry(inp, c, e) && !Has(inp, c.pos + 1)
    ensures Refines(inp, c, Err, FSeq(StFSeqSep), c.frames, c.(props := NO_PROPS, pos := c.pos + 1, state := FSeq(StFSeqSep)))
  {
    hide Run, Low, StepOf, FramesOk;
    FailsStep(inp, c);
  }

  /** The leaf is kept as the key of a pair. */
  lemma LeafKeyStep(inp: Input, c: Config, e: Event)
    requires Inv(inp, c) && c.state == FSeq(StFSeqLoop) && Has(inp, c.pos) && StepOf(inp, c) == FSeqEntry(inp, c, e)
    requires Has(inp, c.pos + 1) && inp.toks[c.pos + 1].typ == TokMapValue
    ensures var k := c.(props := NO_PROPS, pos := c.pos + 1, saved := Attach(e, c.props), state := FSeq(StFSeqEntryKey));
      StepOf(inp, c) == Next(k, []) && Inv(inp, k) && Ready(inp, k.(pos := k.pos + 1)) && Top(k.(pos := k.pos + 1), FlowSequence)
  {
    hide StepOf, FramesOk;
    StepKeepsInv(inp, c);
  }

  lemma LeafSep(inp: Input, c: Config, e: Event)
    requires Has(inp, c.pos + 1) && inp.toks[c.pos + 1].typ != TokMapValue
    ensures FSeqEntry(inp, c, e) == FlowSep(inp, c.(props := NO_PROPS, pos := c.pos + 1, state := FSeq(StFSeqSep)), true, [Attach(e, c.props)])
  {
    hide Attach;
  }

  /** A leaf entry by itself. */
  lemma LeafAlone(inp: Input, c: Config, e: Event)
    requires Inv(inp, c) && c.state == FSeq(StFSeqLoop) && Has(inp, c.pos) && StepOf(inp, c) == FSeqEntry(inp, c, e)
    requires Has(inp, c.pos + 1) && inp.toks[c.pos + 1].typ != TokMapValue
    ensures Refines(inp, c, Ok([Attach(e, c.props)], c.pos + 1), FSeq(StFSeqSep), c.frames,
                    c.(props := NO_PROPS, pos := c.pos + 1, state := FSeq(StFSeqSep)))
  {
    hide Run, Low, StepOf, FramesOk, FlowSep, FSeqEntry, Attach;
    var d := c.(props := NO_PROPS, pos := c.pos + 1, state := FSeq(StFSeqSep));
    LeafSep(inp, c, e);
    ResumeInv(inp, d);
    SepLeads(inp, c, d, true, [Attach(e, c.props)]);
  }

  lemma EntryKeyStep(inp: Input, k: Config)
    requires k.state == FSeq(StFSeqEntryKey)
    ensures StepOf(inp, k) == FSeqPairValue(inp, k.(pos := k.pos + 1), [FlowStart(MappingStart, k.saved.start, k.saved.start), k.saved])
  {}

  lemma NestedStep(inp: Input, c: Config)
    requires Inv(inp, c) && c.state == FSeq(StFSeqLoop) && AtFlowStart(inp, c) && !inp.isKey(inp.toks[c.pos].start.offset)
    ensures var n := c.(nodeReturn := FSeq(StFSeqSep), state := StFlowNode);
      StepOf(inp, c) == Next(n, []) && Inv(inp, n) && InFlow(n.frames) && StepOf(inp, n) == FlowNodeAt(inp, n)
  {
    StepKeepsInv(inp, c);
  }

  /** A nested collection: the lookahead decides whether it may be a key. */
  lemma {:induction false} NestedEntryRuns(inp: Input, c: Config, from: nat) returns (d: Config)
    requires SoundKeys(inp) && Inv(inp, c) && c.state == FSeq(StFSeqLoop) && AtFlowStart(inp, c) && from <= c.pos
    ensures Refines(inp, c, EntryFrom(inp.toks, from, c.pos, c.props), FSeq(StFSeqSep), c.frames, d)
    decreases |inp.toks| - c.pos, 2
  {
    hide Run, Low, FlowContent, NodeUnless, StepOf, PastClose, EntryFrom, Refines;
    if inp.isKey(inp.toks[c.pos].start.offset) {
      EntryEnd(inp.toks, from, c.pos, c.props);
      d := EagerEntry(inp, c, EntryFrom(inp.toks, from, c.pos, c.props));
    } else {
      var n := c.(nodeReturn := FSeq(StFSeqSep), state := StFlowNode);
      NestedStep(inp, c);
      d := ContentRuns(inp, n, n);
      Silent(inp, c, n, FlowContent(inp.toks, c.pos, c.props), FSeq(StFSeqSep), c.frames, d);
      NestedEnds(inp, c, from, d);
    }
  }

  lemma EntryEnd(toks: seq<Token>, from: nat, at: nat, props: Props)
    requires from <= at < |toks|
    ensures var r := EntryFrom(toks, from, at, props); r.Ok? ==> r.pos <= |toks|
  {}

  /** The nested collection was read as the entry, with no ':' after it. */
  lemma NestedEnds(inp: Input, c: Config, from: nat, d: Config)
    requires SoundKeys(inp) && Inv(inp, c) && c.state == FSeq(StFSeqLoop) && AtFlowStart(inp, c) && from <= c.pos
    requires !inp.isKey(inp.toks[c.pos].start.offset)
    requires Refines(inp, c, FlowContent(inp.toks, c.pos, c.props), FSeq(StFSeqSep), c.frames, d)
    ensures Refines(inp, c, EntryFrom(inp.toks, from, c.pos, c.props), FSeq(StFSeqSep), c.frames, d)
  {
    hide Run, Low, FlowContent, NodeUnless, StepOf, EntryFrom;
    var node := FlowContent(inp.toks, c.pos, c.props);
    NestedEntry(inp.toks, from, c.pos, c.props);
    if node.Ok? {
      CollectionEnd(inp.toks, c.pos, c.props);
      if !Has(inp, d.pos) {
        NoTokenFails(inp, d);
        LeadsFails(inp, c, node.evs, d, |c.frames|);
      }
    }
  }

  /** A "key" answer asks for the eager parser, whatever the entry is. */
  lemma EagerEntry(inp: Input, c: Config, r: Parse) returns (d: Config)
    requires Inv(inp, c) && c.state == FSeq(StFSeqLoop) && AtFlowStart(inp, c)
    requires inp.isKey(inp.toks[c.pos].start.offset) && (r.Ok? ==> r.pos <= |inp.toks|)
    ensures Refines(inp, c, r, FSeq(StFSeqSep), c.frames, d)
  {
    hide Run, Low, StepOf, FramesOk;
    d := c.(state := FSeq(StFSeqSep), pos := if r.Ok? then r.pos else c.pos, props := NO_PROPS);
    ResumeInv(inp, d);
    AskStep(inp, c);
    AskFails(inp, c);
  }

  lemma AskStep(inp: Input, c: Config)
    requires c.state == FSeq(StFSeqLoop) && AtFlowStart(inp, c) && inp.isKey(inp.toks[c.pos].start.offset)
    ensures StepOf(inp, c) == Next(c.(state := StEagerDrain), [])
  {}

  lemma AskFails(inp: Input, c: Config)
    requires Inv(inp, c) && !Final(c) && StepOf(inp, c) == Next(c.(state := StEagerDrain), [])
    ensures Run(inp, c) == ToEager([]) && Fails(inp, c, |c.frames|)
  {
    hide StepOf, Inv;
    StepKeepsInv(inp, c);
    var e := c.(state := StEagerDrain);
    assert Run(inp, e) == ToEager([]) && Low(inp, e) == |c.frames|;
  }

  lemma ExplicitStep(inp: Input, c: Config)
    requires AtLoop(inp, c, FSeq(StFSeqLoop)) && Sees(inp, c, TokMapKey)
    ensures var k := c.(state := FSeq(StFSeqExplicitKey)); StepOf(inp, c) == Next(k, []) && Inv(inp, k)
  {
    StepKeepsInv(inp, c);
  }

  /** "? key : value" in a flow sequence. */
  lemma {:induction false} ExplicitPairRuns(inp: Input, c: Config) returns (d: Config)
    requires SoundKeys(inp) && AtLoop(inp, c, FSeq(StFSeqLoop)) && Sees(inp, c, TokMapKey)
    ensures Refines(inp, c, SeqEntry(inp.toks, c.pos), FSeq(StFSeqSep), c.frames, d)
    decreases |inp.toks| - c.pos, 6
  {
    hide Run, Low, StepOf, SeqEntry, NodeUnless, ValuePart, PastClose, FramesOk, PropsOkay;
    ExplicitEntry(inp.toks, c.pos);
    var k := c.(state := FSeq(StFSeqExplicitKey));
    ExplicitStep(inp, c);
    d := ExplicitKeyRuns(inp, k);
    Silent(inp, c, k, SeqEntry(inp.toks, c.pos), FSeq(StFSeqSep), c.frames, d);
  }

  lemma ExplicitKeyStep(inp: Input, c: Config)
    requires c.state == FSeq(StFSeqExplicitKey) && Has(inp, c.pos)
    ensures var t := inp.toks[c.pos];
      StepOf(inp, c) == NodeOr(inp, c.(pos := c.pos + 1), FSeq(StFSeqExplicitValue), KEY_ABSENT_IN_SEQ, [FlowStart(MappingStart, t.start, t.end)])
  {}

  lemma {:induction false} ExplicitKeyRuns(inp: Input, c: Config) returns (d: Config)
    requires SoundKeys(inp) && AtLoop(inp, c, FSeq(StFSeqExplicitKey))
    ensures var t := inp.toks[c.pos];
      var key := NodeUnless(inp.toks, c.pos + 1, KEY_ABSENT_IN_SEQ);
      var r := if key.Err? then Err
        else ClosePair(inp.toks, Prefix([FlowStart(MappingStart, t.start, t.end)] + key.evs,
                                        ValuePart(inp.toks, key.pos, VALUE_ABSENT_IN_SEQ)));
      Refines(inp, c, r, FSeq(StFSeqSep), c.frames, d)
    decreases |inp.toks| - c.pos, 5
  {
    hide Run, Low, StepOf, NodeUnless, ValuePart, PastClose;
    ExplicitKeyStep(inp, c);
    var t := inp.toks[c.pos];
    var open := [FlowStart(MappingStart, t.start, t.end)];
    d := UnlessRuns(inp, c, c.(pos := c.pos + 1), FSeq(StFSeqExplicitValue), KEY_ABSENT_IN_SEQ, open);
    var key := Prefix(open, NodeUnless(inp.toks, c.pos + 1, KEY_ABSENT_IN_SEQ));
    if key.Ok? {
      var v := d;
      ResumeInv(inp, v);
      d := ExplicitValueRuns(inp, v);
      var value := ValuePart(inp.toks, v.pos, VALUE_ABSENT_IN_SEQ);
      Compose(inp, c, key.evs, v, |c.frames|, value, FSeq(StFSeqExplicitEnd), c.frames, d);
      if value.Ok? {
        ResumeInv(inp, d);
        d := PairEndRuns(inp, c, key.evs + value.evs, d);
      }
    }
  }

  lemma {:induction false} ExplicitValueRuns(inp: Input, c: Config) returns (d: Config)
    requires SoundKeys(inp) && AtLoop(inp, c, FSeq(StFSeqExplicitValue))
    ensures Refines(inp, c, ValuePart(inp.toks, c.pos, VALUE_ABSENT_IN_SEQ), FSeq(StFSeqExplicitEnd), c.frames, d)
    decreases |inp.toks| - c.pos, 4
  {
    hide Run, Low, NodeUnless, PastClose;
    d := c.(state := FSeq(StFSeqExplicitEnd));
    if !Has(inp, c.pos) {
      FailsStep(inp, c);
    } else if inp.toks[c.pos].typ != TokMapValue {
      LeadsStep(inp, c);
    } else {
      d := UnlessRuns(inp, c, c.(pos := c.pos + 1), FSeq(StFSeqExplicitEnd), VALUE_ABSENT_IN_SEQ, []);
      PrefixNothing(NodeUnless(inp.toks, c.pos + 1, VALUE_ABSENT_IN_SEQ));
    }
  }

  lemma PrefixNothing(r: Parse)
    ensures Prefix([], r) == r
  {
    if r.Ok? { assert [] + r.evs == r.evs; }
  }

  lemma {:induction false} MapRuns(inp: Input, c: Config) returns (d: Config)
    requires SoundKeys(inp) && AtLoop(inp, c, FMap(StFMapLoop))
    ensures Refines(inp, c, FlowMap(inp.toks, c.pos), TopRet(c), Below(c), d)
    decreases |inp.toks| - c.pos, 8
  {
    hide Run, Low, MapEntry, MapTail, PastClose;
    d := c;
    if !Has(inp, c.pos) || inp.toks[c.pos].typ == TokFlowEntry {
      FailsStep(inp, c);
    } else if inp.toks[c.pos].typ == TokFlowMapEnd {
      d := LoopCloses(inp, c);
    } else {
      var s := MapEntryRuns(inp, c);
      var entry := MapEntry(inp.toks, c.pos);
      if entry.Ok? {
        d := MapTailRuns(inp, s);
        Compose(inp, c, entry.evs, s, |c.frames|, MapTail(inp.toks, entry.pos), TopRet(c), Below(c), d);
      }
    }
  }

  lemma {:induction false} MapTailRuns(inp: Input, c: Config) returns (d: Config)
    requires SoundKeys(inp) && AtLoop(inp, c, FMap(StFMapSep))
    ensures Refines(inp, c, MapTail(inp.toks, c.pos), TopRet(c), Below(c), d)
    decreases |inp.toks| - c.pos, 0
  {
    hide Run, Low, FlowMap, PastClose, StepOf, Inv, Leads, Fails, Resumes;
    d := c;
    InsideFlow(inp, c);
    SepStep(inp, c, false);
    StepKeepsInv(inp, c);
    if Sees(inp, c, TokFlowEntry) {
      var e := c.(pos := c.pos + 1, state := FMap(StFMapLoop));
      d := MapRuns(inp, e);
      Silent(inp, c, e, MapTail(inp.toks, c.pos), TopRet(c), Below(c), d);
    } else if Sees(inp, c, TokFlowMapEnd) {
      var e := c.(state := FMap(StFMapLoop));
      d := LoopCloses(inp, e);
      Silent(inp, c, e, MapTail(inp.toks, c.pos), TopRet(c), Below(c), d);
    } else {
      FailsStep(inp, c);
    }
  }

  /** A scalar value is emitted, and the separator dealt with, in one step. */
  lemma ScalarValueRuns(inp: Input, c: Config, b: Config, out: seq<Event>) returns (d: Config)
    requires Inv(inp, c) && !Final(c) && Ready(inp, b) && Top(b, FlowMapping) && Sees(inp, b, TokScalar) && Near(c, b) && b.frames == c.frames
    requires StepOf(inp, c) == FlowMapValue(inp, b, out)
    ensures Refines(inp, c, Prefix(out, FlowNode(inp.toks, b.pos)), FMap(StFMapSep), b.frames, d)
  {
    hide Run, Low, StepOf, FlowNode, FlowMapValue, FlowSep, FramesOk, PastClose;
    var e := [Attach(ScalarOf(inp.toks[b.pos]), NO_PROPS)];
    d := b.(pos := b.pos + 1, state := FMap(StFMapSep));
    ResumeInv(inp, d);
    BareScalar(inp.toks, b.pos);
    ScalarValueStep(inp, b, out);
    if Has(inp, d.pos) {
      SepLeads(inp, c, d, false, out + e);
    } else {
      FailsStep(inp, c);
    }
  }

  lemma ScalarValueStep(inp: Input, b: Config, out: seq<Event>)
    requires b.props == NO_PROPS && Sees(inp, b, TokScalar)
    ensures var s := FlowSep(inp, b.(pos := b.pos + 1, state := FMap(StFMapSep)), false, out + [Attach(ScalarOf(inp.toks[b.pos]), NO_PROPS)]);
      FlowMapValue(inp, b, out) == s && (!Has(inp, b.pos + 1) ==> s.Failed?)
  {}

  /** The value of a mapping entry; its ':' is consumed and `out` emitted. */
  lemma {:induction false} MapValueRuns(inp: Input, c: Config, b: Config, out: seq<Event>) returns (d: Config)
    requires SoundKeys(inp) && Inv(inp, c) && !Final(c) && Ready(inp, b) && Top(b, FlowMapping) && Near(c, b) && b.frames == c.frames
    requires StepOf(inp, c) == FlowMapValue(inp, b, out)
    ensures Refines(inp, c, Prefix(out, NodeUnless(inp.toks, b.pos, VALUE_ABSENT_IN_MAP)), FMap(StFMapSep), b.frames, d)
    decreases |inp.toks| - b.pos, 4
  {
    hide Run, Low, StepOf, FlowNode, PastClose, FramesOk;
    if Sees(inp, b, TokScalar) {
      d := ScalarValueRuns(inp, c, b, out);
    } else {
      d := UnlessRuns(inp, c, b, FMap(StFMapSep), VALUE_ABSENT_IN_MAP, out);
    }
  }

  /** After a mapping entry's key. */
  lemma {:induction false} ValueRuns(inp: Input, c: Config) returns (d: Config)
    requires SoundKeys(inp) && AtLoop(inp, c, FMap(StFMapValue))
    ensures Refines(inp, c, ValuePart(inp.toks, c.pos, VALUE_ABSENT_IN_MAP), FMap(StFMapSep), c.frames, d)
    decreases |inp.toks| - c.pos, 5
  {
    hide Run, Low, NodeUnless, PastClose;
    d := c.(state := FMap(StFMapSep));
    if !Has(inp, c.pos) {
      FailsStep(inp, c);
    } else if inp.toks[c.pos].typ != TokMapValue {
      LeadsStep(inp, c);
    } else {
      d := MapValueRuns(inp, c, c.(pos := c.pos + 1), []);
      PrefixNothing(NodeUnless(inp.toks, c.pos + 1, VALUE_ABSENT_IN_MAP));
    }
  }

  lemma MapKeyStep(inp: Input, c: Config)
    requires AtLoop(inp, c, FMap(StFMapLoop)) && Sees(inp, c, TokMapKey)
    ensures var b := c.(pos := c.pos + 1);
      StepOf(inp, c) == NodeOr(inp, b, FMap(StFMapValue), KEY_ABSENT_IN_MAP, []) && Ready(inp, b) && ReturnOk(b.frames, FMap(StFMapValue))
  {
    hide FramesOk;
  }

  lemma {:induction false} MapEntryRuns(inp: Input, c: Config) returns (d: Config)
    requires SoundKeys(inp) && AtLoop(inp, c, FMap(StFMapLoop)) && Has(inp, c.pos)
    requires inp.toks[c.pos].typ != TokFlowEntry && inp.toks[c.pos].typ != TokFlowMapEnd
    ensures Refines(inp, c, MapEntry(inp.toks, c.pos), FMap(StFMapSep), c.frames, d)
    decreases |inp.toks| - c.pos, 7
  {
    hide Run, Low, NodeUnless, FlowNode, ValuePart, PastClose, FramesOk, StepOf, Inv, Refines, NodeOr, Ready, ReturnOk;
    if Sees(inp, c, TokScalar) && Has(inp, c.pos + 1) && inp.toks[c.pos + 1].typ == TokMapValue {
      d := ScalarEntryRuns(inp, c);
    } else if Sees(inp, c, TokMapKey) {
      MapKeyStep(inp, c);
      var v := UnlessRuns(inp, c, c.(pos := c.pos + 1), FMap(StFMapValue), KEY_ABSENT_IN_MAP, []);
      PrefixNothing(NodeUnless(inp.toks, c.pos + 1, KEY_ABSENT_IN_MAP));
      d := KeyThenValue(inp, c, NodeUnless(inp.toks, c.pos + 1, KEY_ABSENT_IN_MAP), v);
    } else {
      var v := KeyRuns(inp, c);
      d := KeyThenValue(inp, c, FlowNode(inp.toks, c.pos), v);
    }
  }

  /** A scalar key with its ':' and value: one step. */
  lemma {:induction false} ScalarEntryRuns(inp: Input, c: Config) returns (d: Config)
    requires SoundKeys(inp) && AtLoop(inp, c, FMap(StFMapLoop)) && Sees(inp, c, TokScalar)
    requires Has(inp, c.pos + 1) && inp.toks[c.pos + 1].typ == TokMapValue
    ensures Refines(inp, c, MapEntry(inp.toks, c.pos), FMap(StFMapSep), c.frames, d)
    decreases |inp.toks| - c.pos, 5
  {
    hide Run, Low, StepOf, FlowNode, MapEntry, NodeUnless, PastClose, FramesOk, PropsOkay, StateOk, FlowMapValue, Refines;
    var key := [Attach(ScalarOf(inp.toks[c.pos]), NO_PROPS)];
    BareScalar(inp.toks, c.pos);
    ScalarKeyEntry(inp.toks, c.pos, key);
    ScalarKeyStep(inp, c);
    d := MapValueRuns(inp, c, c.(pos := c.pos + 2, state := FMap(StFMapValue)), key);
  }

  lemma ScalarKeyStep(inp: Input, c: Config)
    requires AtLoop(inp, c, FMap(StFMapLoop)) && Sees(inp, c, TokScalar)
    requires Has(inp, c.pos + 1) && inp.toks[c.pos + 1].typ == TokMapValue
    ensures var b := c.(pos := c.pos + 2, state := FMap(StFMapValue));
      StepOf(inp, c) == FlowMapValue(inp, b, [Attach(ScalarOf(inp.toks[c.pos]), NO_PROPS)]) &&
      Ready(inp, b) && Top(b, FlowMapping)
  {
    hide FramesOk;
  }

  /** The key `key` was read from `c` to `v`; the value follows. */
  lemma {:induction false} KeyThenValue(inp: Input, c: Config, key: Parse, v: Config) returns (d: Config)
    requires SoundKeys(inp) && AtLoop(inp, c, FMap(StFMapLoop)) && Refines(inp, c, key, FMap(StFMapValue), c.frames, v)
    requires key.Ok? ==> c.pos <= key.pos <= |inp.toks|
    ensures var r := if key.Err? then Err else Prefix(key.evs, ValuePart(inp.toks, key.pos, VALUE_ABSENT_IN_MAP));
      Refines(inp, c, r, FMap(StFMapSep), c.frames, d)
    decreases |inp.toks| - c.pos, 6
  {
    d := v;
    if key.Ok? {
      ResumeInv(inp, v);
      d := ValueRuns(inp, v);
      Compose(inp, c, key.evs, v, |c.frames|, ValuePart(inp.toks, v.pos, VALUE_ABSENT_IN_MAP), FMap(StFMapSep), c.frames, d);
    }
  }

  /** A mapping entry's key without '?'. */
  lemma {:induction false} KeyRuns(inp: Input, c: Config) returns (d: Config)
    requires SoundKeys(inp) && AtLoop(inp, c, FMap(StFMapLoop)) && Has(inp, c.pos)
    requires inp.toks[c.pos].typ !in {TokFlowEntry, TokFlowMapEnd, TokMapKey}
    requires inp.toks[c.pos].typ == TokScalar && Has(inp, c.pos + 1) ==> inp.toks[c.pos + 1].typ != TokMapValue
    ensures Refines(inp, c, FlowNode(inp.toks, c.pos), FMap(StFMapValue), c.frames, d)
    decreases |inp.toks| - c.pos, 5
  {
    hide Run, Low, FlowNode, PastClose;
    if inp.toks[c.pos].typ == TokScalar {
      d := ScalarKeyRuns(inp, c);
    } else {
      hide StepOf, FramesOk, PropsOkay;
      var n := c.(nodeReturn := FMap(StFMapValue), state := StFlowNode);
      KeyStep(inp, c);
      d := NodeRuns(inp, n);
      NodeFromNothing(inp.toks, c.pos);
      Silent(inp, c, n, FlowNode(inp.toks, c.pos), FMap(StFMapValue), c.frames, d);
    }
  }

  lemma KeyStep(inp: Input, c: Config)
    requires AtLoop(inp, c, FMap(StFMapLoop)) && Has(inp, c.pos)
    requires inp.toks[c.pos].typ !in {TokFlowEntry, TokFlowMapEnd, TokMapKey, TokScalar}
    ensures var n := c.(nodeReturn := FMap(StFMapValue), state := StFlowNode); StepOf(inp, c) == Next(n, []) && Inv(inp, n)
  {
    StepKeepsInv(inp, c);
  }

  /** A scalar with no ':' after it. */
  lemma ScalarKeyRuns(inp: Input, c: Config) returns (d: Config)
    requires AtLoop(inp, c, FMap(StFMapLoop)) && Sees(inp, c, TokScalar)
    requires Has(inp, c.pos + 1) ==> inp.toks[c.pos + 1].typ != TokMapValue
    ensures Refines(inp, c, FlowNode(inp.toks, c.pos), FMap(StFMapValue), c.frames, d)
  {
    hide Run, Low, FlowNode, FramesOk;
    BareScalar(inp.toks, c.pos);
    d := c.(pos := c.pos + 1, state := FMap(StFMapValue));
    if Has(inp, c.pos + 1) { LeadsStep(inp, c); } else { FailsStep(inp, c); }
  }

  /** The flow states refine the recursive flow parser. From a pending flow node
      either the machine emits exactly the recursive parser's events and goes on
      past them at its return state; or it asks for the eager parser or fails
      inside the node, having emitted only the first of those events, and fails
      only where going on past the node would fail as well. Without "key" answers it
      asks only where going on past the node would not finish. Where the recursive
      parser fails, so does the machine, or it asks. Until then no frame below
      the node's is touched. */
  lemma FlowRefines(inp: Input, c: Config) returns (d: Config)
    requires SoundKeys(inp) && Inv(inp, c) && c.state == StFlowNode && c.props == NO_PROPS
    ensures var r, n, o := FlowNode(inp.toks, c.pos), |c.frames|, Run(inp, c);
      if r.Err? then !o.Finished? && Low(inp, c) >= n
      else
        && Resumes(c, d, c.nodeReturn, c.frames, r.pos) && Inv(inp, d)
        && (|| (o == Prepend(r.evs, Run(inp, d)) && Low(inp, c) >= Min(n, Low(inp, d)))
            || (!o.Finished? && o.evs <= r.evs && Low(inp, c) >= n && (o.Error? ==> Run(inp, d).Error?)
                && (Keyless(inp) ==> !Run(inp, d).Finished?)))
  {
    hide Run, Low, FlowNode;
    d := NodeRuns(inp, c);
    NodeFromNothing(inp.toks, c.pos);
  }

  /** Whatever follows, the events agree as far as both go. */
  lemma EventsAgree(inp: Input, c: Config)
    requires SoundKeys(inp) && Inv(inp, c) && c.state == StFlowNode && c.props == NO_PROPS
    requires FlowNode(inp.toks, c.pos).Ok?
    ensures var r, o := FlowNode(inp.toks, c.pos), Run(inp, c); o.evs <= r.evs || r.evs <= o.evs
  {
    hide Run, Low, FlowNode;
    var d := FlowRefines(inp, c);
  }
}
