/**
 * What the recursive flow parser's events are, token by token: each property
 * lands on the node directly after it, scalars and aliases are their tokens,
 * and nothing is lost, repeated or moved.
 */
module FlowYield {
  import opened Events
  import opened FlowGrammar
  import opened Origins

  // ----- properties -----

  /** The properties from `a` to before `b` are `p`: at most one anchor and one tag. */
  predicate Gathered(toks: seq<Token>, a: nat, b: nat, p: Props) {
    && a <= b <= |toks| && (forall k | a <= k < b :: IsProp(toks[k]))
    && (forall k | a <= k < b && toks[k].typ == TokAnchor :: p.anchor == Some(toks[k].value))
    && (forall k | a <= k < b && toks[k].typ == TokTag :: toks[k].tag.Some? && p.tag == toks[k].tag)
    && AnchorsIn(toks, a, b) == (if p.anchor.Some? then [p.anchor.value] else [])
    && TagsIn(toks, a, b) == (if p.tag.Some? then [p.tag.value] else [])
    && ContentIn(toks, a, b) == []
    && (if a < b then p.Any() && p.start == toks[a].start else !p.Any())
  }

  lemma GatheredNothing(toks: seq<Token>, a: nat)
    requires a <= |toks|
    ensures Gathered(toks, a, a, NO_PROPS)
  {}

  lemma OneMore(toks: seq<Token>, a: nat, pos: nat)
    requires a <= pos < |toks| && IsProp(toks[pos])
    ensures ContentIn(toks, a, pos + 1) == ContentIn(toks, a, pos)
    ensures AnchorsIn(toks, a, pos + 1) == AnchorsIn(toks, a, pos) + if toks[pos].typ == TokAnchor then [toks[pos].value] else []
    ensures TagsIn(toks, a, pos + 1) ==
            TagsIn(toks, a, pos) + if toks[pos].typ == TokTag && toks[pos].tag.Some? then [toks[pos].tag.value] else []
  {}

  lemma GatherAnchor(toks: seq<Token>, a: nat, pos: nat, p: Props)
    requires Gathered(toks, a, pos, p) && pos < |toks| && toks[pos].typ == TokAnchor && p.anchor.None?
    ensures Gathered(toks, a, pos + 1, Props(Some(toks[pos].value), p.tag, if p.tag.None? then toks[pos].start else p.start))
  {
    hide ContentIn, AnchorsIn, TagsIn;
    OneMore(toks, a, pos);
    NoneYet(toks, a, pos);
  }

  lemma GatherTag(toks: seq<Token>, a: nat, pos: nat, p: Props)
    requires Gathered(toks, a, pos, p) && pos < |toks| && toks[pos].typ == TokTag && p.tag.None? && toks[pos].tag.Some?
    ensures Gathered(toks, a, pos + 1, Props(p.anchor, toks[pos].tag, if p.anchor.None? then toks[pos].start else p.start))
  {
    hide ContentIn, AnchorsIn, TagsIn;
    OneMore(toks, a, pos);
  }

  lemma NoneYet(toks: seq<Token>, a: nat, pos: nat)
    requires a <= pos <= |toks|
    ensures a == pos ==> AnchorsIn(toks, a, pos) == [] && TagsIn(toks, a, pos) == []
  {}

  lemma {:induction false} GatherMore(toks: seq<Token>, a: nat, pos: nat, p: Props)
    requires Gathered(toks, a, pos, p)
    ensures var r := ConsumeProps(toks, pos, p); r.PropsOk? ==> Gathered(toks, a, r.pos, r.props)
    decreases |toks| - pos
  {
    hide Gathered;
    GatheredInside(toks, a, pos, p);
    if pos < |toks| {
      var t := toks[pos];
      if t.typ == TokAnchor && p.anchor.None? {
        var q := Props(Some(t.value), p.tag, if p.tag.None? then t.start else p.start);
        GatherAnchor(toks, a, pos, p);
        GatherMore(toks, a, pos + 1, q);
      } else if t.typ == TokTag && p.tag.None? && t.tag.Some? {
        var q := Props(p.anchor, t.tag, if p.anchor.None? then t.start else p.start);
        GatherTag(toks, a, pos, p);
        GatherMore(toks, a, pos + 1, q);
      }
    }
  }

  lemma GatheredInside(toks: seq<Token>, a: nat, pos: nat, p: Props)
    requires Gathered(toks, a, pos, p)
    ensures a <= pos <= |toks| && ContentIn(toks, a, pos) == []
  {}

  /** A node can begin here: no property is directly before. */
  predicate Clear(toks: seq<Token>, pos: nat) {
    pos <= |toks| && (pos > 0 ==> !IsProp(toks[pos - 1]))
  }

  lemma {:induction false} RunStartIs(toks: seq<Token>, a: nat, b: nat)
    requires Clear(toks, a) && a <= b <= |toks| && forall k | a <= k < b :: IsProp(toks[k])
    ensures RunStart(toks, b) == a
    decreases b
  {
    if a < b { RunStartIs(toks, a, b - 1); }
  }

  lemma {:induction false} SomeProp(toks: seq<Token>, a: nat, b: nat)
    requires a <= b <= |toks|
    ensures AnchorsIn(toks, a, b) != [] ==> exists k: nat | a <= k < b :: toks[k].typ == TokAnchor
    ensures TagsIn(toks, a, b) != [] ==> exists k: nat | a <= k < b :: toks[k].typ == TokTag
    decreases b
  {
    if a < b { SomeProp(toks, a, b - 1); }
  }

  /** With the properties read the node is as it should be. */
  lemma Attached(toks: seq<Token>, a: nat, at: nat, p: Props, e: Event)
    requires Clear(toks, a) && Gathered(toks, a, at, p) && at < |toks|
    requires Unpropped(e) && e.start == toks[at].start
    ensures Propped(toks, at, Attach(e, p))
    ensures AnchorsOf([Attach(e, p)]) == AnchorsIn(toks, a, at) && TagsOf([Attach(e, p)]) == TagsIn(toks, a, at)
    ensures var f := Attach(e, p); f.typ == e.typ && f.value == e.value && f.style == e.style && f.implicit == e.implicit && f.flow == e.flow && f.end == e.end
  {
    RunStartIs(toks, a, at);
    SomeProp(toks, a, at);
    AnchorsSingle(Attach(e, p));
  }

  lemma OneToken(toks: seq<Token>, at: nat)
    requires at < |toks|
    ensures ContentIn(toks, at, at + 1) == if IsContent(toks[at]) then [at] else []
    ensures !IsProp(toks[at]) ==> AnchorsIn(toks, at, at + 1) == [] && TagsIn(toks, at, at + 1) == []
  {
    assert ContentIn(toks, at, at) == [];
  }

  /** What a node that is one token is before its properties. */
  predicate IsBase(t: Token, e: Event) {
    Unpropped(e) && e.start == t.start && e.end == t.end && !e.implicit &&
    ((t.typ == TokScalar && e.typ == ScalarEvent && e.value == t.value && e.style == t.style && !e.flow) ||
     (t.typ == TokAlias && e.typ == AliasEvent && e.value == t.value && e.style == Plain && !e.flow) ||
     (t.typ == TokFlowSeqStart && e.typ == SequenceStart && e.value == "" && e.style == Plain && e.flow) ||
     (t.typ == TokFlowMapStart && e.typ == MappingStart && e.value == "" && e.style == Plain && e.flow))
  }

  lemma Bare(e: Event, p: Props)
    requires Unpropped(e)
    ensures !p.Any() ==> Unpropped(Attach(e, p))
  {}

  /** No property is left on an alias. */
  lemma {:induction false} AliasStops(toks: seq<Token>, pos: nat, p: Props)
    requires pos <= |toks|
    ensures var r := ConsumeProps(toks, pos, p); r.PropsOk? && toks[r.pos].typ == TokAlias ==> !r.props.Any()
    decreases |toks| - pos
  {
    if pos < |toks| {
      var t := toks[pos];
      if t.typ == TokAnchor && p.anchor.None? {
        AliasStops(toks, pos + 1, Props(Some(t.value), p.tag, if p.tag.None? then t.start else p.start));
      } else if t.typ == TokTag && p.tag.None? && t.tag.Some? {
        AliasStops(toks, pos + 1, Props(p.anchor, t.tag, if p.anchor.None? then t.start else p.start));
      }
    }
  }

  /** A node's properties and its token. An alias has no properties. */
  lemma NodeToken(toks: seq<Token>, a: nat, at: nat, p: Props, e: Event)
    requires Clear(toks, a) && Gathered(toks, a, at, p) && at < |toks| && IsBase(toks[at], e)
    requires toks[at].typ == TokAlias ==> !p.Any()
    ensures Explains(toks, a, at + 1, [Attach(e, p)], [Content(at)])
  {
    hide Propped, Attach, RunStart, Gathered, AnchorsOf, TagsOf, AnchorsIn, TagsIn, ContentIn, Born, Clear;
    Bare(e, p);
    Attached(toks, a, at, p, e);
    GatheredInside(toks, a, at, p);
    OneToken(toks, at);
    TokensConcat(toks, a, at, at + 1);
    BornSingle(Content(at));
  }

  /** A node with nothing but properties, or not even these. */
  lemma NodeEmpty(toks: seq<Token>, a: nat, at: nat, p: Props)
    requires Clear(toks, a) && Gathered(toks, a, at, p) && at < |toks|
    ensures Explains(toks, a, at, [Attach(EmptyScalar(toks[at].start), p)], [Empty(at)])
  {
    hide Propped, Attach, RunStart, Gathered, AnchorsOf, TagsOf, AnchorsIn, TagsIn, ContentIn, Born, Clear;
    Attached(toks, a, at, p, EmptyScalar(toks[at].start));
    GatheredInside(toks, a, at, p);
    BornSingle(Empty(at));
  }

  /** A node that is left out. */
  lemma NodeAbsent(toks: seq<Token>, at: nat)
    requires at < |toks|
    ensures Explains(toks, at, at, [EmptyScalar(toks[at].start)], [Absent(at)])
  {
    BornSingle(Absent(at));
    AnchorsSingle(EmptyScalar(toks[at].start));
  }

  /** A token that is no event and no property. */
  lemma SilentToken(toks: seq<Token>, at: nat)
    requires at < |toks| && !IsContent(toks[at]) && !IsProp(toks[at])
    ensures Explains(toks, at, at + 1, [], [])
  {
    OneToken(toks, at);
  }

  lemma ClosingToken(toks: seq<Token>, at: nat)
    requires at < |toks| && (toks[at].typ == TokFlowSeqEnd || toks[at].typ == TokFlowMapEnd)
    ensures Explains(toks, at, at + 1,
                     [Simple(if toks[at].typ == TokFlowSeqEnd then SequenceEnd else MappingEnd, toks[at].start, toks[at].end)], [Content(at)])
  {
    OneToken(toks, at);
    BornSingle(Content(at));
    AnchorsSingle(Simple(if toks[at].typ == TokFlowSeqEnd then SequenceEnd else MappingEnd, toks[at].start, toks[at].end));
  }

  // ----- along the grammar -----

  /** The parse's events account for its tokens. */
  ghost predicate Yields(toks: seq<Token>, pos: nat, r: Parse) {
    r.Ok? ==> exists src :: Explains(toks, pos, r.pos, r.evs, src)
  }

  lemma YieldsConcat(toks: seq<Token>, a: nat, b: nat, evs: seq<Event>, src: seq<Origin>, r: Parse)
    requires Explains(toks, a, b, evs, src) && Yields(toks, b, r)
    ensures Yields(toks, a, Prefix(evs, r))
  {
    hide Explains;
    if r.Ok? {
      var rest :| Explains(toks, b, r.pos, r.evs, rest);
      ExplainsConcat(toks, a, b, r.pos, evs, src, r.evs, rest);
    }
  }

  /** A mapping whose start is put before its first key. */
  lemma KeyFirst(toks: seq<Token>, a: nat, b: nat, evs: seq<Event>, src: seq<Origin>)
    requires Explains(toks, a, b, evs, src) && evs != []
    ensures Explains(toks, a, b, [FlowStart(MappingStart, evs[0].start, evs[0].start)] + evs, [KeyStart] + src)
  {
    hide Described, Counted, Placed;
    StartLooks(toks, evs[0].start);
    StartDescribed(toks, FlowStart(MappingStart, evs[0].start, evs[0].start), evs, src);
    StartCounted(toks, a, b, FlowStart(MappingStart, evs[0].start, evs[0].start), evs, src);
    StartPlaced(a, b, src);
  }

  lemma StartDescribed(toks: seq<Token>, open: Event, evs: seq<Event>, src: seq<Origin>)
    requires Described(toks, evs, src) && evs != [] && Looks(toks, KeyStart, open) && open.start == evs[0].start
    ensures Described(toks, [open] + evs, [KeyStart] + src)
  {
    hide Looks;
  }

  lemma StartCounted(toks: seq<Token>, a: nat, b: nat, open: Event, evs: seq<Event>, src: seq<Origin>)
    requires Counted(toks, a, b, evs, src) && Unpropped(open)
    ensures Counted(toks, a, b, [open] + evs, [KeyStart] + src)
  {
    hide ContentIn, AnchorsIn, TagsIn;
    NamesConcat([open], evs);
    AnchorsSingle(open);
    BornConcat([KeyStart], src);
    BornSingle(KeyStart);
  }

  lemma StartPlaced(a: nat, b: nat, src: seq<Origin>)
    requires Placed(a, b, src)
    ensures Placed(a, b, [KeyStart] + src)
  {}

  lemma StartLooks(toks: seq<Token>, at: Mark)
    ensures Looks(toks, KeyStart, FlowStart(MappingStart, at, at)) && Unpropped(FlowStart(MappingStart, at, at))
  {}

  lemma BracketAt(toks: seq<Token>, at: nat, e: Event)
    requires at < |toks| && Looks(toks, Bracket(at), e)
    ensures Explains(toks, at, at, [e], [Bracket(at)])
  {
    AnchorsSingle(e);
    BornSingle(Bracket(at));
  }

  lemma PairClosed(toks: seq<Token>, a: nat, r: Parse)
    requires Yields(toks, a, r) && (r.Ok? ==> r.pos <= |toks|)
    ensures Yields(toks, a, ClosePair(toks, r))
  {
    hide Explains;
    if r.Ok? && r.pos < |toks| {
      var src :| Explains(toks, a, r.pos, r.evs, src);
      var end := Simple(MappingEnd, toks[r.pos].start, toks[r.pos].start);
      BracketAt(toks, r.pos, end);
      ExplainsConcat(toks, a, r.pos, r.pos, r.evs, src, [end], [Bracket(r.pos)]);
    }
  }

  lemma {:induction false} NodeYields(toks: seq<Token>, pos: nat)
    requires Clear(toks, pos)
    ensures Yields(toks, pos, FlowNode(toks, pos))
    decreases |toks| - pos, 1
  {
    hide Gathered, Yields;
    GatheredNothing(toks, pos);
    GatherMore(toks, pos, pos, NO_PROPS);
    AliasStops(toks, pos, NO_PROPS);
    var r := ConsumeProps(toks, pos, NO_PROPS);
    if r.PropsOk? { ContentYields(toks, pos, r.pos, r.props); } else { ErrYields(toks, pos); }
  }

  lemma ErrYields(toks: seq<Token>, pos: nat)
    ensures Yields(toks, pos, Err)
  {}

  lemma OkYields(toks: seq<Token>, pos: nat, evs: seq<Event>, end: nat, src: seq<Origin>)
    requires Explains(toks, pos, end, evs, src)
    ensures Yields(toks, pos, Ok(evs, end))
  {}

  lemma ClearAfter(toks: seq<Token>, at: nat)
    requires at < |toks| && !IsProp(toks[at])
    ensures Clear(toks, at + 1)
  {}

  lemma {:induction false} ContentYields(toks: seq<Token>, a: nat, at: nat, props: Props)
    requires Clear(toks, a) && Gathered(toks, a, at, props) && at < |toks| && (toks[at].typ == TokAlias ==> !props.Any())
    ensures Yields(toks, a, FlowContent(toks, at, props))
    decreases |toks| - at, 0
  {
    hide Gathered, Yields, Explains, FlowSeq, FlowMap, Attach, Clear;
    GatheredInside(toks, a, at, props);
    var t := toks[at];
    match t.typ
    case TokAlias =>
      NodeToken(toks, a, at, props, AliasOf(t));
      OkYields(toks, a, [Attach(AliasOf(t), props)], at + 1, [Content(at)]);
    case TokFlowSeqStart =>
      NodeToken(toks, a, at, props, FlowStart(SequenceStart, t.start, t.end));
      ClearAfter(toks, at);
      SeqYields(toks, at + 1);
      YieldsConcat(toks, a, at + 1, [Attach(FlowStart(SequenceStart, t.start, t.end), props)], [Content(at)], FlowSeq(toks, at + 1));
    case TokFlowMapStart =>
      NodeToken(toks, a, at, props, FlowStart(MappingStart, t.start, t.end));
      ClearAfter(toks, at);
      MapYields(toks, at + 1);
      YieldsConcat(toks, a, at + 1, [Attach(FlowStart(MappingStart, t.start, t.end), props)], [Content(at)], FlowMap(toks, at + 1));
    case TokScalar =>
      NodeToken(toks, a, at, props, ScalarOf(t));
      OkYields(toks, a, [Attach(ScalarOf(t), props)], at + 1, [Content(at)]);
      ErrYields(toks, a);
    case _ =>
      NodeEmpty(toks, a, at, props);
      OkYields(toks, a, [Attach(EmptyScalar(t.start), props)], at, [Empty(at)]);
  }

  lemma {:induction false} UnlessYields(toks: seq<Token>, pos: nat, absent: set<TokenType>)
    requires Clear(toks, pos)
    ensures Yields(toks, pos, NodeUnless(toks, pos, absent))
    decreases |toks| - pos, 2
  {
    hide Yields, Explains, FlowNode;
    if pos == |toks| {
      ErrYields(toks, pos);
    } else if toks[pos].typ in absent {
      NodeAbsent(toks, pos);
      OkYields(toks, pos, [EmptyScalar(toks[pos].start)], pos, [Absent(pos)]);
    } else {
      NodeYields(toks, pos);
    }
  }

  lemma {:induction false} ValueYields(toks: seq<Token>, pos: nat, absent: set<TokenType>)
    requires pos <= |toks|
    ensures Yields(toks, pos, ValuePart(toks, pos, absent))
    decreases |toks| - pos, 3
  {
    hide Yields, Explains, NodeUnless;
    if pos == |toks| {
      ErrYields(toks, pos);
    } else if toks[pos].typ == TokMapValue {
      SilentToken(toks, pos);
      UnlessYields(toks, pos + 1, absent);
      YieldsConcat(toks, pos, pos + 1, [], [], NodeUnless(toks, pos + 1, absent));
      PrefixNone(NodeUnless(toks, pos + 1, absent));
    } else {
      NodeAbsent(toks, pos);
      OkYields(toks, pos, [EmptyScalar(toks[pos].start)], pos, [Absent(pos)]);
    }
  }

  lemma PrefixNone(r: Parse)
    ensures Prefix([], r) == r
  {
    if r.Ok? { assert [] + r.evs == r.evs; }
  }

  lemma Sources(toks: seq<Token>, pos: nat, r: Parse) returns (src: seq<Origin>)
    requires r.Ok? && Yields(toks, pos, r)
    ensures Explains(toks, pos, r.pos, r.evs, src)
  {
    hide Explains;
    src :| Explains(toks, pos, r.pos, r.evs, src);
  }

  lemma {:induction false} SeqEntryYields(toks: seq<Token>, pos: nat)
    requires Clear(toks, pos) && pos < |toks|
    ensures Yields(toks, pos, SeqEntry(toks, pos))
    decreases |toks| - pos, 4
  {
    hide Yields, Explains, NodeUnless, ValuePart, FlowNode, ClosePair, PairOrNode;
    ErrYields(toks, pos);
    if toks[pos].typ == TokMapKey {
      var t, key := toks[pos], NodeUnless(toks, pos + 1, KEY_ABSENT_IN_SEQ);
      UnlessYields(toks, pos + 1, KEY_ABSENT_IN_SEQ);
      if key.Ok? {
        var open := FlowStart(MappingStart, t.start, t.end);
        var value := ValuePart(toks, key.pos, VALUE_ABSENT_IN_SEQ);
        var src := Sources(toks, pos + 1, key);
        BracketAt(toks, pos, open);
        SilentToken(toks, pos);
        ExplainsConcat(toks, pos, pos, pos + 1, [open], [Bracket(pos)], [], []);
        assert [open] + [] == [open] && [Bracket(pos)] + [] == [Bracket(pos)];
        ExplainsConcat(toks, pos, pos + 1, key.pos, [open], [Bracket(pos)], key.evs, src);
        ValueYields(toks, key.pos, VALUE_ABSENT_IN_SEQ);
        YieldsConcat(toks, pos, key.pos, [open] + key.evs, [Bracket(pos)] + src, value);
        PairClosed(toks, pos, Prefix([open] + key.evs, value));
      }
    } else {
      NodeYields(toks, pos);
      PairYields(toks, pos, FlowNode(toks, pos));
    }
  }

  lemma {:induction false} PairYields(toks: seq<Token>, pos: nat, node: Parse)
    requires pos <= |toks| && (node.Ok? ==> pos <= node.pos <= |toks| && node.evs != []) && Yields(toks, pos, node)
    ensures Yields(toks, pos, PairOrNode(toks, pos, node))
    decreases |toks| - pos, 3
  {
    hide Yields, Explains, NodeUnless, ClosePair;
    ErrYields(toks, pos);
    if node.Ok? && node.pos < |toks| && toks[node.pos].typ == TokMapValue {
      var value := NodeUnless(toks, node.pos + 1, VALUE_ABSENT_IN_SEQ);
      var open := FlowStart(MappingStart, node.evs[0].start, node.evs[0].start);
      var src := Sources(toks, pos, node);
      KeyFirst(toks, pos, node.pos, node.evs, src);
      SilentToken(toks, node.pos);
      ExplainsConcat(toks, pos, node.pos, node.pos + 1, [open] + node.evs, [KeyStart] + src, [], []);
      assert [open] + node.evs + [] == [open] + node.evs && [KeyStart] + src + [] == [KeyStart] + src;
      UnlessYields(toks, node.pos + 1, VALUE_ABSENT_IN_SEQ);
      YieldsConcat(toks, pos, node.pos + 1, [open] + node.evs, [KeyStart] + src, value);
      PairClosed(toks, pos, Prefix([open] + node.evs, value));
    }
  }

  lemma {:induction false} MapEntryYields(toks: seq<Token>, pos: nat)
    requires Clear(toks, pos) && pos < |toks|
    ensures Yields(toks, pos, MapEntry(toks, pos))
    decreases |toks| - pos, 4
  {
    hide Yields, Explains, NodeUnless, ValuePart, FlowNode;
    ErrYields(toks, pos);
    var key := if toks[pos].typ == TokMapKey then NodeUnless(toks, pos + 1, KEY_ABSENT_IN_MAP) else FlowNode(toks, pos);
    if toks[pos].typ == TokMapKey {
      SilentToken(toks, pos);
      UnlessYields(toks, pos + 1, KEY_ABSENT_IN_MAP);
      YieldsConcat(toks, pos, pos + 1, [], [], key);
      PrefixNone(key);
    } else {
      NodeYields(toks, pos);
    }
    if key.Ok? {
      var src := Sources(toks, pos, key);
      ValueYields(toks, key.pos, VALUE_ABSENT_IN_MAP);
      YieldsConcat(toks, pos, key.pos, key.evs, src, ValuePart(toks, key.pos, VALUE_ABSENT_IN_MAP));
    }
  }

  lemma {:induction false} SeqYields(toks: seq<Token>, pos: nat)
    requires Clear(toks, pos)
    ensures Yields(toks, pos, FlowSeq(toks, pos))
    decreases |toks| - pos, 5
  {
    hide Yields, Explains, SeqEntry, SeqTail;
    if pos == |toks| || toks[pos].typ == TokFlowEntry {
      ErrYields(toks, pos);
    } else if toks[pos].typ == TokFlowSeqEnd {
      ClosingToken(toks, pos);
      OkYields(toks, pos, [Simple(SequenceEnd, toks[pos].start, toks[pos].end)], pos + 1, [Content(pos)]);
    } else {
      SeqEntryYields(toks, pos);
      var entry := SeqEntry(toks, pos);
      if entry.Ok? {
        SeqTailYields(toks, entry.pos);
        var src := Sources(toks, pos, entry);
        YieldsConcat(toks, pos, entry.pos, entry.evs, src, SeqTail(toks, entry.pos));
      } else {
        ErrYields(toks, pos);
      }
    }
  }

  lemma {:induction false} SeqTailYields(toks: seq<Token>, pos: nat)
    requires pos <= |toks|
    ensures Yields(toks, pos, SeqTail(toks, pos))
    decreases |toks| - pos, 0
  {
    hide Yields, Explains, FlowSeq;
    if pos == |toks| {
      ErrYields(toks, pos);
    } else if toks[pos].typ == TokFlowEntry {
      SilentToken(toks, pos);
      SeqYields(toks, pos + 1);
      YieldsConcat(toks, pos, pos + 1, [], [], FlowSeq(toks, pos + 1));
      PrefixNone(FlowSeq(toks, pos + 1));
    } else if toks[pos].typ == TokFlowSeqEnd {
      ClosingToken(toks, pos);
      OkYields(toks, pos, [Simple(SequenceEnd, toks[pos].start, toks[pos].end)], pos + 1, [Content(pos)]);
    } else {
      ErrYields(toks, pos);
    }
  }

  lemma {:induction false} MapYields(toks: seq<Token>, pos: nat)
    requires Clear(toks, pos)
    ensures Yields(toks, pos, FlowMap(toks, pos))
    decreases |toks| - pos, 5
  {
    hide Yields, Explains, MapEntry, MapTail;
    if pos == |toks| || toks[pos].typ == TokFlowEntry {
      ErrYields(toks, pos);
    } else if toks[pos].typ == TokFlowMapEnd {
      ClosingToken(toks, pos);
      OkYields(toks, pos, [Simple(MappingEnd, toks[pos].start, toks[pos].end)], pos + 1, [Content(pos)]);
    } else {
      MapEntryYields(toks, pos);
      var entry := MapEntry(toks, pos);
      if entry.Ok? {
        MapTailYields(toks, entry.pos);
        var src := Sources(toks, pos, entry);
        YieldsConcat(toks, pos, entry.pos, entry.evs, src, MapTail(toks, entry.pos));
      } else {
        ErrYields(toks, pos);
      }
    }
  }

  lemma {:induction false} MapTailYields(toks: seq<Token>, pos: nat)
    requires pos <= |toks|
    ensures Yields(toks, pos, MapTail(toks, pos))
    decreases |toks| - pos, 0
  {
    hide Yields, Explains, FlowMap;
    if pos == |toks| {
      ErrYields(toks, pos);
    } else if toks[pos].typ == TokFlowEntry {
      SilentToken(toks, pos);
      MapYields(toks, pos + 1);
      YieldsConcat(toks, pos, pos + 1, [], [], FlowMap(toks, pos + 1));
      PrefixNone(FlowMap(toks, pos + 1));
    } else if toks[pos].typ == TokFlowMapEnd {
      ClosingToken(toks, pos);
      OkYields(toks, pos, [Simple(MappingEnd, toks[pos].start, toks[pos].end)], pos + 1, [Content(pos)]);
    } else {
      ErrYields(toks, pos);
    }
  }

  // ----- what this comes to -----

  /** The recursive parser's events, token by token: in order, one for each scalar,
      alias and bracket of the tokens it read, with that token's value, style and
      extent, and with the anchor and tag directly before it; empty nodes and
      nothing else in between; and every anchor and tag once, in order. */
  lemma NodeTokens(toks: seq<Token>, pos: nat) returns (src: seq<Origin>)
    requires Clear(toks, pos)
    ensures var r := FlowNode(toks, pos);
            r.Ok? ==>
              && Described(toks, r.evs, src) && Placed(pos, r.pos, src) && Born(src) == ContentIn(toks, pos, r.pos)
              && AnchorsOf(r.evs) == AnchorsIn(toks, pos, r.pos) && TagsOf(r.evs) == TagsIn(toks, pos, r.pos)
  {
    hide FlowNode, Described, Placed;
    NodeYields(toks, pos);
    src := [];
    if FlowNode(toks, pos).Ok? { src := Sources(toks, pos, FlowNode(toks, pos)); }
  }
}
