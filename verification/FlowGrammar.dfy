/**
 * What the recursive flow parser (parse_flow_node, parse_flow_sequence,
 * parse_flow_mapping) makes of a token sequence: the events in their final
 * order and the position after the node. The C functions append events and
 * patch the list afterwards; see EagerFlow for that form.
 */
module FlowGrammar {
  import opened Events

  datatype PropsResult = PropsOk(props: Props, pos: nat) | PropsError

  /** At most one anchor and one tag, in any order (inside a flow collection). */
  function ConsumeProps(toks: seq<Token>, pos: nat, p: Props): (r: PropsResult)
    requires pos <= |toks|
    ensures r.PropsOk? ==> pos <= r.pos < |toks|
    decreases |toks| - pos
  {
    if pos == |toks| then PropsError
    else
      var t := toks[pos];
      if t.typ == TokAnchor && p.anchor.None? then
        ConsumeProps(toks, pos + 1, Props(Some(t.value), p.tag, if p.tag.None? then t.start else p.start))
      else if t.typ == TokTag && p.tag.None? then
        if t.tag.None? then PropsError
        else ConsumeProps(toks, pos + 1, Props(p.anchor, t.tag, if p.anchor.None? then t.start else p.start))
      else if t.typ == TokAlias && p.Any() then PropsError
      else PropsOk(p, pos)
  }

  datatype Parse = Ok(evs: seq<Event>, pos: nat) | Err

  function Prefix(evs: seq<Event>, r: Parse): Parse {
    if r.Ok? then Ok(evs + r.evs, r.pos) else Err
  }

  /** A node: properties, then an alias, a collection, a scalar or nothing. */
  function FlowNode(toks: seq<Token>, pos: nat): (r: Parse)
    requires pos <= |toks|
    ensures r.Ok? ==> pos <= r.pos <= |toks| && r.evs != []
    decreases |toks| - pos, 1
  {
    match ConsumeProps(toks, pos, NO_PROPS)
    case PropsError => Err
    case PropsOk(props, at) => FlowContent(toks, at, props)
  }

  function FlowContent(toks: seq<Token>, at: nat, props: Props): (r: Parse)
    requires at < |toks|
    ensures r.Ok? ==> at <= r.pos <= |toks| && r.evs != []
    decreases |toks| - at, 0
  {
    var t := toks[at];
    match t.typ
    case TokAlias => Ok([Attach(AliasOf(t), props)], at + 1)
    case TokFlowSeqStart =>
      Prefix([Attach(FlowStart(SequenceStart, t.start, t.end), props)], FlowSeq(toks, at + 1))
    case TokFlowMapStart =>
      Prefix([Attach(FlowStart(MappingStart, t.start, t.end), props)], FlowMap(toks, at + 1))
    case TokScalar =>
      // the token after a scalar is looked at before the scalar is queued
      if at + 1 == |toks| then Err else Ok([Attach(ScalarOf(t), props)], at + 1)
    case _ => Ok([Attach(EmptyScalar(t.start), props)], at)
  }

  /** A node, unless the token is one of those that leave it out. */
  function NodeUnless(toks: seq<Token>, pos: nat, absent: set<TokenType>): (r: Parse)
    requires pos <= |toks|
    ensures r.Ok? ==> pos <= r.pos <= |toks|
    decreases |toks| - pos, 2
  {
    if pos == |toks| then Err
    else if toks[pos].typ in absent then Ok([EmptyScalar(toks[pos].start)], pos)
    else FlowNode(toks, pos)
  }

  /** Key and value of a pair in a flow sequence end where the next token starts. */
  function ClosePair(toks: seq<Token>, r: Parse): (c: Parse)
    requires r.Ok? ==> r.pos <= |toks|
    ensures c.Ok? ==> r.Ok? && c.pos == r.pos
  {
    if r.Err? || r.pos == |toks| then Err
    else Ok(r.evs + [Simple(MappingEnd, toks[r.pos].start, toks[r.pos].start)], r.pos)
  }

  const KEY_ABSENT_IN_SEQ := {TokMapValue, TokFlowEntry, TokFlowSeqEnd}
  const VALUE_ABSENT_IN_SEQ := {TokFlowEntry, TokFlowSeqEnd}
  const KEY_ABSENT_IN_MAP := {TokMapValue, TokFlowEntry, TokFlowMapEnd}
  const VALUE_ABSENT_IN_MAP := {TokFlowEntry, TokFlowMapEnd}

  /** ':' and a value, or no ':' and an empty value. */
  function ValuePart(toks: seq<Token>, pos: nat, absent: set<TokenType>): (r: Parse)
    requires pos <= |toks|
    ensures r.Ok? ==> pos <= r.pos <= |toks|
    decreases |toks| - pos, 3
  {
    if pos == |toks| then Err
    else if toks[pos].typ == TokMapValue then NodeUnless(toks, pos + 1, absent)
    else Ok([EmptyScalar(toks[pos].start)], pos)
  }

  /** A sequence entry that is a node: alone, or the key of a pair if ':' follows. */
  function PairOrNode(toks: seq<Token>, pos: nat, node: Parse): (r: Parse)
    requires pos <= |toks| && (node.Ok? ==> pos <= node.pos <= |toks| && node.evs != [])
    ensures r.Ok? ==> pos <= r.pos <= |toks|
    decreases |toks| - pos, 3
  {
    if node.Err? || node.pos == |toks| then Err
    else if toks[node.pos].typ != TokMapValue then node
    else
      var value := NodeUnless(toks, node.pos + 1, VALUE_ABSENT_IN_SEQ);
      ClosePair(toks, Prefix([FlowStart(MappingStart, node.evs[0].start, node.evs[0].start)] + node.evs, value))
  }

  /** One entry of a flow sequence: an explicit pair, a node, or a node that
      a ':' after it makes the key of a pair. */
  function SeqEntry(toks: seq<Token>, pos: nat): (r: Parse)
    requires pos < |toks|
    ensures r.Ok? ==> pos <= r.pos <= |toks|
    decreases |toks| - pos, 4
  {
    var t := toks[pos];
    if t.typ == TokMapKey then
      var key := NodeUnless(toks, pos + 1, KEY_ABSENT_IN_SEQ);
      if key.Err? then Err
      else
        var value := ValuePart(toks, key.pos, VALUE_ABSENT_IN_SEQ);
        ClosePair(toks, Prefix([FlowStart(MappingStart, t.start, t.end)] + key.evs, value))
    else PairOrNode(toks, pos, FlowNode(toks, pos))
  }

  /** The rest of a flow sequence, from just inside it to past its ']'. */
  function FlowSeq(toks: seq<Token>, pos: nat): (r: Parse)
    requires pos <= |toks|
    ensures r.Ok? ==> pos < r.pos <= |toks|
    decreases |toks| - pos, 5
  {
    if pos == |toks| then Err
    else
      var t := toks[pos];
      if t.typ == TokFlowSeqEnd then Ok([Simple(SequenceEnd, t.start, t.end)], pos + 1)
      else if t.typ == TokFlowEntry then Err
      else
        var entry := SeqEntry(toks, pos);
        if entry.Err? then Err else Prefix(entry.evs, SeqTail(toks, entry.pos))
  }

  /** After an entry: ',' and more, or ']'. */
  function SeqTail(toks: seq<Token>, pos: nat): (r: Parse)
    requires pos <= |toks|
    ensures r.Ok? ==> pos < r.pos <= |toks|
    decreases |toks| - pos, 0
  {
    if pos == |toks| then Err
    else
      var t := toks[pos];
      if t.typ == TokFlowEntry then FlowSeq(toks, pos + 1)
      else if t.typ == TokFlowSeqEnd then Ok([Simple(SequenceEnd, t.start, t.end)], pos + 1)
      else Err
  }

  /** One entry of a flow mapping: key and value. */
  function MapEntry(toks: seq<Token>, pos: nat): (r: Parse)
    requires pos < |toks|
    ensures r.Ok? ==> pos <= r.pos <= |toks|
    decreases |toks| - pos, 4
  {
    var key := if toks[pos].typ == TokMapKey then NodeUnless(toks, pos + 1, KEY_ABSENT_IN_MAP)
               else FlowNode(toks, pos);
    if key.Err? then Err
    else Prefix(key.evs, ValuePart(toks, key.pos, VALUE_ABSENT_IN_MAP))
  }

  /** The rest of a flow mapping, from just inside it to past its '}'. */
  function FlowMap(toks: seq<Token>, pos: nat): (r: Parse)
    requires pos <= |toks|
    ensures r.Ok? ==> pos < r.pos <= |toks|
    decreases |toks| - pos, 5
  {
    if pos == |toks| then Err
    else
      var t := toks[pos];
      if t.typ == TokFlowMapEnd then Ok([Simple(MappingEnd, t.start, t.end)], pos + 1)
      else if t.typ == TokFlowEntry then Err
      else
        var entry := MapEntry(toks, pos);
        if entry.Err? then Err else Prefix(entry.evs, MapTail(toks, entry.pos))
  }

  function MapTail(toks: seq<Token>, pos: nat): (r: Parse)
    requires pos <= |toks|
    ensures r.Ok? ==> pos < r.pos <= |toks|
    decreases |toks| - pos, 0
  {
    if pos == |toks| then Err
    else
      var t := toks[pos];
      if t.typ == TokFlowEntry then FlowMap(toks, pos + 1)
      else if t.typ == TokFlowMapEnd then Ok([Simple(MappingEnd, t.start, t.end)], pos + 1)
      else Err
  }
}
