/**
 * What the recursive parser (parse_stream, parse_document, parse_block_node,
 * parse_block_mapping, parse_block_map_value, parse_block_sequence) makes of a
 * whole token sequence, by tokens and columns: the events in order. What only that
 * parser handles is Beyond this grammar: node properties outside flow collections,
 * directives, and flow collections as the keys of block mappings.
 */
module BlockGrammar {
  import opened Events
  import opened FlowGrammar

  datatype Result = Read(evs: seq<Event>, pos: nat) | Wrong | Beyond

  function After(evs: seq<Event>, r: Result): Result {
    if r.Read? then Read(evs + r.evs, r.pos) else r
  }

  function ReadOr(r: Parse): Result { if r.Ok? then Read(r.evs, r.pos) else Wrong }

  /** The tokens, and whether only blanks come before an offset on its line. */
  datatype Source = Source(toks: seq<Token>, startsLine: nat -> bool)

  predicate IsMarker(t: Token) { t.typ == TokDocStart || t.typ == TokDocEnd || t.typ == TokStreamEnd }

  predicate IsLeaf(t: Token) { t.typ == TokScalar || t.typ == TokAlias }

  function LeafOf(t: Token): Event { if t.typ == TokScalar then ScalarOf(t) else AliasOf(t) }

  /** A block collection cannot start on the line of its document's '---';
      `doc` is that line, 0 if there is none. */
  predicate OnDocLine(doc: nat, t: Token) { doc != 0 && t.start.line == doc }

  /** A block collection whose first events are `open`. */
  function Opened(doc: nat, t: Token, open: seq<Event>, rest: Result): Result {
    if OnDocLine(doc, t) then Wrong else After(open, rest)
  }

  /** A ':' on the line of the leaf before it. */
  predicate ColonFollows(toks: seq<Token>, pos: nat) {
    pos + 1 < |toks| && toks[pos + 1].typ == TokMapValue && toks[pos + 1].start.line == toks[pos].start.line
  }

  /** A flow collection is at least a bracket. */
  lemma FlowBegins(toks: seq<Token>, pos: nat)
    requires pos < |toks| && (toks[pos].typ == TokFlowSeqStart || toks[pos].typ == TokFlowMapStart)
    ensures var r := FlowNode(toks, pos); r.Ok? ==> r.pos > pos
  {
    assert ConsumeProps(toks, pos, NO_PROPS) == PropsOk(NO_PROPS, pos);
    assert FlowNode(toks, pos) == FlowContent(toks, pos, NO_PROPS);
  }

  /** A flow collection; with a ':' on the line of its end it is a key, unless it
      is the value on its own key's line. */
  function BlockFlow(toks: seq<Token>, pos: nat, mayBeKey: bool): (r: Result)
    requires pos < |toks| && (toks[pos].typ == TokFlowSeqStart || toks[pos].typ == TokFlowMapStart)
    ensures r.Read? ==> pos < r.pos <= |toks|
  {
    FlowBegins(toks, pos);
    var node := FlowNode(toks, pos);
    if node.Ok? && mayBeKey && ColonAfter(toks, node.pos) then Beyond else ReadOr(node)
  }

  predicate ColonAfter(toks: seq<Token>, end: nat) {
    0 < end < |toks| && toks[end].typ == TokMapValue && toks[end].start.line == toks[end - 1].end.line
  }

  /** parse_block_node: a leaf or a flow collection, or the first token of a block collection. */
  function BlockNode(src: Source, pos: nat, doc: nat, mayBeKey: bool): (r: Result)
    requires pos <= |src.toks|
    ensures r.Read? ==> pos <= r.pos <= |src.toks| && pos < |src.toks|
    ensures r.Read? && r.pos == pos ==> IsMarker(src.toks[pos]) || src.toks[pos].typ in {TokNone, TokStreamStart}
    decreases |src.toks| - pos, 3
  {
    if pos == |src.toks| then Wrong
    else
      var t := src.toks[pos];
      match t.typ
      case TokScalar => BlockLeaf(src, pos, doc)
      case TokAlias => BlockLeaf(src, pos, doc)
      case TokSeqEntry => Opened(doc, t, [Simple(SequenceStart, t.start, t.end)], SeqEntries(src, pos, t.Col(), doc))
      case TokMapKey => Opened(doc, t, [Simple(MappingStart, t.start, t.end)], MapEntries(src, pos, t.Col(), doc))
      case TokMapValue => Opened(doc, t, [Simple(MappingStart, t.start, t.end)], MapEntries(src, pos, t.Col(), doc))
      case TokFlowSeqStart => BlockFlow(src.toks, pos, mayBeKey)
      case TokFlowMapStart => BlockFlow(src.toks, pos, mayBeKey)
      case TokTag => Beyond
      case TokAnchor => Beyond
      case TokFlowSeqEnd => Wrong
      case TokFlowMapEnd => Wrong
      case TokFlowEntry => Wrong
      case TokDirective => Wrong
      case _ => Read([Simple(ScalarEvent, t.start, t.end)], pos)
  }

  /** A scalar or alias, or the mapping whose first key it is. */
  function BlockLeaf(src: Source, pos: nat, doc: nat): (r: Result)
    requires pos < |src.toks| && IsLeaf(src.toks[pos])
    ensures r.Read? ==> pos < r.pos <= |src.toks|
    decreases |src.toks| - pos, 2
  {
    var t := src.toks[pos];
    if pos + 1 == |src.toks| then Wrong
    else if ColonFollows(src.toks, pos) then
      Opened(doc, t, [Simple(MappingStart, t.start, t.start), LeafOf(t)], ThenMap(src, MapValue(src, pos + 1, t.Col(), doc), t.Col(), doc))
    else Read([LeafOf(t)], pos + 1)
  }

  /** What `part` of a mapping was read, and then the rest of the mapping. */
  function ThenMap(src: Source, part: Result, indent: int, doc: nat): (r: Result)
    requires part.Read? ==> part.pos <= |src.toks|
    ensures r.Read? ==> part.Read? && part.pos <= r.pos <= |src.toks|
    decreases if part.Read? then |src.toks| - part.pos else 0, 3
  {
    if part.Read? then After(part.evs, MapEntries(src, part.pos, indent, doc)) else part
  }

  /** A node of a collection at `indent`, or nothing: what is not indented past the
      collection, or ends the document, comes after it. A block sequence may stand
      at the indentation of a mapping's key. */
  function Part(src: Source, pos: nat, indent: int, inSeq: bool, doc: nat, mayBeKey: bool): (r: Result)
    requires pos <= |src.toks|
    ensures r.Read? ==> pos <= r.pos <= |src.toks|
    decreases |src.toks| - pos, 4
  {
    if pos == |src.toks| then Wrong
    else if Nothing(src.toks[pos], indent, inSeq) then Read([EmptyScalar(src.toks[pos].start)], pos)
    else BlockNode(src, pos, doc, mayBeKey)
  }

  predicate Nothing(t: Token, indent: int, inSeq: bool) {
    IsMarker(t) || t.Col() < indent || (t.Col() == indent && (inSeq || t.typ != TokSeqEntry))
  }

  /** On the line of an implicit key's ':' there is no second key. */
  predicate OnKeyLine(src: Source, colon: nat) {
    colon + 1 < |src.toks| && src.toks[colon + 1].start.line == src.toks[colon].start.line && !src.startsLine(src.toks[colon].start.offset)
  }

  /** parse_block_map_value, at its ':'. */
  function MapValue(src: Source, pos: nat, indent: int, doc: nat): (r: Result)
    requires pos < |src.toks|
    ensures r.Read? ==> pos < r.pos <= |src.toks|
    decreases |src.toks| - pos, 0
  {
    Part(src, pos + 1, indent, false, doc, !OnKeyLine(src, pos))
  }

  /** parse_block_mapping: the entries at `indent` from here on, and the end. */
  function MapEntries(src: Source, pos: nat, indent: int, doc: nat): (r: Result)
    requires pos <= |src.toks|
    ensures r.Read? ==> pos <= r.pos <= |src.toks| && pos < |src.toks|
    ensures r.Read? && r.pos == pos ==> src.toks[pos].Col() != indent || src.toks[pos].typ !in {TokMapKey, TokMapValue}
    decreases |src.toks| - pos, 2
  {
    if pos == |src.toks| then Wrong
    else
      var t := src.toks[pos];
      if t.Col() != indent then Read([Simple(MappingEnd, t.start, t.start)], pos)
      else if t.typ == TokMapKey then
        var key := Part(src, pos + 1, indent, false, doc, true);
        if key.Read? then After(key.evs, ThenMap(src, QuestionValue(src, key.pos, indent, doc), indent, doc)) else key
      else if t.typ == TokMapValue then
        After([EmptyScalar(t.start)], ThenMap(src, MapValue(src, pos, indent, doc), indent, doc))
      else if IsLeaf(t) then
        if pos + 1 < |src.toks| && src.toks[pos + 1].typ == TokMapValue then
          After([LeafOf(t)], ThenMap(src, MapValue(src, pos + 1, indent, doc), indent, doc))
        else Wrong
      else if t.typ in {TokTag, TokAnchor, TokFlowSeqStart, TokFlowMapStart} then Beyond
      else Read([Simple(MappingEnd, t.start, t.start)], pos)
  }

  /** The value of a '?' key: its ':' is at the mapping's indentation; one further
      left belongs to an enclosing mapping. */
  function QuestionValue(src: Source, pos: nat, indent: int, doc: nat): (r: Result)
    requires pos <= |src.toks|
    ensures r.Read? ==> pos <= r.pos <= |src.toks|
    decreases |src.toks| - pos, 1
  {
    if pos == |src.toks| then Wrong
    else
      var t := src.toks[pos];
      if t.typ == TokMapValue && t.Col() == indent then MapValue(src, pos, indent, doc)
      else if t.typ == TokMapValue && t.Col() > indent then Wrong
      else Read([EmptyScalar(t.start)], pos)
  }

  /** parse_block_sequence: the entries at `indent` from here on, and the end. */
  function SeqEntries(src: Source, pos: nat, indent: int, doc: nat): (r: Result)
    requires pos <= |src.toks|
    ensures r.Read? ==> pos <= r.pos <= |src.toks| && pos < |src.toks|
    ensures r.Read? && r.pos == pos ==> src.toks[pos].Col() != indent || src.toks[pos].typ != TokSeqEntry
    decreases |src.toks| - pos, 2
  {
    if pos == |src.toks| then Wrong
    else
      var t := src.toks[pos];
      if t.typ == TokSeqEntry && t.Col() == indent then
        var entry := Part(src, pos + 1, indent, true, doc, true);
        if entry.Read? then After(entry.evs, SeqEntries(src, entry.pos, indent, doc)) else entry
      else Read([Simple(SequenceEnd, t.start, t.start)], pos)
  }

  // ----- documents and the stream -----

  /** A document's root, from after its start. */
  function Root(src: Source, pos: nat, doc: nat): (r: Result)
    requires pos <= |src.toks|
    ensures r.Read? ==> pos <= r.pos <= |src.toks| && pos < |src.toks|
    ensures r.Read? && r.pos == pos ==> IsMarker(src.toks[pos]) || src.toks[pos].typ in {TokNone, TokStreamStart}
  {
    if pos == |src.toks| then Wrong
    else if IsMarker(src.toks[pos]) then Read([EmptyScalar(src.toks[pos].start)], pos)
    else BlockNode(src, pos, doc, true)
  }

  /** Only a document's boundary may follow its root. */
  function DocumentEnd(toks: seq<Token>, pos: nat): (r: Result)
    requires pos <= |toks|
    ensures r.Read? ==> pos <= r.pos <= |toks| && pos < |toks| && IsMarker(toks[pos])
  {
    if pos == |toks| then Wrong
    else
      var t := toks[pos];
      if t.typ == TokDocEnd then Read([DocEvent(DocEnd, false, t.start, t.end)], pos + 1)
      else if IsMarker(t) then Read([DocEvent(DocEnd, true, t.start, t.start)], pos)
      else Wrong
  }

  /** parse_document, from after the document's start. */
  function Document(src: Source, pos: nat, doc: nat): (r: Result)
    requires pos <= |src.toks|
    ensures r.Read? ==> pos <= r.pos <= |src.toks| && pos < |src.toks|
    ensures r.Read? && r.pos == pos ==> IsMarker(src.toks[pos])
  {
    var root := Root(src, pos, doc);
    if root.Read? then After(root.evs, DocumentEnd(src.toks, root.pos)) else root
  }

  /** The rest of the stream, between two documents. */
  function Documents(src: Source, pos: nat): (r: Result)
    requires pos <= |src.toks|
    decreases |src.toks| - pos
  {
    if pos == |src.toks| then Wrong
    else
      var t := src.toks[pos];
      match t.typ
      case TokStreamEnd => Read([Simple(StreamEnd, t.start, t.end)], pos + 1)
      case TokDirective => Beyond
      case TokDocEnd => Documents(src, pos + 1)
      case TokDocStart =>
        var d := Document(src, pos + 1, t.start.line);
        if d.Read? then After([DocEvent(DocStart, false, t.start, t.end)] + d.evs, Documents(src, d.pos)) else d
      case _ =>
        var d := Document(src, pos, 0);
        if d.Read? then After([DocEvent(DocStart, true, t.start, t.start)] + d.evs, Documents(src, d.pos)) else d
  }

  /** parse_stream. */
  function WholeStream(src: Source): Result {
    if src.toks == [] then Wrong
    else After([Simple(StreamStart, src.toks[0].start, src.toks[0].end)], Documents(src, 1))
  }
}
