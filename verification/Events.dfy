/**
 * Tokens (scanner output) and events (parser output), as values.
 * include/oyl/oyl.h declares the C structs these follow.
 */
module Events {
  datatype Option<+T> = None | Some(value: T)

  datatype Mark = Mark(offset: nat, line: nat, col: nat)

  datatype ScalarStyle = Plain | SingleQuoted | DoubleQuoted | Literal | Folded

  datatype TokenType =
    | TokNone | TokStreamStart | TokStreamEnd | TokDocStart | TokDocEnd
    | TokSeqEntry | TokMapKey | TokMapValue
    | TokFlowSeqStart | TokFlowSeqEnd | TokFlowMapStart | TokFlowMapEnd | TokFlowEntry
    | TokScalar | TokTag | TokAnchor | TokAlias | TokDirective

  /** A token. `tag` is what a tag token stands for once its handle is
      expanded, None when the handle is undeclared; other tokens ignore it. */
  datatype Token = Token(typ: TokenType, value: string, tag: Option<string>,
                         style: ScalarStyle, start: Mark, end: Mark)
  {
    /** 0-based column */
    function Col(): int { start.col - 1 }
  }

  datatype EventType =
    | StreamStart | StreamEnd | DocStart | DocEnd
    | MappingStart | MappingEnd | SequenceStart | SequenceEnd
    | ScalarEvent | AliasEvent

  datatype Event = Event(typ: EventType, value: string, anchor: Option<string>, tag: Option<string>,
                         style: ScalarStyle, implicit: bool, flow: bool, start: Mark, end: Mark)

  /** Anchor and tag read for the next node, and where the first of them starts. */
  datatype Props = Props(anchor: Option<string>, tag: Option<string>, start: Mark)
  {
    predicate Any() { anchor.Some? || tag.Some? }
  }

  const ORIGIN := Mark(0, 0, 0)
  const NO_PROPS := Props(None, None, ORIGIN)

  function Simple(typ: EventType, start: Mark, end: Mark): Event {
    Event(typ, "", None, None, Plain, false, false, start, end)
  }

  function FlowStart(typ: EventType, start: Mark, end: Mark): Event {
    Event(typ, "", None, None, Plain, false, true, start, end)
  }

  function EmptyScalar(at: Mark): Event {
    Simple(ScalarEvent, at, at)
  }

  function ScalarOf(t: Token): Event {
    Event(ScalarEvent, t.value, None, None, t.style, false, false, t.start, t.end)
  }

  function AliasOf(t: Token): Event {
    Event(AliasEvent, t.value, None, None, Plain, false, false, t.start, t.end)
  }

  function DocEvent(typ: EventType, implicit: bool, start: Mark, end: Mark): Event {
    Event(typ, "", None, None, Plain, implicit, false, start, end)
  }

  /** Gives `e` the pending properties; with any, the event starts where they do. */
  function Attach(e: Event, p: Props): Event {
    e.(anchor := if p.anchor.Some? then p.anchor else e.anchor,
       tag := if p.tag.Some? then p.tag else e.tag,
       start := if p.Any() then p.start else e.start)
  }

  predicate IsOpening(t: EventType) { t == MappingStart || t == SequenceStart }

  predicate IsClosing(t: EventType) { t == MappingEnd || t == SequenceEnd }
}
