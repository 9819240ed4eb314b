/**
 * The recursive flow parser as the code has it: events are appended to one
 * list, and when a ':' shows that a node was a key, a MAPPING_START is
 * inserted before the events it already queued.
 */
module EagerFlow {
  import opened Events
  import opened FlowGrammar

  class FlowParser {
    const toks: seq<Token>
    var pos: nat             // the first token not yet consumed
    var events: seq<Event>
    var props: Props         // pending anchor and tag

    constructor (tokens: seq<Token>, start: nat, queued: seq<Event>)
      ensures toks == tokens && pos == start && events == queued && props == NO_PROPS
    {
      toks, pos, events, props := tokens, start, queued, NO_PROPS;
    }

    predicate Ready()
      reads this
    {
      pos <= |toks| && props == NO_PROPS
    }

    /** The parser did what `r` says, from the events `before`. */
    predicate Did(ok: bool, before: seq<Event>, r: Parse)
      reads this
    {
      ok == r.Ok? && (ok ==> Ready() && pos == r.pos && events == before + r.evs)
    }

    method Enqueue(e: Event)
      modifies this`events
      ensures events == old(events) + [e]
    {
      events := events + [e];
    }

    /** Queues the event at the end, then moves it to `idx`. */
    method InsertEvent(idx: nat, e: Event)
      requires idx <= |events|
      modifies this`events
      ensures events == old(events)[..idx] + [e] + old(events)[idx..]
    {
      Enqueue(e);
      var last := events[|events| - 1];
      events := events[..idx] + [last] + events[idx..|events| - 1];
    }

    method EmitEmpty()
      requires pos < |toks|
      modifies this`events, this`props
      ensures events == old(events) + [Attach(EmptyScalar(toks[pos].start), old(props))] && props == NO_PROPS
    {
      Enqueue(Attach(EmptyScalar(toks[pos].start), props));
      props := NO_PROPS;
    }

    /** consume_props inside a flow collection. */
    method ReadProps() returns (ok: bool)
      requires Ready()
      modifies this`pos, this`props
      ensures var r := ConsumeProps(toks, old(pos), NO_PROPS);
        ok == r.PropsOk? && (ok ==> pos == r.pos && props == r.props)
    {
      while true
        invariant pos <= |toks|
        invariant ConsumeProps(toks, pos, props) == ConsumeProps(toks, old(pos), NO_PROPS)
        decreases |toks| - pos
      {
        if pos == |toks| { return false; }
        var t := toks[pos];
        if t.typ == TokAnchor && props.anchor.None? {
          props := Props(Some(t.value), props.tag, if props.tag.None? then t.start else props.start);
          pos := pos + 1;
        } else if t.typ == TokTag && props.tag.None? {
          if t.tag.None? { return false; }
          props := Props(props.anchor, t.tag, if props.anchor.None? then t.start else props.start);
          pos := pos + 1;
        } else {
          return !(t.typ == TokAlias && props.Any());
        }
      }
    }

    method ParseFlowNode() returns (ok: bool)
      requires Ready()
      modifies this
      ensures Did(ok, old(events), FlowNode(toks, old(pos)))
      decreases |toks| - pos, 1
    {
      ok := ReadProps();
      if ok { ok := ParseContent(); }
    }

    /** The node itself, its properties pending. */
    method ParseContent() returns (ok: bool)
      requires pos < |toks|
      modifies this
      ensures Did(ok, old(events), FlowContent(toks, old(pos), old(props)))
      decreases |toks| - pos, 0
    {
      hide FlowSeq, FlowMap, ConsumeProps;
      ok := true;
      var t := toks[pos];
      match t.typ
      case TokAlias =>
        Enqueue(Attach(AliasOf(t), props));
        props := NO_PROPS;
        pos := pos + 1;
      case TokFlowSeqStart =>
        Enqueue(Attach(FlowStart(SequenceStart, t.start, t.end), props));
        props := NO_PROPS;
        pos := pos + 1;
        ok := ParseFlowSequence();
      case TokFlowMapStart =>
        Enqueue(Attach(FlowStart(MappingStart, t.start, t.end), props));
        props := NO_PROPS;
        pos := pos + 1;
        ok := ParseFlowMapping();
      case TokScalar =>
        var e := Attach(ScalarOf(t), props);
        props := NO_PROPS;
        pos := pos + 1;
        if pos == |toks| { return false; }
        Enqueue(e);
      case _ => EmitEmpty();
    }

    /** A node, or an empty one if the next token leaves it out. */
    method ParseNodeUnless(absent: set<TokenType>) returns (ok: bool)
      requires Ready()
      modifies this
      ensures Did(ok, old(events), NodeUnless(toks, old(pos), absent))
      decreases |toks| - pos, 2
    {
      if pos == |toks| { return false; }
      if toks[pos].typ in absent {
        EmitEmpty();
        ok := true;
      } else {
        ok := ParseFlowNode();
      }
    }

    /** ':' and a value, or an empty value. */
    method ParseValue(absent: set<TokenType>) returns (ok: bool)
      requires Ready()
      modifies this
      ensures Did(ok, old(events), ValuePart(toks, old(pos), absent))
      decreases |toks| - pos, 3
    {
      if pos == |toks| { return false; }
      if toks[pos].typ == TokMapValue {
        pos := pos + 1;
        ok := ParseNodeUnless(absent);
      } else {
        EmitEmpty();
        ok := true;
      }
    }

    /** MAPPING_END of a pair, where the next token starts. */
    method EndPair() returns (ok: bool)
      requires Ready()
      modifies this`events
      ensures ok == (pos < |toks|)
      ensures ok ==> events == old(events) + [Simple(MappingEnd, toks[pos].start, toks[pos].start)]
    {
      ok := pos < |toks|;
      if ok { Enqueue(Simple(MappingEnd, toks[pos].start, toks[pos].start)); }
    }

    /** The explicit pair "? key : value". */
    method ParseExplicitPair() returns (ok: bool)
      requires Ready() && pos < |toks| && toks[pos].typ == TokMapKey
      modifies this
      ensures Did(ok, old(events), SeqEntry(toks, old(pos)))
      decreases |toks| - pos, 4
    {
      var t := toks[pos];
      Enqueue(FlowStart(MappingStart, t.start, t.end));
      pos := pos + 1;
      ok := ParseNodeUnless(KEY_ABSENT_IN_SEQ);
      if !ok { return; }
      ok := ParseValue(VALUE_ABSENT_IN_SEQ);
      if !ok { return; }
      ok := EndPair();
    }

    /** A node; a ':' after it makes the events just queued a pair's key. */
    method ParseNodeEntry() returns (ok: bool)
      requires Ready() && pos < |toks| && toks[pos].typ != TokMapKey
      modifies this
      ensures Did(ok, old(events), SeqEntry(toks, old(pos)))
      decreases |toks| - pos, 4
    {
      var keyIdx := |events|;
      ghost var before := events;
      ghost var node := FlowNode(toks, pos);
      ok := ParseFlowNode();
      if !ok { return; }
      if pos == |toks| { return false; }
      if toks[pos].typ == TokMapValue {
        if |events| - keyIdx > 0 {
          var at := events[keyIdx].start;
          InsertEvent(keyIdx, FlowStart(MappingStart, at, at));
          assert events == before + ([FlowStart(MappingStart, at, at)] + node.evs);
        }
        pos := pos + 1;
        ok := ParseNodeUnless(VALUE_ABSENT_IN_SEQ);
        if !ok { return; }
        ok := EndPair();
      }
    }

    method ParseFlowSequence() returns (ok: bool)
      requires Ready()
      modifies this
      ensures Did(ok, old(events), FlowSeq(toks, old(pos)))
      decreases |toks| - pos, 5
    {
      hide SeqEntry, FlowSeq, SeqTail;
      ghost var start, before := pos, events;
      NothingYet(before, FlowSeq(toks, pos));
      while true
        invariant Ready() && start <= pos && before <= events
        invariant FlowSeq(toks, start) == Prefix(events[|before|..], FlowSeq(toks, pos))
        decreases |toks| - pos, if pos < |toks| && toks[pos].typ == TokFlowSeqEnd then 0 else 1
      {
        SeqEdges(toks, pos);
        if pos == |toks| { return false; }
        var t := toks[pos];
        if t.typ == TokFlowSeqEnd {
          pos := pos + 1;
          Enqueue(Simple(SequenceEnd, t.start, t.end));
          return true;
        }
        if t.typ == TokFlowEntry { return false; }
        ghost var mid, at := events, pos;
        if t.typ == TokMapKey {
          ok := ParseExplicitPair();
        } else {
          ok := ParseNodeEntry();
        }
        if !ok { return; }
        ghost var entry := SeqEntry(toks, at);
        assert events[|before|..] == mid[|before|..] + entry.evs;
        if pos == |toks| { return false; }
        if toks[pos].typ == TokFlowEntry {
          PrefixTwice(mid[|before|..], entry.evs, FlowSeq(toks, pos + 1));
          pos := pos + 1;
        } else if toks[pos].typ == TokFlowSeqEnd {
          PrefixTwice(mid[|before|..], entry.evs, FlowSeq(toks, pos));
        } else {
          return false;
        }
      }
    }

    method ParseMapEntry() returns (ok: bool)
      requires Ready() && pos < |toks|
      modifies this
      ensures Did(ok, old(events), MapEntry(toks, old(pos)))
      decreases |toks| - pos, 4
    {
      if toks[pos].typ == TokMapKey {
        pos := pos + 1;
        ok := ParseNodeUnless(KEY_ABSENT_IN_MAP);
      } else {
        ok := ParseFlowNode();
      }
      if !ok { return; }
      ok := ParseValue(VALUE_ABSENT_IN_MAP);
    }

    method ParseFlowMapping() returns (ok: bool)
      requires Ready()
      modifies this
      ensures Did(ok, old(events), FlowMap(toks, old(pos)))
      decreases |toks| - pos, 5
    {
      hide MapEntry, FlowMap, MapTail;
      ghost var start, before := pos, events;
      NothingYet(before, FlowMap(toks, pos));
      while true
        invariant Ready() && start <= pos && before <= events
        invariant FlowMap(toks, start) == Prefix(events[|before|..], FlowMap(toks, pos))
        decreases |toks| - pos, if pos < |toks| && toks[pos].typ == TokFlowMapEnd then 0 else 1
      {
        MapEdges(toks, pos);
        if pos == |toks| { return false; }
        var t := toks[pos];
        if t.typ == TokFlowMapEnd {
          pos := pos + 1;
          Enqueue(Simple(MappingEnd, t.start, t.end));
          return true;
        }
        if t.typ == TokFlowEntry { return false; }
        ghost var mid, at := events, pos;
        ok := ParseMapEntry();
        if !ok { return; }
        ghost var entry := MapEntry(toks, at);
        assert events[|before|..] == mid[|before|..] + entry.evs;
        if pos == |toks| { return false; }
        if toks[pos].typ == TokFlowEntry {
          PrefixTwice(mid[|before|..], entry.evs, FlowMap(toks, pos + 1));
          pos := pos + 1;
        } else if toks[pos].typ == TokFlowMapEnd {
          PrefixTwice(mid[|before|..], entry.evs, FlowMap(toks, pos));
        } else {
          return false;
        }
      }
    }
  }

  /** What the recursive grammar makes of a collection, as its loop takes it. */
  lemma SeqEdges(toks: seq<Token>, pos: nat)
    requires pos <= |toks|
    ensures FlowSeq(toks, pos) ==
      if pos == |toks| then Err
      else if toks[pos].typ == TokFlowSeqEnd then Ok([Simple(SequenceEnd, toks[pos].start, toks[pos].end)], pos + 1)
      else if toks[pos].typ == TokFlowEntry then Err
      else
        var entry := SeqEntry(toks, pos);
        if entry.Err? || entry.pos == |toks| then Err
        else if toks[entry.pos].typ == TokFlowEntry then Prefix(entry.evs, FlowSeq(toks, entry.pos + 1))
        else if toks[entry.pos].typ == TokFlowSeqEnd then Prefix(entry.evs, FlowSeq(toks, entry.pos))
        else Err
  {
    hide SeqEntry;
  }

  /** What the recursive grammar makes of a collection, as its loop takes it. */
  lemma MapEdges(toks: seq<Token>, pos: nat)
    requires pos <= |toks|
    ensures FlowMap(toks, pos) ==
      if pos == |toks| then Err
      else if toks[pos].typ == TokFlowMapEnd then Ok([Simple(MappingEnd, toks[pos].start, toks[pos].end)], pos + 1)
      else if toks[pos].typ == TokFlowEntry then Err
      else
        var entry := MapEntry(toks, pos);
        if entry.Err? || entry.pos == |toks| then Err
        else if toks[entry.pos].typ == TokFlowEntry then Prefix(entry.evs, FlowMap(toks, entry.pos + 1))
        else if toks[entry.pos].typ == TokFlowMapEnd then Prefix(entry.evs, FlowMap(toks, entry.pos))
        else Err
  {
    hide MapEntry;
  }

  lemma NothingYet(before: seq<Event>, r: Parse)
    ensures before[|before|..] == [] && Prefix([], r) == r
  {
    if r.Ok? { assert [] + r.evs == r.evs; }
  }

  lemma PrefixTwice(a: seq<Event>, b: seq<Event>, r: Parse)
    ensures Prefix(a, Prefix(b, r)) == Prefix(a + b, r)
  {
    if r.Ok? { assert a + (b + r.evs) == a + b + r.evs; }
  }
}
