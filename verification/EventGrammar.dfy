/**
 * The event grammar the parser promises (include/oyl/oyl.h):
 * STREAM_START (DOC_START node DOC_END)* STREAM_END, as trees and as an
 * acceptor that reads one event at a time; the two agree.
 */
module EventGrammar {
  import opened Events
  import opened NodeTrees

  // ----- trees -----

  predicate IsLeafEvent(e: Event) { e.typ == ScalarEvent || e.typ == AliasEvent }

  /** Brackets of matching kind; keys and values alternate in a mapping. */
  predicate WellFormed(t: Tree)
    decreases t, 0
  {
    match t
    case Leaf(e) => IsLeafEvent(e)
    case Coll(open, kids, close) =>
      AllWellFormed(kids) &&
      ((open.typ == SequenceStart && close.typ == SequenceEnd) ||
       (open.typ == MappingStart && close.typ == MappingEnd && |kids| % 2 == 0))
  }

  predicate AllWellFormed(ts: seq<Tree>)
    decreases ts, 1
  {
    ts == [] || (WellFormed(ts[0]) && AllWellFormed(ts[1..]))
  }

  datatype Document = Document(start: Event, root: Tree, end: Event)

  function DocumentEvents(docs: seq<Document>): seq<Event> {
    if docs == [] then []
    else [docs[0].start] + Flat(docs[0].root) + [docs[0].end] + DocumentEvents(docs[1..])
  }

  predicate DocumentsOk(docs: seq<Document>) {
    docs == [] ||
    (docs[0].start.typ == DocStart && WellFormed(docs[0].root) && docs[0].end.typ == DocEnd && DocumentsOk(docs[1..]))
  }

  /** `evs` is a whole stream: its two ends and these documents between them. */
  predicate IsStream(evs: seq<Event>, docs: seq<Document>) {
    DocumentsOk(docs) && |evs| >= 2 && evs[0].typ == StreamStart && evs[|evs| - 1].typ == StreamEnd &&
    evs[1..|evs| - 1] == DocumentEvents(docs)
  }

  // ----- acceptor -----

  /** What an open collection expects: a key (or its end), a value, or an entry. */
  datatype Open = KeyNext | ValueNext | InSequence

  datatype Stage = Before | Between | InDocument(stack: seq<Open>, rooted: bool) | Closed

  function FlipOne(o: Open): Open {
    match o
    case KeyNext => ValueNext
    case ValueNext => KeyNext
    case InSequence => InSequence
  }

  /** A node begins in, or is taken back from, the innermost open collection. */
  function Flip(stack: seq<Open>): seq<Open> {
    if stack == [] then [] else stack[..|stack| - 1] + [FlipOne(stack[|stack| - 1])]
  }

  function Accept1(g: Stage, e: Event): Option<Stage> {
    match g
    case Before => if e.typ == StreamStart then Some(Between) else None
    case Between =>
      if e.typ == DocStart then Some(InDocument([], false))
      else if e.typ == StreamEnd then Some(Closed)
      else None
    case InDocument(stack, rooted) =>
      if IsLeafEvent(e) || IsOpening(e.typ) then
        if stack == [] && rooted then None
        else if e.typ == MappingStart then Some(InDocument(Flip(stack) + [KeyNext], true))
        else if e.typ == SequenceStart then Some(InDocument(Flip(stack) + [InSequence], true))
        else Some(InDocument(Flip(stack), true))
      else if IsClosing(e.typ) then
        if stack != [] && stack[|stack| - 1] == (if e.typ == MappingEnd then KeyNext else InSequence)
        then Some(InDocument(stack[..|stack| - 1], true)) else None
      else if e.typ == DocEnd && stack == [] && rooted then Some(Between)
      else None
    case Closed => None
  }

  function Accept(g: Stage, evs: seq<Event>): Option<Stage>
    decreases |evs|
  {
    if evs == [] then Some(g)
    else match Accept1(g, evs[0])
      case None => None
      case Some(h) => Accept(h, evs[1..])
  }

  lemma {:induction false} AcceptConcat(g: Stage, a: seq<Event>, b: seq<Event>)
    ensures var h := Accept(g, a); Accept(g, a + b) == if h.None? then None else Accept(h.value, b)
    decreases |a|
  {
    if a == [] {
      assert a + b == b;
    } else {
      assert (a + b)[1..] == a[1..] + b;
      match Accept1(g, a[0])
      case None =>
      case Some(h) => AcceptConcat(h, a[1..], b);
    }
  }

  // ----- trees are accepted -----

  /** What an open collection expects once `n` more nodes are in it. */
  function After(o: Open, n: nat): Open
    decreases n
  {
    if n == 0 then o else After(FlipOne(o), n - 1)
  }

  lemma {:induction false} AfterParity(n: nat)
    ensures After(InSequence, n) == InSequence
    ensures After(KeyNext, n) == (if n % 2 == 0 then KeyNext else ValueNext)
    ensures After(ValueNext, n) == (if n % 2 == 0 then ValueNext else KeyNext)
  {
    if n > 0 { AfterParity(n - 1); }
  }

  lemma FlipTop(base: seq<Open>, top: Open)
    ensures Flip(base + [top]) == base + [FlipOne(top)]
    ensures (base + [top])[..|base|] == base
  {}

  lemma AcceptClose(base: seq<Open>, top: Open, close: Event)
    requires (top == KeyNext && close.typ == MappingEnd) || (top == InSequence && close.typ == SequenceEnd)
    ensures Accept1(InDocument(base + [top], true), close) == Some(InDocument(base, true))
    ensures Accept(InDocument(base + [top], true), [close]) == Some(InDocument(base, true))
  {
    FlipTop(base, top);
    assert [close][1..] == [];
  }

  lemma {:induction false} AcceptTree(g: Stage, t: Tree)
    requires WellFormed(t) && g.InDocument? && (g.stack == [] ==> !g.rooted)
    ensures Accept(g, Flat(t)) == Some(InDocument(Flip(g.stack), true))
    decreases t, 0
  {
    match t
    case Leaf(e) =>
      assert Flat(t)[1..] == [];
    case Coll(open, kids, close) =>
      var base := Flip(g.stack);
      var inner := if open.typ == MappingStart then KeyNext else InSequence;
      AcceptKids(base, inner, kids);
      AfterParity(|kids|);
      AcceptClose(base, After(inner, |kids|), close);
      AcceptConcat(InDocument(base + [inner], true), FlatAll(kids), [close]);
      assert Flat(t)[1..] == FlatAll(kids) + [close];
  }

  lemma {:induction false} AcceptKids(base: seq<Open>, top: Open, ts: seq<Tree>)
    requires AllWellFormed(ts)
    ensures Accept(InDocument(base + [top], true), FlatAll(ts)) == Some(InDocument(base + [After(top, |ts|)], true))
    decreases ts, 1
  {
    if ts != [] {
      var g := InDocument(base + [top], true);
      FlipTop(base, top);
      AcceptTree(g, ts[0]);
      AcceptKids(base, FlipOne(top), ts[1..]);
      AcceptConcat(g, Flat(ts[0]), FlatAll(ts[1..]));
    }
  }

  lemma AcceptCons(g: Stage, e: Event, evs: seq<Event>)
    ensures var h := Accept1(g, e); Accept(g, [e] + evs) == if h.None? then None else Accept(h.value, evs)
  {
    assert ([e] + evs)[1..] == evs;
  }

  lemma {:induction false} AcceptDocuments(docs: seq<Document>)
    requires DocumentsOk(docs)
    ensures Accept(Between, DocumentEvents(docs)) == Some(Between)
    decreases |docs|
  {
    if docs != [] {
      var d, more := docs[0], DocumentEvents(docs[1..]);
      var g := InDocument([], false);
      AcceptDocuments(docs[1..]);
      AcceptCons(InDocument([], true), d.end, more);
      AcceptTree(g, d.root);
      AcceptConcat(g, Flat(d.root), [d.end] + more);
      AcceptCons(Between, d.start, Flat(d.root) + ([d.end] + more));
      assert DocumentEvents(docs) == [d.start] + (Flat(d.root) + ([d.end] + more));
    }
  }

  // ----- what is accepted is trees -----

  /** The rest of an open collection: nodes, its closing event, and what follows. */
  datatype Split = Split(kids: seq<Tree>, close: Event, rest: seq<Event>)

  lemma ClosesTop(base: seq<Open>, top: Open, e: Event)
    requires IsClosing(e.typ) && Accept1(InDocument(base + [top], true), e).Some?
    ensures (top == KeyNext && e.typ == MappingEnd) || (top == InSequence && e.typ == SequenceEnd)
    ensures Accept1(InDocument(base + [top], true), e).value == InDocument(base, true)
  {
    FlipTop(base, top);
  }

  lemma {:induction false} SplitCollection(base: seq<Open>, top: Open, evs: seq<Event>, end: Stage) returns (s: Split)
    requires Accept(InDocument(base + [top], true), evs) == Some(end) && (!end.InDocument? || |end.stack| <= |base|)
    ensures AllWellFormed(s.kids) && evs == FlatAll(s.kids) + [s.close] + s.rest
    ensures var last := After(top, |s.kids|);
            (last == KeyNext && s.close.typ == MappingEnd) || (last == InSequence && s.close.typ == SequenceEnd)
    ensures Accept(InDocument(base, true), s.rest) == Some(end)
    decreases |evs|
  {
    FlipTop(base, top);
    if IsClosing(evs[0].typ) {
      ClosesTop(base, top, evs[0]);
      s := Split([], evs[0], evs[1..]);
      SplitNothing(evs);
    } else {
      var t, rest := SplitNode(InDocument(base + [top], true), evs, end);
      var tail := SplitCollection(base, FlipOne(top), rest, end);
      SplitPrepend(evs, t, tail);
      s := Split([t] + tail.kids, tail.close, tail.rest);
      assert s.kids[1..] == tail.kids;
    }
  }

  lemma SplitNothing(evs: seq<Event>)
    requires evs != []
    ensures evs == FlatAll([]) + [evs[0]] + evs[1..]
  {}

  lemma SplitPrepend(evs: seq<Event>, t: Tree, s: Split)
    requires evs == Flat(t) + (FlatAll(s.kids) + [s.close] + s.rest)
    ensures evs == FlatAll([t] + s.kids) + [s.close] + s.rest
  {
    assert ([t] + s.kids)[1..] == s.kids;
  }

  /** A node at the head of accepted events. */
  lemma {:induction false} SplitNode(g: Stage, evs: seq<Event>, end: Stage) returns (t: Tree, rest: seq<Event>)
    requires g.InDocument? && (g.stack == [] ==> !g.rooted) && evs != []
    requires Accept(g, evs) == Some(end) && (!end.InDocument? || |end.stack| < |g.stack|)
    requires !IsClosing(evs[0].typ)
    ensures WellFormed(t) && evs == Flat(t) + rest && |rest| < |evs|
    ensures Accept(InDocument(Flip(g.stack), true), rest) == Some(end)
    decreases |evs|, 0
  {
    var e := evs[0];
    assert evs == [e] + evs[1..];
    if IsLeafEvent(e) {
      t, rest := Leaf(e), evs[1..];
    } else {
      var inner := if e.typ == MappingStart then KeyNext else InSequence;
      var s := SplitCollection(Flip(g.stack), inner, evs[1..], end);
      AfterParity(|s.kids|);
      t, rest := Coll(e, s.kids, s.close), s.rest;
    }
  }

  lemma {:induction false} SplitDocuments(evs: seq<Event>) returns (docs: seq<Document>)
    requires Accept(Between, evs) == Some(Closed)
    ensures DocumentsOk(docs) && |evs| >= 1 && evs[|evs| - 1].typ == StreamEnd
    ensures evs[..|evs| - 1] == DocumentEvents(docs)
    decreases |evs|
  {
    var e := evs[0];
    if e.typ == StreamEnd {
      assert evs[1..] == [];
      docs := [];
    } else {
      var t, rest := SplitNode(InDocument([], false), evs[1..], Closed);
      var more := SplitDocuments(rest[1..]);
      docs := [Document(e, t, rest[0])] + more;
      assert docs[1..] == more;
      FrontOf(evs, Flat(t), rest);
    }
  }

  /** All but the last event, around a document. */
  lemma FrontOf(evs: seq<Event>, node: seq<Event>, rest: seq<Event>)
    requires evs != [] && evs[1..] == node + rest && |rest| >= 2
    ensures evs[..|evs| - 1] == [evs[0]] + node + [rest[0]] + rest[1..][..|rest| - 2]
    ensures evs[|evs| - 1] == rest[1..][|rest| - 2]
  {
    assert evs == [evs[0]] + node + [rest[0]] + rest[1..];
  }

  /** The acceptor closes on exactly the streams of the grammar. */
  lemma AcceptsStreams(evs: seq<Event>)
    ensures Accept(Before, evs) == Some(Closed) <==> exists docs :: IsStream(evs, docs)
  {
    if Accept(Before, evs) == Some(Closed) {
      var docs := SplitDocuments(evs[1..]);
      assert evs[1..|evs| - 1] == evs[1..][..|evs[1..]| - 1];
      assert IsStream(evs, docs);
    }
    if docs :| IsStream(evs, docs) {
      AcceptDocuments(docs);
      var last := [evs[|evs| - 1]];
      assert last[1..] == [];
      AcceptConcat(Between, DocumentEvents(docs), last);
      assert evs[1..] == DocumentEvents(docs) + last;
    }
  }

  // ----- every accepted prefix can be completed -----

  function Closing(stack: seq<Open>): seq<Event> {
    if stack == [] then []
    else
      var below := Closing(stack[..|stack| - 1]);
      match stack[|stack| - 1]
      case KeyNext => [Simple(MappingEnd, ORIGIN, ORIGIN)] + below
      case ValueNext => [EmptyScalar(ORIGIN), Simple(MappingEnd, ORIGIN, ORIGIN)] + below
      case InSequence => [Simple(SequenceEnd, ORIGIN, ORIGIN)] + below
  }

  function Completion(g: Stage): seq<Event> {
    match g
    case Before => [Simple(StreamStart, ORIGIN, ORIGIN), Simple(StreamEnd, ORIGIN, ORIGIN)]
    case Between => [Simple(StreamEnd, ORIGIN, ORIGIN)]
    case InDocument(stack, rooted) =>
      (if stack == [] && !rooted then [EmptyScalar(ORIGIN)] else Closing(stack)) +
      [Simple(DocEnd, ORIGIN, ORIGIN), Simple(StreamEnd, ORIGIN, ORIGIN)]
    case Closed => []
  }

  lemma {:induction false} ClosingCloses(stack: seq<Open>)
    ensures Accept(InDocument(stack, true), Closing(stack)) == Some(InDocument([], true))
    decreases |stack|
  {
    if stack != [] {
      var below, top := stack[..|stack| - 1], stack[|stack| - 1];
      assert stack == below + [top];
      ClosingCloses(below);
      var end := Simple(if top == InSequence then SequenceEnd else MappingEnd, ORIGIN, ORIGIN);
      AcceptClose(below, if top == InSequence then top else KeyNext, end);
      if top == ValueNext {
        FlipTop(below, top);
        assert Closing(stack)[1..] == [end] + Closing(below);
      }
      assert ([end] + Closing(below))[1..] == Closing(below);
    }
  }

  lemma CompletionCompletes(g: Stage)
    requires g.InDocument? && g.stack != [] ==> g.rooted
    ensures Accept(g, Completion(g)) == Some(Closed)
  {
    var se := [Simple(StreamEnd, ORIGIN, ORIGIN)];
    assert se[1..] == [];
    assert Accept(Between, se) == Some(Closed);
    match g
    case Before => assert Completion(g)[1..] == se;
    case Between =>
    case Closed =>
    case InDocument(stack, rooted) =>
      var tail := [Simple(DocEnd, ORIGIN, ORIGIN)] + se;
      assert tail[1..] == se;
      assert Accept(InDocument([], true), tail) == Some(Closed);
      if stack == [] && !rooted {
        assert Completion(g)[1..] == tail;
      } else {
        ClosingCloses(stack);
        AcceptConcat(g, Closing(stack), tail);
        assert Completion(g) == Closing(stack) + tail;
      }
  }

  lemma {:induction false} AcceptKeepsRooted(g: Stage, evs: seq<Event>)
    requires g.InDocument? && g.stack != [] ==> g.rooted
    ensures var r := Accept(g, evs); r.Some? && r.value.InDocument? && r.value.stack != [] ==> r.value.rooted
    decreases |evs|
  {
    if evs != [] && Accept1(g, evs[0]).Some? { AcceptKeepsRooted(Accept1(g, evs[0]).value, evs[1..]); }
  }

  /** The acceptor goes on exactly as long as what it has read is a prefix of a stream. */
  lemma AcceptsPrefixes(evs: seq<Event>)
    ensures Accept(Before, evs).Some? <==> exists rest, docs :: IsStream(evs + rest, docs)
  {
    if Accept(Before, evs).Some? {
      var g := Accept(Before, evs).value;
      AcceptKeepsRooted(Before, evs);
      CompletionCompletes(g);
      AcceptConcat(Before, evs, Completion(g));
      AcceptsStreams(evs + Completion(g));
      var docs :| IsStream(evs + Completion(g), docs);
    }
    if rest, docs :| IsStream(evs + rest, docs) {
      AcceptsStreams(evs + rest);
      AcceptConcat(Before, evs, rest);
    }
  }
}
