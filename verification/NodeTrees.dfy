/**
 * The flat event array read as trees: node_end finds, by counting brackets of
 * one kind, exactly where the node at an index ends.
 */
module NodeTrees {
  import opened Events

  /** A node between two brackets, or any other single event. */
  datatype Tree = Leaf(e: Event) | Coll(open: Event, kids: seq<Tree>, close: Event)

  predicate Shaped(t: Tree)
    decreases t, 0
  {
    match t
    case Leaf(e) => !IsOpening(e.typ) && !IsClosing(e.typ)
    case Coll(open, kids, close) =>
      AllShaped(kids) &&
      ((open.typ == MappingStart && close.typ == MappingEnd) || (open.typ == SequenceStart && close.typ == SequenceEnd))
  }

  predicate AllShaped(ts: seq<Tree>)
    decreases ts, 1
  {
    ts == [] || (Shaped(ts[0]) && AllShaped(ts[1..]))
  }

  function Flat(t: Tree): (evs: seq<Event>)
    ensures evs != []
    decreases t, 0
  {
    match t
    case Leaf(e) => [e]
    case Coll(open, kids, close) => [open] + FlatAll(kids) + [close]
  }

  function FlatAll(ts: seq<Tree>): seq<Event>
    decreases ts, 1
  {
    if ts == [] then [] else Flat(ts[0]) + FlatAll(ts[1..])
  }

  function First(t: Tree): Event { if t.Leaf? then t.e else t.open }

  lemma FlatFirst(t: Tree)
    ensures Flat(t)[0] == First(t)
  {}

  lemma {:induction false} FlatConcat(a: seq<Tree>, b: seq<Tree>)
    ensures FlatAll(a + b) == FlatAll(a) + FlatAll(b)
    decreases |a|
  {
    hide Flat;
    if a == [] {
      assert a + b == b;
    } else {
      FlatConcat(a[1..], b);
      assert (a + b)[1..] == a[1..] + b;
    }
  }

  lemma {:induction false} ShapedConcat(a: seq<Tree>, b: seq<Tree>)
    ensures AllShaped(a + b) <==> AllShaped(a) && AllShaped(b)
    decreases |a|
  {
    if a == [] {
      assert a + b == b;
    } else {
      ShapedConcat(a[1..], b);
      assert (a + b)[1..] == a[1..] + b;
    }
  }

  // ----- node_end -----

  /** From `j` on, where `depth` more brackets `close` than `open` have been seen;
      `miss` if they never are. */
  function EndFrom(evs: seq<Event>, j: nat, open: EventType, close: EventType, depth: nat, miss: nat): nat
    requires j <= |evs| && depth > 0
    decreases |evs| - j
  {
    if j == |evs| then miss
    else if evs[j].typ == open then EndFrom(evs, j + 1, open, close, depth + 1, miss)
    else if evs[j].typ == close then if depth == 1 then j + 1 else EndFrom(evs, j + 1, open, close, depth - 1, miss)
    else EndFrom(evs, j + 1, open, close, depth, miss)
  }

  /** The exclusive end of the node at `idx`. */
  function NodeEnd(evs: seq<Event>, idx: nat): nat
    requires idx < |evs|
  {
    match evs[idx].typ
    case MappingStart => EndFrom(evs, idx + 1, MappingStart, MappingEnd, 1, idx + 1)
    case SequenceStart => EndFrom(evs, idx + 1, SequenceStart, SequenceEnd, 1, idx + 1)
    case _ => idx + 1
  }

  /** node_end, as its loop computes it. */
  method FindNodeEnd(evs: seq<Event>, idx: nat) returns (end: nat)
    requires idx < |evs|
    ensures end == NodeEnd(evs, idx)
  {
    var t := evs[idx].typ;
    if t == MappingStart || t == SequenceStart {
      var endT := if t == MappingStart then MappingEnd else SequenceEnd;
      var depth := 1;
      for j := idx + 1 to |evs|
        invariant depth > 0
        invariant NodeEnd(evs, idx) == EndFrom(evs, j, t, endT, depth, idx + 1)
      {
        if evs[j].typ == t {
          depth := depth + 1;
        } else if evs[j].typ == endT {
          depth := depth - 1;
          if depth == 0 { return j + 1; }
        }
      }
    }
    return idx + 1;
  }

  /** Whole nodes are skipped: they hold as many closing brackets as opening ones. */
  lemma {:induction false} EndSkipsNode(pre: seq<Event>, t: Tree, post: seq<Event>, open: EventType, close: EventType, depth: nat, miss: nat)
    requires Shaped(t) && depth > 0
    requires (open == MappingStart && close == MappingEnd) || (open == SequenceStart && close == SequenceEnd)
    ensures EndFrom(pre + Flat(t) + post, |pre|, open, close, depth, miss) ==
            EndFrom(pre + Flat(t) + post, |pre| + |Flat(t)|, open, close, depth, miss)
    decreases t, 0
  {
    var evs := pre + Flat(t) + post;
    assert evs[|pre|] == Flat(t)[0];
    match t
    case Leaf(e) =>
    case Coll(o, kids, c) =>
      var d := if o.typ == open then depth + 1 else depth;
      EndSkipsNodes(pre + [o], kids, [c] + post, open, close, d, miss);
      assert evs == pre + [o] + FlatAll(kids) + ([c] + post);
      var k := |pre| + 1 + |FlatAll(kids)|;
      assert evs[k] == c;
  }

  lemma {:induction false} EndSkipsNodes(pre: seq<Event>, ts: seq<Tree>, post: seq<Event>, open: EventType, close: EventType, depth: nat, miss: nat)
    requires AllShaped(ts) && depth > 0
    requires (open == MappingStart && close == MappingEnd) || (open == SequenceStart && close == SequenceEnd)
    ensures EndFrom(pre + FlatAll(ts) + post, |pre|, open, close, depth, miss) ==
            EndFrom(pre + FlatAll(ts) + post, |pre| + |FlatAll(ts)|, open, close, depth, miss)
    decreases ts, 1
  {
    hide Flat, EndFrom;
    if ts != [] {
      var first, rest := Flat(ts[0]), FlatAll(ts[1..]);
      Grouped(pre, first, rest, post);
      EndSkipsNode(pre, ts[0], rest + post, open, close, depth, miss);
      EndSkipsNodes(pre + first, ts[1..], post, open, close, depth, miss);
    }
  }

  lemma Grouped(pre: seq<Event>, first: seq<Event>, rest: seq<Event>, post: seq<Event>)
    ensures pre + (first + rest) + post == pre + first + (rest + post) == pre + first + rest + post
  {}

  /** node_end ends a node exactly where its tree does. */
  lemma NodeEndExact(pre: seq<Event>, t: Tree, post: seq<Event>)
    requires Shaped(t)
    ensures NodeEnd(pre + Flat(t) + post, |pre|) == |pre| + |Flat(t)|
  {
    var evs := pre + Flat(t) + post;
    assert evs[|pre|] == Flat(t)[0];
    match t
    case Leaf(e) =>
    case Coll(o, kids, c) =>
      var close := if o.typ == MappingStart then MappingEnd else SequenceEnd;
      EndSkipsNodes(pre + [o], kids, [c] + post, o.typ, close, 1, |pre| + 1);
      assert evs == pre + [o] + FlatAll(kids) + ([c] + post);
      assert evs[|pre| + 1 + |FlatAll(kids)|] == c;
  }
}
