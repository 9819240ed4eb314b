/**
 * Why a fallback's check passes: the events the incremental machine delivers
 * before it asks for the eager parser are the eager parser's own, and a
 * checkpoint stands between two documents.
 */
module FallbackAgreement {
  import opened Events
  import opened FlowGrammar
  import opened Machine
  import opened MachineInvariant
  import opened EventGrammar
  import opened MachineGrammar
  import opened MachineRun
  import FlowRefinement
  import BlockGrammar
  import BlockRefinement
  import opened Fallback

  /** At the state where checkpoints are taken, the events so far are the start
      of the stream and whole documents: with its end they are a stream. */
  lemma CheckpointBetweenDocuments(inp: Input, n: nat, end: Event)
    requires Steps(inp, n).Next? && Steps(inp, n).c.state == Stream(StDocDirectives) && end.typ == StreamEnd
    ensures exists docs :: IsStream(Steps(inp, n).out + [end], docs)
  {
    ReachableInv(inp, n);
    var s := Steps(inp, n);
    hide Steps, IsStream, Inv;
    assert Accept(Before, s.out) == Some(Between);
    assert [end][1..] == [] && Accept(Between, [end]) == Some(Closed);
    AcceptConcat(Before, s.out, [end]);
    AcceptsStreams(s.out + [end]);
  }

  /** The machine asks for the eager parser inside a flow node, from the pending
      node `c`. If the eager events of the stream since the checkpoint are those
      delivered before the node, then the recursive parser's for the node, then
      any others, the fallback's check passes and what is delivered in all is the
      eager stream: nothing repeated, nothing lost. */
  method FallBackInNode(d: Delivery, docs: seq<seq<Event>>, ghost inp: Input, ghost c: Config, ghost pre: seq<Event>, ghost post: seq<Event>)
    returns (ok: bool, out: seq<Event>)
    requires d.Valid() && docs != []
    requires FlowRefinement.SoundKeys(inp) && Inv(inp, c) && c.state == StFlowNode && c.props == NO_PROPS
    requires FlowNode(inp.toks, c.pos).Ok? && Run(inp, c).ToEager? && |Run(inp, c).evs| <= |FlowNode(inp.toks, c.pos).evs|
    requires d.log[d.ckptCount..] == pre + Run(inp, c).evs
    requires Concat(docs) == pre + FlowNode(inp.toks, c.pos).evs + post
    ensures ok && d.log + out == d.log[..d.ckptCount] + Concat(docs)
  {
    hide Run, FlowNode, Concat, Inv;
    FlowRefinement.EventsAgree(inp, c);
    ghost var got, all := Run(inp, c).evs, FlowNode(inp.toks, c.pos).evs;
    assert all == got + all[|got|..];
    assert pre + all + post == pre + got + (all[|got|..] + post);
    ok, out := FallBackAndReplay(d, docs);
  }

  /** The machine asks for the eager parser anywhere in the stream. If the documents
      parsed again are what the recursive grammar makes of the stream since the
      checkpoint, the fallback's check passes and what is delivered in all is exactly
      the recursive grammar's events. */
  method FallBackInStream(d: Delivery, docs: seq<seq<Event>>, ghost inp: Input) returns (ok: bool, out: seq<Event>)
    requires d.Valid() && docs != []
    requires FlowRefinement.SoundKeys(inp) && BlockGrammar.WholeStream(BlockRefinement.Src(inp)).Read? && Inv(inp, Initial())
    requires Run(inp, Initial()).ToEager? && d.log == Run(inp, Initial()).evs
    requires d.log[..d.ckptCount] + Concat(docs) == BlockGrammar.WholeStream(BlockRefinement.Src(inp)).evs
    ensures ok && d.log + out == BlockGrammar.WholeStream(BlockRefinement.Src(inp)).evs
  {
    hide Run, Concat, Inv, BlockGrammar.WholeStream;
    BlockRefinement.RunParses(inp);
    ghost var all, n := BlockGrammar.WholeStream(BlockRefinement.Src(inp)).evs, d.ckptCount;
    assert d.log == d.log[..n] + d.log[n..];
    assert all[n..] == Concat(docs) && all[n..][..|d.log| - n] == d.log[n..];
    ok, out := FallBackAndReplay(d, docs);
  }

  // ----- what the check notices -----

  /** 31 times this is 1 modulo 2^64. */
  const INVERSE := 0xef7bdef7bdef7bdf

  lemma Undo31(x: nat, y: nat)
    requires x < WORD && y < WORD && Wrap(x * 31) == Wrap(y * 31)
    ensures x == y
  {
    var q := x * 31 / WORD - y * 31 / WORD;
    assert 31 * INVERSE == 1 + 29 * WORD;
    assert (x - y) * 31 == q * WORD;
    assert (x - y) * 31 * INVERSE == (x - y) + (x - y) * 29 * WORD;
    assert q * WORD * INVERSE == (q * INVERSE) * WORD;
    assert x - y == (q * INVERSE - (x - y) * 29) * WORD;
  }

  /** The same events after two different signatures leave them different. */
  lemma {:induction false} StaysDifferent(s: nat, t: nat, ts: seq<nat>)
    requires s < WORD && t < WORD && s != t
    ensures Signature(s, ts) < WORD && Signature(t, ts) < WORD && Signature(s, ts) != Signature(t, ts)
    decreases |ts|
  {
    if ts != [] {
      var front, last := ts[..|ts| - 1], ts[|ts| - 1];
      StaysDifferent(s, t, front);
      var a, b := Signature(s, front), Signature(t, front);
      if Wrap(a * 31 + last) == Wrap(b * 31 + last) {
        SameWithout(a * 31, b * 31, last);
        Undo31(a, b);
      }
    }
  }

  lemma SameWithout(a: nat, b: nat, c: nat)
    requires Wrap(a + c) == Wrap(b + c)
    ensures Wrap(a) == Wrap(b)
  {
    WrapSub(a + c, c);
    WrapSub(b + c, c);
  }

  lemma {:induction false} SignatureConcat(s: nat, a: seq<nat>, b: seq<nat>)
    ensures Signature(s, a + b) == Signature(Signature(s, a), b)
    decreases |b|
  {
    if b == [] {
      assert a + b == a;
    } else {
      assert (a + b)[..|a + b| - 1] == a + b[..|b| - 1];
      SignatureConcat(s, a, b[..|b| - 1]);
    }
  }

  /** One event of another type, anywhere among those skipped, is always noticed. */
  lemma NoticesOne(before: seq<Event>, e: Event, f: Event, after: seq<Event>)
    requires e.typ != f.typ
    ensures Signature(0, Types(before + [e] + after)) != Signature(0, Types(before + [f] + after))
  {
    hide Signature;
    var a, c := Types(before), Types(after);
    assert Types(before + [e] + after) == a + ([Code(e.typ)] + c) && Types(before + [f] + after) == a + ([Code(f.typ)] + c);
    SignatureConcat(0, a, [Code(e.typ)] + c);
    SignatureConcat(0, a, [Code(f.typ)] + c);
    SignatureConcat(Signature(0, a), [Code(e.typ)], c);
    SignatureConcat(Signature(0, a), [Code(f.typ)], c);
    OneMore(Signature(0, a), Code(e.typ), Code(f.typ));
    StaysDifferent(Signature(Signature(0, a), [Code(e.typ)]), Signature(Signature(0, a), [Code(f.typ)]), c);
  }

  lemma OneMore(s: nat, x: nat, y: nat)
    requires x != y && x < 16 && y < 16
    ensures Signature(s, [x]) < WORD && Signature(s, [y]) < WORD && Signature(s, [x]) != Signature(s, [y])
  {
    assert [x][..0] == [] && [y][..0] == [];
    assert Signature(s, [x]) == Wrap(s * 31 + x) && Signature(s, [y]) == Wrap(s * 31 + y);
    if Wrap(s * 31 + x) == Wrap(s * 31 + y) { SameWithout(x, y, s * 31); }
  }
}
