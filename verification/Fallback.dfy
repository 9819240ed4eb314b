/**
 * The fallback: when the incremental parser gives up, the eager one parses
 * again from a checkpoint, and the events delivered since are skipped. A
 * running signature of the event types, modulo 2^64, checks that they agree.
 */
module Fallback {
  import opened Events

  const WORD: int := 0x1_0000_0000_0000_0000

  function Wrap(x: int): (w: nat)
    ensures w < WORD
  {
    x % WORD
  }

  /** The C enum's value. */
  function Code(t: EventType): nat {
    match t
    case StreamStart => 1
    case StreamEnd => 2
    case DocStart => 3
    case DocEnd => 4
    case MappingStart => 5
    case MappingEnd => 6
    case SequenceStart => 7
    case SequenceEnd => 8
    case ScalarEvent => 9
    case AliasEvent => 10
  }

  function Types(evs: seq<Event>): (r: seq<nat>)
    ensures |r| == |evs|
  {
    seq(|evs|, i requires 0 <= i < |evs| => Code(evs[i].typ))
  }

  /** The signature after `ts`, from `s`. */
  function Signature(s: nat, ts: seq<nat>): nat
    decreases |ts|
  {
    if ts == [] then s else Wrap(Signature(s, ts[..|ts| - 1]) * 31 + ts[|ts| - 1])
  }

  function Power(b: nat, n: nat): nat {
    if n == 0 then 1 else b * Power(b, n - 1)
  }

  // ----- arithmetic modulo 2^64 -----

  lemma WrapPlus(x: int, k: int)
    ensures Wrap(x + k * WORD) == Wrap(x)
  {}

  lemma WrapMul(a: int, b: int)
    ensures Wrap(Wrap(a) * b) == Wrap(a * b)
  {
    var q := a / WORD;
    assert a == q * WORD + Wrap(a);
    assert a * b == (q * b) * WORD + Wrap(a) * b;
    WrapPlus(Wrap(a) * b, q * b);
  }

  lemma WrapAdd(a: int, b: int)
    ensures Wrap(Wrap(a) + b) == Wrap(a + b)
  {
    WrapPlus(Wrap(a) + b, a / WORD);
  }

  lemma WrapSub(a: int, b: int)
    ensures Wrap(a - Wrap(b)) == Wrap(a - b) == Wrap(Wrap(a) - b)
  {
    WrapPlus(a - Wrap(b), -(b / WORD));
    WrapPlus(Wrap(a) - b, a / WORD);
  }

  lemma {:induction false} PowerWrap(b: nat, n: nat)
    ensures Wrap(Power(Wrap(b), n)) == Wrap(Power(b, n))
  {
    if n > 0 {
      PowerWrap(b, n - 1);
      var p, q := Power(Wrap(b), n - 1), Power(b, n - 1);
      WrapMul(b, p);
      WrapMul(p, b);
      WrapMul(q, b);
      assert Wrap(b) * p == Power(Wrap(b), n);
      assert b * p == p * b && q * b == b * q;
    }
  }

  lemma {:induction false} PowerSquare(b: nat, n: nat)
    ensures Power(b * b, n) == Power(b, 2 * n)
  {
    if n > 0 {
      PowerSquare(b, n - 1);
      var p := Power(b * b, n - 1);
      assert Power(b, 2 * n) == b * (b * Power(b, 2 * n - 2));
      assert b * b * p == b * (b * p);
    }
  }

  /** pow31, by repeated squaring. */
  method Pow31(n: nat) returns (r: nat)
    ensures r == Wrap(Power(31, n))
  {
    var b, m := 31, n;
    r := 1;
    while m > 0
      invariant r < WORD && Wrap(r * Power(b, m)) == Wrap(Power(31, n))
    {
      SquareStep(r, b, m);
      if m % 2 == 1 { r := Wrap(r * b); }
      b, m := Wrap(b * b), m / 2;
    }
    assert r * Power(b, 0) == r;
  }

  lemma SquareStep(r: nat, b: nat, m: nat)
    requires m > 0
    ensures var s := if m % 2 == 1 then Wrap(r * b) else r;
            Wrap(s * Power(Wrap(b * b), m / 2)) == Wrap(r * Power(b, m))
  {
    var h := m / 2;
    var s := if m % 2 == 1 then Wrap(r * b) else r;
    PowerWrap(b * b, h);
    PowerSquare(b, h);
    assert Power(b, m) == if m % 2 == 1 then b * Power(b, 2 * h) else Power(b, 2 * h);
    hide Wrap, Power;
    MulCong(s, Power(Wrap(b * b), h), Power(b, 2 * h));
    if m % 2 == 1 { OddStep(r, b, Power(b, 2 * h)); }
  }

  lemma OddStep(r: nat, b: nat, q: nat)
    ensures Wrap(Wrap(r * b) * q) == Wrap(r * (b * q))
  {
    WrapMul(r * b, q);
    assert r * b * q == r * (b * q);
  }

  lemma MulCong(s: int, p: int, q: int)
    requires Wrap(p) == Wrap(q)
    ensures Wrap(s * p) == Wrap(s * q)
  {
    WrapMul(p, s);
    WrapMul(q, s);
    assert p * s == s * p && q * s == s * q;
  }

  // ----- signatures of parts -----

  /** One more event, in a sum of the two shares. */
  lemma SplitStep(x: int, u: int, t: int)
    ensures Wrap(Wrap(x + u) * 31 + t) == Wrap(31 * x + Wrap(u * 31 + t))
  {
    hide Wrap;
    WrapMul(x + u, 31);
    WrapAdd((x + u) * 31, t);
    WrapAdd(Wrap(x + u) * 31, t);
    WrapAdd(u * 31 + t, 31 * x);
  }

  lemma Times31(s: nat, p: nat)
    ensures s * (31 * p) == 31 * (s * p)
  {}

  lemma {:induction false} SignatureSplit(s: nat, ts: seq<nat>)
    requires s < WORD
    ensures Signature(s, ts) == Wrap(s * Power(31, |ts|) + Signature(0, ts))
    decreases |ts|
  {
    hide *;
    if ts == [] {
      SplitNone(s);
    } else {
      var front, t := ts[..|ts| - 1], ts[|ts| - 1];
      SignatureSplit(s, front);
      SignatureLast(s, ts);
      SignatureLast(0, ts);
      Times31(s, Power(31, |front|));
      SplitStep(s * Power(31, |front|), Signature(0, front), t);
    }
  }

  lemma SplitNone(s: nat)
    requires s < WORD
    ensures Signature(s, []) == Wrap(s * Power(31, 0) + Signature(0, []))
  {
    assert s * Power(31, 0) == s;
  }

  lemma SignatureLast(s: nat, ts: seq<nat>)
    requires ts != []
    ensures Signature(s, ts) == Wrap(Signature(s, ts[..|ts| - 1]) * 31 + ts[|ts| - 1])
    ensures Power(31, |ts|) == 31 * Power(31, |ts| - 1)
  {}

  lemma {:induction false} SignatureConcat(s: nat, a: seq<nat>, b: seq<nat>)
    ensures Signature(s, a + b) == Signature(Signature(s, a), b)
    decreases |b|
  {
    if b == [] {
      assert a + b == a;
    } else {
      SignatureConcat(s, a, b[..|b| - 1]);
      assert (a + b)[..|a + b| - 1] == a + b[..|b| - 1];
    }
  }

  lemma {:induction false} SignatureSmall(ts: seq<nat>)
    ensures Signature(0, ts) < WORD
  {}

  /** The checkpoint's share taken out of the total leaves the signature of the
      events since. */
  lemma SignatureSince(before: seq<nat>, since: seq<nat>)
    ensures Wrap(Signature(0, before + since) - Signature(0, before) * Power(31, |since|)) == Signature(0, since)
  {
    var s := Signature(0, before);
    SignatureConcat(0, before, since);
    SignatureSmall(before);
    SignatureSmall(since);
    SignatureSplit(s, since);
    var x, u := s * Power(31, |since|), Signature(0, since);
    WrapSub(x + u, x);
  }

  // ----- the code -----

  function Concat(docs: seq<seq<Event>>): seq<Event> {
    if docs == [] then [] else docs[0] + Concat(docs[1..])
  }

  /** After fallback: the events still to skip, and their signature. */
  class Skipper {
    var skip: nat
    var got: nat
    const sig: nat

    constructor (n: nat, expected: nat)
      ensures skip == n && got == 0 && sig == expected
    {
      skip, got, sig := n, 0, expected;
    }

    /** skip_delivered: how far into this document's events delivery goes on, or
        that they are not the events delivered before. */
    method SkipDelivered(doc: seq<Event>, ended: bool) returns (ok: bool, cursor: nat)
      modifies this
      ensures cursor == if old(skip) < |doc| then old(skip) else |doc|
      ensures skip == old(skip) - cursor && got == Signature(old(got), Types(doc[..cursor]))
      ensures ok <==> !((skip == 0 && got != sig) || (skip > 0 && ended))
    {
      cursor := if skip < |doc| then skip else |doc|;
      for i := 0 to cursor
        invariant skip == old(skip) && got == Signature(old(got), Types(doc[..i]))
      {
        got := Wrap(got * 31 + Code(doc[i].typ));
        assert Types(doc[..i + 1]) == Types(doc[..i]) + [Code(doc[i].typ)];
      }
      skip := skip - cursor;
      ok := !((skip == 0 && got != sig) || (skip > 0 && ended));
    }

    /** One more document, `before` events into the stream `all`. */
    method NextDocument(doc: seq<Event>, last: bool, out: seq<Event>, ghost all: seq<Event>, ghost n: nat, ghost before: nat)
      returns (ok: bool, out': seq<Event>)
      requires before + |doc| <= |all| && all[before..before + |doc|] == doc && (last ==> before + |doc| == |all|)
      requires Progress(all, n, before, out)
      modifies this
      ensures ok ==> Progress(all, n, before + |doc|, out') && (last ==> skip == 0)
      ensures !ok ==> n > 0 && !(n <= |all| && Signature(0, Types(all[..n])) == sig)
    {
      var cursor := 0;
      ok := true;
      if skip > 0 {
        ok, cursor := SkipDelivered(doc, last);
        SkippedMore(all, before, doc, cursor);
      }
      out' := out + doc[cursor..];
      if n <= before {
        assert all[n..before] + doc == all[n..before + |doc|] && doc[0..] == doc;
      } else if skip == 0 {
        RestOf(all, before, doc, n);
        assert [] + doc[cursor..] == doc[cursor..];
      }
    }

    /** The eager parser's documents, the last one ending the stream: what is
        delivered of them, or that the check failed. */
    method Replay(docs: seq<seq<Event>>) returns (ok: bool, out: seq<Event>)
      requires docs != [] && got == 0
      modifies this
      ensures var all := Concat(docs);
              var n := old(skip);
              && (ok <==> n == 0 || (n <= |all| && Signature(0, Types(all[..n])) == sig))
              && (ok ==> out == all[n..])
    {
      ghost var all, n := Concat(docs), skip;
      ghost var before: nat := 0;
      out := [];
      ok := true;
      Begun(all, docs);
      hide Concat, Types, Signature;
      for d := 0 to |docs|
        invariant before <= |all| && all[before..] == Concat(docs[d..])
        invariant Progress(all, n, before, out) && (d == |docs| ==> skip == 0 && before == |all|)
      {
        assert docs[d..][1..] == docs[d + 1..];
        Ahead(all, before, docs[d..]);
        ok, out := NextDocument(docs[d], d + 1 == |docs|, out, all, n, before);
        if !ok { return; }
        before := before + |docs[d]|;
      }
    }

    lemma Begun(all: seq<Event>, docs: seq<seq<Event>>)
      requires all == Concat(docs) && got == 0
      ensures all[0..] == Concat(docs[0..]) && Progress(all, skip, 0, [])
    {
      assert docs[0..] == docs;
    }

    /** Where the replay stands, `before` events into the stream `all`. */
    ghost predicate Progress(all: seq<Event>, n: nat, before: nat, out: seq<Event>)
      reads this
      requires before <= |all|
    {
      if skip > 0 then out == [] && before + skip == n && got == Signature(0, Types(all[..before]))
      else n <= before && out == all[n..before] && (n == 0 || Signature(0, Types(all[..n])) == sig)
    }
  }

  lemma Ahead(all: seq<Event>, before: nat, docs: seq<seq<Event>>)
    requires docs != [] && before <= |all| && all[before..] == Concat(docs)
    ensures before + |docs[0]| <= |all| && all[before..before + |docs[0]|] == docs[0] && all[before + |docs[0]|..] == Concat(docs[1..])
    ensures |docs| == 1 ==> before + |docs[0]| == |all|
  {
    var k := |docs[0]|;
    assert all[before..before + k] == all[before..][..k];
    assert all[before + k..] == all[before..][k..];
  }

  lemma RestOf(all: seq<Event>, before: nat, doc: seq<Event>, n: nat)
    requires before + |doc| <= |all| && all[before..before + |doc|] == doc && before <= n <= before + |doc|
    ensures doc[n - before..] == all[n..before + |doc|]
  {
    assert all[before..before + |doc|][n - before..] == all[n..before + |doc|];
  }

  lemma SkippedMore(all: seq<Event>, before: nat, doc: seq<Event>, cursor: nat)
    requires before + |doc| <= |all| && all[before..before + |doc|] == doc && cursor <= |doc|
    ensures Signature(Signature(0, Types(all[..before])), Types(doc[..cursor])) == Signature(0, Types(all[..before + cursor]))
  {
    assert Types(all[..before + cursor]) == Types(all[..before]) + Types(doc[..cursor]);
    SignatureConcat(0, Types(all[..before]), Types(doc[..cursor]));
  }

  /** The total without the checkpoint's share. */
  lemma ShareOut(log: seq<Event>, k: nat, p: nat)
    requires k <= |log| && Wrap(p) == Wrap(Power(31, |log| - k))
    ensures var ckptSig := Signature(0, Types(log[..k]));
            Wrap(Signature(0, Types(log)) - Wrap(ckptSig * p)) == Signature(0, Types(log[k..]))
  {
    var a, b := Types(log[..k]), Types(log[k..]);
    assert Types(log) == a + b;
    hide Signature, Power, Types, Wrap;
    SignatureSince(a, b);
    MulCong(Signature(0, a), p, Power(31, |b|));
    WrapSub(Signature(0, Types(log)), Signature(0, a) * Power(31, |b|));
  }

  const SPACING: nat := 65536

  /** What the incremental parser holds when a checkpoint is considered. */
  datatype Standing = Standing(queued: nat, scanError: bool, docOpen: bool, frames: nat, props: bool, haveToken: bool)

  /** Nothing queued and nothing open. */
  predicate Clean(at: Standing) {
    at == Standing(0, false, false, 0, false, true)
  }

  /** What the incremental path keeps about delivery, and a checkpoint of it. */
  class Delivery {
    var count: nat
    var sig: nat
    var ckptCount: nat       // 0 without a checkpoint
    var ckptSig: nat
    var ckptAt: Option<nat>  // the input offset of the checkpoint
    ghost var log: seq<Event>

    ghost predicate Valid()
      reads this
    {
      count == |log| && sig == Signature(0, Types(log)) && ckptCount <= count && ckptSig == Signature(0, Types(log[..ckptCount]))
    }

    constructor ()
      ensures Valid() && log == [] && ckptCount == 0 && ckptAt == None
    {
      count, sig, ckptCount, ckptSig, ckptAt, log := 0, 0, 0, 0, None, [];
    }

    /** inc_delivered */
    method Delivered(e: Event)
      requires Valid()
      modifies this
      ensures Valid() && log == old(log) + [e] && ckptCount == old(ckptCount) && ckptAt == old(ckptAt)
    {
      assert Types(log + [e]) == Types(log) + [Code(e.typ)];
      assert (log + [e])[..ckptCount] == log[..ckptCount];
      count := count + 1;
      sig := Wrap(sig * 31 + Code(e.typ));
      log := log + [e];
    }

    /** inc_checkpoint, with a token held at `offset`: only in a clean state, and
        not close after the last one. */
    method Checkpoint(at: Standing, offset: nat)
      requires Valid()
      modifies this`ckptCount, this`ckptSig, this`ckptAt
      ensures Valid()
      ensures if Clean(at) && (old(ckptAt).Some? ==> offset - old(ckptAt).value >= SPACING)
              then ckptCount == |log| && ckptAt == Some(offset)
              else ckptCount == old(ckptCount) && ckptAt == old(ckptAt)
    {
      if at.queued > 0 || at.scanError || at.docOpen || at.frames > 0 || at.props || !at.haveToken { return; }
      if ckptAt.Some? && offset - ckptAt.value < SPACING { return; }
      ckptCount, ckptSig, ckptAt := count, sig, Some(offset);
      assert log[..count] == log;
    }

    /** The fallback: as many events to skip as were delivered since the
        checkpoint, with the signature of just those. */
    method FallBack() returns (s: Skipper)
      requires Valid()
      ensures fresh(s) && s.got == 0 && s.skip == |log| - ckptCount
      ensures s.sig == Signature(0, Types(log[ckptCount..]))
    {
      var skip := count - ckptCount;
      var p := Pow31(skip);
      var since := Wrap(sig - Wrap(ckptSig * p));
      ShareOut(log, ckptCount, p);
      s := new Skipper(skip, since);
    }
  }

  /** With equal events, nothing is repeated and nothing lost. */
  lemma Seamless(log: seq<Event>, ckpt: nat, all: seq<Event>)
    requires ckpt <= |log| && log[ckpt..] <= all
    ensures log + all[|log| - ckpt..] == log[..ckpt] + all
  {
    assert log == log[..ckpt] + log[ckpt..];
    assert all == log[ckpt..] + all[|log| - ckpt..];
  }

  /** The whole fallback, from the checkpoint's position in the stream: if the
      eager parser's event types agree with those delivered since, delivery goes
      on after exactly those, however documents split them. If the events agree,
      what is delivered in all is what came before the checkpoint and then every
      eager event, each once. */
  method FallBackAndReplay(d: Delivery, docs: seq<seq<Event>>) returns (ok: bool, out: seq<Event>)
    requires d.Valid() && docs != []
    ensures var all, since := Concat(docs), d.log[d.ckptCount..];
            && (|since| <= |all| && Types(all[..|since|]) == Types(since) ==> ok)
            && (ok ==> |since| <= |all| && out == all[|since|..])
            && (ok && |since| > 0 ==> Signature(0, Types(all[..|since|])) == Signature(0, Types(since)))
            && (since <= all ==> ok && d.log + out == d.log[..d.ckptCount] + all)
  {
    var s := d.FallBack();
    ok, out := s.Replay(docs);
    ghost var all, since := Concat(docs), d.log[d.ckptCount..];
    if since <= all {
      assert all[..|since|] == since;
      Seamless(d.log, d.ckptCount, all);
    }
  }
}
