/**
 * Where each event comes from, said of the fields of tokens and events: which
 * token an event is, and with which properties; which events are empty nodes,
 * and where; and that no scalar, alias, bracket, anchor or tag is lost,
 * repeated or moved.
 */
module Origins {
  import opened Events

  predicate IsProp(t: Token) { t.typ == TokAnchor || t.typ == TokTag }

  /** Tokens that are an event each. */
  predicate IsContent(t: Token) {
    t.typ in {TokScalar, TokAlias, TokFlowSeqStart, TokFlowSeqEnd, TokFlowMapStart, TokFlowMapEnd}
  }

  /** An event is the token at `at`; an empty node before it; what is left out
      there; an empty node that has the token's extent; the start of a mapping
      from its first key; or another bracket of a stream, document, collection or
      pair, at a token. */
  datatype Origin = Content(at: nat) | Empty(at: nat) | Absent(at: nat) | Missing(at: nat) | KeyStart | Bracket(at: nat)

  /** Where the properties directly before `at` begin. */
  function RunStart(toks: seq<Token>, at: nat): (r: nat)
    requires at <= |toks|
    ensures r <= at && (forall k | r <= k < at :: IsProp(toks[k])) && (r > 0 ==> !IsProp(toks[r - 1]))
  {
    if at > 0 && IsProp(toks[at - 1]) then RunStart(toks, at - 1) else at
  }

  /** The node at `at` has the properties directly before it, and begins with them. */
  predicate Propped(toks: seq<Token>, at: nat, e: Event)
    requires at < |toks|
  {
    var r := RunStart(toks, at);
    && (forall k | r <= k < at && toks[k].typ == TokAnchor :: e.anchor == Some(toks[k].value))
    && (forall k | r <= k < at && toks[k].typ == TokTag :: toks[k].tag.Some? && e.tag == toks[k].tag)
    && (e.anchor.Some? ==> exists k: nat | r <= k < at :: toks[k].typ == TokAnchor)
    && (e.tag.Some? ==> exists k: nat | r <= k < at :: toks[k].typ == TokTag)
    && e.start == toks[r].start
  }

  predicate Unpropped(e: Event) { e.anchor == None && e.tag == None }

  /** The event is the token. */
  predicate IsToken(toks: seq<Token>, at: nat, e: Event)
    requires at < |toks|
  {
    var t := toks[at];
    e.end == t.end && !e.implicit &&
    match t.typ
    case TokScalar => e.typ == ScalarEvent && e.value == t.value && e.style == t.style && !e.flow && Propped(toks, at, e)
    case TokAlias => e.typ == AliasEvent && e.value == t.value && e.style == Plain && !e.flow && Propped(toks, at, e) && Unpropped(e)
    case TokFlowSeqStart => e.typ == SequenceStart && e.value == "" && e.style == Plain && e.flow && Propped(toks, at, e)
    case TokFlowMapStart => e.typ == MappingStart && e.value == "" && e.style == Plain && e.flow && Propped(toks, at, e)
    case TokFlowSeqEnd => e.typ == SequenceEnd && e.value == "" && e.style == Plain && !e.flow && Unpropped(e) && e.start == t.start
    case TokFlowMapEnd => e.typ == MappingEnd && e.value == "" && e.style == Plain && !e.flow && Unpropped(e) && e.start == t.start
    case _ => false
  }

  predicate IsEmptyScalar(e: Event) {
    e.typ == ScalarEvent && e.value == "" && e.style == Plain && !e.implicit && !e.flow
  }

  /** A bracket at a token. A document's start and end are implicit where no token of
      their own gives them, and then have no extent; nor has the end of a collection. */
  predicate IsBracket(t: Token, e: Event) {
    match e.typ
    case StreamStart => t.typ == TokStreamStart && e.end == t.end && !e.implicit && !e.flow
    case StreamEnd => t.typ == TokStreamEnd && e.end == t.end && !e.implicit && !e.flow
    case DocStart =>
      !e.flow && (if e.implicit then e.end == t.start && t.typ !in {TokDirective, TokDocStart, TokDocEnd, TokStreamEnd}
                  else e.end == t.end && t.typ == TokDocStart)
    case DocEnd =>
      !e.flow && (if e.implicit then e.end == t.start && t.typ in {TokDocStart, TokStreamEnd} else e.end == t.end && t.typ == TokDocEnd)
    case SequenceStart => t.typ == TokSeqEntry && e.end == t.end && !e.implicit && !e.flow
    case MappingStart => t.typ in {TokMapKey, TokMapValue} && e.end == t.end && !e.implicit
    case SequenceEnd => e.end == t.start && !e.implicit && !e.flow
    case MappingEnd => e.end == t.start && !e.implicit && !e.flow
    case _ => false
  }

  /** The event looks as its origin says. */
  predicate Looks(toks: seq<Token>, o: Origin, e: Event) {
    match o
    case Content(at) => at < |toks| && IsToken(toks, at, e)
    case Empty(at) => at < |toks| && IsEmptyScalar(e) && Propped(toks, at, e) && e.end == toks[at].start
    case Absent(at) => at < |toks| && IsEmptyScalar(e) && Unpropped(e) && e.start == e.end == toks[at].start
    case Missing(at) => at < |toks| && IsEmptyScalar(e) && Unpropped(e) && e.start == toks[at].start && e.end == toks[at].end
    case KeyStart => e.typ == MappingStart && e.value == "" && e.style == Plain && !e.implicit && Unpropped(e) && e.start == e.end
    case Bracket(at) => at < |toks| && e.value == "" && e.style == Plain && Unpropped(e) && e.start == toks[at].start && IsBracket(toks[at], e)
  }

  /** Every event looks as its origin says, and a mapping begins where its first key does. */
  predicate Described(toks: seq<Token>, evs: seq<Event>, src: seq<Origin>) {
    && |src| == |evs| && (forall i | 0 <= i < |src| :: Looks(toks, src[i], evs[i]))
    && forall i | 0 <= i < |src| && src[i].KeyStart? :: i + 1 < |evs| && evs[i].start == evs[i + 1].start
  }

  /** The tokens that are events, in order. */
  function Born(src: seq<Origin>): seq<nat> {
    if src == [] then [] else Born(src[..|src| - 1]) + if src[|src| - 1].Content? then [src[|src| - 1].at] else []
  }

  /** The content tokens from `a` to before `b`. */
  function ContentIn(toks: seq<Token>, a: nat, b: nat): seq<nat>
    requires a <= b <= |toks|
    decreases b
  {
    if a == b then [] else ContentIn(toks, a, b - 1) + if IsContent(toks[b - 1]) then [b - 1] else []
  }

  function AnchorsOf(evs: seq<Event>): seq<string> {
    if evs == [] then [] else AnchorsOf(evs[..|evs| - 1]) + if evs[|evs| - 1].anchor.Some? then [evs[|evs| - 1].anchor.value] else []
  }

  function TagsOf(evs: seq<Event>): seq<string> {
    if evs == [] then [] else TagsOf(evs[..|evs| - 1]) + if evs[|evs| - 1].tag.Some? then [evs[|evs| - 1].tag.value] else []
  }

  function AnchorsIn(toks: seq<Token>, a: nat, b: nat): seq<string>
    requires a <= b <= |toks|
    decreases b
  {
    if a == b then [] else AnchorsIn(toks, a, b - 1) + if toks[b - 1].typ == TokAnchor then [toks[b - 1].value] else []
  }

  function TagsIn(toks: seq<Token>, a: nat, b: nat): seq<string>
    requires a <= b <= |toks|
    decreases b
  {
    if a == b then []
    else TagsIn(toks, a, b - 1) + if toks[b - 1].typ == TokTag && toks[b - 1].tag.Some? then [toks[b - 1].tag.value] else []
  }

  /** No content token, anchor or tag from `a` to before `b` is lost, repeated or moved. */
  predicate Counted(toks: seq<Token>, a: nat, b: nat, evs: seq<Event>, src: seq<Origin>) {
    a <= b <= |toks| && Born(src) == ContentIn(toks, a, b) && AnchorsOf(evs) == AnchorsIn(toks, a, b) && TagsOf(evs) == TagsIn(toks, a, b)
  }

  predicate Within(a: nat, b: nat, o: Origin) { o.KeyStart? || a <= o.at <= b }

  predicate NotAfter(o: Origin, p: Origin) { o.KeyStart? || p.KeyStart? || o.at <= p.at }

  /** The events stand in the order of their tokens: an empty node is no further
      on than the event after it and no further back than the one before. */
  predicate Placed(a: nat, b: nat, src: seq<Origin>) {
    (forall i | 0 <= i < |src| :: Within(a, b, src[i])) && forall i, j | 0 <= i < j < |src| :: NotAfter(src[i], src[j])
  }

  /** These events, with these origins, account for the tokens from `a` to before `b`. */
  predicate Explains(toks: seq<Token>, a: nat, b: nat, evs: seq<Event>, src: seq<Origin>) {
    Described(toks, evs, src) && Counted(toks, a, b, evs, src) && Placed(a, b, src)
  }

  // ----- composition -----

  lemma {:induction false} BornConcat(a: seq<Origin>, b: seq<Origin>)
    ensures Born(a + b) == Born(a) + Born(b)
    decreases |b|
  {
    if b == [] {
      assert a + b == a;
    } else {
      var front := b[..|b| - 1];
      BornConcat(a, front);
      assert (a + b)[..|a + b| - 1] == a + front;
    }
  }

  lemma {:induction false} AnchorsConcat(a: seq<Event>, b: seq<Event>)
    ensures AnchorsOf(a + b) == AnchorsOf(a) + AnchorsOf(b)
    decreases |b|
  {
    if b == [] {
      assert a + b == a;
    } else {
      var front := b[..|b| - 1];
      AnchorsConcat(a, front);
      assert (a + b)[..|a + b| - 1] == a + front;
    }
  }

  lemma {:induction false} TagsConcat(a: seq<Event>, b: seq<Event>)
    ensures TagsOf(a + b) == TagsOf(a) + TagsOf(b)
    decreases |b|
  {
    if b == [] {
      assert a + b == a;
    } else {
      var front := b[..|b| - 1];
      TagsConcat(a, front);
      assert (a + b)[..|a + b| - 1] == a + front;
    }
  }

  lemma NamesConcat(a: seq<Event>, b: seq<Event>)
    ensures AnchorsOf(a + b) == AnchorsOf(a) + AnchorsOf(b)
    ensures TagsOf(a + b) == TagsOf(a) + TagsOf(b)
  {
    AnchorsConcat(a, b);
    TagsConcat(a, b);
  }

  lemma {:induction false} TokensConcat(toks: seq<Token>, a: nat, b: nat, c: nat)
    requires a <= b <= c <= |toks|
    ensures ContentIn(toks, a, c) == ContentIn(toks, a, b) + ContentIn(toks, b, c)
    ensures AnchorsIn(toks, a, c) == AnchorsIn(toks, a, b) + AnchorsIn(toks, b, c)
    ensures TagsIn(toks, a, c) == TagsIn(toks, a, b) + TagsIn(toks, b, c)
    decreases c
  {
    if b < c { TokensConcat(toks, a, b, c - 1); }
  }

  lemma DescribedConcat(toks: seq<Token>, evs: seq<Event>, src: seq<Origin>, more: seq<Event>, rest: seq<Origin>)
    requires Described(toks, evs, src) && Described(toks, more, rest)
    ensures Described(toks, evs + more, src + rest)
  {
    hide Looks;
  }

  lemma CountedConcat(toks: seq<Token>, a: nat, b: nat, c: nat, evs: seq<Event>, src: seq<Origin>, more: seq<Event>, rest: seq<Origin>)
    requires Counted(toks, a, b, evs, src) && Counted(toks, b, c, more, rest)
    ensures Counted(toks, a, c, evs + more, src + rest)
  {
    hide Born, ContentIn, AnchorsOf, AnchorsIn, TagsOf, TagsIn;
    BornConcat(src, rest);
    NamesConcat(evs, more);
    TokensConcat(toks, a, b, c);
  }

  lemma CountedBounds(toks: seq<Token>, a: nat, b: nat, evs: seq<Event>, src: seq<Origin>)
    requires Counted(toks, a, b, evs, src)
    ensures a <= b <= |toks|
  {}

  lemma PlacedConcat(a: nat, b: nat, c: nat, src: seq<Origin>, rest: seq<Origin>)
    requires Placed(a, b, src) && Placed(b, c, rest) && a <= b <= c
    ensures Placed(a, c, src + rest)
  {}

  /** What is explained piece by piece is explained as a whole. */
  lemma ExplainsConcat(toks: seq<Token>, a: nat, b: nat, c: nat, evs: seq<Event>, src: seq<Origin>, more: seq<Event>, rest: seq<Origin>)
    requires Explains(toks, a, b, evs, src) && Explains(toks, b, c, more, rest)
    ensures Explains(toks, a, c, evs + more, src + rest)
  {
    hide Described, Counted, Placed;
    CountedBounds(toks, a, b, evs, src);
    CountedBounds(toks, b, c, more, rest);
    DescribedConcat(toks, evs, src, more, rest);
    CountedConcat(toks, a, b, c, evs, src, more, rest);
    PlacedConcat(a, b, c, src, rest);
  }

  lemma ExplainsNothing(toks: seq<Token>, a: nat)
    requires a <= |toks|
    ensures Explains(toks, a, a, [], [])
  {}

  lemma AnchorsSingle(e: Event)
    ensures AnchorsOf([e]) == if e.anchor.Some? then [e.anchor.value] else []
    ensures TagsOf([e]) == if e.tag.Some? then [e.tag.value] else []
  {
    assert [e][..0] == [];
  }

  lemma BornSingle(o: Origin)
    ensures Born([o]) == if o.Content? then [o.at] else []
  {
    assert [o][..0] == [];
  }
}
