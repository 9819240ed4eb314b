/**
 * What the flow-as-key lookahead answers, said of the text alone: a bracket is
 * a key when a quote before its match could not be told, or when the first
 * thing after the match that is not a blank, a break or a comment is a ':'.
 */
module KeyMeaning {
  import opened Events
  import opened Chars
  import opened FlowKeyScan

  // ----- what follows a position -----

  /** A comment begun at `i` or later is still open at `k`. */
  predicate InComment(s: string, i: nat, k: nat)
    requires k < |s|
  {
    exists h: nat | i <= h <= k :: s[h] == '#' && forall g | h <= g <= k :: s[g] != '\n'
  }

  predicate Visible(s: string, i: nat, k: nat)
    requires k < |s|
  {
    !Blank(s[k]) && !Break(s[k]) && !InComment(s, i, k)
  }

  /** The first character from `i` on that is not a blank, a break or in a comment. */
  predicate FirstVisible(s: string, i: nat, k: nat) {
    i <= k < |s| && Visible(s, i, k) && forall h | i <= h < k :: !Visible(s, i, h)
  }

  ghost predicate ColonAfter(s: string, i: nat) {
    exists k: nat :: FirstVisible(s, i, k) && s[k] == ':'
  }

  // ----- the pieces of the text -----

  datatype Kind = Opening | Closing | Quoted | Verbatim | Comment | Other

  datatype Piece = Piece(kind: Kind, from: nat, to: nat)

  /** What is between double quotes: characters and escapes. */
  predicate DoubleText(t: string) {
    t == "" || (t[0] == '\\' && |t| >= 2 && DoubleText(t[2..])) || (t[0] != '\\' && t[0] != '"' && DoubleText(t[1..]))
  }

  /** What is between single quotes: characters and doubled quotes. */
  predicate SingleText(t: string) {
    t == "" || (|t| >= 2 && t[..2] == "''" && SingleText(t[2..])) || (t[0] != '\'' && SingleText(t[1..]))
  }

  predicate IsQuote(c: char) { c == '\'' || c == '"' }

  predicate QuotedScalar(s: string, from: nat, to: nat) {
    from + 2 <= to < |s| && s[to - 1] == s[from] &&
    ((s[from] == '"' && DoubleText(s[from + 1..to - 1])) ||
     (s[from] == '\'' && SingleText(s[from + 1..to - 1]) && s[to] != '\''))
  }

  /** "!<...>", the '!' at the start of a token. */
  predicate VerbatimFrom(s: string, from: nat) {
    from < |s| && s[from] == '<' && from >= 1 && s[from - 1] == '!' &&
    (from == 1 || Blank(s[from - 2]) || s[from - 2] in "[{,")
  }

  predicate VerbatimPiece(s: string, from: nat, to: nat) {
    VerbatimFrom(s, from) && from + 2 <= to <= |s| && s[to - 1] == '>' &&
    forall h | from < h < to - 1 :: s[h] != '>' && !Blank(s[h]) && !Break(s[h])
  }

  predicate CommentFrom(s: string, from: nat) {
    from < |s| && s[from] == '#' && from >= 1 && (Blank(s[from - 1]) || Break(s[from - 1]))
  }

  predicate CommentPiece(s: string, from: nat, to: nat) {
    CommentFrom(s, from) && from + 2 <= to <= |s| && s[to - 1] == '\n' && forall h | from < h < to - 1 :: s[h] != '\n'
  }

  /** The last character before `i` that is not a blank. */
  predicate LastBefore(s: string, i: nat, j: nat) {
    j < i <= |s| && !Blank(s[j]) && forall h | j < h < i :: Blank(s[h])
  }

  predicate EndsAt(before: seq<Piece>, j: nat) {
    exists p | p in before :: p.kind == Quoted && p.to == j
  }

  /** A quote at `i` opens a scalar for certain: after an entry start, after ':' and
      blanks, or right after a ':' that follows a bracket or a quoted scalar. */
  predicate SureAfter(s: string, i: nat, j: nat, before: seq<Piece>) {
    LastBefore(s, i, j) &&
    (s[j] in "[{," || (s[j] == ':' && (j + 1 < i || (j >= 1 && (s[j - 1] in "]}" || EndsAt(before, j))))))
  }

  predicate SureAt(s: string, i: nat, before: seq<Piece>) {
    exists j: nat | j < i :: SureAfter(s, i, j, before)
  }

  /** It could be either: after blanks, but not surely a scalar. */
  predicate UnsureAt(s: string, i: nat, before: seq<Piece>) {
    0 < i <= |s| && Blank(s[i - 1]) && !SureAt(s, i, before)
  }

  /** The `k`-th piece is what it says; an unsure quote may be either. */
  predicate PieceOk(s: string, ps: seq<Piece>, k: nat)
    requires k < |ps|
  {
    var p := ps[k];
    p.from < p.to <= |s| &&
    match p.kind
    case Opening => p.to == p.from + 1 && s[p.from] in "[{"
    case Closing => p.to == p.from + 1 && s[p.from] in "]}"
    case Quoted => QuotedScalar(s, p.from, p.to) && (SureAt(s, p.from, ps[..k]) || UnsureAt(s, p.from, ps[..k]))
    case Verbatim => VerbatimPiece(s, p.from, p.to)
    case Comment => CommentPiece(s, p.from, p.to)
    case Other =>
      p.to == p.from + 1 && s[p.from] !in "[]{}" && !Break(s[p.from]) &&
      !VerbatimFrom(s, p.from) && !CommentFrom(s, p.from) && (IsQuote(s[p.from]) ==> !SureAt(s, p.from, ps[..k]))
  }

  function Depth(ps: seq<Piece>): int {
    if ps == [] then 0
    else Depth(ps[..|ps| - 1]) + (match ps[|ps| - 1].kind case Opening => 1 case Closing => -1 case _ => 0)
  }

  /** The pieces of a collection, from its bracket at `b` to the matching one. */
  ghost predicate Collection(s: string, b: nat, ps: seq<Piece>) {
    && |ps| >= 2 && ps[0] == Piece(Opening, b, b + 1)
    && (forall k: nat | k < |ps| :: PieceOk(s, ps, k))
    && (forall k: nat | k + 1 < |ps| :: ps[k + 1].from == ps[k].to)
    && Depth(ps) == 0 && forall k: nat | 0 < k < |ps| :: Depth(ps[..k]) > 0
  }

  function End(ps: seq<Piece>): nat
    requires ps != []
  {
    ps[|ps| - 1].to
  }

  /** Some quote could not be told. */
  predicate Unsure(s: string, ps: seq<Piece>) {
    exists k | 0 < k < |ps| :: UnsureQuote(s, ps, k)
  }

  predicate UnsureQuote(s: string, ps: seq<Piece>, k: nat)
    requires k < |ps|
  {
    ps[k].from < |s| && IsQuote(s[ps[k].from]) && ps[k].kind in {Quoted, Other} && UnsureAt(s, ps[k].from, ps[..k])
  }

  // ----- the lookahead's own functions, in these terms -----

  lemma CommentAt(s: string, i: nat, k: nat)
    requires k < |s|
    ensures i <= k && s[k] == '#' ==> InComment(s, i, k)
    ensures i <= k && s[i] == '#' && (forall g | i <= g <= k :: s[g] != '\n') ==> InComment(s, i, k)
    ensures i == k && s[k] != '#' ==> !InComment(s, i, k)
  {
    if i <= k && s[i] == '#' && forall g | i <= g <= k :: s[g] != '\n' { assert s[i] == '#'; }
  }

  /** Nothing is visible before `e`, and from there on the same. */
  predicate Skipped(s: string, i: nat, e: nat) {
    i <= e <= |s| && (forall h | i <= h < e :: !Visible(s, i, h)) && forall h | e <= h < |s| :: Visible(s, i, h) <==> Visible(s, e, h)
  }

  lemma ColonSkipped(s: string, i: nat, e: nat)
    requires Skipped(s, i, e)
    ensures ColonAfter(s, i) <==> ColonAfter(s, e)
  {
    hide Visible;
    forall k: nat ensures FirstVisible(s, i, k) <==> FirstVisible(s, e, k) { FirstSkipped(s, i, e, k); }
  }

  lemma FirstSkipped(s: string, i: nat, e: nat, k: nat)
    requires Skipped(s, i, e)
    ensures FirstVisible(s, i, k) <==> FirstVisible(s, e, k)
  {
    hide Visible;
  }

  /** A character that begins no comment can be left out. */
  lemma VisibleNext(s: string, i: nat)
    requires i < |s| && s[i] != '#' && (Blank(s[i]) || Break(s[i]))
    ensures Skipped(s, i, i + 1)
  {
    forall k: nat | i + 1 <= k < |s| ensures InComment(s, i, k) <==> InComment(s, i + 1, k) {}
  }

  /** And a whole comment. */
  lemma VisiblePast(s: string, i: nat, e: nat)
    requires i < e < |s| && s[i] == '#' && s[e] == '\n' && forall g | i <= g < e :: s[g] != '\n'
    ensures Skipped(s, i, e + 1)
  {
    forall k: nat | i <= k < e ensures !Visible(s, i, k) { CommentAt(s, i, k); }
    forall k: nat | e + 1 <= k < |s| ensures InComment(s, i, k) <==> InComment(s, e + 1, k) {
      if h: nat :| i <= h <= k && s[h] == '#' && forall g | h <= g <= k :: s[g] != '\n' {
        assert h > e;
      }
    }
  }

  lemma LineEndIs(s: string, i: nat)
    requires i <= |s|
    ensures var e := LineEnd(s, i); (e < |s| ==> s[e] == '\n') && forall g | i <= g < e :: s[g] != '\n'
    decreases |s| - i
  {
    if i < |s| && s[i] != '\n' { LineEndIs(s, i + 1); }
  }

  lemma {:induction false} ColonMeans(s: string, i: nat)
    requires i <= |s|
    ensures ColonFollows(s, i) <==> ColonAfter(s, i)
    decreases |s| - i
  {
    hide ColonAfter, Skipped;
    if i < |s| {
      if Blank(s[i]) || Break(s[i]) {
        VisibleNext(s, i);
        ColonSkipped(s, i, i + 1);
        ColonMeans(s, i + 1);
      } else if s[i] == '#' {
        var e := LineEnd(s, i);
        LineEndIs(s, i);
        if e < |s| {
          VisiblePast(s, i, e);
          ColonSkipped(s, i, e + 1);
          ColonMeans(s, e + 1);
        } else {
          AllComment(s, i);
        }
      } else {
        VisibleHere(s, i);
      }
    } else {
      NoneVisible(s);
    }
  }

  lemma AllComment(s: string, i: nat)
    requires i < |s| && s[i] == '#' && forall g | i <= g < |s| :: s[g] != '\n'
    ensures !ColonAfter(s, i)
  {
    forall k: nat | i <= k < |s| ensures !Visible(s, i, k) { CommentAt(s, i, k); }
  }

  lemma VisibleHere(s: string, i: nat)
    requires i < |s| && !Blank(s[i]) && !Break(s[i]) && s[i] != '#'
    ensures ColonAfter(s, i) <==> s[i] == ':'
  {
    CommentAt(s, i, i);
    assert FirstVisible(s, i, i);
  }

  lemma NoneVisible(s: string)
    ensures !ColonAfter(s, |s|)
  {}

  /** The scan passes over what it does not stop at. */
  lemma RunOn(s: string, st: State)
    requires st.pos < |s| && !IsStop(s[st.pos])
    ensures Run(s, st) == Run(s, st.(pos := st.pos + 1))
  {
    hide QuoteKind, SkipQuoted, VerbatimTag, TagEnd, LineEnd, ColonFollows;
    var i := NextStop(s, st.pos);
    assert NextStop(s, st.pos + 1) == i;
    assert StepAt(s, st) == StepAt(s, st.(pos := st.pos + 1));
  }

  lemma {:induction false} SkipsDouble(s: string, j: nat, e: nat)
    requires j <= e < |s| && s[e] == '"' && DoubleText(s[j..e])
    ensures SkipDouble(s, j) == e + 1
    decreases e - j
  {
    if j < e {
      assert s[j] == s[j..e][0];
      if s[j] == '\\' {
        assert s[j..e][2..] == s[j + 2..e];
        SkipsDouble(s, j + 2, e);
      } else {
        assert s[j..e][1..] == s[j + 1..e];
        SkipsDouble(s, j + 1, e);
      }
    }
  }

  lemma {:induction false} SkipsSingle(s: string, j: nat, e: nat)
    requires j <= e && e + 1 < |s| && s[e] == '\'' && s[e + 1] != '\'' && SingleText(s[j..e])
    ensures SkipSingle(s, j) == e + 1
    decreases e - j
  {
    if j < e {
      var t := s[j..e];
      assert s[j] == t[0];
      if s[j] == '\'' {
        assert t[..2] == "''" && t[1] == s[j + 1] && t[2..] == s[j + 2..e];
        SkipsSingle(s, j + 2, e);
      } else {
        assert t[1..] == s[j + 1..e];
        SkipsSingle(s, j + 1, e);
      }
    }
  }

  lemma SkipsQuoted(s: string, from: nat, to: nat)
    requires QuotedScalar(s, from, to)
    ensures SkipQuoted(s, from) == to
  {
    if s[from] == '"' { SkipsDouble(s, from + 1, to - 1); } else { SkipsSingle(s, from + 1, to - 1); }
  }

  lemma {:induction false} TagEndIs(s: string, j: nat, e: nat)
    requires j <= e < |s| && s[e] == '>' && forall h | j <= h < e :: s[h] != '>' && !Blank(s[h]) && !Break(s[h])
    ensures TagEnd(s, j) == e
    decreases e - j
  {
    if j < e { TagEndIs(s, j + 1, e); }
  }

  lemma {:induction false} LineEndAt(s: string, j: nat, e: nat)
    requires j <= e < |s| && s[e] == '\n' && forall h | j <= h < e :: s[h] != '\n'
    ensures LineEnd(s, j) == e
    decreases e - j
  {
    if j < e { LineEndAt(s, j + 1, e); }
  }

  lemma {:induction false} BackIs(s: string, i: nat)
    requires i <= |s|
    ensures forall h | BackOverBlanks(s, i) <= h < i :: Blank(s[h])
  {
    if i > 0 && Blank(s[i - 1]) { BackIs(s, i - 1); }
  }

  lemma LastOnce(s: string, i: nat, j: nat, h: nat)
    requires LastBefore(s, i, j) && LastBefore(s, i, h)
    ensures j == h
  {}

  /** Where the last quoted scalar ended, of those that end where a ':' may follow. */
  predicate Ended(before: seq<Piece>, i: nat, qend: Option<nat>) {
    i > 0 ==> (EndsAt(before, i - 1) <==> qend == Some(i - 1))
  }

  /** What the lookahead takes a quote for. */
  lemma QuoteMeans(s: string, b: nat, i: nat, qend: Option<nat>, before: seq<Piece>)
    requires b < i < |s| && !Blank(s[b]) && Ended(before, i, qend)
    requires i >= 2 && EndsAt(before, i - 1) ==> IsQuote(s[i - 2])
    ensures SureAt(s, i, before) <==> QuoteKind(s, i, qend) == Scalar
    ensures UnsureAt(s, i, before) <==> QuoteKind(s, i, qend) == Unclear
  {
    BackIs(s, i);
    var j := if Blank(s[i - 1]) then BackOverBlanks(s, i) - 1 else i - 1;
    assert j >= b;
    assert LastBefore(s, i, j);
    assert SureAfter(s, i, j, before) ==> SureAt(s, i, before);
    if h: nat :| h < i && SureAfter(s, i, h, before) { LastOnce(s, i, j, h); }
  }

  // ----- the scan, piece by piece -----

  function LastQuoted(ps: seq<Piece>): Option<nat> {
    if ps == [] then None
    else if ps[|ps| - 1].kind == Quoted then Some(ps[|ps| - 1].to)
    else LastQuoted(ps[..|ps| - 1])
  }

  /** The scan stands before the `k`-th piece. */
  ghost predicate Standing(s: string, b: nat, ps: seq<Piece>, k: nat, st: State) {
    && 0 < k < |ps| && st.pos == ps[k].from <= |s|
    && |st.open| == Depth(ps[..k]) && st.open != [] && st.open[0] == b && b !in st.open[1..]
    && b < st.pos && b !in st.keys && st.qend == LastQuoted(ps[..k])
  }

  lemma DepthNext(ps: seq<Piece>, k: nat)
    requires k < |ps|
    ensures Depth(ps[..k + 1]) == Depth(ps[..k]) + (if ps[k].kind == Opening then 1 else if ps[k].kind == Closing then -1 else 0)
    ensures LastQuoted(ps[..k + 1]) == if ps[k].kind == Quoted then Some(ps[k].to) else LastQuoted(ps[..k])
  {
    assert ps[..k + 1][..k] == ps[..k];
  }

  /** A quoted piece that ends right before a one-character piece is the last. */
  lemma {:induction false} EndsLast(s: string, ps: seq<Piece>, k: nat)
    requires k <= |ps| && (forall h: nat | h < |ps| :: PieceOk(s, ps, h)) && forall h: nat | h + 1 < |ps| :: ps[h + 1].from == ps[h].to
    ensures forall p | p in ps[..k] :: k > 0 && p.to <= ps[k - 1].to
    ensures LastQuoted(ps[..k]).Some? ==> EndsAt(ps[..k], LastQuoted(ps[..k]).value)
    ensures forall p | p in ps[..k] && p.kind == Quoted :: LastQuoted(ps[..k]).Some? && p.to <= LastQuoted(ps[..k]).value
  {
    hide PieceOk;
    if k > 0 {
      EndsLast(s, ps, k - 1);
      DepthNext(ps, k - 1);
      Forward(s, ps, k - 1);
      assert ps[..k] == ps[..k - 1] + [ps[k - 1]];
    }
  }

  lemma Forward(s: string, ps: seq<Piece>, k: nat)
    requires k < |ps| && PieceOk(s, ps, k)
    ensures ps[k].from < ps[k].to <= |s| && (ps[k].kind == Quoted ==> ps[k].from + 2 <= ps[k].to < |s| && IsQuote(s[ps[k].to - 1]))
  {}

  ghost predicate Pieces(s: string, ps: seq<Piece>) {
    (forall k: nat | k < |ps| :: PieceOk(s, ps, k)) && forall k: nat | k + 1 < |ps| :: ps[k + 1].from == ps[k].to
  }

  lemma EndedHere(s: string, ps: seq<Piece>, k: nat)
    requires Pieces(s, ps) && 0 < k < |ps|
    ensures Ended(ps[..k], ps[k].from, LastQuoted(ps[..k])) && ps[k].from <= |s|
    ensures ps[k].from >= 2 && EndsAt(ps[..k], ps[k].from - 1) ==> IsQuote(s[ps[k].from - 2])
  {
    hide PieceOk, EndsAt;
    var i := ps[k].from;
    EndsLast(s, ps, k);
    Forward(s, ps, k);
    if i > 0 && EndsAt(ps[..k], i - 1) { EndedOne(s, ps, k); }
  }

  lemma {:induction false} InOrder(s: string, ps: seq<Piece>, h: nat, k: nat)
    requires Pieces(s, ps) && h < k < |ps|
    ensures ps[h].to <= ps[k].from
    decreases k - h
  {
    hide PieceOk;
    if h + 1 < k {
      InOrder(s, ps, h + 1, k);
      Forward(s, ps, h + 1);
    }
  }

  lemma EndedOne(s: string, ps: seq<Piece>, k: nat)
    requires Pieces(s, ps) && 0 < k < |ps| && ps[k].from > 0 && EndsAt(ps[..k], ps[k].from - 1)
    ensures 1 < ps[k].from <= |s| && IsQuote(s[ps[k].from - 2]) && LastQuoted(ps[..k]) == Some(ps[k].from - 1)
  {
    hide PieceOk, EndsAt, LastQuoted, Pieces;
    var h := EndingPiece(ps, k, ps[k].from - 1);
    LastOf(s, ps, k, h);
    var g := EndingPiece(ps, k, LastQuoted(ps[..k]).value);
    EndedBoth(s, ps, k, h, g);
  }

  lemma LastOf(s: string, ps: seq<Piece>, k: nat, h: nat)
    requires Pieces(s, ps) && h < k < |ps| && ps[h].kind == Quoted
    ensures LastQuoted(ps[..k]).Some? && ps[h].to <= LastQuoted(ps[..k]).value && EndsAt(ps[..k], LastQuoted(ps[..k]).value)
  {
    hide PieceOk, EndsAt, LastQuoted;
    EndsLast(s, ps, k);
    assert ps[h] in ps[..k];
  }

  /** Two quoted pieces that end so close are one. */
  lemma EndedBoth(s: string, ps: seq<Piece>, k: nat, h: nat, g: nat)
    requires Pieces(s, ps) && h < k < |ps| && g < k && ps[h].kind == ps[g].kind == Quoted && ps[h].to + 1 == ps[k].from && ps[h].to <= ps[g].to
    ensures g == h && 1 < ps[k].from <= |s| && IsQuote(s[ps[k].from - 2])
  {
    hide PieceOk;
    Forward(s, ps, h);
    Forward(s, ps, g);
    Forward(s, ps, k);
    InOrder(s, ps, g, k);
    if h < g { InOrder(s, ps, h, g); }
    if g < h { InOrder(s, ps, g, h); }
  }

  lemma EndingPiece(ps: seq<Piece>, k: nat, j: nat) returns (h: nat)
    requires k <= |ps| && EndsAt(ps[..k], j)
    ensures h < k && ps[h].kind == Quoted && ps[h].to == j
  {
    var p :| p in ps[..k] && p.kind == Quoted && p.to == j;
    h :| h < k && ps[h] == p;
  }

  /** An unsure quote ends the scan. */
  lemma UnsureStep(s: string, b: nat, ps: seq<Piece>, k: nat, st: State)
    requires Pieces(s, ps) && Standing(s, b, ps, k, st) && b < |s| && s[b] in "[{" && UnsureQuote(s, ps, k)
    ensures Run(s, st) == Ambiguous
  {
    hide Pieces, UnsureAt, SureAt, EndsAt, LastQuoted, Depth;
    EndedHere(s, ps, k);
    QuoteMeans(s, b, st.pos, st.qend, ps[..k]);
    assert NextStop(s, st.pos) == st.pos;
  }

  /** A piece the scan goes past. */
  lemma QuoteStep(s: string, b: nat, ps: seq<Piece>, k: nat, st: State)
    requires Pieces(s, ps) && Standing(s, b, ps, k, st) && b < |s| && s[b] in "[{" && !UnsureQuote(s, ps, k)
    requires PieceOk(s, ps, k) && IsQuote(s[st.pos]) && (ps[k].kind == Quoted || ps[k].kind == Other)
    ensures StepAt(s, st) == Go(if ps[k].kind == Quoted then st.(pos := ps[k].to, qend := Some(ps[k].to)) else st.(pos := ps[k].to))
  {
    hide Pieces, UnsureAt, SureAt, EndsAt, LastQuoted, Depth, QuoteKind, SkipQuoted;
    EndedHere(s, ps, k);
    QuoteMeans(s, b, st.pos, st.qend, ps[..k]);
    if ps[k].kind == Quoted { SkipsQuoted(s, st.pos, ps[k].to); }
    assert NextStop(s, st.pos) == st.pos;
  }

  lemma OtherStep(s: string, ps: seq<Piece>, k: nat, st: State)
    requires k < |ps| && PieceOk(s, ps, k) && st.pos == ps[k].from && ps[k].kind == Other && !IsQuote(s[st.pos])
    ensures if IsStop(s[st.pos]) then StepAt(s, st) == Go(st.(pos := ps[k].to)) else ps[k].to == st.pos + 1
  {
    hide QuoteKind, SkipQuoted, SureAt, ColonFollows;
    if IsStop(s[st.pos]) { assert NextStop(s, st.pos) == st.pos; }
  }

  lemma SkipStep(s: string, ps: seq<Piece>, k: nat, st: State)
    requires k < |ps| && PieceOk(s, ps, k) && st.pos == ps[k].from && (ps[k].kind == Verbatim || ps[k].kind == Comment)
    requires ps[k].to < |s|
    ensures StepAt(s, st) == Go(st.(pos := ps[k].to))
  {
    hide QuoteKind, SkipQuoted, SureAt, ColonFollows;
    assert NextStop(s, st.pos) == st.pos;
    if ps[k].kind == Verbatim { TagEndIs(s, st.pos + 1, ps[k].to - 1); } else { LineEndAt(s, st.pos + 1, ps[k].to - 1); }
  }

  lemma BracketStep(s: string, ps: seq<Piece>, k: nat, st: State)
    requires k < |ps| && PieceOk(s, ps, k) && st.pos == ps[k].from && st.open != []
    requires ps[k].kind == Opening || ps[k].kind == Closing
    ensures var last, on := |st.open| - 1, st.(pos := ps[k].to);
            var keys := if ColonFollows(s, ps[k].to) then st.keys + [st.open[last]] else st.keys;
            StepAt(s, st) ==
            if ps[k].kind == Opening then Go(on.(open := st.open + [ps[k].from]))
            else if last == 0 then Stop(Known(keys, ps[k].from)) else Go(on.(open := st.open[..last], keys := keys))
  {
    hide QuoteKind, SkipQuoted, SureAt, ColonFollows;
    assert NextStop(s, st.pos) == st.pos;
  }

  /** One piece further. */
  lemma PieceStep(s: string, b: nat, ps: seq<Piece>, k: nat, st: State) returns (next: State)
    requires Pieces(s, ps) && Standing(s, b, ps, k, st) && b < |s| && s[b] in "[{" && !UnsureQuote(s, ps, k) && k + 1 < |ps|
    requires Depth(ps[..k + 1]) > 0
    ensures Standing(s, b, ps, k + 1, next) && Run(s, st) == Run(s, next)
  {
    hide PieceOk, UnsureQuote, StepAt, Depth, LastQuoted, ColonFollows;
    DepthNext(ps, k);
    Forward(s, ps, k);
    Forward(s, ps, k + 1);
    KindIs(s, ps, k);
    var p := ps[k];
    if p.kind == Opening || p.kind == Closing {
      BracketStep(s, ps, k, st);
      next := StepAt(s, st).next;
    } else if p.kind == Verbatim || p.kind == Comment {
      SkipStep(s, ps, k, st);
      next := StepAt(s, st).next;
    } else if IsQuote(s[st.pos]) {
      QuoteStep(s, b, ps, k, st);
      next := StepAt(s, st).next;
    } else {
      OtherStep(s, ps, k, st);
      next := st.(pos := p.to);
      if !IsStop(s[st.pos]) { RunOn(s, st); }
    }
  }

  lemma KindIs(s: string, ps: seq<Piece>, k: nat)
    requires k < |ps| && PieceOk(s, ps, k)
    ensures ps[k].kind == Quoted ==> IsQuote(s[ps[k].from])
  {}

  // ----- what a bracket's answer means -----

  /** From the `k`-th piece on: an unsure quote, or the match is judged by what follows it. */
  lemma {:induction false} RunPieces(s: string, b: nat, ps: seq<Piece>, k: nat, st: State)
    requires Collection(s, b, ps) && Standing(s, b, ps, k, st)
    ensures var r := Run(s, st);
            (r.Ambiguous? <==> exists h | k <= h < |ps| :: UnsureQuote(s, ps, h)) &&
            (r.Known? ==> (b in r.keys <==> ColonAfter(s, End(ps))))
    decreases |ps| - k
  {
    hide PieceOk, UnsureQuote, StepAt, Depth, LastQuoted, ColonFollows, ColonAfter;
    BracketAt(s, b, ps);
    if UnsureQuote(s, ps, k) {
      UnsureStep(s, b, ps, k, st);
    } else if k + 1 < |ps| {
      var next := PieceStep(s, b, ps, k, st);
      RunPieces(s, b, ps, k + 1, next);
    } else {
      LastStep(s, b, ps, st);
    }
  }

  lemma BracketAt(s: string, b: nat, ps: seq<Piece>)
    requires Collection(s, b, ps)
    ensures b < |s| && s[b] in "[{" && Pieces(s, ps)
  {
    assert PieceOk(s, ps, 0);
  }

  /** The matching bracket. */
  lemma LastStep(s: string, b: nat, ps: seq<Piece>, st: State)
    requires Collection(s, b, ps) && Standing(s, b, ps, |ps| - 1, st)
    ensures Run(s, st).Known? && (b in Run(s, st).keys <==> ColonAfter(s, End(ps)))
  {
    hide PieceOk, Depth, ColonFollows, ColonAfter, LastQuoted;
    var k := |ps| - 1;
    assert ps[..k + 1] == ps;
    DepthNext(ps, k);
    Forward(s, ps, k);
    BracketStep(s, ps, k, st);
    ColonMeans(s, End(ps));
  }

  lemma FirstStanding(s: string, b: nat, ps: seq<Piece>)
    requires Collection(s, b, ps)
    ensures b < |s|
    ensures var st := State(b + 1, [b], None, []); Standing(s, b, ps, 1, st) && Scan(s, b) == Run(s, st)
  {
    hide PieceOk, QuoteKind, SkipQuoted, ColonFollows;
    BracketAt(s, b, ps);
    Forward(s, ps, 0);
    Forward(s, ps, 1);
    assert ps[0 + 1].from == ps[0].to;
    DepthNext(ps, 0);
    assert ps[..0] == [];
    assert NextStop(s, b) == b && [] + [b] == [b];
    assert StepAt(s, State(b, [], None, [])) == Go(State(b + 1, [b], None, []));
  }

  /** For every way to read the text of a collection, from its bracket to the
      matching one, the lookahead answers "key" exactly when some quote on the way
      cannot be told or a ':' is the first thing visible after the match. */
  lemma KeyMeans(s: string, b: nat, ps: seq<Piece>)
    requires Collection(s, b, ps)
    ensures b < |s| && (FreshKey(s, b) <==> Unsure(s, ps) || ColonAfter(s, End(ps)))
  {
    hide Collection, Standing, Run, ColonAfter, UnsureQuote;
    FirstStanding(s, b, ps);
    RunPieces(s, b, ps, 1, State(b + 1, [b], None, []));
  }

  /** "Not a key" is never wrong. */
  lemma NotAKey(s: string, b: nat, ps: seq<Piece>)
    requires Collection(s, b, ps) && b < |s| && !FreshKey(s, b)
    ensures !ColonAfter(s, End(ps))
  {
    hide Collection, ColonAfter, Unsure, FreshKey;
    KeyMeans(s, b, ps);
  }

  // ----- text without quotes, comments and verbatim tags -----

  /** Brackets opened and not closed from `b` to before `i`. */
  function Nesting(s: string, b: nat, i: nat): int
    requires b <= i <= |s|
    decreases i
  {
    if i == b then 0
    else Nesting(s, b, i - 1) + if s[i - 1] in "[{" then 1 else if s[i - 1] in "]}" then -1 else 0
  }

  function PlainPiece(s: string, i: nat): Piece
    requires i < |s|
  {
    Piece(if s[i] in "[{" then Opening else if s[i] in "]}" then Closing else Other, i, i + 1)
  }

  function PlainPieces(s: string, b: nat, n: nat): (ps: seq<Piece>)
    requires b + n <= |s|
    ensures |ps| == n && forall k | 0 <= k < n :: ps[k] == PlainPiece(s, b + k)
  {
    seq(n, k requires 0 <= k < n => PlainPiece(s, b + k))
  }

  lemma {:induction false} PlainDepth(s: string, b: nat, n: nat, k: nat)
    requires b + n <= |s| && k <= n
    ensures Depth(PlainPieces(s, b, n)[..k]) == Nesting(s, b, b + k)
  {
    var ps := PlainPieces(s, b, n);
    if k > 0 {
      PlainDepth(s, b, n, k - 1);
      DepthNext(ps, k - 1);
    } else {
      assert ps[..0] == [];
    }
  }

  /** The bracket at `m` matches the one at `b`, by counting. */
  predicate Matching(s: string, b: nat, m: nat) {
    b < m < |s| && s[b] in "[{" && Nesting(s, b, m + 1) == 0 && forall i | b < i <= m :: Nesting(s, b, i) > 0
  }

  /** A collection without quotes, comments, verbatim tags and line breaks is a key
      exactly when a ':' is the first thing visible after its bracket. */
  lemma PlainKey(s: string, b: nat, m: nat)
    requires Matching(s, b, m)
    requires forall i | b <= i <= m :: !IsQuote(s[i]) && s[i] != '#' && s[i] != '<' && !Break(s[i])
    ensures FreshKey(s, b) <==> ColonAfter(s, m + 1)
  {
    hide FreshKey, ColonAfter, Depth, Nesting;
    var n := m + 1 - b;
    var ps := PlainPieces(s, b, n);
    forall k: nat | k <= n ensures Depth(ps[..k]) == Nesting(s, b, b + k) { PlainDepth(s, b, n, k); }
    assert ps[..n] == ps;
    forall k: nat | k < n ensures PieceOk(s, ps, k) && !UnsureQuote(s, ps, k) {}
    KeyMeans(s, b, ps);
  }
}
