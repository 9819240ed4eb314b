/**
 * What line folding makes of a text (YAML 1.2.2 sections 6.5 and 8.1.3), said
 * break by break: one break between two lines is a space; of several the first
 * is dropped and the others are line feeds.
 */
module FoldMeaning {
  import opened Chars
  import BlockScalar
  import DoubleQuoted
  import SingleQuoted
  import PlainScalar

  // ----- counting breaks -----

  /** A line ends here: a line feed, or a carriage return that no line feed follows. */
  predicate EndsLine(s: string, i: nat)
    requires i < |s|
  {
    s[i] == '\n' || (s[i] == '\r' && !(i + 1 < |s| && s[i + 1] == '\n'))
  }

  function LineEnds(s: string, a: nat, b: nat): nat
    requires a <= b <= |s|
    decreases b - a
  {
    if a == b then 0 else (if EndsLine(s, a) then 1 else 0) + LineEnds(s, a + 1, b)
  }

  /** All the blanks and breaks from `a` on end at `b`. */
  predicate Gap(s: string, a: nat, b: nat) {
    a <= b <= |s| && (forall i | a <= i < b :: Blank(s[i]) || Break(s[i])) && (b < |s| ==> !Blank(s[b]) && !Break(s[b]))
  }

  lemma {:induction false} LineEndsConcat(s: string, a: nat, b: nat, c: nat)
    requires a <= b <= c <= |s|
    ensures LineEnds(s, a, c) == LineEnds(s, a, b) + LineEnds(s, b, c)
    decreases b - a
  {
    if a < b { LineEndsConcat(s, a + 1, b, c); }
  }

  lemma {:induction false} BlanksEndNone(s: string, j: nat)
    requires j <= |s|
    ensures var k := AfterBlanks(s, j); LineEnds(s, j, k) == 0 && forall i | j <= i < k :: Blank(s[i])
    decreases |s| - j
  {
    if j < |s| && Blank(s[j]) { BlanksEndNone(s, j + 1); }
  }

  lemma OneBreak(s: string, j: nat)
    requires j < |s| && Break(s[j])
    ensures var k := AfterBreak(s, j); LineEnds(s, j, k) == 1 && forall i | j <= i < k :: Break(s[i])
  {
    var k := AfterBreak(s, j);
    assert LineEnds(s, k, k) == 0;
    if k == j + 2 { assert LineEnds(s, j + 1, k) == 1 + LineEnds(s, k, k); }
  }

  /** The break loop takes all the blanks and breaks, and counts the ends of lines. */
  lemma {:induction false} BreaksMean(s: string, j: nat)
    requires j < |s| && Break(s[j])
    ensures var r := BreaksAt(s, j); Gap(s, j, r.pos) && r.count == LineEnds(s, j, r.pos)
    decreases |s| - j
  {
    var m := AfterBreak(s, j);
    var k := AfterBlanks(s, m);
    OneBreak(s, j);
    BlanksEndNone(s, m);
    LineEndsConcat(s, j, m, k);
    if k < |s| && Break(s[k]) {
      BreaksMean(s, k);
      LineEndsConcat(s, j, k, BreaksAt(s, k).pos);
    }
  }

  /** What `n` breaks between two lines come to. */
  predicate Separates(sep: string, n: nat) {
    if n == 1 then sep == " " else |sep| + 1 == n && forall i | 0 <= i < |sep| :: sep[i] == '\n'
  }

  lemma FoldedMeans(n: nat)
    requires n > 0
    ensures Separates(Folded(n), n)
  {}

  /** `r` is `t` without the blanks at its end. */
  predicate Trims(t: string, r: string) {
    |r| <= |t| && r == t[..|r|] && (forall i | |r| <= i < |t| :: Blank(t[i])) && (r != "" ==> !Blank(r[|r| - 1]))
  }

  lemma {:induction false} TrimEndMeans(t: string)
    ensures Trims(t, TrimEnd(t))
    decreases |t|
  {
    if t != "" && Blank(t[|t| - 1]) { TrimEndMeans(t[..|t| - 1]); }
  }

  lemma GapEnds(s: string, j: nat, a: nat, b: nat)
    requires Gap(s, j, a) && Gap(s, j, b)
    ensures a == b
  {}

  // ----- scalars over several lines -----

  /** A gap in a single-quoted scalar, after the text `t` and the characters `s[j..k]`. */
  lemma SingleFolds(s: string, j: nat, k: nat, p: nat, t: string, ok: nat -> bool) returns (line: string, sep: string)
    requires j <= k < p <= |s| && (forall i | j <= i < k :: s[i] != '\'' && !Break(s[i])) && Break(s[k]) && Gap(s, k, p)
    ensures Trims(t + s[j..k], line) && Separates(sep, LineEnds(s, k, p))
    ensures SingleQuoted.Read(s, j, t, ok) == if ok(p) then SingleQuoted.Read(s, p, line + sep, ok) else SingleQuoted.Failed
  {
    SingleQuoted.ReadRun(s, j, k, t, ok);
    BreaksMean(s, k);
    GapEnds(s, k, BreaksAt(s, k).pos, p);
    line, sep := TrimEnd(t + s[j..k]), Folded(BreaksAt(s, k).count);
    TrimEndMeans(t + s[j..k]);
    FoldedMeans(BreaksAt(s, k).count);
  }

  /** A gap in a plain scalar. */
  lemma PlainFolds(s: string, j: nat, k: nat, p: nat, t: string, at: PlainScalar.Place) returns (line: string, sep: string)
    requires j <= k < p <= |s| && PlainScalar.Early(s, j, k) && Break(s[k]) && Gap(s, k, p)
    requires p < |s| && PlainScalar.Continues(s, p, at)
    ensures Trims(t + s[j..k], line) && Separates(sep, LineEnds(s, k, p))
    ensures PlainScalar.Read(s, j, t, at) == PlainScalar.Read(s, p, line + sep, at)
  {
    PlainScalar.RunReads(s, j, k, t, at);
    BreaksMean(s, k);
    GapEnds(s, k, BreaksAt(s, k).pos, p);
    line, sep := TrimEnd(t + s[j..k]), Folded(BreaksAt(s, k).count);
    TrimEndMeans(t + s[j..k]);
    FoldedMeans(BreaksAt(s, k).count);
  }

  /** The line's first character, after its blanks. */
  predicate LineBegins(s: string, q: nat, p: nat) {
    q <= p < |s| && (q > 0 ==> Break(s[q - 1])) && (forall i | q <= i < p :: Blank(s[i])) && !Blank(s[p]) && !Break(s[p])
  }

  lemma {:induction false} BlanksBack(s: string, q: nat, p: nat)
    requires q <= p <= |s| && (q > 0 ==> !Blank(s[q - 1])) && forall i | q <= i < p :: Blank(s[i])
    ensures PlainScalar.BlanksBefore(s, p) == p - q
    decreases p
  {
    if p > q { BlanksBack(s, q, p - 1); }
  }

  /** A plain scalar goes on with a line that is indented past the enclosing block and
      begins with a letter or a digit, and with no line that is not. */
  lemma WordContinues(s: string, q: nat, p: nat, at: PlainScalar.Place)
    requires LineBegins(s, q, p)
    ensures p - q <= at.indent ==> !PlainScalar.Continues(s, p, at)
    ensures p - q > at.indent && ('a' <= s[p] <= 'z' || 'A' <= s[p] <= 'Z' || '0' <= s[p] <= '9') ==> PlainScalar.Continues(s, p, at)
  {
    BlanksBack(s, q, p);
  }

  /** A gap in a double-quoted scalar, after characters without an escape. */
  lemma DoubleFolds(s: string, j: nat, k: nat, p: nat, lines: DoubleQuoted.Lines) returns (line: string, sep: string)
    requires j <= k < p <= |s| && (forall i | j <= i < k :: s[i] !in {'"', '\\', '\n', '\r'}) && Break(s[k]) && Gap(s, k, p)
    ensures Trims(s[j..k], line) && Separates(sep, LineEnds(s, k, p))
    ensures DoubleQuoted.Read(s, j, DoubleQuoted.Text("", 0), lines) ==
            if lines.afterFold(p) then DoubleQuoted.Read(s, p, DoubleQuoted.Text(line + sep, |line|), lines) else DoubleQuoted.Failed
  {
    var t := DoubleQuoted.Text("", 0);
    DoubleQuoted.ReadRun(s, j, k, t, lines);
    BreaksMean(s, k);
    GapEnds(s, k, BreaksAt(s, k).pos, p);
    line, sep := s[j..k][..DoubleQuoted.Trimmed(s[j..k])], Folded(BreaksAt(s, k).count);
    TrimmedMeans(s[j..k]);
    FoldedMeans(BreaksAt(s, k).count);
    var run := DoubleQuoted.RunText(t, s[j..k]);
    assert run.text == s[j..k] && run.content == |line|;
    DoubleQuoted.PieceReads(s, k, run, lines);
  }

  lemma {:induction false} TrimmedMeans(run: string)
    ensures var n := DoubleQuoted.Trimmed(run); n <= |run| && Trims(run, run[..n])
    decreases |run|
  {
    if run != "" && Blank(run[|run| - 1]) { TrimmedMeans(run[..|run| - 1]); }
  }

  // ----- folded block scalars -----

  /** The next content line at or after `i`; |lines| if there is none. */
  function NextContent(lines: seq<BlockScalar.Line>, i: nat): (j: nat)
    requires i <= |lines|
    ensures i <= j <= |lines| && (j < |lines| ==> lines[j].Content?) && forall k | i <= k < j :: lines[k].Empty?
    decreases |lines| - i
  {
    if i == |lines| || lines[i].Content? then i else NextContent(lines, i + 1)
  }

  /** What the break after line `i` becomes. It stays, unless it is between two
      content lines that do not start with a blank: then it is a space if they are
      next to each other, and goes if empty lines are between them. */
  function BreakAfter(lines: seq<BlockScalar.Line>, i: nat): string
    requires i < |lines|
  {
    var next := NextContent(lines, i + 1);
    if lines[i].Empty? || next == |lines| || lines[i].ws || lines[next].ws then "\n"
    else if next == i + 1 then " "
    else ""
  }

  /** The lines from `i` on, each with what its break becomes. */
  function BreakByBreak(lines: seq<BlockScalar.Line>, i: nat): string
    requires i <= |lines|
    decreases |lines| - i
  {
    if i == |lines| then ""
    else (if lines[i].Content? then lines[i].text else "") + BreakAfter(lines, i) + BreakByBreak(lines, i + 1)
  }

  lemma EmptyBreak(lines: seq<BlockScalar.Line>, i: nat)
    requires i < |lines| && lines[i].Empty?
    ensures BreakByBreak(lines, i) == "\n" + BreakByBreak(lines, i + 1)
  {
    assert "" + "\n" + BreakByBreak(lines, i + 1) == "\n" + BreakByBreak(lines, i + 1);
  }

  lemma FeedFirst(n: nat, rest: string)
    ensures Repeat('\n', 0) + rest == rest
    ensures "\n" + (Repeat('\n', n) + rest) == Repeat('\n', n + 1) + rest
  {
    assert "\n" + Repeat('\n', n) == Repeat('\n', n + 1);
    assert "\n" + (Repeat('\n', n) + rest) == ("\n" + Repeat('\n', n)) + rest;
  }

  lemma {:induction false} EmptiesFold(lines: seq<BlockScalar.Line>, i: nat, j: nat)
    requires i <= j <= |lines| && forall k | i <= k < j :: lines[k].Empty?
    ensures BreakByBreak(lines, i) == Repeat('\n', j - i) + BreakByBreak(lines, j)
    decreases j - i
  {
    hide BreakByBreak, Repeat;
    if i == j {
      FeedFirst(0, BreakByBreak(lines, j));
    } else {
      EmptiesFold(lines, i + 1, j);
      EmptyBreak(lines, i);
      FeedFirst(j - i - 1, BreakByBreak(lines, j));
    }
  }

  lemma {:induction false} NextIs(lines: seq<BlockScalar.Line>, i: nat)
    requires i <= |lines|
    ensures NextContent(lines, i) == i + BlockScalar.EmptiesAhead(lines[i..])
    decreases |lines| - i
  {
    if i < |lines| && lines[i].Empty? {
      assert lines[i..][1..] == lines[i + 1..];
      NextIs(lines, i + 1);
    }
  }

  lemma Regroup(a: string, b: string, c: string, d: string)
    ensures a + (b + c) + d == a + b + (c + d)
  {}

  lemma LineByLine(lines: seq<BlockScalar.Line>, i: nat)
    requires i < |lines| && lines[i].Content?
    ensures BreakByBreak(lines, i) == lines[i].text + BreakAfter(lines, i) + BreakByBreak(lines, i + 1)
  {}

  lemma FoldsNothing(lines: seq<BlockScalar.Line>)
    ensures BlockScalar.FoldLines(lines[|lines|..]) == BreakByBreak(lines, |lines|)
  {}

  /** Folding goes break by break. */
  lemma {:induction false} FoldsBreakByBreak(lines: seq<BlockScalar.Line>, i: nat)
    requires i <= |lines|
    ensures BlockScalar.FoldLines(lines[i..]) == BreakByBreak(lines, i)
    decreases |lines| - i
  {
    hide BlockScalar.FoldLines, BreakByBreak, BreakAfter, BlockScalar.Between, Repeat, BlockScalar.EmptiesAhead;
    if i == |lines| {
      FoldsNothing(lines);
    } else if lines[i].Empty? {
      FoldsBreakByBreak(lines, i + 1);
      BlockScalar.FoldEmpty(lines, i);
      EmptiesFold(lines, i, i + 1);
      OneFeed();
    } else {
      var j := NextContent(lines, i + 1);
      NextIs(lines, i + 1);
      EmptiesFold(lines, i + 1, j);
      FoldsBreakByBreak(lines, j);
      BlockScalar.FoldStep(lines, i, j);
      ContentFolds(lines, i, j);
      LineByLine(lines, i);
      Regroup(lines[i].text, BreakAfter(lines, i), Repeat('\n', j - i - 1), BreakByBreak(lines, j));
    }
  }

  lemma OneFeed()
    ensures Repeat('\n', 1) == "\n"
  {
    assert Repeat('\n', 0) == "";
  }

  lemma ContentFolds(lines: seq<BlockScalar.Line>, i: nat, j: nat)
    requires i < |lines| && lines[i].Content? && j == NextContent(lines, i + 1)
    ensures BlockScalar.Between(lines[i], j - i - 1, lines[j..]) == BreakAfter(lines, i) + Repeat('\n', j - i - 1)
  {
    assert "\n" + Repeat('\n', j - i - 1) == Repeat('\n', j - i);
    assert "" + Repeat('\n', j - i - 1) == Repeat('\n', j - i - 1);
  }
}
