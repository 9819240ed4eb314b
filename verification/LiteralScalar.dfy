/**
 * Literal block scalars (YAML 1.2.2 sections 8.1.1.2 and 8.1.2): what the
 * emitter writes for a text it accepts is read back as that text.
 */
module LiteralScalar {
  import opened Chars
  import opened Events
  import opened BlockScalar

  // ----- what may be written, and how -----

  predicate Ordinary(c: char) {
    (c as int >= 0x20 || c == '\n' || c == '\t') && c as int != 0x7f
  }

  /** Past the line feeds a text starts with. */
  function FirstReal(t: string): (i: nat)
    ensures i <= |t| && (i < |t| ==> t[i] != '\n')
  {
    if t != "" && t[0] == '\n' then 1 + FirstReal(t[1..]) else 0
  }

  /** literal_ok: no control characters, and no space first on the first line that is not empty. */
  predicate LiteralOk(t: string) {
    (forall i | 0 <= i < |t| :: Ordinary(t[i])) && (FirstReal(t) < |t| ==> t[FirstReal(t)] != ' ')
  }

  method IsLiteralOk(t: string) returns (ok: bool)
    ensures ok == LiteralOk(t)
  {
    for i := 0 to |t|
      invariant forall k | 0 <= k < i :: Ordinary(t[k])
    {
      if (t[i] as int < 0x20 && t[i] != '\n' && t[i] != '\t') || t[i] as int == 0x7f { return false; }
    }
    var i := 0;
    assert t[0..] == t;
    while i < |t| && t[i] == '\n'
      invariant 0 <= i <= |t| && FirstReal(t) == i + FirstReal(t[i..])
    {
      assert t[i..][1..] == t[i + 1..];
      i := i + 1;
    }
    ok := !(i < |t| && t[i] == ' ');
  }

  function LineEnd(b: string): (e: nat)
    ensures e <= |b| && (e < |b| ==> b[e] == '\n') && forall i | 0 <= i < e :: b[i] != '\n'
  {
    if b == "" || b[0] == '\n' then 0 else 1 + LineEnd(b[1..])
  }

  function FirstLine(b: string): string { b[..LineEnd(b)] }

  /** The text after its first line. */
  function More(b: string): (m: string)
    ensures b != "" ==> |m| < |b|
  {
    if LineEnd(b) < |b| then b[LineEnd(b) + 1..] else ""
  }

  /** A line as written: empty lines are not indented. */
  function WrittenLine(line: string, indent: nat): string {
    (if line != "" then Repeat(' ', indent) + line else "") + "\n"
  }

  function BodyText(b: string, indent: nat): string
    decreases |b|
  {
    if b == "" then "" else WrittenLine(FirstLine(b), indent) + BodyText(More(b), indent)
  }

  /** The header's chomping indicator. */
  function Mark(body: string, trail: nat): string {
    if body == "" then if trail > 0 then "+" else "-"
    else if trail == 0 then "-" else if trail == 1 then "" else "+"
  }

  function Extra(body: string, trail: nat): nat {
    if body == "" || trail == 0 then trail else trail - 1
  }

  function BlockText(t: string, indent: nat): string {
    var body := TrimBreaks(t);
    var trail := |t| - |body|;
    "|" + Mark(body, trail) + "\n" + BodyText(body, indent) + Repeat('\n', Extra(body, trail))
  }

  lemma TextUnfolds(b: string, indent: nat)
    ensures BodyText("", indent) == ""
    ensures b != "" ==> BodyText(b, indent) == WrittenLine(FirstLine(b), indent) + BodyText(More(b), indent)
  {}

  /** The line at `pos`, and what comes after it. */
  lemma LineStep(body: string, pos: nat)
    requires pos < |body|
    ensures var rest, eol := body[pos..], pos + FindFeed(body, pos);
            && eol <= |body| && FirstLine(rest) == body[pos..eol]
            && More(rest) == if eol + 1 < |body| then body[eol + 1..] else ""
  {
    var rest, eol := body[pos..], pos + FindFeed(body, pos);
    assert rest[..eol - pos] == body[pos..eol];
    assert eol < |body| ==> rest[eol - pos + 1..] == body[eol + 1..];
  }

  method EmitBody(out: string, body: string, indent: nat) returns (r: string)
    ensures r == out + BodyText(body, indent)
  {
    hide *;
    r := out;
    var pos: nat := 0;
    ghost var rest := body;
    while pos < |body|
      invariant rest == if pos < |body| then body[pos..] else ""
      invariant r + BodyText(rest, indent) == out + BodyText(body, indent)
      decreases |body| - pos
    {
      var eol := pos + FindFeed(body, pos);
      LineStep(body, pos);
      TextUnfolds(rest, indent);
      Regroup(r, WrittenLine(body[pos..eol], indent), BodyText(More(rest), indent));
      r := r + WrittenLine(body[pos..eol], indent);
      pos := eol + 1;
      rest := More(rest);
    }
    TextUnfolds("", indent);
    assert r + "" == r;
  }

  lemma Regroup(a: string, b: string, c: string)
    ensures a + b + c == a + (b + c)
  {}

  function FindFeed(body: string, pos: nat): nat
    requires pos <= |body|
  {
    LineEnd(body[pos..])
  }

  method TrimFeeds(t: string) returns (body: nat)
    ensures body <= |t| && t[..body] == TrimBreaks(t)
  {
    body := |t|;
    assert t[..|t|] == t;
    while body > 0 && t[body - 1] == '\n'
      invariant body <= |t| && TrimBreaks(t[..body]) == TrimBreaks(t)
    {
      assert t[..body][..body - 1] == t[..body - 1];
      body := body - 1;
    }
  }

  /** emit_block_scalar, appending to the output. */
  method EmitBlock(out: string, t: string, indent: nat) returns (r: string)
    ensures r == out + BlockText(t, indent)
  {
    hide *;
    var body := TrimFeeds(t);
    var trail := |t| - body;
    ghost var header := "|" + Mark(t[..body], trail) + "\n";
    r := out + ("|" + Mark(t[..body], trail) + "\n");
    r := EmitBody(r, t[..body], indent);
    Regroup(out, header, BodyText(t[..body], indent));
    Regroup(out, header + BodyText(t[..body], indent), Repeat('\n', Extra(t[..body], trail)));
    BlockParts(t, indent);
    r := r + Repeat('\n', Extra(t[..body], trail));
  }

  lemma BlockParts(t: string, indent: nat)
    ensures var body := TrimBreaks(t);
            var trail := |t| - |body|;
            BlockText(t, indent) == "|" + Mark(body, trail) + "\n" + BodyText(body, indent) + Repeat('\n', Extra(body, trail))
  {}

  // ----- reading the lines back -----

  function LineOf(line: string): Line {
    if line == "" then Empty else Content(line, Blank(line[0]))
  }

  function LinesOf(b: string): seq<Line>
    decreases |b|
  {
    if b == "" then [] else [LineOf(FirstLine(b))] + LinesOf(More(b))
  }

  lemma {:induction false} SpacesOver(s: string, j: nat, n: nat)
    requires j + n <= |s| && forall i | j <= i < j + n :: s[i] == ' '
    ensures Spaces(s, j) == n + Spaces(s, j + n)
    decreases n
  {
    if n > 0 { SpacesOver(s, j + 1, n - 1); }
  }

  lemma {:induction false} SpacesStop(s: string, j: nat, k: nat)
    requires j <= k < |s| && s[k] != ' '
    ensures j + Spaces(s, j) <= k
    decreases k - j
  {
    if j < k && s[j] == ' ' { SpacesStop(s, j + 1, k); }
  }

  lemma LinesStep(s: string, j: nat, base: nat, line: Line, next: nat)
    requires j < |s| && LineAt(s, j, base) == OneLine(line, next)
    ensures j < next <= |s| && Lines(s, j, base) == Prepend([line], Lines(s, next, base))
  {}

  lemma {:induction false} ToBreakAt(s: string, j: nat, k: nat)
    requires j <= k < |s| && s[k] == '\n' && forall i | j <= i < k :: !Break(s[i])
    ensures ToBreak(s, j) == k
    decreases k - j
  {
    if j < k { ToBreakAt(s, j + 1, k); }
  }

  /** An indented line reads as itself. */
  lemma LineReads(s: string, j: nat, indent: nat, k: nat)
    requires indent > 0 && j + indent < k < |s| && s[k] == '\n'
    requires (forall i | j <= i < j + indent :: s[i] == ' ') && forall i | j + indent <= i < k :: !Break(s[i])
    ensures LineAt(s, j, indent) == OneLine(Content(s[j + indent..k], Blank(s[j + indent])), k + 1)
  {
    SpacesOver(s, j, indent);
    var li := Spaces(s, j);
    var e := j + li;
    if e == k {
      assert s[j + indent..k] == Repeat(' ', li - indent);
    } else {
      SpacesStop(s, j, k);
      ToBreakAt(s, e, k);
    }
  }

  /** The break-free characters the emitter's texts are made of. */
  predicate Lineable(b: string) {
    forall i | 0 <= i < |b| :: b[i] != '\r'
  }

  function Prepend(lines: seq<Line>, b: Block): Block {
    match b case Tabs => Tabs case Block(rest, end) => Block(lines + rest, end)
  }

  lemma PrependTwo(x: seq<Line>, y: seq<Line>, b: Block)
    ensures Prepend(x, Prepend(y, b)) == Prepend(x + y, b)
  {
    if b.Block? { assert x + (y + b.lines) == x + y + b.lines; }
  }

  /** The body's lines, then whatever follows. */
  lemma {:induction false} BodyReads(s: string, j: nat, b: string, indent: nat)
    requires indent > 0 && Lineable(b) && At(s, j, BodyText(b, indent))
    ensures j + |BodyText(b, indent)| <= |s|
    ensures Lines(s, j, indent) == Prepend(LinesOf(b), Lines(s, j + |BodyText(b, indent)|, indent))
    decreases |b|
  {
    hide *;
    BodyUnfolds(b, indent);
    AtInside(s, j, BodyText(b, indent));
    if b == "" {
      PrependNone(Lines(s, j, indent));
    } else {
      var k := BodyFirst(s, j, b, indent);
      BodyReads(s, k, More(b), indent);
      BodyRest(s, j, k, b, indent);
    }
  }

  lemma BodyFirst(s: string, j: nat, b: string, indent: nat) returns (k: nat)
    requires b != "" && Lineable(b) && At(s, j, BodyText(b, indent))
    ensures k == j + |WrittenLine(FirstLine(b), indent)| && At(s, j, WrittenLine(FirstLine(b), indent))
    ensures Lineable(More(b)) && At(s, k, BodyText(More(b), indent))
  {
    hide *;
    BodyUnfolds(b, indent);
    k := j + |WrittenLine(FirstLine(b), indent)|;
    AtSplit(s, j, WrittenLine(FirstLine(b), indent), BodyText(More(b), indent));
  }

  lemma BodyRest(s: string, j: nat, k: nat, b: string, indent: nat)
    requires b != "" && Lineable(b) && indent > 0
    requires k == j + |WrittenLine(FirstLine(b), indent)| && At(s, j, WrittenLine(FirstLine(b), indent))
    requires k + |BodyText(More(b), indent)| <= |s|
    requires Lines(s, k, indent) == Prepend(LinesOf(More(b)), Lines(s, k + |BodyText(More(b), indent)|, indent))
    ensures j + |BodyText(b, indent)| <= |s|
    ensures Lines(s, j, indent) == Prepend(LinesOf(b), Lines(s, j + |BodyText(b, indent)|, indent))
  {
    hide *;
    BodyUnfolds(b, indent);
    BodyStep(s, j, FirstLine(b), indent, LinesOf(More(b)), |BodyText(More(b), indent)|);
  }

  lemma BodyStep(s: string, j: nat, line: string, indent: nat, lines: seq<Line>, size: nat)
    requires indent > 0 && (forall i | 0 <= i < |line| :: !Break(line[i])) && At(s, j, WrittenLine(line, indent))
    requires j + |WrittenLine(line, indent)| + size <= |s|
    requires var k := j + |WrittenLine(line, indent)|; Lines(s, k, indent) == Prepend(lines, Lines(s, k + size, indent))
    ensures Lines(s, j, indent) == Prepend([LineOf(line)] + lines, Lines(s, j + |WrittenLine(line, indent)| + size, indent))
  {
    hide *;
    WrittenLineReads(s, j, line, indent);
    var k := j + |WrittenLine(line, indent)|;
    LinesStep(s, j, indent, LineOf(line), k);
    PrependTwo([LineOf(line)], lines, Lines(s, k + size, indent));
  }

  lemma PrependNone(b: Block)
    ensures Prepend([], b) == b
  {
    if b.Block? { assert [] + b.lines == b.lines; }
  }

  lemma BodyUnfolds(b: string, indent: nat)
    requires Lineable(b)
    ensures b == "" ==> BodyText(b, indent) == "" && LinesOf(b) == []
    ensures b != "" ==>
              && BodyText(b, indent) == WrittenLine(FirstLine(b), indent) + BodyText(More(b), indent)
              && LinesOf(b) == [LineOf(FirstLine(b))] + LinesOf(More(b)) && WrittenLine(FirstLine(b), indent) != ""
              && Lineable(More(b)) && forall i | 0 <= i < |FirstLine(b)| :: !Break(FirstLine(b)[i])
  {}

  lemma WrittenLineReads(s: string, j: nat, line: string, indent: nat)
    requires indent > 0 && (forall i | 0 <= i < |line| :: !Break(line[i])) && At(s, j, WrittenLine(line, indent))
    ensures j < |s| && LineAt(s, j, indent) == OneLine(LineOf(line), j + |WrittenLine(line, indent)|)
  {
    if line == "" {
      AtChar(s, j, "\n", 0);
    } else {
      WrittenParts(s, j, line, indent);
      LineReads(s, j, indent, j + indent + |line|);
    }
  }

  lemma WrittenParts(s: string, j: nat, line: string, indent: nat)
    requires line != "" && At(s, j, WrittenLine(line, indent))
    ensures j + indent + |line| < |s| && s[j + indent + |line|] == '\n' && s[j + indent..j + indent + |line|] == line
    ensures forall i | j <= i < j + indent :: s[i] == ' '
    ensures forall i | j + indent <= i < j + indent + |line| :: s[i] == line[i - j - indent]
  {
    AtSplit(s, j, Repeat(' ', indent) + line, "\n");
    AtSplit(s, j, Repeat(' ', indent), line);
    AtChar(s, j + indent + |line|, "\n", 0);
    forall i | j <= i < j + indent ensures s[i] == ' ' { AtChar(s, j, Repeat(' ', indent), i - j); }
    forall i | j + indent <= i < j + indent + |line| ensures s[i] == line[i - j - indent] { AtChar(s, j + indent, line, i - j - indent); }
  }

  function Empties(n: nat): (r: seq<Line>)
    ensures |r| == n && forall i | 0 <= i < n :: r[i] == Empty
  {
    seq(n, _ => Empty)
  }

  lemma OneFeed(s: string, j: nat, n: nat)
    requires n > 0 && At(s, j, Repeat('\n', n))
    ensures j < |s| && s[j] == '\n' && At(s, j + 1, Repeat('\n', n - 1))
  {
    AtChar(s, j, Repeat('\n', n), 0);
    assert Repeat('\n', n) == "\n" + Repeat('\n', n - 1);
    AtSplit(s, j, "\n", Repeat('\n', n - 1));
  }

  /** Empty lines, then whatever follows. */
  lemma {:induction false} EmptiesRead(s: string, j: nat, n: nat, base: nat)
    requires At(s, j, Repeat('\n', n))
    ensures j + n <= |s| && Lines(s, j, base) == Prepend(Empties(n), Lines(s, j + n, base))
    decreases n
  {
    hide At, Lines, Repeat;
    AtInside(s, j, Repeat('\n', n));
    if n == 0 {
      assert Empties(0) == [];
      PrependNone(Lines(s, j, base));
    } else {
      OneFeed(s, j, n);
      EmptiesRead(s, j + 1, n - 1, base);
      EmptyStep(s, j, n, base);
    }
  }

  lemma EmptyStep(s: string, j: nat, n: nat, base: nat)
    requires n > 0 && j + n <= |s| && s[j] == '\n' && Lines(s, j + 1, base) == Prepend(Empties(n - 1), Lines(s, j + n, base))
    ensures Lines(s, j, base) == Prepend(Empties(n), Lines(s, j + n, base))
  {
    assert LineAt(s, j, base) == OneLine(Empty, j + 1);
    hide LineAt, Lines;
    LinesStep(s, j, base, Empty, j + 1);
    assert [Empty] + Empties(n - 1) == Empties(n);
    PrependTwo([Empty], Empties(n - 1), Lines(s, j + n, base));
  }

  // ----- the text of the lines -----

  lemma {:induction false} RawOfBody(b: string)
    requires b != "" && b[|b| - 1] != '\n'
    ensures Raw(LinesOf(b)) == b + "\n"
    decreases |b|
  {
    var line, more := FirstLine(b), More(b);
    RawConcat([LineOf(line)], LinesOf(more));
    assert Raw([LineOf(line)]) == line + "\n" + Raw([]);
    BodyParts(b);
    if more != "" {
      RawOfBody(more);
      hide FirstLine, More, LineEnd;
      Regroup(line, "\n", more + "\n");
      Regroup(line + "\n", more, "\n");
    }
  }

  lemma BodyParts(b: string)
    requires b != "" && b[|b| - 1] != '\n'
    ensures var line, more := FirstLine(b), More(b);
            if more == "" then b == line else b == line + "\n" + more && more[|more| - 1] != '\n'
  {}

  lemma {:induction false} RawOfEmpties(n: nat)
    ensures Raw(Empties(n)) == Repeat('\n', n)
  {
    if n > 0 {
      RawOfEmpties(n - 1);
      assert Empties(n)[1..] == Empties(n - 1);
      assert "\n" + Repeat('\n', n - 1) == Repeat('\n', n);
    }
  }

  // ----- the indentation and the header -----

  /** Only spaces less indented than the block, a document marker, or the end of the input follow. */
  predicate Ends(s: string, j: nat, indent: int)
    requires j <= |s|
  {
    j == |s| || DocIndicator(s, j) ||
    var e := j + Spaces(s, j); e < |s| && e - j <= indent && !Break(s[e]) && !(s[e] == '\t' && OnlyBlanks(s, e))
  }

  lemma EndStops(s: string, j: nat, indent: int, base: nat)
    requires j <= |s| && Ends(s, j, indent) && base > indent
    ensures Lines(s, j, base) == Block([], j)
  {}

  /** The probe steps over empty lines. */
  lemma {:induction false} ProbeEmpties(s: string, j: nat, n: nat)
    requires At(s, j, Repeat('\n', n))
    ensures j + n <= |s| && Probe(s, j, 0) == Probe(s, j + n, 0)
    decreases n
  {
    hide At, Repeat;
    AtInside(s, j, Repeat('\n', n));
    if n > 0 {
      OneFeed(s, j, n);
      ProbeEmpties(s, j + 1, n - 1);
    }
  }

  /** A body that may be written literally begins with empty lines and then one
      that starts with no space. */
  lemma {:induction false} BodyStarts(b: string, indent: nat) returns (n: nat, line: string, rest: string)
    requires b != "" && Lineable(b) && FirstReal(b) < |b| && b[FirstReal(b)] != ' '
    ensures BodyText(b, indent) == Repeat('\n', n) + (WrittenLine(line, indent) + rest)
    ensures line != "" && line[0] != ' ' && forall i | 0 <= i < |line| :: !Break(line[i])
    decreases |b|
  {
    BodyUnfolds(b, indent);
    line, rest := FirstLine(b), BodyText(More(b), indent);
    if b[0] == '\n' {
      n, line, rest := BodyStarts(b[1..], indent);
      var tail := WrittenLine(line, indent) + rest;
      assert BodyText(b, indent) == "\n" + BodyText(b[1..], indent);
      RepeatFront(n, tail);
      n := n + 1;
    } else {
      n := 0;
      assert Repeat('\n', 0) + (WrittenLine(line, indent) + rest) == WrittenLine(line, indent) + rest;
    }
  }

  lemma RepeatFront(n: nat, tail: string)
    ensures "\n" + (Repeat('\n', n) + tail) == Repeat('\n', n + 1) + tail
  {}

  /** Then the indentation is detected. */
  lemma IndentFound(s: string, j: nat, b: string, indent: nat)
    requires b != "" && Lineable(b) && FirstReal(b) < |b| && b[FirstReal(b)] != ' ' && indent > 0
    requires At(s, j, BodyText(b, indent))
    ensures Probe(s, j, 0) == Probed(Some(indent), 0)
  {
    hide At, Probe, BodyText, WrittenLine, Repeat, FirstReal;
    var n, line, rest := BodyStarts(b, indent);
    var w := WrittenLine(line, indent);
    AtSplit(s, j, Repeat('\n', n), w + rest);
    AtSplit(s, j + n, w, rest);
    ProbeEmpties(s, j, n);
    ProbeLine(s, j + n, line, indent);
  }

  lemma ProbeLine(s: string, k: nat, line: string, indent: nat)
    requires line != "" && line[0] != ' ' && !Break(line[0]) && indent > 0 && At(s, k, WrittenLine(line, indent))
    ensures k <= |s| && Probe(s, k, 0) == Probed(Some(indent), 0)
  {
    WrittenParts(s, k, line, indent);
    SpacesOver(s, k, indent);
  }

  lemma NothingFound(s: string, j: nat, n: nat, indent: int)
    requires At(s, j, Repeat('\n', n)) && j + n <= |s| && Ends(s, j + n, indent) && indent >= -1
    ensures BaseIndent(s, j, indent, 0) == Some(Max(indent + 1, 1))
  {
    ProbeEmpties(s, j, n);
  }

  function ModeOf(mark: string): Chomping {
    if mark == "" then Clip else if mark == "-" then Strip else Keep
  }

  lemma HeaderReads(s: string, j: nat, mark: string)
    requires mark in {"", "-", "+"}
    requires At(s, j, mark + "\n")
    ensures HeaderAt(s, j) == Some(Header(ModeOf(mark), 0, j + |mark| + 1))
  {
    AtChar(s, j, mark + "\n", 0);
    AtChar(s, j, mark + "\n", |mark|);
  }

  // ----- the round trip -----

  lemma {:induction false} TrimOver(b: string, n: nat)
    ensures TrimBreaks(b + Repeat('\n', n)) == TrimBreaks(b)
  {
    if n == 0 {
      assert b + Repeat('\n', 0) == b;
    } else {
      TrimOver(b, n - 1);
      var t := b + Repeat('\n', n);
      assert t[..|t| - 1] == b + Repeat('\n', n - 1);
    }
  }

  lemma {:induction false} TrimRest(t: string)
    ensures t == TrimBreaks(t) + Repeat('\n', |t| - |TrimBreaks(t)|)
  {
    if t != "" && t[|t| - 1] == '\n' {
      TrimRest(t[..|t| - 1]);
    }
  }

  /** All the lines written, as read. */
  lemma WrittenLines(s: string, j: nat, body: string, base: nat, n: nat, outer: int)
    requires Lineable(body) && base > 0 && base > outer
    requires At(s, j, BodyText(body, base)) && At(s, j + |BodyText(body, base)|, Repeat('\n', n))
    requires j + |BodyText(body, base)| + n <= |s| && Ends(s, j + |BodyText(body, base)| + n, outer)
    ensures Lines(s, j, base) == Block(LinesOf(body) + Empties(n), j + |BodyText(body, base)| + n)
  {
    hide *;
    var k := j + |BodyText(body, base)|;
    BodyReads(s, j, body, base);
    EmptiesRead(s, k, n, base);
    EndStops(s, k + n, outer, base);
    PrependEnd(LinesOf(body), Empties(n), k + n);
  }

  lemma PrependEnd(x: seq<Line>, y: seq<Line>, end: nat)
    ensures Prepend(x, Prepend(y, Block([], end))) == Block(x + y, end)
  {
    assert y + [] == y;
  }

  lemma RawOfWritten(body: string, n: nat)
    requires body == "" || body[|body| - 1] != '\n'
    ensures Raw(LinesOf(body) + Empties(n)) == (if body == "" then "" else body + "\n") + Repeat('\n', n)
  {
    RawConcat(LinesOf(body), Empties(n));
    RawOfEmpties(n);
    if body != "" { RawOfBody(body); }
  }

  /** Chomping what was read gives the text. */
  lemma ChompsBack(t: string)
    ensures var body := TrimBreaks(t);
            var trail := |t| - |body|;
            var mark := Mark(body, trail);
            var raw := (if body == "" then "" else body + "\n") + Repeat('\n', Extra(body, trail));
            Chomp(raw, ModeOf(mark)) == t
  {
    TrimRest(t);
    var body := TrimBreaks(t);
    var trail := |t| - |body|;
    if body == "" {
      assert "" + Repeat('\n', trail) == Repeat('\n', trail);
    } else {
      assert TrimBreaks(body) == body;
      TrimOver(body, 1);
      assert body + Repeat('\n', 1) == body + "\n";
      assert body + "\n" + Repeat('\n', 0) == body + "\n";
      if trail > 0 { FeedFront(body, trail - 1); }
    }
  }

  lemma FeedFront(b: string, n: nat)
    ensures b + "\n" + Repeat('\n', n) == b + Repeat('\n', n + 1)
  {
    assert "\n" + Repeat('\n', n) == Repeat('\n', n + 1);
  }

  lemma {:induction false} FirstRealBody(body: string, n: nat)
    requires body != "" && body[|body| - 1] != '\n'
    ensures FirstReal(body) < |body| && FirstReal(body + Repeat('\n', n)) == FirstReal(body)
    decreases |body|
  {
    var t := body + Repeat('\n', n);
    if body[0] == '\n' {
      assert t[1..] == body[1..] + Repeat('\n', n);
      FirstRealBody(body[1..], n);
    }
  }

  /** What literal_ok says of the text says as much of its body. */
  lemma BodyOk(t: string)
    requires LiteralOk(t)
    ensures var body := TrimBreaks(t); Lineable(body) && (body != "" ==> FirstReal(body) < |body| && body[FirstReal(body)] != ' ')
  {
    var body := TrimBreaks(t);
    TrimRest(t);
    assert forall i | 0 <= i < |body| :: body[i] == t[i] && Ordinary(t[i]);
    if body != "" { FirstRealBody(body, |t| - |body|); }
  }

  /** The scanner's indentation for what was written. */
  lemma BaseFound(s: string, j: nat, body: string, indent: nat, n: nat, outer: int)
    requires Lineable(body) && (body != "" ==> FirstReal(body) < |body| && body[FirstReal(body)] != ' ')
    requires indent > 0 && indent > outer >= -1
    requires At(s, j, BodyText(body, indent)) && At(s, j + |BodyText(body, indent)|, Repeat('\n', n))
    requires j + |BodyText(body, indent)| + n <= |s| && Ends(s, j + |BodyText(body, indent)| + n, outer)
    ensures BaseIndent(s, j, outer, 0) == Some(if body == "" then Max(outer + 1, 1) else indent)
  {
    if body == "" { NothingFound(s, j, n, outer); } else { IndentFound(s, j, body, indent); }
  }

  /** A text that literal_ok accepts, written with any indentation deeper than
      the enclosing block's and followed by the end of the input, a document
      marker or a line that is not deeper than that block, reads back. */
  lemma LiteralReads(s: string, j: nat, t: string, indent: nat, outer: int)
    requires LiteralOk(t) && indent > 0 && indent > outer >= -1
    requires At(s, j, BlockText(t, indent)) && j + |BlockText(t, indent)| <= |s| && Ends(s, j + |BlockText(t, indent)|, outer)
    ensures ReadBlock(s, j + 1, false, outer) == Scalar(t, j + |BlockText(t, indent)|)
  {
    hide ReadBlock, At, Lines, Raw, Chomp, HeaderAt, BaseIndent, BodyText, BlockText, Repeat, Ends, TrimBreaks, LiteralOk, LinesOf, Empties, Mark, Extra, Lineable, FirstReal;
    BodyOk(t);
    Layout(s, j, t, indent);
    ChompWritten(t);
    AllRead(s, j + 1, Header(ModeOf(MarkOf(t)), 0, j + 2 + |MarkOf(t)|), TrimBreaks(t), indent, ExtraOf(t), outer, t);
  }

  function MarkOf(t: string): string { Mark(TrimBreaks(t), |t| - |TrimBreaks(t)|) }

  function ExtraOf(t: string): nat { Extra(TrimBreaks(t), |t| - |TrimBreaks(t)|) }

  /** Where the parts of a written scalar are. */
  lemma Layout(s: string, j: nat, t: string, indent: nat)
    requires At(s, j, BlockText(t, indent))
    ensures var text, k := BodyText(TrimBreaks(t), indent), j + 2 + |MarkOf(t)|;
            && j + 1 <= |s| && HeaderAt(s, j + 1) == Some(Header(ModeOf(MarkOf(t)), 0, k))
            && At(s, k, text) && At(s, k + |text|, Repeat('\n', ExtraOf(t)))
            && j + |BlockText(t, indent)| == k + |text| + ExtraOf(t)
  {
    hide *;
    MarkNamed(t, indent);
    AtInside(s, j, BlockText(t, indent));
    TextAt(s, j, MarkOf(t), BodyText(TrimBreaks(t), indent), ExtraOf(t));
    MarkKinds(TrimBreaks(t), |t| - |TrimBreaks(t)|);
    HeaderReads(s, j + 1, MarkOf(t));
  }

  lemma MarkNamed(t: string, indent: nat)
    ensures MarkOf(t) == Mark(TrimBreaks(t), |t| - |TrimBreaks(t)|)
    ensures BlockText(t, indent) == "|" + MarkOf(t) + "\n" + BodyText(TrimBreaks(t), indent) + Repeat('\n', ExtraOf(t))
  {}

  lemma ChompWritten(t: string)
    ensures Chomp(Raw(LinesOf(TrimBreaks(t)) + Empties(ExtraOf(t))), ModeOf(MarkOf(t))) == t
  {
    hide Raw, Chomp, Empties, LinesOf;
    RawOfWritten(TrimBreaks(t), ExtraOf(t));
    ChompsBack(t);
  }

  /** From the header on. */
  lemma AllRead(s: string, j: nat, h: Header, body: string, indent: nat, n: nat, outer: int, t: string)
    requires j <= |s| && HeaderAt(s, j) == Some(h) && h.explicit == 0
    requires Lineable(body) && (body != "" ==> FirstReal(body) < |body| && body[FirstReal(body)] != ' ')
    requires indent > 0 && indent > outer >= -1
    requires At(s, h.pos, BodyText(body, indent)) && At(s, h.pos + |BodyText(body, indent)|, Repeat('\n', n))
    requires h.pos + |BodyText(body, indent)| + n <= |s| && Ends(s, h.pos + |BodyText(body, indent)| + n, outer)
    requires Chomp(Raw(LinesOf(body) + Empties(n)), h.mode) == t
    ensures ReadBlock(s, j, false, outer) == Scalar(t, h.pos + |BodyText(body, indent)| + n)
  {
    hide ReadBlock, At, Lines, Raw, Chomp, HeaderAt, BaseIndent, BodyText, Repeat, Ends, LinesOf, Empties, Lineable, FirstReal;
    var base := PartsRead(s, h.pos, body, indent, n, outer);
    Assembled(s, j, h, base, LinesOf(body) + Empties(n), h.pos + |BodyText(body, indent)| + n, outer, t);
  }

  lemma PartsRead(s: string, k: nat, body: string, indent: nat, n: nat, outer: int) returns (base: nat)
    requires Lineable(body) && (body != "" ==> FirstReal(body) < |body| && body[FirstReal(body)] != ' ')
    requires indent > 0 && indent > outer >= -1
    requires At(s, k, BodyText(body, indent)) && At(s, k + |BodyText(body, indent)|, Repeat('\n', n))
    requires k + |BodyText(body, indent)| + n <= |s| && Ends(s, k + |BodyText(body, indent)| + n, outer)
    ensures BaseIndent(s, k, outer, 0) == Some(base)
    ensures Lines(s, k, base) == Block(LinesOf(body) + Empties(n), k + |BodyText(body, indent)| + n)
  {
    hide At, Lines, BaseIndent, BodyText, Repeat, Ends, LinesOf, Empties, Lineable, FirstReal;
    base := if body == "" then Max(outer + 1, 1) else indent;
    NoText(base, indent);
    BaseFound(s, k, body, indent, n, outer);
    WrittenLines(s, k, body, base, n, outer);
  }

  lemma NoText(a: nat, b: nat)
    ensures BodyText("", a) == BodyText("", b)
  {}

  lemma MarkKinds(body: string, trail: nat)
    ensures Mark(body, trail) in {"", "-", "+"}
  {}

  lemma Assembled(s: string, j: nat, h: Header, base: nat, lines: seq<Line>, end: nat, outer: int, t: string)
    requires j <= |s| && HeaderAt(s, j) == Some(h) && BaseIndent(s, h.pos, outer, h.explicit) == Some(base)
    requires Lines(s, h.pos, base) == Block(lines, end) && Chomp(Raw(lines), h.mode) == t
    ensures ReadBlock(s, j, false, outer) == Scalar(t, end)
  {}

  lemma TextAt(s: string, j: nat, mark: string, text: string, n: nat)
    requires At(s, j, "|" + mark + "\n" + text + Repeat('\n', n))
    ensures var k := j + 1 + |mark| + 1;
            At(s, j + 1, mark + "\n") && At(s, k, text) && At(s, k + |text|, Repeat('\n', n))
  {
    AtSplit(s, j, "|" + mark + "\n" + text, Repeat('\n', n));
    AtSplit(s, j, "|" + mark + "\n", text);
    assert "|" + mark + "\n" == "|" + (mark + "\n");
    AtSplit(s, j, "|", mark + "\n");
  }

  /** Written after `before`, then scanned from the '|'. */
  method RoundTrip(before: string, t: string, rest: string, indent: nat, outer: int) returns (r: Scanned)
    requires LiteralOk(t) && indent > 0 && indent > outer >= -1
    requires Ends(before + BlockText(t, indent) + rest, |before + BlockText(t, indent)|, outer)
    ensures r == Scalar(t, |before| + |BlockText(t, indent)|)
  {
    var written := EmitBlock(before, t, indent);
    LiteralReads(written + rest, |before|, t, indent, outer);
    r := ScanBlock(written + rest, |before| + 1, false, outer);
  }
}
