/**
 * Block scalars (YAML 1.2.2 section 8.1): the header, the indentation, a pass
 * that measures, a pass that copies, folding and chomping; and the literal
 * scalars the emitter writes, which read back exactly.
 */
module BlockScalar {
  import opened Chars
  import opened Events

  // ----- lines -----

  /** How many spaces start at `j`. */
  function Spaces(s: string, j: nat): (n: nat)
    requires j <= |s|
    ensures j + n <= |s| && (j + n < |s| ==> s[j + n] != ' ') && forall i | j <= i < j + n :: s[i] == ' '
    decreases |s| - j
  {
    if j < |s| && s[j] == ' ' then 1 + Spaces(s, j + 1) else 0
  }

  /** The first line break at or after `j`. */
  function ToBreak(s: string, j: nat): (r: nat)
    requires j <= |s|
    ensures j <= r <= |s| && (r < |s| ==> Break(s[r])) && forall i | j <= i < r :: !Break(s[i])
    decreases |s| - j
  {
    if j == |s| || Break(s[j]) then j else ToBreak(s, j + 1)
  }

  function AfterLine(s: string, j: nat): (r: nat)
    requires j <= |s| && (j < |s| ==> Break(s[j]))
    ensures j <= r <= |s| && (j < |s| ==> j < r)
  {
    if j < |s| then AfterBreak(s, j) else j
  }

  /** is_doc_indicator_at */
  predicate DocIndicator(s: string, j: nat) {
    j + 3 <= |s| && (s[j] == '-' || s[j] == '.') && s[j + 1] == s[j] && s[j + 2] == s[j] &&
    (j + 3 == |s| || Blank(s[j + 3]) || Break(s[j + 3]))
  }

  /** A line without the block's indentation; `ws`: it starts with a blank. */
  datatype Line = Empty | Content(text: string, ws: bool)

  datatype LineResult = OneLine(line: Line, next: nat) | NoMore | TabError

  predicate OnlyBlanks(s: string, e: nat)
    requires e <= |s|
  {
    var k := AfterBlanks(s, e); k == |s| || Break(s[k])
  }

  function LineAt(s: string, pos: nat, base: nat): (r: LineResult)
    requires pos < |s|
    ensures r.OneLine? ==> pos < r.next <= |s|
  {
    var li := Spaces(s, pos);
    var e := pos + li;
    if e == |s| || Break(s[e]) then
      OneLine(if li > base then Content(Repeat(' ', li - base), true) else Empty, AfterLine(s, e))
    else if li == 0 && DocIndicator(s, pos) then NoMore
    else if li < base then if s[e] == '\t' && OnlyBlanks(s, e) then TabError else NoMore
    else
      var b := ToBreak(s, e);
      OneLine(Content(s[pos + base..b], li > base || Blank(s[e])), AfterLine(s, b))
  }

  datatype Block = Block(lines: seq<Line>, end: nat) | Tabs

  function Lines(s: string, pos: nat, base: nat): (r: Block)
    requires pos <= |s|
    ensures r.Block? ==> pos <= r.end <= |s|
    decreases |s| - pos
  {
    if pos == |s| then Block([], pos)
    else
      match LineAt(s, pos, base)
      case NoMore => Block([], pos)
      case TabError => Tabs
      case OneLine(line, next) =>
        match Lines(s, next, base)
        case Tabs => Tabs
        case Block(rest, end) => Block([line] + rest, end)
  }

  function LineText(l: Line): string { if l.Empty? then "" else l.text }

  /** The lines as they are, each ended by a line feed. */
  function Raw(lines: seq<Line>): string {
    if lines == [] then "" else LineText(lines[0]) + "\n" + Raw(lines[1..])
  }

  lemma {:induction false} RawConcat(a: seq<Line>, b: seq<Line>)
    ensures Raw(a + b) == Raw(a) + Raw(b)
    decreases |a|
  {
    if a == [] {
      assert a + b == b;
    } else {
      assert (a + b)[1..] == a[1..] + b;
      RawConcat(a[1..], b);
    }
  }

  // ----- folding -----

  function EmptiesAhead(lines: seq<Line>): (n: nat)
    ensures n <= |lines| && (n < |lines| ==> lines[n].Content?) && forall i | 0 <= i < n :: lines[i].Empty?
  {
    if lines == [] || lines[0].Content? then 0 else 1 + EmptiesAhead(lines[1..])
  }

  /** What stands between a content line and the next one, `e` empty lines apart. */
  function Between(line: Line, e: nat, rest: seq<Line>): string
    requires line.Content? && (rest != [] ==> rest[0].Content?)
  {
    if rest == [] || line.ws then Repeat('\n', e + 1)
    else if e > 0 then Repeat('\n', if rest[0].ws then e + 1 else e)
    else if rest[0].ws then "\n" else " "
  }

  function FoldLines(lines: seq<Line>): string
    decreases |lines|
  {
    if lines == [] then ""
    else if lines[0].Empty? then "\n" + FoldLines(lines[1..])
    else
      var e := EmptiesAhead(lines[1..]);
      var rest := lines[1 + e..];
      lines[0].text + Between(lines[0], e, rest) + FoldLines(rest)
  }

  lemma {:induction false} RawEmpties(lines: seq<Line>, e: nat)
    requires e <= |lines| && forall i | 0 <= i < e :: lines[i].Empty?
    ensures |Raw(lines)| == e + |Raw(lines[e..])|
    decreases e
  {
    if e > 0 {
      RawEmpties(lines[1..], e - 1);
      assert lines[1..][e - 1..] == lines[e..];
    }
  }

  /** Folding never lengthens the text. */
  lemma {:induction false} FoldingShortens(lines: seq<Line>)
    ensures |FoldLines(lines)| <= |Raw(lines)|
    decreases |lines|
  {
    if lines != [] {
      if lines[0].Empty? {
        FoldingShortens(lines[1..]);
      } else {
        var e := EmptiesAhead(lines[1..]);
        RawEmpties(lines[1..], e);
        assert lines[1..][e..] == lines[1 + e..];
        FoldingShortens(lines[1 + e..]);
      }
    }
  }

  predicate EndsInBreak(t: string) { t != "" && t[|t| - 1] == '\n' }

  lemma {:induction false} RawEnds(lines: seq<Line>)
    requires lines != []
    ensures EndsInBreak(Raw(lines))
  {
    if |lines| > 1 { RawEnds(lines[1..]); } else { assert Raw(lines[1..]) == ""; }
  }

  lemma {:induction false} FoldEnds(lines: seq<Line>)
    requires lines != []
    ensures EndsInBreak(FoldLines(lines))
    decreases |lines|
  {
    if lines[0].Empty? {
      if |lines| > 1 { FoldEnds(lines[1..]); } else { assert FoldLines(lines[1..]) == ""; }
    } else {
      var e := EmptiesAhead(lines[1..]);
      var rest := lines[1 + e..];
      if rest != [] { FoldEnds(rest); } else { assert FoldLines(rest) == ""; }
    }
  }

  // ----- chomping -----

  datatype Chomping = Clip | Strip | Keep

  function TrimBreaks(t: string): (r: string)
    ensures |r| <= |t| && r == t[..|r|] && (r != "" ==> r[|r| - 1] != '\n')
  {
    if t != "" && t[|t| - 1] == '\n' then TrimBreaks(t[..|t| - 1]) else t
  }

  function Chomp(t: string, mode: Chomping): string {
    match mode
    case Keep => t
    case Strip => TrimBreaks(t)
    case Clip => if TrimBreaks(t) == "" then "" else TrimBreaks(t) + "\n"
  }

  // ----- the header and the indentation -----

  datatype Header = Header(mode: Chomping, explicit: nat, pos: nat)

  /** At most `n` more indicators. */
  function Indicators(s: string, j: nat, n: nat, mode: Chomping, explicit: nat): (h: Header)
    requires j <= |s|
    ensures j <= h.pos <= |s|
    decreases n
  {
    if n == 0 || j == |s| || Break(s[j]) then Header(mode, explicit, j)
    else if s[j] == '-' then Indicators(s, j + 1, n - 1, Strip, explicit)
    else if s[j] == '+' then Indicators(s, j + 1, n - 1, Keep, explicit)
    else if '1' <= s[j] <= '9' then Indicators(s, j + 1, n - 1, mode, s[j] as int - '0' as int)
    else Header(mode, explicit, j)
  }

  /** Everything on the indicator line; None if it is malformed. */
  function HeaderAt(s: string, j: nat): (r: Option<Header>)
    requires j <= |s|
    ensures r.Some? ==> j <= r.value.pos <= |s|
  {
    var h := Indicators(s, j, 2, Clip, 0);
    var k := AfterBlanks(s, h.pos);
    if k < |s| && s[k] == '#' && k == h.pos then None
    else
      var e := if k < |s| && s[k] == '#' then ToBreak(s, k) else k;
      if e < |s| && !Break(s[e]) then None else Some(h.(pos := AfterLine(s, e)))
  }

  /** The first content line's indentation, and the longest line of spaces before it. */
  datatype Probed = Probed(content: Option<nat>, longest: nat)

  function Max(a: int, b: int): int { if a > b then a else b }

  function Probe(s: string, pos: nat, longest: nat): Probed
    requires pos <= |s|
    decreases |s| - pos
  {
    if pos == |s| then Probed(None, longest)
    else
      var li := Spaces(s, pos);
      var e := pos + li;
      if e == |s| then Probed(None, Max(longest, li))
      else if li == 0 && DocIndicator(s, pos) then Probed(None, longest)
      else if Break(s[e]) then Probe(s, AfterBreak(s, e), Max(longest, li))
      else Probed(Some(li), longest)
  }

  /** The content's indentation in a block indented by `indent`; None for a
      leading empty line that is too long. */
  function BaseIndent(s: string, pos: nat, indent: int, explicit: nat): Option<nat>
    requires pos <= |s|
  {
    if explicit > 0 then Some(Max(indent + explicit, explicit))
    else
      var p := Probe(s, pos, 0);
      if p.content.Some? && p.content.value >= Max(indent + 1, 0) then
        if p.longest > p.content.value then None else p.content
      else Some(Max(p.longest, Max(indent + 1, 1)))
  }

  datatype Scanned = Scalar(value: string, end: nat) | Failed

  /** The scalar whose '|' or '>' is just before `j`. */
  function ReadBlock(s: string, j: nat, folded: bool, indent: int): Scanned
    requires j <= |s|
  {
    match HeaderAt(s, j)
    case None => Failed
    case Some(h) =>
      match BaseIndent(s, h.pos, indent, h.explicit)
      case None => Failed
      case Some(base) =>
        match Lines(s, h.pos, base)
        case Tabs => Failed
        case Block(lines, end) => Scalar(Chomp(if folded then FoldLines(lines) else Raw(lines), h.mode), end)
  }

  // ----- the code -----

  method CountSpaces(s: string, j: nat) returns (n: nat)
    requires j <= |s|
    ensures n == Spaces(s, j)
  {
    n := 0;
    while j + n < |s| && s[j + n] == ' '
      invariant j + n <= |s| && Spaces(s, j) == n + Spaces(s, j + n)
    {
      n := n + 1;
    }
  }

  method ScanToBreak(s: string, j: nat) returns (r: nat)
    requires j <= |s|
    ensures r == ToBreak(s, j)
  {
    r := j;
    while r < |s| && !Break(s[r])
      invariant j <= r <= |s| && ToBreak(s, r) == ToBreak(s, j)
    {
      r := r + 1;
    }
  }

  /** The measuring pass: the bytes the copy needs, and where it ends. */
  method Measure(s: string, start: nat, base: nat) returns (ok: bool, needed: nat, end: nat)
    requires start <= |s|
    ensures ok == Lines(s, start, base).Block?
    ensures ok ==> needed == |Raw(Lines(s, start, base).lines)| && end == Lines(s, start, base).end
  {
    needed, end := 0, start;
    ghost var done: seq<Line> := [];
    while end < |s|
      invariant start <= end <= |s| && needed == |Raw(done)|
      invariant Resumes(Lines(s, start, base), done, Lines(s, end, base))
      decreases |s| - end
    {
      var li := CountSpaces(s, end);
      var e := end + li;
      var size: nat, next: nat := 1, e;
      if e == |s| || Break(s[e]) {
        if li > base { size := li - base + 1; }
        next := AfterLine(s, e);
      } else if li == 0 && DocIndicator(s, end) {
        break;
      } else if li < base {
        if s[e] == '\t' {
          var k := SkipBlanks(s, e);
          if k == |s| || Break(s[k]) { return false, 0, 0; }
        }
        break;
      } else {
        var b := ScanToBreak(s, e);
        size := b - (end + base) + 1;
        next := AfterLine(s, b);
      }
      var line := LineAt(s, end, base).line;
      ResumesOne(Lines(s, start, base), done, s, end, base);
      RawConcat(done, [line]);
      assert Raw([line]) == LineText(line) + "\n" + Raw([]);
      done := done + [line];
      needed, end := needed + size, next;
    }
    assert done + [] == done;
    ok := true;
  }

  /** All the lines are the `done` ones and then the rest. */
  predicate Resumes(all: Block, done: seq<Line>, rest: Block) {
    if rest.Tabs? then all.Tabs? else all == Block(done + rest.lines, rest.end)
  }

  lemma ResumesOne(all: Block, done: seq<Line>, s: string, pos: nat, base: nat)
    requires pos < |s| && Resumes(all, done, Lines(s, pos, base)) && LineAt(s, pos, base).OneLine?
    ensures var r := LineAt(s, pos, base); Resumes(all, done + [r.line], Lines(s, r.next, base))
  {
    var r := LineAt(s, pos, base);
    var rest := Lines(s, r.next, base);
    if rest.Block? { assert done + ([r.line] + rest.lines) == done + [r.line] + rest.lines; }
  }

  /** Where a line's text is in the buffer (bsline). */
  datatype Span = Span(start: nat, len: nat, empty: bool, extra: bool)

  predicate Describes(span: Span, line: Line, text: string) {
    span.empty == line.Empty? &&
    (line.Content? ==> span.extra == line.ws && span.start + span.len <= |text| &&
                       text[span.start..span.start + span.len] == line.text)
  }

  predicate AllDescribe(spans: seq<Span>, lines: seq<Line>, text: string) {
    |spans| == |lines| && forall i | 0 <= i < |spans| :: Describes(spans[i], lines[i], text)
  }

  lemma DescribesMore(spans: seq<Span>, lines: seq<Line>, text: string, span: Span, line: Line, more: string)
    requires AllDescribe(spans, lines, text) && Describes(span, line, text + more)
    ensures AllDescribe(spans + [span], lines + [line], text + more)
  {
    forall i | 0 <= i < |spans| ensures Describes(spans[i], lines[i], text + more) {
      if lines[i].Content? {
        assert (text + more)[spans[i].start..spans[i].start + spans[i].len] == text[spans[i].start..spans[i].start + spans[i].len];
      }
    }
  }

  /** A line before the block's end lies before it altogether. */
  lemma LineInside(s: string, pos: nat, base: nat)
    requires pos < |s| && Lines(s, pos, base).Block? && pos < Lines(s, pos, base).end
    ensures var r, end := LineAt(s, pos, base), Lines(s, pos, base).end;
            r.OneLine? && r.next <= end && Lines(s, r.next, base).Block? && Lines(s, r.next, base).end == end &&
            (pos + Spaces(s, pos) < |s| ==> pos + Spaces(s, pos) < end)
  {}

  /** The copy pass writes exactly what was measured. */
  method Copy(s: string, start: nat, end: nat, base: nat, needed: nat) returns (buf: array<char>, out: nat, spans: seq<Span>)
    requires start <= |s| && Lines(s, start, base).Block? && end == Lines(s, start, base).end
    requires needed == |Raw(Lines(s, start, base).lines)|
    ensures fresh(buf) && buf.Length == needed + 1 && out == needed
    ensures buf[..out] == Raw(Lines(s, start, base).lines) && AllDescribe(spans, Lines(s, start, base).lines, buf[..out])
  {
    hide Lines, LineAt, Spaces, LineText, Raw, Describes, AllDescribe, Resumes;
    buf := new char[needed + 1](_ => '\0');
    out, spans := 0, [];
    ghost var all := Lines(s, start, base);
    ghost var done: seq<Line> := [];
    var pos := start;
    assert buf[..0] == "";
    NoneDone(all);
    while pos < end
      invariant start <= pos <= end && out <= needed && fresh(buf) && buf.Length == needed + 1
      invariant Lines(s, pos, base).Block? && Lines(s, pos, base).end == end
      invariant Resumes(all, done, Lines(s, pos, base))
      invariant buf[..out] == Raw(done) && AllDescribe(spans, done, buf[..out])
      decreases end - pos
    {
      LineInside(s, pos, base);
      ghost var line := LineAt(s, pos, base).line;
      ResumesOne(all, done, s, pos, base);
      RoomForLine(all, done, line, Lines(s, LineAt(s, pos, base).next, base));
      var span;
      ghost var before := buf[..out];
      out, pos, span := CopyLine(s, pos, end, base, buf, out);
      DescribesMore(spans, done, before, span, line, LineText(line) + "\n");
      done, spans := done + [line], spans + [span];
    }
    AllDone(all, done, s, end, base);
  }

  lemma NoneDone(all: Block)
    ensures Resumes(all, [], all) && Raw([]) == "" && AllDescribe([], [], "")
  {}

  lemma AllDone(all: Block, done: seq<Line>, s: string, end: nat, base: nat)
    requires end <= |s| && Lines(s, end, base).Block? && Lines(s, end, base).end == end && Resumes(all, done, Lines(s, end, base))
    ensures all == Block(done, end)
  {
    assert done + [] == done;
  }

  lemma RoomForLine(all: Block, done: seq<Line>, line: Line, rest: Block)
    requires Resumes(all, done + [line], rest) && rest.Block?
    ensures all.Block? && Raw(done + [line]) == Raw(done) + (LineText(line) + "\n") && |Raw(done + [line])| <= |Raw(all.lines)|
  {
    hide Raw, LineText;
    RawGrows(done, line, rest.lines);
  }

  lemma RawGrows(done: seq<Line>, line: Line, rest: seq<Line>)
    ensures Raw(done + [line]) == Raw(done) + (LineText(line) + "\n")
    ensures |Raw(done + [line])| <= |Raw(done + [line] + rest)|
  {
    RawConcat(done, [line]);
    assert Raw([line]) == LineText(line) + "\n" + Raw([]);
    RawConcat(done + [line], rest);
  }

  method CopyLine(s: string, pos: nat, end: nat, base: nat, buf: array<char>, out: nat) returns (out': nat, next: nat, span: Span)
    requires pos < |s| && LineAt(s, pos, base).OneLine? && pos < end <= |s|
    requires pos + Spaces(s, pos) < |s| ==> pos + Spaces(s, pos) < end
    requires out + |LineText(LineAt(s, pos, base).line)| + 1 <= buf.Length
    modifies buf
    ensures next == LineAt(s, pos, base).next && out' == out + |LineText(LineAt(s, pos, base).line)| + 1
    ensures buf[..out'] == old(buf[..out]) + (LineText(LineAt(s, pos, base).line) + "\n")
    ensures Describes(span, LineAt(s, pos, base).line, buf[..out'])
  {
    ghost var line := LineAt(s, pos, base).line;
    ghost var before := buf[..out];
    var li := CountSpaces(s, pos);
    var e := pos + li;
    var isBreak := e >= end || Break(s[e]);
    if isBreak && li <= base {
      span := Span(out, 0, true, false);
      out' := Append(buf, out, "\n");
      next := AfterLine(s, e);
      return;
    }
    out', next, span := CopyContent(s, pos, li, base, buf, out);
  }

  method CopyContent(s: string, pos: nat, li: nat, base: nat, buf: array<char>, out: nat) returns (out': nat, next: nat, span: Span)
    requires pos < |s| && li == Spaces(s, pos) && LineAt(s, pos, base).OneLine? && LineAt(s, pos, base).line.Content?
    requires out + |LineText(LineAt(s, pos, base).line)| + 1 <= buf.Length
    modifies buf
    ensures next == LineAt(s, pos, base).next && out' == out + |LineText(LineAt(s, pos, base).line)| + 1
    ensures buf[..out'] == old(buf[..out]) + (LineText(LineAt(s, pos, base).line) + "\n")
    ensures Describes(span, LineAt(s, pos, base).line, buf[..out'])
  {
    var e := pos + li;
    var ws := li > base || (e < |s| && !Break(s[e]) && Blank(s[e]));
    var b := ScanToBreak(s, e);
    next := AfterLine(s, b);
    TextParts(s, pos, li, base, b);
    assert LineAt(s, pos, base) == OneLine(Content(Repeat(' ', li - base) + s[e..b], ws), next);
    out', span := WriteContent(buf, out, li - base, s[e..b], ws);
  }

  /** memset for the extra spaces, memcpy for the rest, and a line feed. */
  method WriteContent(buf: array<char>, out: nat, extra: nat, rest: string, ws: bool) returns (out': nat, span: Span)
    requires out + extra + |rest| + 1 <= buf.Length
    modifies buf
    ensures out' == out + extra + |rest| + 1 && buf[..out'] == old(buf[..out]) + (Repeat(' ', extra) + rest + "\n")
    ensures Describes(span, Content(Repeat(' ', extra) + rest, ws), buf[..out'])
  {
    hide Repeat;
    ghost var before := buf[..out];
    var mid := Append(buf, out, Repeat(' ', extra));
    out' := Append(buf, mid, rest);
    span := Span(out, out' - out, false, ws);
    out' := Append(buf, out', "\n");
    Joined(before, Repeat(' ', extra), rest, "\n");
    Middle(before, Repeat(' ', extra) + rest, "\n");
  }

  lemma Joined(a: string, b: string, c: string, d: string)
    ensures a + b + c + d == a + (b + c + d)
  {}

  lemma Middle(a: string, b: string, c: string)
    ensures (a + (b + c))[|a|..|a| + |b|] == b
  {}

  /** The line's text is its extra spaces and the rest. */
  lemma TextParts(s: string, pos: nat, li: nat, base: nat, b: nat)
    requires pos <= |s| && li == Spaces(s, pos) && base <= li && pos + li <= b <= |s|
    ensures s[pos + base..b] == Repeat(' ', li - base) + s[pos + li..b]
    ensures b == pos + li ==> s[pos + base..b] == Repeat(' ', li - base)
  {}

  /** Folding, from the spans of the copied lines into a buffer no longer than it. */
  method Fold(text: string, spans: seq<Span>, ghost lines: seq<Line>) returns (buf: array<char>, out: nat)
    requires AllDescribe(spans, lines, text) && |text| == |Raw(lines)|
    ensures fresh(buf) && buf.Length == |text| + 1 && out <= |text| && buf[..out] == FoldLines(lines)
  {
    hide FoldLines, AllDescribe;
    buf := new char[|text| + 1](_ => '\0');
    out := 0;
    FoldingShortens(lines);
    FoldNothing();
    SameLength(spans, lines, text);
    var i: nat := 0;
    assert buf[..0] == "" && lines[0..] == lines;
    while i < |spans|
      invariant i <= |spans| && fresh(buf) && buf.Length == |text| + 1
      invariant out <= |text| && buf[..out] + FoldLines(lines[i..]) == FoldLines(lines)
      decreases |spans| - i
    {
      assert out + |FoldLines(lines[i..])| == |FoldLines(lines)|;
      out, i := FoldOne(text, spans, i, buf, out, lines);
      assert out + |FoldLines(lines[i..])| == |FoldLines(lines)|;
    }
    assert lines[i..] == [] && buf[..out] + "" == buf[..out];
  }

  lemma SameLength(spans: seq<Span>, lines: seq<Line>, text: string)
    requires AllDescribe(spans, lines, text)
    ensures |spans| == |lines|
  {}

  lemma FoldNothing()
    ensures FoldLines([]) == ""
  {}

  /** One line, or a content line with the empty ones after it. */
  method FoldOne(text: string, spans: seq<Span>, i: nat, buf: array<char>, out: nat, ghost lines: seq<Line>) returns (out': nat, j: nat)
    requires AllDescribe(spans, lines, text) && i < |spans| && out + |FoldLines(lines[i..])| <= buf.Length
    modifies buf
    ensures i < j <= |spans| && out < out' <= buf.Length
    ensures out' + |FoldLines(lines[j..])| == out + |FoldLines(lines[i..])|
    ensures buf[..out'] + FoldLines(lines[j..]) == old(buf[..out]) + FoldLines(lines[i..])
  {
    hide FoldLines, EmptiesAhead, Between, Separator, AllDescribe;
    DescribedAt(spans, lines, text, i);
    ghost var before := buf[..out];
    if spans[i].empty {
      FoldEmpty(lines, i);
      out' := Append(buf, out, "\n");
      j := i + 1;
      assert before + "\n" + FoldLines(lines[j..]) == before + ("\n" + FoldLines(lines[j..]));
    } else {
      j := NextContent(spans, i + 1, lines, text);
      FoldStep(lines, i, j);
      SameSeparator(spans, lines, text, i, j);
      out' := AppendTwo(buf, out, text[spans[i].start..spans[i].start + spans[i].len], Separator(spans, i, j));
      ghost var x, y, z := lines[i].text, Between(lines[i], j - i - 1, lines[j..]), FoldLines(lines[j..]);
      Joined(before, x, y, z);
    }
  }

  lemma DescribedAt(spans: seq<Span>, lines: seq<Line>, text: string, i: nat)
    requires AllDescribe(spans, lines, text) && i < |spans|
    ensures |spans| == |lines| && Describes(spans[i], lines[i], text)
  {}

  lemma FoldEmpty(lines: seq<Line>, i: nat)
    requires i < |lines| && lines[i].Empty?
    ensures FoldLines(lines[i..]) == "\n" + FoldLines(lines[i + 1..])
  {
    assert lines[i..][1..] == lines[i + 1..];
  }

  method AppendTwo(buf: array<char>, out: nat, a: string, b: string) returns (out': nat)
    requires out + |a| + |b| <= buf.Length
    modifies buf
    ensures out' == out + |a| + |b| && buf[..out'] == old(buf[..out]) + a + b
  {
    out' := Append(buf, out, a);
    out' := Append(buf, out', b);
  }

  method NextContent(spans: seq<Span>, from: nat, ghost lines: seq<Line>, ghost text: string) returns (j: nat)
    requires AllDescribe(spans, lines, text) && from <= |spans|
    ensures j == from + EmptiesAhead(lines[from..])
  {
    j := from;
    while j < |spans| && spans[j].empty
      invariant from <= j <= |spans| && EmptiesAhead(lines[from..]) == j - from + EmptiesAhead(lines[j..])
    {
      assert Describes(spans[j], lines[j], text);
      assert lines[j..][1..] == lines[j + 1..];
      j := j + 1;
    }
    if j < |spans| { assert Describes(spans[j], lines[j], text); }
  }

  /** The breaks or the space after the content line `i`, when the next one is `j`. */
  function Separator(spans: seq<Span>, i: nat, j: nat): string
    requires i < j <= |spans|
  {
    var empties := j - i - 1;
    if j >= |spans| then "\n" + Repeat('\n', empties)
    else if spans[i].extra then "\n" + Repeat('\n', empties)
    else if empties > 0 then Repeat('\n', if spans[j].extra then empties + 1 else empties)
    else if spans[j].extra then "\n"
    else " "
  }

  lemma SameSeparator(spans: seq<Span>, lines: seq<Line>, text: string, i: nat, j: nat)
    requires AllDescribe(spans, lines, text) && i < j <= |spans| && lines[i].Content? && (j < |spans| ==> lines[j].Content?)
    ensures Separator(spans, i, j) == Between(lines[i], j - i - 1, lines[j..]) != ""
  {
    assert Describes(spans[i], lines[i], text);
    if j < |spans| { assert Describes(spans[j], lines[j], text); }
    assert "\n" + Repeat('\n', j - i - 1) == Repeat('\n', j - i);
  }

  lemma FoldStep(lines: seq<Line>, i: nat, j: nat)
    requires i < |lines| && lines[i].Content? && j == i + 1 + EmptiesAhead(lines[i + 1..])
    ensures i < j <= |lines| && (j < |lines| ==> lines[j].Content?)
    ensures FoldLines(lines[i..]) == lines[i].text + Between(lines[i], j - i - 1, lines[j..]) + FoldLines(lines[j..])
  {
    var tail := lines[i..];
    assert tail[1..] == lines[i + 1..] && tail[1 + (j - i - 1)..] == lines[j..];
    if j < |lines| { assert lines[i + 1..][j - i - 1] == lines[j]; }
  }

  lemma {:induction false} OnlyBreaks(t: string)
    ensures TrimBreaks(t) == "" <==> forall i | 0 <= i < |t| :: t[i] == '\n'
  {
    if t != "" && t[|t| - 1] == '\n' { OnlyBreaks(t[..|t| - 1]); }
  }

  /** Is anything but line feeds there? */
  method HasContent(buf: array<char>, out: nat) returns (has: bool)
    requires out <= buf.Length
    ensures has == (TrimBreaks(buf[..out]) != "")
  {
    OnlyBreaks(buf[..out]);
    for i := 0 to out
      invariant forall k | 0 <= k < i :: buf[k] == '\n'
    {
      if buf[i] != '\n' {
        assert buf[..out][i] != '\n';
        return true;
      }
    }
    return false;
  }

  /** Chomping, in the buffer: the text is empty or ends in a line feed. */
  method ChompBuffer(buf: array<char>, out: nat, mode: Chomping) returns (end: nat)
    requires out < buf.Length && (out > 0 ==> EndsInBreak(buf[..out]))
    ensures end <= out && buf[..end] == Chomp(buf[..out], mode)
  {
    if mode == Keep { return out; }
    if mode == Clip {
      var has := HasContent(buf, out);
      if has { end := ClipBuffer(buf, out); } else { end := 0; }
      return;
    }
    end := out;
    while end > 0 && buf[end - 1] == '\n'
      invariant end <= out && TrimBreaks(buf[..end]) == TrimBreaks(buf[..out])
    {
      assert buf[..end][..end - 1] == buf[..end - 1];
      end := end - 1;
    }
  }

  method ClipBuffer(buf: array<char>, out: nat) returns (end: nat)
    requires 0 < out < buf.Length && EndsInBreak(buf[..out])
    ensures end <= out && buf[..end] == TrimBreaks(buf[..out]) + "\n"
  {
    end := out;
    assert buf[..out][|buf[..out]| - 1] == buf[out - 1];
    while end > 1 && buf[end - 1] == '\n' && buf[end - 2] == '\n'
      invariant 1 <= end <= out && buf[end - 1] == '\n' && TrimBreaks(buf[..end]) == TrimBreaks(buf[..out])
    {
      assert buf[..end][..end - 1] == buf[..end - 1];
      end := end - 1;
    }
    OneBreak(buf[..end]);
  }

  lemma OneBreak(t: string)
    requires t != "" && t[|t| - 1] == '\n' && (|t| > 1 ==> t[|t| - 2] != '\n')
    ensures t == TrimBreaks(t) + "\n"
  {}

  method ReadHeader(s: string, j: nat) returns (r: Option<Header>)
    requires j <= |s|
    ensures r == HeaderAt(s, j)
  {
    var mode, pos := Clip, j;
    var explicit: nat, n := 0, 0;
    while n < 2 && pos < |s| && !Break(s[pos])
      invariant n <= 2 && j <= pos <= |s|
      invariant Indicators(s, pos, 2 - n, mode, explicit) == Indicators(s, j, 2, Clip, 0)
      decreases 2 - n
    {
      var c := s[pos];
      if c == '-' { mode := Strip; }
      else if c == '+' { mode := Keep; }
      else if '1' <= c <= '9' { explicit := c as int - '0' as int; }
      else { break; }
      pos := pos + 1;
      n := n + 1;
    }
    var k := SkipBlanks(s, pos);
    if k < |s| && s[k] == '#' {
      if k == pos { return None; }
      k := ScanToBreak(s, k);
    }
    if k < |s| && !Break(s[k]) { return None; }
    r := Some(Header(mode, explicit, AfterLine(s, k)));
  }

  /** The indentation of the content. */
  method FindIndent(s: string, pos: nat, indent: int, explicit: nat) returns (r: Option<nat>)
    requires pos <= |s|
    ensures r == BaseIndent(s, pos, indent, explicit)
  {
    if explicit > 0 { return Some(Max(indent + explicit, explicit)); }
    var probe, longest: nat := pos, 0;
    var content := None;
    while probe < |s|
      invariant pos <= probe <= |s| && content == None
      invariant Probe(s, probe, longest) == Probe(s, pos, 0)
      decreases |s| - probe
    {
      var li := CountSpaces(s, probe);
      if probe + li == |s| {
        longest := Max(longest, li);
        break;
      }
      if li == 0 && DocIndicator(s, probe) { break; }
      if !Break(s[probe + li]) {
        content := Some(li);
        break;
      }
      longest := Max(longest, li);
      probe := AfterBreak(s, probe + li);
    }
    assert Probe(s, pos, 0) == Probed(content, longest);
    if content.Some? && content.value >= Max(indent + 1, 0) {
      return if longest > content.value then None else content;
    }
    r := Some(Max(longest, Max(indent + 1, 1)));
  }

  /** The block scalar part of oyl_scan_token, from just past '|' or '>'. */
  method ScanBlock(s: string, j: nat, folded: bool, indent: int) returns (r: Scanned)
    requires j <= |s|
    ensures r == ReadBlock(s, j, folded, indent)
  {
    var h := ReadHeader(s, j);
    if h.None? { return Failed; }
    var base := FindIndent(s, h.value.pos, indent, h.value.explicit);
    if base.None? { return Failed; }
    var ok, needed, end := Measure(s, h.value.pos, base.value);
    if !ok { return Failed; }
    var buf, out, spans := Copy(s, h.value.pos, end, base.value, needed);
    ghost var lines := Lines(s, h.value.pos, base.value).lines;
    if lines != [] { RawEnds(lines); FoldEnds(lines); }
    if folded && spans != [] {
      buf, out := Fold(buf[..out], spans, lines);
    }
    out := ChompBuffer(buf, out, h.value.mode);
    r := Scalar(buf[..out], end);
  }
}
