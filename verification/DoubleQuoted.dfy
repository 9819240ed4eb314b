/**
 * Double-quoted scalars (YAML 1.2.2 sections 5.7 and 7.3.1): what the emitter
 * writes and how the scanner reads it, with line folding and a buffer whose
 * size a first pass bounds.
 */
module DoubleQuoted {
  import opened Chars

  // ----- emitting -----

  function EscapeOf(c: char): string {
    match c
    case '\\' => "\\\\"
    case '"' => "\\\""
    case '\n' => "\\n"
    case '\r' => "\\r"
    case '\t' => "\\t"
    case '\0' => "\\0"
    case '\U{07}' => "\\a"
    case '\U{08}' => "\\b"
    case _ =>
      if c as int < 0x20 || c as int == 0x7f then
        "\\x" + [HexDigit(c as int / 16), HexDigit(c as int % 16)]
      else [c]
  }

  function Escaped(s: string): string {
    if s == "" then "" else EscapeOf(s[0]) + Escaped(s[1..])
  }

  /** emit_double_quoted, appending to the output. */
  method EmitDoubleQuoted(out: string, s: string) returns (r: string)
    ensures r == out + "\"" + Escaped(s) + "\""
  {
    r := out + "\"";
    for i := 0 to |s|
      invariant out + "\"" + Escaped(s) == r + Escaped(s[i..])
    {
      assert s[i..][1..] == s[i + 1..];
      r := r + EscapeOf(s[i]);
    }
    r := r + "\"";
  }

  // ----- reading: one construct -----

  /** Whether the scalar may go on at a position on a new line: after an escaped
      break, and after folded breaks. */
  datatype Lines = Lines(afterJoin: nat -> bool, afterFold: nat -> bool)

  datatype Item =
    | Lit(c: char)           // an ordinary character
    | Esc(text: string)      // what an escape stands for
    | Join                   // an escaped line break
    | Fold(count: nat)       // line breaks
    | Bad

  datatype Piece = Piece(item: Item, next: nat)

  function Simple(c: char): string {
    match c
    case '0' => "\0"
    case 'a' => "\U{07}"
    case 'b' => "\U{08}"
    case 't' => "\t"
    case '\t' => "\t"
    case 'n' => "\n"
    case 'v' => "\U{0B}"
    case 'f' => "\U{0C}"
    case 'r' => "\r"
    case 'e' => "\U{1B}"
    case ' ' => " "
    case '"' => "\""
    case '/' => "/"
    case '\\' => "\\"
    case 'N' => "\U{C2}\U{85}"
    case '_' => "\U{C2}\U{A0}"
    case _ => ""
  }

  /** The number `n` hexadecimal digits make, and whether they are all there. */
  function HexAt(s: string, j: nat, n: nat): (r: int)
    ensures r >= -1
    decreases n
  {
    if n == 0 then 0
    else if j + n > |s| || !IsHex(s[j + n - 1]) then -1
    else
      var rest := HexAt(s, j, n - 1);
      if rest < 0 then -1 else rest * 16 + HexValue(s[j + n - 1])
  }

  function Byte(n: nat): char
    requires n < 256
  {
    n as char
  }

  /** UTF-8 */
  function Utf8(cp: nat): (r: string)
    requires cp <= 0x10ffff
    ensures 0 < |r| <= 4 && IsBytes(r) && (cp <= 0xffff ==> |r| <= 3)
  {
    if cp <= 0x7f then [Byte(cp)]
    else if cp <= 0x7ff then [Byte(0xc0 + cp / 64), Byte(0x80 + cp % 64)]
    else if cp <= 0xffff then [Byte(0xe0 + cp / 4096), Byte(0x80 + cp / 64 % 64), Byte(0x80 + cp % 64)]
    else [Byte(0xf0 + cp / 0x40000), Byte(0x80 + cp / 4096 % 64), Byte(0x80 + cp / 64 % 64), Byte(0x80 + cp % 64)]
  }

  function Unicode(s: string, k: nat, digits: nat): Piece {
    var cp := HexAt(s, k, digits);
    if cp < 0 || cp > 0x10ffff || 0xd800 <= cp <= 0xdfff then Piece(Bad, k) else Piece(Esc(Utf8(cp)), k + digits)
  }

  /** The escape whose backslash is at `j`. */
  function EscapeAt(s: string, j: nat, lines: Lines): Piece
    requires j < |s|
  {
    if j + 1 == |s| then Piece(Bad, j)
    else
      var c, k := s[j + 1], j + 2;
      if c == 'x' then
        var n := HexAt(s, k, 2);
        if 0 <= n < 256 then Piece(Esc([Byte(n)]), k + 2) else Piece(Bad, k)
      else if c == 'u' then Unicode(s, k, 4)
      else if c == 'U' then Unicode(s, k, 8)
      else if Break(c) then
        var p := AfterBlanks(s, AfterBreak(s, j + 1));
        if p < |s| && !Break(s[p]) && !lines.afterJoin(p) then Piece(Bad, p) else Piece(Join, p)
      else if Simple(c) == "" then Piece(Bad, k)
      else Piece(Esc(Simple(c)), k)
  }

  function PieceAt(s: string, j: nat, lines: Lines): Piece
    requires j < |s|
  {
    if s[j] == '\\' then EscapeAt(s, j, lines)
    else if Break(s[j]) then
      var b := BreaksAt(s, j);
      if lines.afterFold(b.pos) then Piece(Fold(b.count), b.pos) else Piece(Bad, b.pos)
    else Piece(Lit(s[j]), j + 1)
  }

  // ----- reading: the text -----

  /** The text so far; literal blanks past `content` end their line and would be
      trimmed by a break. */
  datatype Text = Text(text: string, content: nat)

  predicate Fits(t: Text) { t.content <= |t.text| }

  function Feed(t: Text, item: Item): (r: Text)
    requires Fits(t) && (item.Fold? ==> item.count > 0)
    ensures Fits(r)
  {
    match item
    case Lit(c) => Text(t.text + [c], if Blank(c) then t.content else |t.text| + 1)
    case Esc(x) => Text(t.text + x, |t.text| + |x|)
    case Join => Text(t.text, |t.text|)
    case Fold(n) => Text(t.text[..t.content] + Folded(n), t.content)
    case Bad => t
  }

  datatype Scanned = Scalar(value: string, end: nat) | Failed

  lemma PieceNext(s: string, j: nat, lines: Lines)
    requires j < |s|
    ensures var p := PieceAt(s, j, lines); p.item != Bad ==> j < p.next <= |s| && (p.item.Fold? ==> p.item.count > 0)
  {
    var p := PieceAt(s, j, lines);
    if s[j] == '\\' && j + 1 < |s| {
      HexInside(s, j + 2, 2);
      HexInside(s, j + 2, 4);
      HexInside(s, j + 2, 8);
    }
  }

  lemma {:induction false} HexInside(s: string, j: nat, n: nat)
    ensures HexAt(s, j, n) >= 0 && n > 0 ==> j + n <= |s|
    ensures HexAt(s, j, n) >= 0 ==> forall i | j <= i < j + n && i < |s| :: IsHex(s[i])
    decreases n
  {
    if n > 0 { HexInside(s, j, n - 1); }
  }

  /** The rest of the scalar from `j`, after `t`. */
  function Read(s: string, j: nat, t: Text, lines: Lines): Scanned
    requires j <= |s| && Fits(t)
    decreases |s| - j
  {
    if j == |s| then Failed
    else if s[j] == '"' then Scalar(t.text, j + 1)
    else
      PieceNext(s, j, lines);
      var p := PieceAt(s, j, lines);
      if p.item == Bad then Failed else Read(s, p.next, Feed(t, p.item), lines)
  }

  // ----- the pre-scan bounds the text -----

  /** What the first pass counts from `j`. */
  function Room(s: string, j: nat): nat
    decreases |s| + 2 - j
  {
    if j >= |s| || s[j] == '"' then 0
    else if s[j] == '\\' then
      (if j + 1 < |s| && (s[j + 1] == 'N' || s[j + 1] == '_') then 2 else 1) + Room(s, j + 2)
    else 1 + Room(s, j + 1)
  }

  lemma {:induction false} RoomOver(s: string, j: nat, k: nat)
    requires j <= k <= |s| && forall i | j <= i < k :: s[i] != '"' && s[i] != '\\'
    ensures Room(s, j) == k - j + Room(s, k)
    decreases k - j
  {
    if j < k { RoomOver(s, j + 1, k); }
  }

  /** Every construct leaves room for what it adds. */
  lemma RoomForPiece(s: string, j: nat, lines: Lines, t: Text)
    requires j < |s| && s[j] != '"' && Fits(t) && PieceAt(s, j, lines).item != Bad
    ensures var p := PieceAt(s, j, lines);
            (p.item.Fold? ==> p.item.count > 0) && |Feed(t, p.item).text| + Room(s, p.next) <= |t.text| + Room(s, j)
  {
    PieceNext(s, j, lines);
    var p := PieceAt(s, j, lines);
    if s[j] == '\\' {
      RoomForEscape(s, j, lines);
    } else if Break(s[j]) {
      BreaksRoom(s, j);
    }
  }

  function Added(item: Item): nat {
    if item.Esc? then |item.text| else 0
  }

  lemma RoomForEscape(s: string, j: nat, lines: Lines)
    requires j < |s| && s[j] == '\\' && EscapeAt(s, j, lines).item != Bad
    ensures var p := EscapeAt(s, j, lines); !p.item.Fold? && !p.item.Lit? && Added(p.item) + Room(s, p.next) <= Room(s, j)
  {
    var p, c, k := EscapeAt(s, j, lines), s[j + 1], j + 2;
    if c == 'x' || c == 'u' || c == 'U' {
      var n := if c == 'x' then 2 else if c == 'u' then 4 else 8;
      HexInside(s, k, n);
      RoomOver(s, k, k + n);
      if c == 'u' { FourDigits(s, k); }
    } else if Break(c) {
      JoinRoom(s, j + 1);
    }
  }

  lemma FourDigits(s: string, k: nat)
    ensures HexAt(s, k, 4) <= 0xffff
  {
    assert HexAt(s, k, 1) < 16;
    assert HexAt(s, k, 2) < 256;
    assert HexAt(s, k, 3) < 4096;
  }

  lemma {:induction false} BlanksRoom(s: string, j: nat)
    requires j <= |s|
    ensures Room(s, AfterBlanks(s, j)) <= Room(s, j)
    decreases |s| - j
  {
    if j < |s| && Blank(s[j]) { BlanksRoom(s, j + 1); }
  }

  lemma JoinRoom(s: string, k: nat)
    requires k < |s| && Break(s[k])
    ensures Room(s, AfterBlanks(s, AfterBreak(s, k))) <= Room(s, k + 1)
  {
    BlanksRoom(s, AfterBreak(s, k));
  }

  lemma {:induction false} BreaksRoom(s: string, j: nat)
    requires j < |s| && Break(s[j])
    ensures BreaksAt(s, j).count + Room(s, BreaksAt(s, j).pos) <= Room(s, j)
    decreases |s| - j
  {
    JoinRoom(s, j);
    var k := AfterBlanks(s, AfterBreak(s, j));
    if k < |s| && Break(s[k]) { BreaksRoom(s, k); }
  }

  // ----- the scanner -----

  // Read, one step at a time.

  lemma PieceReads(s: string, j: nat, t: Text, lines: Lines)
    requires j < |s| && s[j] != '"' && Fits(t)
    ensures var p := PieceAt(s, j, lines);
            if p.item == Bad then Read(s, j, t, lines) == Failed
            else j < p.next <= |s| && (p.item.Fold? ==> p.item.count > 0) &&
                 Read(s, j, t, lines) == Read(s, p.next, Feed(t, p.item), lines)
    ensures PieceAt(s, j, lines).item.Lit? ==> s[j] != '\\' && !Break(s[j])
  {
    PieceNext(s, j, lines);
  }

  lemma EndReads(s: string, j: nat, t: Text, lines: Lines)
    requires j <= |s| && Fits(t)
    ensures j == |s| ==> Read(s, j, t, lines) == Failed
    ensures j < |s| && s[j] == '"' ==> Read(s, j, t, lines) == Scalar(t.text, j + 1)
  {}

  lemma LitReads(s: string, j: nat, t: Text, lines: Lines)
    requires j < |s| && Fits(t) && s[j] !in {'"', '\\', '\n', '\r'}
    ensures Read(s, j, t, lines) == Read(s, j + 1, Feed(t, Lit(s[j])), lines)
  {}

  lemma RunNext(t: Text, c: char, rest: string)
    requires Fits(t)
    ensures RunText(t, "") == t && RunText(Feed(t, Lit(c)), rest) == RunText(t, [c] + rest)
  {
    ContentCons(c, rest);
    assert t.text + "" == t.text && t.text + [c] + rest == t.text + ([c] + rest);
  }

  /** A run of ordinary characters is read as one. */
  lemma {:induction false} ReadRun(s: string, j: nat, k: nat, t: Text, lines: Lines)
    requires j <= k <= |s| && Fits(t) && forall i | j <= i < k :: s[i] !in {'"', '\\', '\n', '\r'}
    ensures Read(s, j, t, lines) == Read(s, k, RunText(t, s[j..k]), lines)
    decreases k - j
  {
    hide *;
    if j == k {
      RunNext(t, 'a', "");
      assert s[j..k] == "";
    } else {
      LitReads(s, j, t, lines);
      RunNext(t, s[j], s[j + 1..k]);
      assert s[j..k] == [s[j]] + s[j + 1..k];
      ReadRun(s, j + 1, k, Feed(t, Lit(s[j])), lines);
    }
  }

  /** How much of a run is left without its trailing blanks. */
  function Trimmed(run: string): (k: nat)
    ensures k <= |run|
  {
    if run == "" || !Blank(run[|run| - 1]) then |run| else Trimmed(run[..|run| - 1])
  }

  function RunText(t: Text, run: string): (r: Text)
    requires Fits(t)
    ensures Fits(r)
  {
    var k := Trimmed(run);
    Text(t.text + run, if k > 0 then |t.text| + k else t.content)
  }

  lemma {:induction false} ContentCons(c: char, rest: string)
    ensures Trimmed([c] + rest) == if Trimmed(rest) > 0 then Trimmed(rest) + 1 else if Blank(c) then 0 else 1
    decreases |rest|
  {
    var run := [c] + rest;
    if rest == "" {
      assert run[..0] == "";
    } else if Blank(rest[|rest| - 1]) {
      assert run[..|run| - 1] == [c] + rest[..|rest| - 1];
      ContentCons(c, rest[..|rest| - 1]);
    }
  }

  /** The first pass: an upper bound of the decoded length. */
  method Measure(s: string, start: nat) returns (max: nat)
    requires start <= |s|
    ensures max == Room(s, start)
  {
    max := 0;
    var scan := start;
    while scan < |s|
      invariant start <= scan <= |s| + 1 && max + Room(s, scan) == Room(s, start)
      decreases |s| + 1 - scan
    {
      var k := FindAny4(s, scan, '"', '\\', '"', '"');
      RoomOver(s, scan, k);
      max := max + (k - scan);
      scan := k;
      if scan >= |s| || s[scan] == '"' { return; }
      if scan + 1 < |s| && (s[scan + 1] == 'N' || s[scan + 1] == '_') { max := max + 1; }
      scan := scan + 2;
      max := max + 1;
    }
  }

  /** The decoding path: into a buffer of the measured length and one more. */
  method Decode(s: string, start: nat, lines: Lines) returns (r: Scanned)
    requires start <= |s|
    ensures r == Read(s, start, Text("", 0), lines)
  {
    hide Read, Room, PieceAt, EscapeAt, Feed, Trimmed, BreaksAt;
    var max := Measure(s, start);
    var buf := new char[max + 1](_ => '\0');
    var out: nat, content: nat, pos := 0, 0, start;
    assert buf[..0] == "";
    while pos < |s| && s[pos] != '"'
      invariant start <= pos <= |s| && content <= out
      invariant out + Room(s, pos) <= max
      invariant Read(s, pos, Text(buf[..out], content), lines) == Read(s, start, Text("", 0), lines)
      decreases |s| - pos
    {
      ghost var t := Text(buf[..out], content);
      if s[pos] != '\\' && !Break(s[pos]) {
        var k := FindAny4(s, pos, '"', '\\', '\n', '\r');
        RoomOver(s, pos, k);
        ReadRun(s, pos, k, t, lines);
        var n := Trimmed(s[pos..k]);
        if n > 0 { content := out + n; }
        out := Append(buf, out, s[pos..k]);
        pos := k;
      } else {
        var p := PieceAt(s, pos, lines);
        PieceReads(s, pos, t, lines);
        if p.item == Bad { return Failed; }
        RoomForPiece(s, pos, lines, t);
        out, content := Apply(buf, out, content, p.item);
        pos := p.next;
      }
    }
    EndReads(s, pos, Text(buf[..out], content), lines);
    if pos == |s| { return Failed; }
    buf[out] := '\0';
    r := Scalar(buf[..out], pos + 1);
  }

  /** What an escape or a break does to the buffer. */
  method Apply(buf: array<char>, out: nat, content: nat, item: Item) returns (out': nat, content': nat)
    requires content <= out <= buf.Length && !item.Lit? && item != Bad && (item.Fold? ==> item.count > 0)
    requires |Feed(Text(buf[..out], content), item).text| <= buf.Length
    modifies buf
    ensures content' <= out' <= buf.Length
    ensures Text(buf[..out'], content') == Feed(old(Text(buf[..out], content)), item)
  {
    match item
    case Esc(x) =>
      out' := Append(buf, out, x);
      content' := out';
    case Join => out', content' := out, out;
    case Fold(n) =>
      assert buf[..out][..content] == buf[..content];
      out' := Append(buf, content, Folded(n));
      content' := content;
  }

  /** scan_double_quoted, from just past the opening quote: a scalar without
      escapes and breaks is a slice of the input. */
  method ScanDoubleQuoted(s: string, start: nat, lines: Lines) returns (r: Scanned)
    requires start <= |s|
    ensures r == Read(s, start, Text("", 0), lines)
  {
    var j := FindAny4(s, start, '"', '\\', '\n', '\r');
    if j < |s| && s[j] == '"' {
      ReadRun(s, start, j, Text("", 0), lines);
      assert "" + s[start..j] == s[start..j];
      return Scalar(s[start..j], j + 1);
    }
    r := Decode(s, start, lines);
  }

  // ----- what is written reads back -----

  /** The text after one more character of the emitter's. */
  function Put(t: Text, c: char): (r: Text)
    requires Fits(t)
    ensures Fits(r)
  {
    Text(t.text + [c], if c == ' ' then t.content else |t.text| + 1)
  }

  /** An escape the emitter writes stands for its character. */
  lemma EscapePiece(s: string, j: nat, c: char, lines: Lines)
    requires c as int < 256 && j + |EscapeOf(c)| <= |s| && s[j..j + |EscapeOf(c)|] == EscapeOf(c)
    ensures j < |s| && s[j] != '"' && PieceAt(s, j, lines).next == j + |EscapeOf(c)|
    ensures var item := PieceAt(s, j, lines).item; (item == Esc([c]) && c != ' ') || (item == Lit(c) && c != '\t')
  {
    hide AfterBreak, AfterBlanks, BreaksAt, Unicode;
    var e := EscapeOf(c);
    var cut := s[j..j + |e|];
    assert s[j] == cut[0];
    if |e| == 2 {
      assert s[j + 1] == cut[1];
    } else if |e| == 4 {
      assert s[j + 1] == cut[1] && s[j + 2] == cut[2] && s[j + 3] == cut[3];
      HexPair(s, j + 2, c as int);
    }
  }

  lemma EscapeReads(s: string, j: nat, c: char, t: Text, lines: Lines)
    requires c as int < 256 && Fits(t) && j + |EscapeOf(c)| <= |s| && s[j..j + |EscapeOf(c)|] == EscapeOf(c)
    ensures Read(s, j, t, lines) == Read(s, j + |EscapeOf(c)|, Put(t, c), lines)
  {
    hide Read, PieceAt, EscapeOf;
    EscapePiece(s, j, c, lines);
    PieceReads(s, j, t, lines);
    FeedPut(t, c);
  }

  lemma FeedPut(t: Text, c: char)
    requires Fits(t)
    ensures Feed(t, Esc([c])) == Text(t.text + [c], |t.text| + 1)
    ensures c != '\t' ==> Feed(t, Lit(c)) == Put(t, c)
  {}

  lemma HexPair(s: string, k: nat, n: nat)
    requires n < 256 && k + 2 <= |s| && s[k] == HexDigit(n / 16) && s[k + 1] == HexDigit(n % 16)
    ensures HexAt(s, k, 2) == n
  {
    assert HexAt(s, k, 1) == n / 16 by { assert HexAt(s, k, 0) == 0; }
  }

  /** Double-quoted output reads back as the same bytes, whatever follows it. */
  lemma {:induction false} EscapedReads(s: string, j: nat, text: string, tail: string, t: Text, lines: Lines)
    requires IsBytes(text) && Fits(t) && tail != "" && tail[0] == '"' && j <= |s| && s[j..] == Escaped(text) + tail
    ensures Read(s, j, t, lines) == Scalar(t.text + text, j + |Escaped(text)| + 1)
    decreases |text|
  {
    if text == "" {
      assert s[j] == s[j..][0] && t.text + text == t.text;
    } else {
      var c, more, e := text[0], text[1..], EscapeOf(text[0]);
      assert Escaped(text) == e + Escaped(more);
      hide Read, EscapeOf, Escaped;
      SplitAt(s, j, e, Escaped(more), tail);
      EscapeReads(s, j, c, t, lines);
      EscapedReads(s, j + |e|, more, tail, Put(t, c), lines);
      OneMore(t.text, text);
    }
  }

  lemma OneMore(a: string, b: string)
    requires b != ""
    ensures a + [b[0]] + b[1..] == a + b
  {}

  /** The emitter's output for `text`, scanned from its opening quote. */
  method RoundTrip(before: string, text: string, rest: string, lines: Lines) returns (r: Scanned)
    requires IsBytes(text)
    ensures r == Scalar(text, |before| + |Escaped(text)| + 2)
  {
    var written := EmitDoubleQuoted(before, text);
    ghost var s := written + rest;
    assert s[|before| + 1..] == Escaped(text) + ("\"" + rest);
    EscapedReads(s, |before| + 1, text, "\"" + rest, Text("", 0), lines);
    assert "" + text == text;
    r := ScanDoubleQuoted(written + rest, |before| + 1, lines);
  }
}
