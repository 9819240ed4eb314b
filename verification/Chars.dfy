/** Character classes and the line-level moves the scanner functions share. */
module Chars {
  predicate Blank(c: char) { c == ' ' || c == '\t' }

  predicate Break(c: char) { c == '\n' || c == '\r' }

  /** A string whose characters stand for bytes. */
  predicate IsBytes(s: string) {
    forall i | 0 <= i < |s| :: s[i] as int < 256
  }

  predicate IsHex(c: char) { '0' <= c <= '9' || 'a' <= c <= 'f' || 'A' <= c <= 'F' }

  function HexValue(c: char): (v: nat)
    requires IsHex(c)
    ensures v < 16
  {
    if c <= '9' then c as int - '0' as int
    else if c <= 'F' then c as int - 'A' as int + 10
    else c as int - 'a' as int + 10
  }

  /** As "%X" writes it. */
  function HexDigit(v: nat): (c: char)
    requires v < 16
    ensures IsHex(c) && HexValue(c) == v
  {
    if v < 10 then ('0' as int + v) as char else ('A' as int + v - 10) as char
  }

  /** skip_break: "\r\n" is one line break. */
  function AfterBreak(s: string, j: nat): (r: nat)
    requires j < |s| && Break(s[j])
    ensures j < r <= |s|
  {
    if s[j] == '\r' && j + 1 < |s| && s[j + 1] == '\n' then j + 2 else j + 1
  }

  function AfterBlanks(s: string, j: nat): (r: nat)
    requires j <= |s|
    ensures j <= r <= |s| && (r < |s| ==> !Blank(s[r]))
    decreases |s| - j
  {
    if j < |s| && Blank(s[j]) then AfterBlanks(s, j + 1) else j
  }

  /** Line breaks with the blanks after each: how many, and where they end. */
  datatype Breaks = Breaks(count: nat, pos: nat)

  function BreaksAt(s: string, j: nat): (r: Breaks)
    requires j < |s| && Break(s[j])
    ensures r.count > 0 && j < r.pos <= |s|
    decreases |s| - j
  {
    var k := AfterBlanks(s, AfterBreak(s, j));
    if k < |s| && Break(s[k]) then
      var rest := BreaksAt(s, k);
      Breaks(rest.count + 1, rest.pos)
    else Breaks(1, k)
  }

  function Repeat(c: char, n: nat): (r: string)
    ensures |r| == n && forall i | 0 <= i < n :: r[i] == c
  {
    if n == 0 then "" else Repeat(c, n - 1) + [c]
  }

  /** One line break is a space, each further one a line feed. */
  function Folded(count: nat): (r: string)
    requires count > 0
    ensures 0 < |r| <= count
  {
    if count == 1 then " " else Repeat('\n', count - 1)
  }

  method SkipBlanks(s: string, j: nat) returns (r: nat)
    requires j <= |s|
    ensures r == AfterBlanks(s, j)
  {
    r := j;
    while r < |s| && Blank(s[r])
      invariant j <= r <= |s| && AfterBlanks(s, r) == AfterBlanks(s, j)
    {
      r := r + 1;
    }
  }

  /** The break loop of line folding. */
  method SkipBreaks(s: string, j: nat) returns (count: nat, pos: nat)
    requires j < |s| && Break(s[j])
    ensures Breaks(count, pos) == BreaksAt(s, j)
  {
    count, pos := 0, j;
    while pos < |s| && Break(s[pos])
      invariant j <= pos <= |s|
      invariant if pos < |s| && Break(s[pos]) then
                  BreaksAt(s, j) == Breaks(count + BreaksAt(s, pos).count, BreaksAt(s, pos).pos)
                else BreaksAt(s, j) == Breaks(count, pos)
      decreases |s| - pos
    {
      pos := SkipBlanks(s, AfterBreak(s, pos));
      count := count + 1;
    }
  }

  /** oyl_find_any4: the first of four characters from `j` on; |s| without one. */
  method FindAny4(s: string, j: nat, a: char, b: char, c: char, d: char) returns (k: nat)
    requires j <= |s|
    ensures j <= k <= |s| && (k < |s| ==> s[k] in {a, b, c, d})
    ensures forall i | j <= i < k :: s[i] !in {a, b, c, d}
  {
    k := j;
    while k < |s|
      invariant j <= k <= |s| && forall i | j <= i < k :: s[i] !in {a, b, c, d}
    {
      if s[k] == a || s[k] == b || s[k] == c || s[k] == d { return; }
      k := k + 1;
    }
  }

  /** Characters written to a buffer one after the other. */
  method Append(buf: array<char>, out: nat, x: string) returns (end: nat)
    requires out + |x| <= buf.Length
    modifies buf
    ensures end == out + |x| && buf[..end] == old(buf[..out]) + x
  {
    for i := 0 to |x|
      invariant buf[..out + i] == old(buf[..out]) + x[..i]
    {
      buf[out + i] := x[i];
      assert buf[..out + i + 1] == buf[..out + i] + [x[i]];
      assert x[..i + 1] == x[..i] + [x[i]];
    }
    end := out + |x|;
    assert x[..|x|] == x;
  }

  /** Without the blanks at its end. */
  function TrimEnd(t: string): (r: string)
    ensures |r| <= |t| && r == t[..|r|]
  {
    if t != "" && Blank(t[|t| - 1]) then TrimEnd(t[..|t| - 1]) else t
  }

  /** Room in a growing buffer for n more characters and the end mark. */
  method Ensure(buf: array<char>, out: nat, n: nat) returns (r: array<char>)
    requires out <= buf.Length
    ensures r.Length > out + n && r[..out] == buf[..out] && (r == buf || fresh(r))
  {
    r := buf;
    if out + n >= buf.Length {
      r := new char[(out + n) * 2 + 64](_ => '\0');
      for i := 0 to out
        invariant r[..i] == buf[..i]
      {
        r[i] := buf[i];
        assert r[..i + 1] == r[..i] + [buf[i]];
        assert buf[..i + 1] == buf[..i] + [buf[i]];
      }
    }
  }

  method TrimBuffer(buf: array<char>, out: nat) returns (end: nat)
    requires out <= buf.Length
    ensures end <= out && buf[..end] == TrimEnd(buf[..out])
  {
    end := out;
    while end > 0 && Blank(buf[end - 1])
      invariant end <= out && TrimEnd(buf[..end]) == TrimEnd(buf[..out])
    {
      assert buf[..end][..end - 1] == buf[..end - 1];
      end := end - 1;
    }
  }

  lemma SplitAt(s: string, j: nat, a: string, b: string, c: string)
    requires j <= |s| && s[j..] == a + b + c
    ensures j + |a| <= |s| && s[j..j + |a|] == a && s[j + |a|..] == b + c
  {
    assert s[j..j + |a|] == s[j..][..|a|];
    assert s[j + |a|..] == s[j..][|a|..];
  }

  /** `x` stands at `j`. */
  predicate At(s: string, j: nat, x: string) {
    j + |x| <= |s| && s[j..j + |x|] == x
  }

  lemma AtInside(s: string, j: nat, x: string)
    requires At(s, j, x)
    ensures j + |x| <= |s|
  {}

  lemma AtSlice(s: string, j: nat, x: string, a: nat, b: nat)
    requires At(s, j, x) && a <= b <= |x|
    ensures s[j + a..j + b] == x[a..b]
  {
    forall i | 0 <= i < b - a ensures s[j + a..j + b][i] == x[a..b][i] {
      AtChar(s, j, x, a + i);
    }
  }

  lemma AtSplit(s: string, j: nat, a: string, b: string)
    requires At(s, j, a + b)
    ensures At(s, j, a) && At(s, j + |a|, b)
  {
    var cut := s[j..j + |a| + |b|];
    assert cut[..|a|] == a && cut[|a|..] == b;
  }

  lemma AtChar(s: string, j: nat, x: string, i: nat)
    requires At(s, j, x) && i < |x|
    ensures s[j + i] == x[i]
  {
    assert s[j..j + |x|][i] == s[j + i];
  }
}
