/**
 * Plain scalars (YAML 1.2.2 section 7.3.3): the scanner reads them in runs that
 * a vectorised search finds, and the emitter writes a text plain only when it
 * reads back as itself.
 */
module PlainScalar {
  import opened Chars
  import Events
  import BlockScalar

  predicate IsFlow(c: char) { c in ",[]{}" }

  predicate Indicator(c: char) { c in "-?:,[]{}#&*!|>'\"%@`" }

  predicate Control(c: char) { (c as int < 0x20 && c != '\t') || c as int == 0x7f }

  /** Past the end there is a NUL. */
  function Peek(s: string, j: nat): char {
    if j < |s| then s[j] else '\0'
  }

  predicate EndsWord(c: char) { Blank(c) || Break(c) || c == '\0' }

  // ----- finding a run -----

  /** A character the scanner must look at. */
  predicate Structural(c: char) {
    c <= ' ' || c == '#' || c == ':' || c == ',' || c == '[' || c == ']' || c == '{' || c == '}' || c as int == 0x7f
  }

  /** What the vector compare stops at: seven ranges of bytes. */
  predicate Ranged(c: char) {
    c <= ' ' || c == '#' || c == ',' || c == ':' || '[' <= c <= ']' || '{' <= c <= '}' || c as int == 0x7f
  }

  /** At or before the first structural character from `j` on. */
  predicate Early(s: string, j: nat, k: nat) {
    j <= k <= |s| && forall i | j <= i < k :: !Structural(s[i])
  }

  method ScalarRun(s: string, j: nat) returns (k: nat)
    requires j <= |s|
    ensures Early(s, j, k) && (k < |s| ==> Structural(s[k]))
  {
    k := j;
    while k < |s|
      invariant Early(s, j, k)
    {
      var c := s[k];
      if c <= ' ' || c == '#' || c == ':' || c == ',' || c == '[' || c == ']' || c == '{' || c == '}' || c as int == 0x7f {
        return;
      }
      k := k + 1;
    }
  }

  /** The instruction's answer for 16 characters: the first in a range, or 16. */
  method CompareRanges(s: string, i: nat) returns (n: nat)
    requires i + 16 <= |s|
    ensures n <= 16 && (n < 16 ==> Ranged(s[i + n]))
    ensures forall k | i <= k < i + n :: !Ranged(s[k])
  {
    n := 0;
    while n < 16
      invariant n <= 16 && forall k | i <= k < i + n :: !Ranged(s[k])
    {
      if Ranged(s[i + n]) { return; }
      n := n + 1;
    }
  }

  method VectorRun(s: string, j: nat) returns (k: nat)
    requires j <= |s|
    ensures Early(s, j, k) && (k < |s| ==> Ranged(s[k]))
  {
    k := j;
    while k + 16 <= |s|
      invariant Early(s, j, k)
    {
      var n := CompareRanges(s, k);
      if n < 16 { return k + n; }
      k := k + 16;
    }
    k := ScalarRun(s, k);
  }

  /** The vector compare stops at two more characters. */
  lemma Wider(c: char)
    ensures Ranged(c) <==> Structural(c) || c == '\\' || c == '|'
  {}

  /** Through the pointer set when the library is loaded. */
  method FindRun(s: string, j: nat, vector: bool) returns (k: nat)
    requires j <= |s|
    ensures j <= k <= |s| && Early(s, j, k) && (j < k ==> !Break(s[j]))
  {
    if vector { k := VectorRun(s, j); } else { k := ScalarRun(s, j); }
  }

  // ----- reading, one character at a time -----

  datatype Scanned = Scalar(value: string, end: nat) | Failed

  /** Inside brackets or not, and the column of the enclosing block (-1: none). */
  datatype Place = Place(flow: bool, indent: int)

  /** 0-based column of the first character on a line. */
  function BlanksBefore(s: string, p: nat): (n: nat)
    requires p <= |s|
    ensures n <= p
  {
    if p > 0 && Blank(s[p - 1]) then 1 + BlanksBefore(s, p - 1) else 0
  }

  predicate ValueMark(s: string, j: nat, at: Place)
    requires j < |s|
  {
    s[j] == ':' && (EndsWord(Peek(s, j + 1)) || (at.flow && IsFlow(Peek(s, j + 1))))
  }

  /** The scalar goes on with the line whose first character stands at `p`. */
  predicate Continues(s: string, p: nat, at: Place)
    requires p < |s|
  {
    var col := BlanksBefore(s, p);
    && col > at.indent
    && !(at.indent < 0 && s[p] in "-?" && EndsWord(Peek(s, p + 1)))
    && !(s[p] == ':' && EndsWord(Peek(s, p + 1)))
    && s[p] != '#'
    && !(at.indent < 0 && s[p] in "&*" && col <= at.indent + 1)
    && !(col == 0 && BlockScalar.DocIndicator(s, p))
  }

  /** The rest of the scalar from `j`, after the text `t`. */
  function Read(s: string, j: nat, t: string, at: Place): Scanned
    requires j <= |s|
    decreases |s| - j
  {
    if j == |s| || ValueMark(s, j, at) || (at.flow && IsFlow(s[j])) then Scalar(TrimEnd(t), j)
    else if s[j] == '#' && (t == "" || Blank(t[|t| - 1])) then Scalar(TrimEnd(t), j)
    else if Blank(s[j]) then
      var k := AfterBlanks(s, j);
      Read(s, k, if k < |s| && !Break(s[k]) then t + s[j..k] else t, at)
    else if Break(s[j]) then
      var b := BreaksAt(s, j);
      if b.pos < |s| && Continues(s, b.pos, at) then Read(s, b.pos, TrimEnd(t) + Folded(b.count), at)
      else Scalar(TrimEnd(t), j)
    else if Control(s[j]) then Failed
    else Read(s, j + 1, t + [s[j]], at)
  }

  lemma {:induction false} RunReads(s: string, j: nat, k: nat, t: string, at: Place)
    requires Early(s, j, k)
    ensures Read(s, j, t, at) == Read(s, k, t + s[j..k], at)
    decreases k - j
  {
    if j == k {
      assert t + s[j..k] == t;
    } else {
      RunReads(s, j + 1, k, t + [s[j]], at);
      assert t + [s[j]] + s[j + 1..k] == t + s[j..k];
    }
  }

  lemma {:induction false} AllBlank(s: string, j: nat)
    requires j <= |s|
    ensures forall i | j <= i < AfterBlanks(s, j) :: Blank(s[i])
    decreases |s| - j
  {
    if j < |s| && Blank(s[j]) { AllBlank(s, j + 1); }
  }

  lemma {:induction false} BlanksCounted(s: string, j: nat, k: nat)
    requires 0 < j <= k <= |s| && !Blank(s[j - 1]) && forall i | j <= i < k :: Blank(s[i])
    ensures BlanksBefore(s, k) == k - j
  {
    if j < k { BlanksCounted(s, j, k - 1); }
  }

  /** The break loop; `col` is the column it ends at. */
  method SkipLines(s: string, j: nat) returns (count: nat, pos: nat, col: nat)
    requires j < |s| && Break(s[j])
    ensures Breaks(count, pos) == BreaksAt(s, j) && col == BlanksBefore(s, pos)
  {
    count, pos, col := 0, j, 0;
    while pos < |s| && Break(s[pos])
      invariant j <= pos <= |s| && (count > 0 ==> col == BlanksBefore(s, pos))
      invariant if pos < |s| && Break(s[pos]) then
                  BreaksAt(s, j) == Breaks(count + BreaksAt(s, pos).count, BreaksAt(s, pos).pos)
                else count > 0 && BreaksAt(s, j) == Breaks(count, pos)
      decreases |s| - pos
    {
      var line := AfterBreak(s, pos);
      pos := SkipBlanks(s, line);
      col := pos - line;
      AllBlank(s, line);
      BlanksCounted(s, line, pos);
      count := count + 1;
    }
  }

  method IsContinuation(s: string, p: nat, col: nat, at: Place) returns (ok: bool)
    requires p < |s| && col == BlanksBefore(s, p)
    ensures ok == Continues(s, p, at)
  {
    var minIndent := if at.indent + 1 < 0 then 0 else at.indent + 1;
    if col < minIndent { return false; }
    var c, after := s[p], Peek(s, p + 1);
    if (c == '-' || c == '?') && (at.indent < 0 || col <= at.indent) && EndsWord(after) { return false; }
    if c == ':' && EndsWord(after) { return false; }
    if c == '#' { return false; }
    if (c == '&' || c == '*') && col <= at.indent + (if at.indent < 0 then 1 else 0) { return false; }
    if col == 0 && |s| - p >= 3 {
      if (c == '-' && Peek(s, p + 1) == '-' && Peek(s, p + 2) == '-') ||
         (c == '.' && Peek(s, p + 1) == '.' && Peek(s, p + 2) == '.')
      {
        if |s| - p == 3 || Blank(Peek(s, p + 3)) || Break(Peek(s, p + 3)) { return false; }
      }
    }
    ok := true;
  }

  /** APPEND_RUN and APPEND_CHAR, once in the buffer. */
  method Put(buf: array<char>, out: nat, x: string) returns (r: array<char>, end: nat)
    requires out <= buf.Length
    modifies buf
    ensures end == out + |x| < r.Length && r[..end] == old(buf[..out]) + x
    ensures r == buf || fresh(r)
  {
    r := Ensure(buf, out, |x|);
    end := Append(r, out, x);
  }

  method PutFolded(buf: array<char>, out: nat, count: nat) returns (r: array<char>, end: nat)
    requires out <= buf.Length && count > 0
    modifies buf
    ensures end == out + |Folded(count)| < r.Length && r[..end] == old(buf[..out]) + Folded(count)
    ensures r == buf || fresh(r)
  {
    if count == 1 {
      r, end := Put(buf, out, " ");
    } else {
      r, end := Put(buf, out, "\n");
      for i := 2 to count
        invariant end == out + i - 1 < r.Length && r[..end] == old(buf[..out]) + Repeat('\n', i - 1)
        invariant r == buf || fresh(r)
      {
        r, end := Put(r, end, "\n");
      }
    }
  }

  method TrimSlice(s: string, start: nat, len: nat) returns (n: nat)
    requires start + len <= |s|
    ensures n <= len && s[start..start + n] == TrimEnd(s[start..start + len])
  {
    n := len;
    while n > 0 && Blank(s[start + n - 1])
      invariant n <= len && TrimEnd(s[start..start + n]) == TrimEnd(s[start..start + len])
    {
      assert s[start..start + n][..n - 1] == s[start..start + n - 1];
      n := n - 1;
    }
  }

  /** What has been read: a slice of the input until a line is folded, then the
      buffer. Blanks before a break are passed over without being counted. */
  ghost predicate Holds(s: string, start: nat, pos: nat, len: nat, inBuf: bool, buf: array<char>, out: nat, t: string)
    reads buf
  {
    start + len <= pos <= |s| && out < buf.Length &&
    if inBuf then t == buf[..out]
    else t == s[start..start + len] && (start + len == pos || pos == |s| || Break(s[pos]))
  }

  lemma {:induction false} TrimTwice(t: string)
    ensures TrimEnd(TrimEnd(t)) == TrimEnd(t)
  {
    if t != "" && Blank(t[|t| - 1]) { TrimTwice(t[..|t| - 1]); }
  }

  /** APPEND_RUN: the characters up to `k` join what has been read. */
  method Take(s: string, start: nat, pos: nat, k: nat, len: nat, inBuf: bool, buf: array<char>, out: nat, ghost t: string)
    returns (len': nat, buf': array<char>, out': nat)
    requires Holds(s, start, pos, len, inBuf, buf, out, t) && pos < k <= |s| && !Break(s[pos])
    modifies buf
    ensures k <= |s| && Holds(s, start, k, len', inBuf, buf', out', t + s[pos..k]) && (buf' == buf || fresh(buf'))
  {
    len', buf', out' := len, buf, out;
    if inBuf {
      buf', out' := Put(buf, out, s[pos..k]);
    } else {
      len' := len + (k - pos);
      assert s[start..start + len] + s[pos..k] == s[start..k];
    }
  }

  /** The continuation: TRIM_TRAILING, SWITCH_TO_BUF and the folded breaks. */
  method TakeFold(s: string, start: nat, pos: nat, next: nat, count: nat, len: nat, inBuf: bool, buf: array<char>, out: nat, ghost t: string)
    returns (buf': array<char>, out': nat)
    requires Holds(s, start, pos, len, inBuf, buf, out, t) && pos <= next <= |s| && count > 0
    modifies buf
    ensures Holds(s, start, next, len, true, buf', out', TrimEnd(t) + Folded(count)) && (buf' == buf || fresh(buf'))
  {
    buf', out' := buf, out;
    if inBuf {
      out' := TrimBuffer(buf, out);
    } else {
      var n := TrimSlice(s, start, len);
      buf' := new char[n * 2 + 256](_ => '\0');
      out' := Append(buf', 0, s[start..start + n]);
    }
    assert buf'[..out'] == TrimEnd(t);
    buf', out' := PutFolded(buf', out', count);
  }

  lemma HoldsNothing(s: string, start: nat, buf: array<char>)
    requires start <= |s| && buf.Length > 0
    ensures Holds(s, start, start, 0, false, buf, 0, "")
  {}

  lemma HoldsPast(s: string, start: nat, pos: nat, k: nat, len: nat, inBuf: bool, buf: array<char>, out: nat, t: string)
    requires Holds(s, start, pos, len, inBuf, buf, out, t)
    requires pos <= k <= |s| && (k == |s| || Break(s[k]))
    ensures Holds(s, start, k, len, inBuf, buf, out, t)
  {}

  /** Nothing read yet, or a blank last. */
  method EndsBlank(s: string, start: nat, pos: nat, len: nat, inBuf: bool, buf: array<char>, out: nat, ghost t: string)
    returns (b: bool)
    requires Holds(s, start, pos, len, inBuf, buf, out, t) && pos < |s| && !Break(s[pos])
    ensures b == (t == "" || Blank(t[|t| - 1]))
  {
    var curLen := if inBuf then out else len;
    b := curLen == 0 || Blank(if inBuf then buf[out - 1] else s[start + len - 1]);
  }

  /** The token: a slice of the input, or the buffer. */
  method Finish(s: string, start: nat, pos: nat, len: nat, inBuf: bool, buf: array<char>, out: nat, ghost t: string)
    returns (r: Scanned)
    requires Holds(s, start, pos, len, inBuf, buf, out, t)
    modifies buf
    ensures r == Scalar(TrimEnd(t), pos)
  {
    if inBuf {
      var end := TrimBuffer(buf, out);
      buf[end] := '\0';
      r := Scalar(buf[..end], pos);
    } else {
      var n := TrimSlice(s, start, len);
      r := Scalar(s[start..start + n], pos);
    }
  }

  // Read, one case at a time.

  predicate StopsAt(s: string, j: nat, t: string, at: Place)
    requires j <= |s|
  {
    j == |s| || ValueMark(s, j, at) || (at.flow && IsFlow(s[j])) ||
    (s[j] == '#' && (t == "" || Blank(t[|t| - 1])))
  }

  lemma StopReads(s: string, j: nat, t: string, at: Place)
    requires j <= |s| && StopsAt(s, j, t, at)
    ensures Read(s, j, t, at) == Scalar(TrimEnd(t), j)
  {}

  lemma BlankReads(s: string, j: nat, t: string, at: Place)
    requires j < |s| && Blank(s[j])
    ensures var k := AfterBlanks(s, j);
            Read(s, j, t, at) == Read(s, k, if k < |s| && !Break(s[k]) then t + s[j..k] else t, at)
  {}

  lemma BreakReads(s: string, j: nat, t: string, at: Place)
    requires j < |s| && Break(s[j])
    ensures var b := BreaksAt(s, j);
            Read(s, j, t, at) == if b.pos < |s| && Continues(s, b.pos, at)
                                 then Read(s, b.pos, TrimEnd(t) + Folded(b.count), at)
                                 else Scalar(TrimEnd(t), j)
  {}

  lemma CharReads(s: string, j: nat, t: string, at: Place)
    requires j < |s| && !StopsAt(s, j, t, at) && !Blank(s[j]) && !Break(s[j])
    ensures Read(s, j, t, at) == if Control(s[j]) then Failed else Read(s, j + 1, t + s[j..j + 1], at)
  {
    assert s[j..j + 1] == [s[j]];
  }

  /** Whether the scalar ends at `pos`, where no line ends. */
  method Stops(s: string, start: nat, pos: nat, len: nat, inBuf: bool, buf: array<char>, out: nat, at: Place, ghost t: string)
    returns (b: bool)
    requires Holds(s, start, pos, len, inBuf, buf, out, t)
    ensures b == StopsAt(s, pos, t, at) && (!b ==> pos < |s|)
  {
    if pos == |s| { return true; }
    var c := s[pos];
    if c == ':' {
      var next := Peek(s, pos + 1);
      if !Blank(next) && !Break(next) && next != '\0' && !(at.flow && IsFlow(next)) { return false; }
      return true;
    }
    if c == '#' {
      b := EndsBlank(s, start, pos, len, inBuf, buf, out, t);
      return;
    }
    b := at.flow && IsFlow(c);
  }

  /** Blanks: part of the scalar unless its line ends with them. */
  method PastBlanks(s: string, start: nat, pos: nat, len: nat, inBuf: bool, buf: array<char>, out: nat, ghost at: Place, ghost t: string)
    returns (k: nat, len': nat, buf': array<char>, out': nat, ghost t': string)
    requires Holds(s, start, pos, len, inBuf, buf, out, t) && pos < |s| && Blank(s[pos])
    modifies buf
    ensures pos < k <= |s| && Holds(s, start, k, len', inBuf, buf', out', t') && (buf' == buf || fresh(buf'))
    ensures Read(s, pos, t, at) == Read(s, k, t', at)
  {
    hide Read, TrimEnd;
    k := SkipBlanks(s, pos);
    BlankReads(s, pos, t, at);
    len', buf', out', t' := len, buf, out, t;
    if k == |s| || Break(s[k]) {
      HoldsPast(s, start, pos, k, len, inBuf, buf, out, t);
    } else {
      len', buf', out' := Take(s, start, pos, k, len, inBuf, buf, out, t);
      t' := t + s[pos..k];
    }
  }

  /** Line breaks: the scalar ends, or goes on in the buffer. */
  method PastBreaks(s: string, start: nat, pos: nat, len: nat, inBuf: bool, buf: array<char>, out: nat, at: Place, ghost t: string)
    returns (goesOn: bool, k: nat, buf': array<char>, out': nat, ghost t': string)
    requires Holds(s, start, pos, len, inBuf, buf, out, t) && pos < |s| && Break(s[pos])
    modifies buf
    ensures goesOn ==> pos < k <= |s| && Holds(s, start, k, len, true, buf', out', t') && (buf' == buf || fresh(buf'))
    ensures goesOn ==> Read(s, pos, t, at) == Read(s, k, t', at)
    ensures !goesOn ==> Read(s, pos, t, at) == Scalar(TrimEnd(t), pos)
    ensures !goesOn ==> buf' == buf && out' == out && t' == t && Holds(s, start, pos, len, inBuf, buf, out, t)
  {
    hide Read, TrimEnd, Folded, Continues, BreaksAt;
    BreakReads(s, pos, t, at);
    var count, next, col := SkipLines(s, pos);
    goesOn, k, buf', out', t' := false, pos, buf, out, t;
    if next == |s| { return; }
    goesOn := IsContinuation(s, next, col, at);
    if goesOn {
      buf', out' := TakeFold(s, start, pos, next, count, len, inBuf, buf, out, t);
      k, t' := next, TrimEnd(t) + Folded(count);
    }
  }

  /** scan_plain_scalar: the result does not depend on which search finds the runs. */
  method ScanPlain(s: string, start: nat, at: Place, vector: bool) returns (r: Scanned)
    requires start <= |s|
    ensures r == Read(s, start, "", at)
  {
    hide *;
    var inBuf, len: nat, out: nat, pos: nat := false, 0, 0, start;
    var buf := new char[1](_ => '\0');
    ghost var t := "";
    HoldsNothing(s, start, buf);
    while true
      invariant fresh(buf) && pos <= |s| && Holds(s, start, pos, len, inBuf, buf, out, t)
      invariant Read(s, pos, t, at) == Read(s, start, "", at)
      decreases |s| - pos
    {
      var k := FindRun(s, pos, vector);
      if k > pos {
        RunReads(s, pos, k, t, at);
        len, buf, out := Take(s, start, pos, k, len, inBuf, buf, out, t);
        t := t + s[pos..k];
        pos := k;
      }
      var stops := Stops(s, start, pos, len, inBuf, buf, out, at, t);
      if stops { StopReads(s, pos, t, at); break; }
      if Blank(s[pos]) {
        pos, len, buf, out, t := PastBlanks(s, start, pos, len, inBuf, buf, out, at, t);
      } else if Break(s[pos]) {
        var goesOn;
        goesOn, k, buf, out, t := PastBreaks(s, start, pos, len, inBuf, buf, out, at, t);
        if !goesOn { break; }
        inBuf, pos := true, k;
      } else {
        CharReads(s, pos, t, at);
        if Control(s[pos]) { return Failed; }
        len, buf, out := Take(s, start, pos, pos + 1, len, inBuf, buf, out, t);
        t := t + s[pos..pos + 1];
        pos := pos + 1;
      }
    }
    r := Finish(s, start, pos, len, inBuf, buf, out, t);
  }
}
