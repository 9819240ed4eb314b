/**
 * Single-quoted scalars (YAML 1.2.2 section 7.3.2): a quote is doubled, there
 * are no other escapes, and lines are folded.
 */
module SingleQuoted {
  import opened Chars

  function Doubled(s: string): string {
    if s == "" then "" else (if s[0] == '\'' then "''" else [s[0]]) + Doubled(s[1..])
  }

  /** emit_single_quoted, appending to the output. */
  method EmitSingleQuoted(out: string, s: string) returns (r: string)
    ensures r == out + "'" + Doubled(s) + "'"
  {
    r := out + "'";
    for i := 0 to |s|
      invariant out + "'" + Doubled(s) == r + Doubled(s[i..])
    {
      assert s[i..][1..] == s[i + 1..];
      r := r + if s[i] == '\'' then "''" else [s[i]];
    }
    r := r + "'";
  }

  // ----- reading -----

  datatype Scanned = Scalar(value: string, end: nat) | Failed

  /** The rest of the scalar from `j`, after the text `t`; `ok` says whether the
      scalar may go on at a position on a new line. */
  function Read(s: string, j: nat, t: string, ok: nat -> bool): Scanned
    requires j <= |s|
    decreases |s| - j
  {
    if j == |s| then Failed
    else if s[j] == '\'' then
      if j + 1 < |s| && s[j + 1] == '\'' then Read(s, j + 2, t + "'", ok) else Scalar(t, j + 1)
    else if Break(s[j]) then
      var b := BreaksAt(s, j);
      if ok(b.pos) then Read(s, b.pos, TrimEnd(t) + Folded(b.count), ok) else Failed
    else Read(s, j + 1, t + [s[j]], ok)
  }

  lemma {:induction false} ReadRun(s: string, j: nat, k: nat, t: string, ok: nat -> bool)
    requires j <= k <= |s| && forall i | j <= i < k :: s[i] != '\'' && !Break(s[i])
    ensures Read(s, j, t, ok) == Read(s, k, t + s[j..k], ok)
    decreases k - j
  {
    if j == k {
      assert t + s[j..k] == t;
    } else {
      ReadRun(s, j + 1, k, t + [s[j]], ok);
      assert t + [s[j]] + s[j + 1..k] == t + s[j..k];
    }
  }

  /** The decoding path, into a buffer that grows. */
  method Decode(s: string, start: nat, ok: nat -> bool) returns (r: Scanned)
    requires start <= |s|
    ensures r == Read(s, start, "", ok)
  {
    var buf := new char[64](_ => '\0');
    var out: nat, pos := 0, start;
    assert buf[..0] == "";
    while pos < |s|
      invariant start <= pos <= |s| && out < buf.Length && fresh(buf)
      invariant Read(s, pos, buf[..out], ok) == Read(s, start, "", ok)
      decreases |s| - pos
    {
      if s[pos] == '\'' {
        if !(pos + 1 < |s| && s[pos + 1] == '\'') { break; }
        buf := Ensure(buf, out, 1);
        out := Append(buf, out, "'");
        pos := pos + 2;
      } else if Break(s[pos]) {
        out := TrimBuffer(buf, out);
        var count, next := SkipBreaks(s, pos);
        if !ok(next) { return Failed; }
        buf := Ensure(buf, out, count);
        out := Append(buf, out, Folded(count));
        pos := next;
      } else {
        var k := FindAny4(s, pos, '\'', '\n', '\r', '\'');
        ReadRun(s, pos, k, buf[..out], ok);
        buf := Ensure(buf, out, k - pos);
        out := Append(buf, out, s[pos..k]);
        pos := k;
      }
    }
    if pos == |s| { return Failed; }
    buf[out] := '\0';
    r := Scalar(buf[..out], pos + 1);
  }

  /** scan_single_quoted, from just past the opening quote: a scalar without
      quotes and breaks inside is a slice of the input. */
  method ScanSingleQuoted(s: string, start: nat, ok: nat -> bool) returns (r: Scanned)
    requires start <= |s|
    ensures r == Read(s, start, "", ok)
  {
    var j := FindAny4(s, start, '\'', '\n', '\r', '\'');
    if j < |s| && s[j] == '\'' && !(j + 1 < |s| && s[j + 1] == '\'') {
      ReadRun(s, start, j, "", ok);
      assert "" + s[start..j] == s[start..j];
      return Scalar(s[start..j], j + 1);
    }
    r := Decode(s, start, ok);
  }

  // ----- what is written reads back -----

  predicate BreakFree(s: string) {
    forall i | 0 <= i < |s| :: !Break(s[i])
  }

  /** Not followed by a quote. */
  predicate Closed(tail: string) {
    tail != "" && tail[0] == '\'' && (|tail| > 1 ==> tail[1] != '\'')
  }

  /** A break-free text reads back unless a quote follows the closing one. */
  lemma {:induction false} DoubledReads(s: string, j: nat, text: string, tail: string, t: string, ok: nat -> bool)
    requires BreakFree(text) && Closed(tail) && j <= |s| && s[j..] == Doubled(text) + tail
    ensures Read(s, j, t, ok) == Scalar(t + text, j + |Doubled(text)| + 1)
    decreases |text|
  {
    var rest := s[j..];
    if text == "" {
      assert s[j] == rest[0] && (j + 1 < |s| ==> s[j + 1] == rest[1]) && t + text == t;
    } else {
      var n := if text[0] == '\'' then 2 else 1;
      assert s[j] == rest[0] && (n == 2 ==> s[j + 1] == rest[1]);
      assert s[j + n..] == rest[n..] == Doubled(text[1..]) + tail;
      DoubledReads(s, j + n, text[1..], tail, t + [text[0]], ok);
      assert t + [text[0]] + text[1..] == t + text;
    }
  }

  // ----- a text with a line break does not -----

  function Feeds(t: string): nat {
    if t == "" then 0 else (if Break(t[0]) then 1 else 0) + Feeds(t[1..])
  }

  lemma {:induction false} FeedsConcat(a: string, b: string)
    ensures Feeds(a + b) == Feeds(a) + Feeds(b)
  {
    if a == "" {
      assert a + b == b;
    } else {
      assert (a + b)[1..] == a[1..] + b;
      FeedsConcat(a[1..], b);
    }
  }

  lemma FeedsLast(t: string, c: char)
    ensures Feeds(t + [c]) == Feeds(t) + if Break(c) then 1 else 0
  {
    FeedsConcat(t, [c]);
    assert [c][1..] == "";
  }

  lemma {:induction false} FeedsTrimmed(t: string)
    ensures Feeds(TrimEnd(t)) == Feeds(t)
  {
    if t != "" && Blank(t[|t| - 1]) {
      FeedsTrimmed(t[..|t| - 1]);
      FeedsLast(t[..|t| - 1], t[|t| - 1]);
      assert t == t[..|t| - 1] + [t[|t| - 1]];
    }
  }

  lemma {:induction false} FeedsRepeated(n: nat)
    ensures Feeds(Repeat('\n', n)) == n
  {
    if n > 0 {
      FeedsRepeated(n - 1);
      FeedsLast(Repeat('\n', n - 1), '\n');
    }
  }

  /** `text` and then the closing quote are ahead. */
  predicate Ahead(s: string, j: nat, text: string, tail: string) {
    Closed(tail) && j <= |s| && s[j..] == Doubled(text) + tail
  }

  lemma AheadNext(s: string, j: nat, text: string, tail: string)
    requires Ahead(s, j, text, tail)
    ensures j < |s| && (text == "" ==> s[j] == '\'' && (j + 1 < |s| ==> s[j + 1] != '\''))
    ensures text != "" ==> s[j] == text[0] && var n := if text[0] == '\'' then 2 else 1;
              (n == 2 ==> j + 1 < |s| && s[j + 1] == '\'') && Ahead(s, j + n, text[1..], tail)
  {
    var rest := s[j..];
    assert s[j] == rest[0] && (j + 1 < |s| ==> s[j + 1] == rest[1]);
    if text != "" {
      var n := if text[0] == '\'' then 2 else 1;
      assert s[j + n..] == rest[n..] == Doubled(text[1..]) + tail;
    }
  }

  lemma {:induction false} BlanksAhead(s: string, j: nat, text: string, tail: string) returns (rest: string)
    requires Ahead(s, j, text, tail)
    ensures |rest| <= |text| && Ahead(s, AfterBlanks(s, j), rest, tail) && Feeds(rest) == Feeds(text)
    decreases |text|
  {
    hide Ahead, Doubled;
    AheadNext(s, j, text, tail);
    rest := text;
    if text != "" && Blank(text[0]) { rest := BlanksAhead(s, j + 1, text[1..], tail); }
  }

  /** Folded breaks are all in the text, and at least as many as are counted. */
  lemma {:induction false} BreaksAhead(s: string, j: nat, text: string, tail: string) returns (rest: string)
    requires Ahead(s, j, text, tail) && text != "" && Break(text[0])
    ensures s[j] == text[0] && |rest| < |text| && Ahead(s, BreaksAt(s, j).pos, rest, tail)
    ensures BreaksAt(s, j).count + Feeds(rest) <= Feeds(text)
    decreases |text|
  {
    hide Ahead, Doubled;
    AheadNext(s, j, text, tail);
    AheadNext(s, j + 1, text[1..], tail);
    var past := text[1..];
    if text[0] == '\r' && past != "" && past[0] == '\n' { past := past[1..]; }
    var k := AfterBreak(s, j);
    past := BlanksAhead(s, k, past, tail);
    AheadNext(s, AfterBlanks(s, k), past, tail);
    rest := past;
    if past != "" && Break(past[0]) { rest := BreaksAhead(s, AfterBlanks(s, k), past, tail); }
  }

  /** What is read holds fewer line breaks than a text that has one. */
  lemma {:induction false} FewerFeeds(s: string, j: nat, text: string, tail: string, t: string, ok: nat -> bool)
    requires Ahead(s, j, text, tail)
    ensures var r := Read(s, j, t, ok);
            r.Scalar? ==> Feeds(r.value) <= Feeds(t) + Feeds(text) && (Feeds(text) > 0 ==> Feeds(r.value) < Feeds(t) + Feeds(text))
    decreases |text|
  {
    hide Ahead, Doubled, BreaksAt, TrimEnd, Folded;
    AheadNext(s, j, text, tail);
    if text == "" {
    } else if text[0] == '\'' {
      FeedsLast(t, '\'');
      FewerFeeds(s, j + 2, text[1..], tail, t + "'", ok);
    } else if Break(text[0]) {
      var rest := BreaksAhead(s, j, text, tail);
      var b := BreaksAt(s, j);
      FoldedFeeds(t, b.count);
      FewerFeeds(s, b.pos, rest, tail, TrimEnd(t) + Folded(b.count), ok);
    } else {
      FeedsLast(t, s[j]);
      FewerFeeds(s, j + 1, text[1..], tail, t + [s[j]], ok);
    }
  }

  lemma FoldedFeeds(t: string, count: nat)
    requires count > 0
    ensures Feeds(TrimEnd(t) + Folded(count)) < Feeds(t) + count
  {
    FeedsTrimmed(t);
    FeedsConcat(TrimEnd(t), Folded(count));
    if count == 1 { FeedsLast("", ' '); } else { FeedsRepeated(count - 1); }
  }

  lemma {:induction false} FeedsFree(text: string)
    ensures BreakFree(text) <==> Feeds(text) == 0
  {
    if text != "" {
      assert text == [text[0]] + text[1..];
      assert BreakFree(text) <==> !Break(text[0]) && BreakFree(text[1..]);
      FeedsFree(text[1..]);
    }
  }

  /** The main result: single-quoted output reads back exactly when it has no line break. */
  lemma ReadsBack(s: string, j: nat, text: string, tail: string, ok: nat -> bool)
    requires Ahead(s, j, text, tail)
    ensures BreakFree(text) ==> Read(s, j, "", ok) == Scalar(text, j + |Doubled(text)| + 1)
    ensures !BreakFree(text) ==> Read(s, j, "", ok).Failed? || Read(s, j, "", ok).value != text
  {
    if BreakFree(text) {
      DoubledReads(s, j, text, tail, "", ok);
      assert "" + text == text;
    } else {
      FeedsFree(text);
      FewerFeeds(s, j, text, tail, "", ok);
    }
  }

  /** The emitter's output for `text`, scanned from its opening quote. */
  method RoundTrip(before: string, text: string, rest: string, ok: nat -> bool) returns (r: Scanned)
    requires rest != "" ==> rest[0] != '\''
    ensures if BreakFree(text) then r == Scalar(text, |before| + |Doubled(text)| + 2) else r.Failed? || r.value != text
  {
    var written := EmitSingleQuoted(before, text);
    ghost var s := written + rest;
    assert s[|before| + 1..] == Doubled(text) + ("'" + rest);
    ReadsBack(s, |before| + 1, text, "'" + rest, ok);
    r := ScanSingleQuoted(written + rest, |before| + 1, ok);
  }
}
