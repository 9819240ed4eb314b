/**
 * When the emitter writes a scalar plain, and that such a scalar is scanned as
 * a plain scalar and read back as the same text.
 */
module PlainText {
  import opened Chars
  import opened PlainScalar
  import BlockScalar
  import Events

  // ----- what may be written plain -----

  predicate NeedsEscape(v: string) {
    exists i | 0 <= i < |v| :: Control(v[i])
  }

  predicate ByteOrderMark(v: string) {
    |v| >= 3 && v[0] as int == 0xef && v[1] as int == 0xbb && v[2] as int == 0xbf
  }

  /** The first character could be taken for something else. */
  predicate BadStart(v: string, flow: bool)
    requires v != ""
  {
    || (Indicator(v[0]) &&
        !(v[0] in "-?:" && |v| > 1 && !Blank(v[1]) && !Break(v[1]) && !(flow && IsFlow(v[1]))))
    || Blank(v[0]) || ByteOrderMark(v)
    || (|v| >= 3 && (v[..3] == "---" || v[..3] == "..."))
  }

  /** The character at `i` would end the scalar or be dropped. */
  predicate Clash(v: string, i: nat, flow: bool)
    requires i < |v|
  {
    var last := i + 1 == |v|;
    || (v[i] == ':' && (last || Blank(v[i + 1])))
    || (Blank(v[i]) && (last || v[i + 1] == '#'))
    || Break(v[i])
    || (flow && IsFlow(v[i]))
  }

  predicate NeedsQuoting(v: string, flow: bool) {
    v == "" || BadStart(v, flow) || exists i: nat | i < |v| :: Clash(v, i, flow)
  }

  method IsEscaped(v: string) returns (b: bool)
    ensures b == NeedsEscape(v)
  {
    for i := 0 to |v|
      invariant forall k | 0 <= k < i :: !Control(v[k])
    {
      if v[i] as int < 0x20 && v[i] != '\t' { return true; }
      if v[i] as int == 0x7f { return true; }
    }
    b := false;
  }

  method IsQuoted(v: string, flow: bool) returns (b: bool)
    ensures b == NeedsQuoting(v, flow)
  {
    if |v| == 0 { return true; }
    var first := v[0];
    if Indicator(first) {
      if !(first == '-' || first == '?' || first == ':') { return true; }
      if |v| < 2 { return true; }
      if Blank(v[1]) || Break(v[1]) { return true; }
      if flow && IsFlow(v[1]) { return true; }
    }
    if first == ' ' || first == '\t' { return true; }
    if |v| >= 3 && first as int == 0xef && v[1] as int == 0xbb && v[2] as int == 0xbf { return true; }
    if |v| >= 3 && (v[..3] == "---" || v[..3] == "...") { return true; }
    assert !BadStart(v, flow);
    for i := 0 to |v|
      invariant forall k: nat | k < i :: !Clash(v, k, flow)
    {
      var c := v[i];
      ghost var clash := Clash(v, i, flow);
      if c == ':' && (i + 1 == |v| || v[i + 1] == ' ' || v[i + 1] == '\t') { return true; }
      if (c == ' ' || c == '\t') && i + 1 < |v| && v[i + 1] == '#' { return true; }
      if Break(c) { return true; }
      if flow && IsFlow(c) { return true; }
      if (c == ' ' || c == '\t') && i + 1 == |v| { return true; }
    }
    b := false;
  }

  /** Written plain when plain is asked for. */
  predicate Bare(v: string, flow: bool) {
    !NeedsEscape(v) && !NeedsQuoting(v, flow)
  }

  // ----- where a plain scalar ends -----

  /** The end of a scalar whose text stops at `j`, unless what follows would
      become part of it. Trailing blanks are dropped, and so is a single line
      break before an indicator. */
  function EndAfter(s: string, j: nat, at: Place): Events.Option<nat>
    requires j <= |s|
  {
    var k := AfterBlanks(s, j);
    if k == |s| || ValueMark(s, k, at) || (at.flow && IsFlow(s[k])) || (s[k] == '#' && j < k) then Events.Some(k)
    else if Break(s[k]) then
      var b := BreaksAt(s, k);
      if b.pos == |s| || !Continues(s, b.pos, at) then Events.Some(k)
      else if b.count == 1 && (ValueMark(s, b.pos, at) || (at.flow && IsFlow(s[b.pos]))) then Events.Some(b.pos)
      else Events.None
    else Events.None
  }

  lemma {:induction false} TrimGrows(t: string, x: string)
    ensures TrimEnd(t) <= TrimEnd(t + x)
  {
    if x == "" {
      assert t + x == t;
    } else if Blank(x[|x| - 1]) {
      TrimGrows(t, x[..|x| - 1]);
      assert (t + x)[..|t + x| - 1] == t + x[..|x| - 1];
    }
  }

  /** Nothing that has been read is lost, but for blanks at the end. */
  lemma {:induction false} ReadExtends(s: string, j: nat, t: string, at: Place)
    requires j <= |s|
    ensures var r := Read(s, j, t, at); r.Scalar? ==> TrimEnd(t) <= r.value
    decreases |s| - j
  {
    if StopsAt(s, j, t, at) {
    } else if Blank(s[j]) {
      var k := AfterBlanks(s, j);
      var next := if k < |s| && !Break(s[k]) then t + s[j..k] else t;
      if next != t { TrimGrows(t, s[j..k]); }
      ReadExtends(s, k, next, at);
    } else if Break(s[j]) {
      var b := BreaksAt(s, j);
      if b.pos < |s| && Continues(s, b.pos, at) {
        TrimTwice(t);
        TrimGrows(TrimEnd(t), Folded(b.count));
        ReadExtends(s, b.pos, TrimEnd(t) + Folded(b.count), at);
      }
    } else if !Control(s[j]) {
      TrimGrows(t, [s[j]]);
      ReadExtends(s, j + 1, t + [s[j]], at);
    }
  }

  // ----- what is written plain reads back -----

  /** Where the text ends, its last character counts. */
  lemma BareEnds(v: string, flow: bool)
    requires Bare(v, flow)
    ensures v != "" && !Blank(v[|v| - 1]) && TrimEnd(v) == v
  {
    assert !Clash(v, |v| - 1, flow);
  }

  /** A character of a bare text neither ends the scalar nor fails it. */
  lemma BareChar(s: string, p: nat, v: string, i: nat, at: Place)
    requires At(s, p, v) && Bare(v, at.flow) && i < |v| && !Blank(v[i])
    ensures s[p + i] == v[i] && !StopsAt(s, p + i, v[..i], at) && !Break(v[i]) && !Control(v[i])
  {
    AtChar(s, p, v, i);
    assert !Clash(v, i, at.flow);
    if i + 1 < |v| {
      AtChar(s, p, v, i + 1);
      assert !Clash(v, i + 1, at.flow) && !Control(v[i + 1]);
    }
    if i > 0 { assert !Clash(v, i - 1, at.flow) && v[..i][i - 1] == v[i - 1]; }
  }

  /** Blanks inside a bare text are followed by more of it. */
  lemma BareBlanks(s: string, p: nat, v: string, i: nat, flow: bool)
    requires At(s, p, v) && Bare(v, flow) && i < |v| && Blank(v[i])
    ensures Blank(s[p + i]) && p + i < AfterBlanks(s, p + i) < p + |v|
    ensures !Break(s[AfterBlanks(s, p + i)])
  {
    BareEnds(v, flow);
    AtChar(s, p, v, i);
    AtChar(s, p, v, |v| - 1);
    AllBlank(s, p + i);
    var k := AfterBlanks(s, p + i);
    assert k < p + |v|;
    AtChar(s, p, v, k - p);
    assert !Clash(v, k - p, flow);
  }

  lemma {:induction false} BareReads(s: string, p: nat, v: string, i: nat, at: Place)
    requires At(s, p, v) && Bare(v, at.flow) && i <= |v|
    ensures Read(s, p + i, v[..i], at) == Read(s, p + |v|, v, at)
    decreases |v| - i
  {
    hide Bare, Read, StopsAt, AfterBlanks, Control, Break;
    if i == |v| {
      assert v[..i] == v;
    } else if Blank(v[i]) {
      BareBlanks(s, p, v, i, at.flow);
      BlankReads(s, p + i, v[..i], at);
      var k := AfterBlanks(s, p + i);
      AtSlice(s, p, v, i, k - p);
      assert v[..i] + v[i..k - p] == v[..k - p];
      BareReads(s, p, v, k - p, at);
    } else {
      BareChar(s, p, v, i, at);
      CharReads(s, p + i, v[..i], at);
      AtSlice(s, p, v, i, i + 1);
      assert v[..i] + v[i..i + 1] == v[..i + 1];
      BareReads(s, p, v, i + 1, at);
    }
  }

  /** After a text that ends with a character that counts: exactly when
      EndAfter finds an end is nothing added to it. */
  lemma EndReads(s: string, j: nat, v: string, at: Place)
    requires j <= |s| && v != "" && !Blank(v[|v| - 1])
    ensures EndAfter(s, j, at).Some? ==> Read(s, j, v, at) == Scalar(v, EndAfter(s, j, at).value)
    ensures EndAfter(s, j, at).None? ==> Read(s, j, v, at).Failed? || Read(s, j, v, at).value != v
  {
    hide Read, Continues, BreaksAt, Folded;
    var k := AfterBlanks(s, j);
    if j < k {
      BlankReads(s, j, v, at);
      AllBlank(s, j);
      if k < |s| && !Break(s[k]) { GapReads(s, k, v, s[j..k], at); } else { EdgeReads(s, k, v, at); }
    } else if j < |s| && Break(s[j]) {
      EdgeReads(s, j, v, at);
    } else if StopsAt(s, j, v, at) {
      StopReads(s, j, v, at);
    } else {
      AddsOne(s, j, v, at);
    }
  }

  /** At a character that joins the text. */
  lemma AddsOne(s: string, j: nat, t: string, at: Place)
    requires j < |s| && !StopsAt(s, j, t, at) && !Blank(s[j]) && !Break(s[j])
    ensures Read(s, j, t, at).Failed? || |Read(s, j, t, at).value| > |t|
  {
    CharReads(s, j, t, at);
    if !Control(s[j]) {
      ReadExtends(s, j + 1, t + s[j..j + 1], at);
      assert TrimEnd(t + s[j..j + 1]) == t + s[j..j + 1];
    }
  }

  lemma {:induction false} TrimBlanks(v: string, x: string)
    requires forall i | 0 <= i < |x| :: Blank(x[i])
    ensures TrimEnd(v + x) == TrimEnd(v)
  {
    if x == "" {
      assert v + x == v;
    } else {
      assert (v + x)[..|v + x| - 1] == v + x[..|x| - 1];
      TrimBlanks(v, x[..|x| - 1]);
    }
  }

  /** Blanks, then something else on the same line. */
  lemma GapReads(s: string, k: nat, v: string, x: string, at: Place)
    requires k < |s| && !Blank(s[k]) && !Break(s[k])
    requires v != "" && !Blank(v[|v| - 1]) && x != "" && forall i | 0 <= i < |x| :: Blank(x[i])
    ensures var stops := ValueMark(s, k, at) || (at.flow && IsFlow(s[k])) || s[k] == '#';
            var r := Read(s, k, v + x, at);
            if stops then r == Scalar(v, k) else r.Failed? || r.value != v
  {
    TrimBlanks(v, x);
    if StopsAt(s, k, v + x, at) { StopReads(s, k, v + x, at); } else { AddsOne(s, k, v + x, at); }
  }

  /** At the end of the input or of a line. */
  lemma EdgeReads(s: string, k: nat, v: string, at: Place)
    requires k <= |s| && (k < |s| ==> Break(s[k])) && v != "" && !Blank(v[|v| - 1])
    ensures EndAfter(s, k, at).Some? ==> Read(s, k, v, at) == Scalar(v, EndAfter(s, k, at).value)
    ensures EndAfter(s, k, at).None? ==> Read(s, k, v, at).Failed? || Read(s, k, v, at).value != v
  {
    if k == |s| {
      StopReads(s, k, v, at);
    } else {
      BreakReads(s, k, v, at);
      var b := BreaksAt(s, k);
      LineStart(s, k);
      if b.pos < |s| && Continues(s, b.pos, at) { LineReads(s, b.pos, v, b.count, at); }
    }
  }

  lemma {:induction false} LineStart(s: string, k: nat)
    requires k < |s| && Break(s[k])
    ensures var p := BreaksAt(s, k).pos; p < |s| ==> !Blank(s[p]) && !Break(s[p])
    decreases |s| - k
  {
    var p := AfterBlanks(s, AfterBreak(s, k));
    if p < |s| && Break(s[p]) { LineStart(s, p); }
  }

  /** On a line that continues the scalar. */
  lemma LineReads(s: string, p: nat, v: string, count: nat, at: Place)
    requires p < |s| && !Blank(s[p]) && !Break(s[p]) && s[p] != '#' && count > 0 && v != "" && !Blank(v[|v| - 1])
    ensures var stops := ValueMark(s, p, at) || (at.flow && IsFlow(s[p]));
            var r := Read(s, p, v + Folded(count), at);
            if count == 1 && stops then r == Scalar(v, p) else r.Failed? || r.value != v
  {
    var t := v + Folded(count);
    if count == 1 {
      TrimBlanks(v, " ");
    } else {
      assert t[|t| - 1] == '\n';
      assert TrimEnd(t) == t;
    }
    if StopsAt(s, p, t, at) { StopReads(s, p, t, at); } else { AddsOne(s, p, t, at); }
  }

  /** The main result: a bare text reads back as itself exactly when what
      follows it ends the scalar there. */
  lemma BareReadsBack(s: string, p: nat, v: string, at: Place)
    requires At(s, p, v) && Bare(v, at.flow)
    ensures EndAfter(s, p + |v|, at).Some? ==> Read(s, p, "", at) == Scalar(v, EndAfter(s, p + |v|, at).value)
    ensures EndAfter(s, p + |v|, at).None? ==> Read(s, p, "", at).Failed? || Read(s, p, "", at).value != v
  {
    BareEnds(v, at.flow);
    BareReads(s, p, v, 0, at);
    assert v[..0] == "";
    EndReads(s, p + |v|, v, at);
  }

  /** Two line breaks before an indicator are folded to a line feed, which,
      unlike the space of a single one, is not dropped: "a" becomes "a\n". */
  lemma FeedBeforeIndicator()
    ensures EndAfter("a\n\n,", 1, Place(true, -1)).None?
    ensures Read("a\n\n,", 0, "", Place(true, -1)) == Scalar("a\n", 3)
  {
    hide Read, BreaksAt, Continues, TrimEnd, Repeat, AfterBlanks;
    var s, at := "a\n\n,", Place(true, -1);
    FeedLayout(s);
    CharReads(s, 0, "", at);
    assert "" + s[0..1] == "a";
    BreakReads(s, 1, "a", at);
    FeedTexts();
    StopReads(s, 3, "a\n", at);
  }

  lemma FeedLayout(s: string)
    requires s == "a\n\n,"
    ensures AfterBlanks(s, 1) == 1 && BreaksAt(s, 1) == Breaks(2, 3) && Continues(s, 3, Place(true, -1))
  {
    assert AfterBlanks(s, 3) == 3 && AfterBlanks(s, 2) == 2;
    assert BreaksAt(s, 2) == Breaks(1, 3);
  }

  lemma FeedTexts()
    ensures TrimEnd("a") == "a" && Folded(2) == "\n" && "a" + "\n" == "a\n" && TrimEnd("a\n") == "a\n"
  {
    assert Repeat('\n', 0) == "";
    assert Repeat('\n', 1) == Repeat('\n', 0) + ['\n'];
  }

  /** What the emitter writes next: nothing, a value mark, an indicator inside
      brackets, or a line at most as indented as the enclosing block or a
      document marker. */
  predicate Follows(s: string, e: nat, at: Place)
    requires e <= |s|
  {
    e == |s| || (s[e] == ':' && EndsWord(Peek(s, e + 1))) || (at.flow && IsFlow(s[e])) ||
    (s[e] == '\n' &&
     var p := BreaksAt(s, e).pos;
     p == |s| || BlanksBefore(s, p) <= at.indent || (BlanksBefore(s, p) == 0 && BlockScalar.DocIndicator(s, p)))
  }

  lemma FollowersEnd(s: string, e: nat, at: Place)
    requires e <= |s| && Follows(s, e, at)
    ensures EndAfter(s, e, at) == Events.Some(e)
  {}

  // ----- and is taken for a plain scalar -----

  datatype Kind = PlainToken | BadEntry | OtherToken

  /** What oyl_scan_token makes of the characters at `p`, where blanks and
      comments have been skipped. `first`: on the first column; `quoted`: a
      quoted scalar or a closing bracket came just before. */
  function TokenKind(s: string, p: nat, first: bool, flow: bool, quoted: bool): Kind
    requires p < |s|
  {
    var c, next := s[p], Peek(s, p + 1);
    if first && (BlockScalar.DocIndicator(s, p) || (c == '%' && !flow)) then OtherToken
    else if IsFlow(c) then OtherToken
    else if c == '-' && !flow && EndsWord(next) then OtherToken
    else if c == '?' && EndsWord(next) then OtherToken
    else if c == ':' && EndsWord(next) then OtherToken
    else if c == ':' && flow && (next == ',' || next == ']' || next == '}' || quoted) then OtherToken
    else if c in "!&*'\"" then OtherToken
    else if (c == '|' || c == '>') && !flow then OtherToken
    else if c == '-' && flow && (EndsWord(next) || IsFlow(next)) then BadEntry
    else PlainToken
  }

  /** A bare text is scanned as a plain scalar, but for one that starts with ':'
      just after a quoted key inside brackets. */
  lemma BareStarts(s: string, p: nat, v: string, first: bool, at: Place, quoted: bool)
    requires At(s, p, v) && Bare(v, at.flow) && EndAfter(s, p + |v|, at).Some?
    ensures v != "" && s[p] != '#' && !Blank(s[p]) && !Break(s[p])
    ensures TokenKind(s, p, first, at.flow, quoted) == PlainToken <==> !(at.flow && quoted && v[0] == ':')
  {
    AtChar(s, p, v, 0);
    assert !Clash(v, 0, at.flow) && !Control(v[0]);
    if |v| > 1 { AtChar(s, p, v, 1); assert !Clash(v, 1, at.flow) && !Control(v[1]); }
    NoMarker(s, p, v, at);
  }

  lemma NoMarker(s: string, p: nat, v: string, at: Place)
    requires At(s, p, v) && Bare(v, at.flow) && EndAfter(s, p + |v|, at).Some?
    ensures !BlockScalar.DocIndicator(s, p)
  {
    if |v| >= 3 {
      AtChar(s, p, v, 0);
      AtChar(s, p, v, 1);
      AtChar(s, p, v, 2);
    } else {
      assert p + |v| == |s| || s[p + |v|] !in "-.";
      AtChar(s, p, v, 0);
    }
  }

  lemma Written(before: string, v: string, rest: string)
    ensures At(before + v + rest, |before|, v)
  {}

  /** A scalar written plain after `before`, with `rest` after it. */
  method RoundTrip(before: string, v: string, rest: string, at: Place, vector: bool) returns (r: Scanned)
    requires Bare(v, at.flow)
    ensures var s := before + v + rest;
            var end := EndAfter(s, |before| + |v|, at);
            && (Follows(s, |before| + |v|, at) ==> r == Scalar(v, |before| + |v|))
            && if end.Some? then r == Scalar(v, end.value) else r.Failed? || r.value != v
  {
    hide *;
    var s := before + v + rest;
    Written(before, v, rest);
    BareReadsBack(s, |before|, v, at);
    if Follows(s, |before| + |v|, at) { FollowersEnd(s, |before| + |v|, at); }
    r := ScanPlain(s, |before|, at, vector);
  }
}
