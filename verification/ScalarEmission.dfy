/**
 * Scalars as the emitter writes them, in the style it chooses: whatever style
 * is asked for, the text reads back, and a string stays one.
 */
module ScalarEmission {
  import opened Chars
  import opened Schema
  import opened PlainScalar
  import opened PlainText
  import opened Events
  import BlockScalar
  import DoubleQuoted
  import LiteralScalar
  import SingleQuoted

  predicate HasBreak(v: string) {
    exists i | 0 <= i < |v| :: Break(v[i])
  }

  /** What is to be written, besides the text, and where: `flow` where only
      flow style may be used, `inFlowSeq` for an entry of a flow sequence,
      `wroteProps` after an anchor or a tag. */
  datatype Setting = Setting(requested: ScalarStyle, flow: bool, isKey: bool, tag: string,
                             inFlowSeq: bool, wroteProps: bool, indent: nat)

  function ChooseStyle(v: string, at: Setting): ScalarStyle {
    var blockOk := !at.flow && !at.isKey && LiteralScalar.LiteralOk(v);
    match at.requested
    case Literal => if blockOk then Literal else DoubleQuoted
    case Folded => if blockOk then Literal else DoubleQuoted
    case SingleQuoted => if HasBreak(v) then DoubleQuoted else SingleQuoted
    case DoubleQuoted => DoubleQuoted
    case Plain =>
      if v == "" && at.tag != STR_TAG then Plain
      else if NeedsEscape(v) then DoubleQuoted
      else if !NeedsQuoting(v, at.flow) then if at.tag == STR_TAG && Typed(v) then DoubleQuoted else Plain
      else if blockOk && HasBreak(v) then Literal
      else DoubleQuoted
  }

  method FindBreak(v: string) returns (b: bool)
    ensures b == HasBreak(v)
  {
    for i := 0 to |v|
      invariant forall k | 0 <= k < i :: !Break(v[k])
    {
      if Break(v[i]) { return true; }
    }
    b := false;
  }

  /** choose_style, with the loops of its tests. */
  method Choose(v: string, at: Setting) returns (style: ScalarStyle)
    ensures style == ChooseStyle(v, at)
  {
    hide LiteralScalar.LiteralOk, NeedsEscape, NeedsQuoting, HasBreak, Keyword, NumberLike;
    var literal := LiteralScalar.IsLiteralOk(v);
    var blockOk := !at.flow && !at.isKey && literal;
    if at.requested == Literal || at.requested == Folded { return if blockOk then Literal else DoubleQuoted; }
    var breaks := FindBreak(v);
    if at.requested == SingleQuoted { return if breaks then DoubleQuoted else SingleQuoted; }
    if at.requested == DoubleQuoted { return DoubleQuoted; }
    if |v| == 0 && at.tag != STR_TAG { return Plain; }
    var escapes := IsEscaped(v);
    if escapes { return DoubleQuoted; }
    var quotes := IsQuoted(v, at.flow);
    if !quotes {
      var number := LooksLikeNumber(v);
      return if at.tag == STR_TAG && (Keyword(v) || number) then DoubleQuoted else Plain;
    }
    style := if blockOk && breaks then Literal else DoubleQuoted;
  }

  // ----- writing -----

  /** A null: nothing, or "~" where an entry would be lost. */
  function NullText(out: string, at: Setting): string {
    if at.inFlowSeq && !at.wroteProps then out + "~"
    else if !at.wroteProps && !at.isKey && out != "" && out[|out| - 1] == ' ' then out[..|out| - 1]
    else out
  }

  function TextOf(style: ScalarStyle, v: string, indent: nat): string {
    match style
    case Plain => v
    case SingleQuoted => "'" + SingleQuoted.Doubled(v) + "'"
    case DoubleQuoted => "\"" + DoubleQuoted.Escaped(v) + "\""
    case _ => LiteralScalar.BlockText(v, indent)
  }

  /** emit_scalar */
  method EmitScalar(out: string, v: string, at: Setting) returns (r: string, style: ScalarStyle)
    ensures style == ChooseStyle(v, at)
    ensures r == if style == Plain && v == "" then NullText(out, at) else out + TextOf(style, v, at.indent)
  {
    hide ChooseStyle, LiteralScalar.BlockText, SingleQuoted.Doubled, DoubleQuoted.Escaped;
    style := Choose(v, at);
    r := out;
    match style
    case Plain =>
      if |v| == 0 {
        if at.inFlowSeq && !at.wroteProps {
          r := out + "~";
        } else if !at.wroteProps && !at.isKey && |out| > 0 && out[|out| - 1] == ' ' {
          r := out[..|out| - 1];
        }
      } else {
        r := out + v;
      }
    case SingleQuoted =>
      r := SingleQuoted.EmitSingleQuoted(out, v);
      Grouped(out, "'", SingleQuoted.Doubled(v), "'");
    case DoubleQuoted =>
      r := DoubleQuoted.EmitDoubleQuoted(out, v);
      Grouped(out, "\"", DoubleQuoted.Escaped(v), "\"");
    case Literal => r := LiteralScalar.EmitBlock(out, v, at.indent);
    case Folded => r := LiteralScalar.EmitBlock(out, v, at.indent);
  }

  lemma Grouped(a: string, b: string, c: string, d: string)
    ensures a + b + c + d == a + (b + c + d)
  {}

  // ----- reading -----

  /** What the scanner knows where a scalar starts: its place, and which lines
      may continue a quoted scalar. */
  datatype Around = Around(place: Place, lines: DoubleQuoted.Lines, ok: nat -> bool)

  datatype Reading = Got(value: string, end: nat) | NotRead

  /** The scalar at `p`, in the style its first character tells. */
  function ReadAt(s: string, p: nat, around: Around): Reading
    requires p < |s|
  {
    if s[p] == '\'' then
      match SingleQuoted.Read(s, p + 1, "", around.ok)
      case Scalar(v, e) => Got(v, e)
      case Failed => NotRead
    else if s[p] == '"' then
      match DoubleQuoted.Read(s, p + 1, DoubleQuoted.Text("", 0), around.lines)
      case Scalar(v, e) => Got(v, e)
      case Failed => NotRead
    else if (s[p] == '|' || s[p] == '>') && !around.place.flow then
      match BlockScalar.ReadBlock(s, p + 1, s[p] == '>', around.place.indent)
      case Scalar(v, e) => Got(v, e)
      case Failed => NotRead
    else
      match PlainScalar.Read(s, p, "", around.place)
      case Scalar(v, e) => Got(v, e)
      case Failed => NotRead
  }

  method ReadScalar(s: string, p: nat, around: Around, vector: bool) returns (r: Reading)
    requires p < |s|
    ensures r == ReadAt(s, p, around)
  {
    if s[p] == '\'' {
      var t := SingleQuoted.ScanSingleQuoted(s, p + 1, around.ok);
      r := if t.Scalar? then Got(t.value, t.end) else NotRead;
    } else if s[p] == '"' {
      var t := DoubleQuoted.ScanDoubleQuoted(s, p + 1, around.lines);
      r := if t.Scalar? then Got(t.value, t.end) else NotRead;
    } else if (s[p] == '|' || s[p] == '>') && !around.place.flow {
      var t := BlockScalar.ScanBlock(s, p + 1, s[p] == '>', around.place.indent);
      r := if t.Scalar? then Got(t.value, t.end) else NotRead;
    } else {
      var t := PlainScalar.ScanPlain(s, p, around.place, vector);
      r := if t.Scalar? then Got(t.value, t.end) else NotRead;
    }
  }

  // ----- what is written reads back -----

  /** What may come after a scalar of the style. */
  predicate FollowedBy(style: ScalarStyle, s: string, e: nat, place: Place)
    requires e <= |s|
  {
    match style
    case Plain => Follows(s, e, place)
    case SingleQuoted => e < |s| ==> s[e] != '\''
    case DoubleQuoted => true
    case _ => LiteralScalar.Ends(s, e, place.indent)
  }

  lemma BareInside(v: string)
    requires Bare(v, true)
    ensures Bare(v, false)
  {
    forall i: nat | i < |v| ensures !Clash(v, i, false) { assert !Clash(v, i, true); }
  }

  lemma PlainBack(s: string, p: nat, v: string, flow: bool, around: Around)
    requires At(s, p, v) && Bare(v, flow) && (around.place.flow ==> flow) && Follows(s, p + |v|, around.place)
    ensures p < |s| && ReadAt(s, p, around) == Got(v, p + |v|)
  {
    hide PlainScalar.Read, Follows, EndAfter, NeedsEscape, Clash;
    if flow && !around.place.flow { BareInside(v); }
    AtChar(s, p, v, 0);
    FollowersEnd(s, p + |v|, around.place);
    BareReadsBack(s, p, v, around.place);
  }

  lemma SingleBack(s: string, p: nat, v: string, rest: string, around: Around)
    requires p <= |s| && s[p..] == "'" + SingleQuoted.Doubled(v) + "'" + rest
    requires !HasBreak(v) && (rest != "" ==> rest[0] != '\'')
    ensures p < |s| && ReadAt(s, p, around) == Got(v, p + |SingleQuoted.Doubled(v)| + 2)
  {
    var d := SingleQuoted.Doubled(v);
    hide SingleQuoted.Read, SingleQuoted.Doubled;
    assert s[p] == s[p..][0] == '\'';
    assert s[p + 1..] == s[p..][1..] == d + ("'" + rest);
    SingleQuoted.ReadsBack(s, p + 1, v, "'" + rest, around.ok);
  }

  lemma DoubleBack(s: string, p: nat, v: string, rest: string, around: Around)
    requires p <= |s| && s[p..] == "\"" + DoubleQuoted.Escaped(v) + "\"" + rest && IsBytes(v)
    ensures p < |s| && ReadAt(s, p, around) == Got(v, p + |DoubleQuoted.Escaped(v)| + 2)
  {
    var d := DoubleQuoted.Escaped(v);
    hide DoubleQuoted.Read, DoubleQuoted.Escaped;
    assert s[p] == s[p..][0] == '"';
    assert s[p + 1..] == s[p..][1..] == d + ("\"" + rest);
    DoubleQuoted.EscapedReads(s, p + 1, v, "\"" + rest, DoubleQuoted.Text("", 0), around.lines);
    assert "" + v == v;
  }

  lemma LiteralBack(s: string, p: nat, v: string, indent: nat, around: Around)
    requires At(s, p, LiteralScalar.BlockText(v, indent)) && LiteralScalar.LiteralOk(v) && !around.place.flow
    requires indent > 0 && indent > around.place.indent >= -1
    requires p + |LiteralScalar.BlockText(v, indent)| <= |s| && LiteralScalar.Ends(s, p + |LiteralScalar.BlockText(v, indent)|, around.place.indent)
    ensures p < |s| && ReadAt(s, p, around) == Got(v, p + |LiteralScalar.BlockText(v, indent)|)
  {
    BarFirst(s, p, v, indent);
    hide BlockScalar.ReadBlock, LiteralScalar.BlockText, LiteralScalar.LiteralOk, LiteralScalar.Ends;
    LiteralScalar.LiteralReads(s, p, v, indent, around.place.indent);
  }

  lemma BarFirst(s: string, p: nat, v: string, indent: nat)
    requires At(s, p, LiteralScalar.BlockText(v, indent))
    ensures p < |s| && s[p] == '|' && LiteralScalar.BlockText(v, indent) != ""
  {
    LiteralScalar.BlockParts(v, indent);
    assert LiteralScalar.BlockText(v, indent)[0] == '|';
    AtChar(s, p, LiteralScalar.BlockText(v, indent), 0);
  }

  /** Nothing but a null is written as nothing. */
  predicate IsNull(v: string, at: Setting) {
    v == "" && at.requested == Plain && at.tag != STR_TAG
  }

  /** The emitter's setting is at least as strict as the scanner's place. */
  predicate Fits(at: Setting, around: Around) {
    (around.place.flow ==> at.flow) && at.indent > 0 && at.indent > around.place.indent >= -1
  }

  /** The main result: every text but a null, whatever style is asked for, is
      written so that it reads back as the same text, if what follows is what may
      come after the style chosen. */
  lemma WrittenReads(before: string, v: string, at: Setting, rest: string, around: Around)
    requires IsBytes(v) && !IsNull(v, at) && Fits(at, around)
    requires var text := TextOf(ChooseStyle(v, at), v, at.indent);
             FollowedBy(ChooseStyle(v, at), before + text + rest, |before| + |text|, around.place)
    ensures var text := TextOf(ChooseStyle(v, at), v, at.indent);
            text != "" && ReadAt(before + text + rest, |before|, around) == Got(v, |before| + |text|)
  {
    hide ReadAt, SingleQuoted.Doubled, DoubleQuoted.Escaped, LiteralScalar.BlockText, NeedsEscape, NeedsQuoting, HasBreak,
      LiteralScalar.LiteralOk, Follows, Keyword, NumberLike;
    var style := ChooseStyle(v, at);
    var text := TextOf(style, v, at.indent);
    var s, p := before + text + rest, |before|;
    Stands(before, text, rest);
    EmptyKept(v, at);
    if style == Plain {
      PlainBack(s, p, v, at.flow, around);
    } else if style == SingleQuoted {
      SingleBack(s, p, v, rest, around);
    } else if style == DoubleQuoted {
      DoubleBack(s, p, v, rest, around);
    } else if style == Literal {
      BarFirst(s, p, v, at.indent);
      LiteralBack(s, p, v, at.indent, around);
    }
  }

  lemma Stands(before: string, text: string, rest: string)
    ensures var s := before + text + rest;
            At(s, |before|, text) && s[|before|..] == text + rest && (rest != "" ==> s[|before| + |text|] == rest[0])
  {}

  /** Written after `before`, then scanned. */
  method RoundTrip(before: string, v: string, at: Setting, rest: string, around: Around, vector: bool) returns (r: Reading)
    requires IsBytes(v) && !IsNull(v, at) && Fits(at, around)
    requires var text := TextOf(ChooseStyle(v, at), v, at.indent);
             FollowedBy(ChooseStyle(v, at), before + text + rest, |before| + |text|, around.place)
    ensures r == Got(v, |before| + |TextOf(ChooseStyle(v, at), v, at.indent)|)
  {
    hide ReadAt, TextOf, NeedsEscape, NeedsQuoting, HasBreak, LiteralScalar.LiteralOk, FollowedBy, Keyword, NumberLike;
    var written, style := EmitScalar(before, v, at);
    WrittenReads(before, v, at, rest, around);
    EmptyKept(v, at);
    r := ReadScalar(written + rest, |before|, around, vector);
  }

  /** Only a null is written plain and empty. */
  lemma EmptyKept(v: string, at: Setting)
    ensures v == "" && ChooseStyle(v, at) == Plain ==> IsNull(v, at)
  {}

  // ----- a string stays a string -----

  /** Whatever is written for a string resolves to a string. */
  ghost predicate StringsStay(rules: Rules) {
    forall v, at: Setting | at.tag == STR_TAG :: Resolve(rules, v, ChooseStyle(v, at)) == STR_TAG
  }

  /** The text is no other type's, or is never written plain for a string. */
  predicate Kept(rules: Rules, v: string) {
    Resolve(rules, v, Plain) == STR_TAG || Typed(v) || !Bare(v, false)
  }

  /** The schema's own terms, in every spelling that matches, are kept. */
  ghost predicate TermsKept(rules: Rules) {
    forall r, v | r in rules && r.how != Builtin && Matches(r, v) :: Kept(rules, v)
  }

  const ASKED_PLAIN := Setting(Plain, false, false, STR_TAG, false, false, 1)

  /** Some setting writes a string plain exactly when block style does. */
  lemma PlainForString(v: string, at: Setting)
    requires at.tag == STR_TAG
    ensures ChooseStyle(v, at) == Plain ==> Bare(v, false) && !Typed(v)
    ensures ChooseStyle(v, ASKED_PLAIN) == Plain <==> Bare(v, false) && !Typed(v)
  {
    hide NeedsEscape, NeedsQuoting, Typed, LiteralScalar.LiteralOk, HasBreak;
    if Bare(v, true) { BareInside(v); }
  }

  /** A text stays a string in every setting exactly when it is kept. */
  lemma StaysString(rules: Rules, v: string)
    ensures (forall at: Setting | at.tag == STR_TAG :: Resolve(rules, v, ChooseStyle(v, at)) == STR_TAG) <==> Kept(rules, v)
  {
    hide ChooseStyle, Bare, Typed;
    forall at: Setting | at.tag == STR_TAG && Kept(rules, v) ensures Resolve(rules, v, ChooseStyle(v, at)) == STR_TAG {
      PlainForString(v, at);
    }
    PlainForString(v, ASKED_PLAIN);
    assert Resolve(rules, v, ChooseStyle(v, ASKED_PLAIN)) == STR_TAG ==> Kept(rules, v);
  }

  /** Strings stay strings exactly when the schema's own terms are kept, which is
      a finite check: numbers never get past the emitter's test. */
  lemma StringsStayExactly(rules: Rules)
    ensures StringsStay(rules) <==> TermsKept(rules)
  {
    hide ChooseStyle, Bare, Typed, Matches;
    if TermsKept(rules) {
      forall v, at: Setting | at.tag == STR_TAG ensures Resolve(rules, v, ChooseStyle(v, at)) == STR_TAG {
        ResolvedBy(rules, v);
        if Resolve(rules, v, Plain) != STR_TAG {
          var r :| r in rules && Matches(r, v);
          if r.how == Builtin { BuiltinCaught(r, v); }
        }
        StaysString(rules, v);
      }
    }
    forall r, v | StringsStay(rules) && r in rules && r.how != Builtin && Matches(r, v) ensures Kept(rules, v) {
      StaysString(rules, v);
    }
  }

  /** Strings stay strings under the schemas that come with the library. */
  lemma StandardStay()
    ensures StringsStay(FAILSAFE) && StringsStay(JSON_RULES) && StringsStay(CORE_RULES)
  {
    forall r | r in JSON_RULES && r.how != Builtin ensures r.how == Exact && Typed(r.pattern) {
      assert r.pattern in ["null"] + ["true", "false"];
    }
    forall r | r in CORE_RULES && r.how != Builtin ensures r.how == Exact && (r.pattern == "" || Typed(r.pattern)) {
      assert r.pattern in ["null", "Null", "NULL", "~", ""] + ["true", "True", "TRUE", "false", "False", "FALSE"];
    }
    assert !Bare("", false);
    StringsStayExactly(FAILSAFE);
    StringsStayExactly(JSON_RULES);
    StringsStayExactly(CORE_RULES);
  }

  /** A term of one's own in front keeps strings strings exactly when the emitter
      would not write it plain anyway. */
  lemma AddedTerm(term: string, tag: string, rules: Rules)
    requires tag != STR_TAG && StringsStay(rules)
    ensures StringsStay(Terms([term], tag) + rules) <==> Typed(term) || !Bare(term, false)
  {
    var more := Terms([term], tag) + rules;
    assert more[0] == Rule(Exact, term, tag) && more[1..] == rules;
    hide ChooseStyle, Bare, Typed;
    StaysString(more, term);
    if Kept(more, term) {
      forall v, at: Setting | at.tag == STR_TAG ensures Resolve(more, v, ChooseStyle(v, at)) == STR_TAG {
        StaysString(more, term);
        assert Resolve(rules, v, ChooseStyle(v, at)) == STR_TAG;
      }
    }
  }

  /** "yes" is such a term: written plain for a string, read as a boolean. */
  lemma YesIsLost()
    ensures ChooseStyle("yes", ASKED_PLAIN) == Plain
    ensures Resolve(Terms(["yes"], BOOL_TAG) + CORE_RULES, "yes", Plain) == BOOL_TAG
    ensures !StringsStay(Terms(["yes"], BOOL_TAG) + CORE_RULES)
  {
    var more := Terms(["yes"], BOOL_TAG) + CORE_RULES;
    assert more[0] == Rule(Exact, "yes", BOOL_TAG);
    YesIsBare();
    PlainForString("yes", ASKED_PLAIN);
  }

  lemma YesIsBare()
    ensures Bare("yes", false) && !Typed("yes")
  {
    forall i: nat | i < 3 ensures !Clash("yes", i, false) && !Control("yes"[i]) {}
  }
}
