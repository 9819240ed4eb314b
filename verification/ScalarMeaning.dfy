/**
 * What escapes, tag handles, schema terms and requested styles stand for, said
 * without the functions that decode, expand, resolve and choose.
 */
module ScalarMeaning {
  import opened Chars
  import opened Schema
  import opened Events
  import BlockScalar
  import DoubleQuoted
  import SingleQuoted
  import LiteralScalar
  import PlainText
  import ScalarEmission
  import Tags

  // ----- escapes -----

  predicate Continues(c: char) { 0x80 <= c as int < 0xc0 }

  function Low(c: char): int { c as int - 0x80 }

  /** The bytes are the code point in UTF-8, in the shortest form (RFC 3629 section 3). */
  predicate Encodes(r: string, cp: nat) {
    match |r|
    case 1 => cp < 0x80 && r[0] as int == cp
    case 2 => 0x80 <= cp < 0x800 && 0xc0 <= r[0] as int < 0xe0 && Continues(r[1]) && (r[0] as int - 0xc0) * 0x40 + Low(r[1]) == cp
    case 3 =>
      && 0x800 <= cp < 0x10000 && 0xe0 <= r[0] as int < 0xf0 && Continues(r[1]) && Continues(r[2])
      && (r[0] as int - 0xe0) * 0x1000 + Low(r[1]) * 0x40 + Low(r[2]) == cp
    case 4 =>
      && 0x10000 <= cp < 0x110000 && 0xf0 <= r[0] as int < 0xf8 && Continues(r[1]) && Continues(r[2]) && Continues(r[3])
      && (r[0] as int - 0xf0) * 0x40000 + Low(r[1]) * 0x1000 + Low(r[2]) * 0x40 + Low(r[3]) == cp
    case _ => false
  }

  lemma Utf8Encodes(cp: nat)
    requires cp <= 0x10ffff
    ensures Encodes(DoubleQuoted.Utf8(cp), cp)
  {
    assert cp / 4096 / 64 == cp / 0x40000;
    assert cp / 64 / 64 == cp / 4096;
  }

  /** No two code points are written alike. */
  lemma Utf8Injective(a: nat, b: nat)
    requires a <= 0x10ffff && b <= 0x10ffff && DoubleQuoted.Utf8(a) == DoubleQuoted.Utf8(b)
    ensures a == b
  {
    hide DoubleQuoted.Utf8;
    Utf8Encodes(a);
    Utf8Encodes(b);
  }

  /** The code point that a backslash and this character stand for (YAML 1.2.2 section 5.7). */
  function EscapeCode(c: char): Option<nat> {
    match c
    case '0' => Some(0)
    case 'a' => Some(7)
    case 'b' => Some(8)
    case 't' => Some(9)
    case '\t' => Some(9)
    case 'n' => Some(10)
    case 'v' => Some(11)
    case 'f' => Some(12)
    case 'r' => Some(13)
    case 'e' => Some(27)
    case ' ' => Some(32)
    case '"' => Some(34)
    case '/' => Some(47)
    case '\\' => Some(92)
    case 'N' => Some(133)
    case '_' => Some(160)
    case _ => None
  }

  /** Every escape stands for its code point, and there are no others. */
  lemma EscapesEncode(c: char)
    ensures var cp := EscapeCode(c); if cp.Some? then Encodes(DoubleQuoted.Simple(c), cp.value) else DoubleQuoted.Simple(c) == ""
  {}

  // ----- tag handles -----

  /** `k` is the first directive for the handle. */
  predicate Declares(dirs: seq<Tags.Directive>, handle: string, k: nat) {
    k < |dirs| && dirs[k].handle == handle && forall i | 0 <= i < k :: dirs[i].handle != handle
  }

  lemma {:induction false} FirstDeclares(dirs: seq<Tags.Directive>, handle: string, k: nat)
    requires Declares(dirs, handle, k)
    ensures Tags.PrefixFor(dirs, handle) == Some(dirs[k].prefix)
    decreases k
  {
    if k > 0 { FirstDeclares(dirs[1..], handle, k - 1); }
  }

  lemma {:induction false} NoneDeclares(dirs: seq<Tags.Directive>, handle: string)
    requires forall i | 0 <= i < |dirs| :: dirs[i].handle != handle
    ensures Tags.PrefixFor(dirs, handle) == None
  {
    if dirs != [] { NoneDeclares(dirs[1..], handle); }
  }

  lemma {:induction false} HandleEnds(raw: string, i: nat, n: nat)
    requires 1 <= i <= n < |raw| && raw[n] == '!' && forall k | i <= k < n :: raw[k] != '!'
    ensures Tags.HandleFrom(raw, i) == n + 1
    decreases n - i
  {
    if i < n { HandleEnds(raw, i + 1, n); }
  }

  /** A tag with a named handle: the prefix of the handle's first directive and the
      suffix decoded; without a directive the tag is left as it is. */
  lemma NamedExpands(name: string, suffix: string, dirs: seq<Tags.Directive>, k: nat)
    requires name != "" && '!' !in name && name[0] != '<'
    ensures var handle := "!" + name + "!";
            && (Declares(dirs, handle, k) ==> Tags.Expand(handle + suffix, dirs) == dirs[k].prefix + Tags.Decoded(suffix))
            && ((forall i | 0 <= i < |dirs| :: dirs[i].handle != handle) ==> Tags.Expand(handle + suffix, dirs) == handle + suffix)
  {
    hide Tags.Decoded, Tags.PrefixFor, Tags.HandleFrom;
    var handle, n := "!" + name + "!", |name| + 1;
    var raw := handle + suffix;
    assert raw[n] == '!' && forall i | 1 <= i < n :: raw[i] == name[i - 1];
    HandleEnds(raw, 1, n);
    assert raw[..n + 1] == handle && raw[n + 1..] == suffix;
    if Declares(dirs, handle, k) { FirstDeclares(dirs, handle, k); }
    if forall i | 0 <= i < |dirs| :: dirs[i].handle != handle { NoneDeclares(dirs, handle); }
  }

  /** A tag with the secondary handle: a directive for it, or the usual prefix. */
  lemma SecondaryExpands(suffix: string, dirs: seq<Tags.Directive>, k: nat)
    ensures Declares(dirs, "!!", k) ==> Tags.Expand("!!" + suffix, dirs) == dirs[k].prefix + Tags.Decoded(suffix)
    ensures (forall i | 0 <= i < |dirs| :: dirs[i].handle != "!!") ==>
              Tags.Expand("!!" + suffix, dirs) == "tag:yaml.org,2002:" + Tags.Decoded(suffix)
  {
    hide Tags.Decoded, Tags.PrefixFor;
    var raw := "!!" + suffix;
    assert raw[..2] == "!!" && raw[2..] == suffix;
    if Declares(dirs, "!!", k) { FirstDeclares(dirs, "!!", k); }
    if forall i | 0 <= i < |dirs| :: dirs[i].handle != "!!" { NoneDeclares(dirs, "!!"); }
  }

  // ----- the standard schemas -----

  lemma {:induction false} TermsFirst(terms: seq<string>, tag: string, more: Rules, v: string)
    ensures Resolve(Terms(terms, tag) + more, v, Plain) == if v in terms then tag else Resolve(more, v, Plain)
    decreases |terms|
  {
    var rules := Terms(terms, tag) + more;
    if terms == [] {
      assert rules == more;
    } else {
      assert rules[1..] == Terms(terms[1..], tag) + more;
      TermsFirst(terms[1..], tag, more, v);
      assert v in terms <==> v == terms[0] || v in terms[1..];
    }
  }

  lemma NumbersLast(v: string)
    ensures Resolve(NUMBERS, v, Plain) == if IsInt(v) then INT_TAG else if IsFloat(v) then FLOAT_TAG else STR_TAG
  {
    hide IsInt, IsFloat;
    var floats := [Rule(Builtin, "float", FLOAT_TAG)];
    assert NUMBERS[1..] == floats && floats[1..] == [];
    assert Resolve(floats, v, Plain) == if IsFloat(v) then FLOAT_TAG else STR_TAG;
  }

  /** The core schema (YAML 1.2.2 section 10.3.2), text by text. */
  lemma CoreTags(v: string)
    ensures Resolve(CORE_RULES, v, Plain) ==
            if v == "" || v == "~" || v == "null" || v == "Null" || v == "NULL" then "tag:yaml.org,2002:null"
            else if v == "true" || v == "True" || v == "TRUE" || v == "false" || v == "False" || v == "FALSE" then "tag:yaml.org,2002:bool"
            else if IsInt(v) then "tag:yaml.org,2002:int"
            else if IsFloat(v) then "tag:yaml.org,2002:float"
            else "tag:yaml.org,2002:str"
  {
    hide IsInt, IsFloat;
    var nulls, bools := ["null", "Null", "NULL", "~", ""], ["true", "True", "TRUE", "false", "False", "FALSE"];
    assert CORE_RULES == Terms(nulls, NULL_TAG) + (Terms(bools, BOOL_TAG) + NUMBERS);
    TermsFirst(nulls, NULL_TAG, Terms(bools, BOOL_TAG) + NUMBERS, v);
    TermsFirst(bools, BOOL_TAG, NUMBERS, v);
    NumbersLast(v);
  }

  /** The JSON schema (YAML 1.2.2 section 10.2.2), text by text; what it does not
      know is a string here. */
  lemma JsonTags(v: string)
    ensures Resolve(JSON_RULES, v, Plain) ==
            if v == "null" then "tag:yaml.org,2002:null"
            else if v == "true" || v == "false" then "tag:yaml.org,2002:bool"
            else if IsInt(v) then "tag:yaml.org,2002:int"
            else if IsFloat(v) then "tag:yaml.org,2002:float"
            else "tag:yaml.org,2002:str"
  {
    hide IsInt, IsFloat;
    assert JSON_RULES == Terms(["null"], NULL_TAG) + (Terms(["true", "false"], BOOL_TAG) + NUMBERS);
    TermsFirst(["null"], NULL_TAG, Terms(["true", "false"], BOOL_TAG) + NUMBERS, v);
    TermsFirst(["true", "false"], BOOL_TAG, NUMBERS, v);
    NumbersLast(v);
  }

  // ----- styles -----

  /** What follows a scalar's closing quote does not go on with it. */
  predicate Apart(rest: string) { rest != "" ==> rest[0] != '\'' }

  /** A text asked for in single quotes gets them exactly when it reads back from
      them; otherwise it is double-quoted. */
  lemma SingleKept(v: string, at: ScalarEmission.Setting, before: string, rest: string, ok: nat -> bool)
    requires at.requested == SingleQuoted && Apart(rest)
    ensures var style := ScalarEmission.ChooseStyle(v, at);
            var r := SingleQuoted.Read(before + ScalarEmission.TextOf(SingleQuoted, v, at.indent) + rest, |before| + 1, "", ok);
            && (style == SingleQuoted <==> r.Scalar? && r.value == v)
            && (style != SingleQuoted ==> style == DoubleQuoted)
  {
    hide SingleQuoted.Read, SingleQuoted.Doubled, LiteralScalar.LiteralOk;
    var s, j := before + ScalarEmission.TextOf(SingleQuoted, v, at.indent) + rest, |before| + 1;
    assert s[j..] == SingleQuoted.Doubled(v) + ("'" + rest);
    SingleQuoted.ReadsBack(s, j, v, "'" + rest, ok);
  }

  /** A text asked for in a block style is a literal where a block scalar may stand and
      literal_ok accepts it, is never folded, and otherwise is double-quoted; one asked
      for in double quotes gets them. No other setting matters. */
  lemma BlockKept(v: string, at: ScalarEmission.Setting)
    requires at.requested == Literal || at.requested == Folded || at.requested == DoubleQuoted
    ensures var style := ScalarEmission.ChooseStyle(v, at);
            && (style == Literal <==> at.requested != DoubleQuoted && !at.flow && !at.isKey && LiteralScalar.LiteralOk(v))
            && (style != Literal ==> style == DoubleQuoted)
  {
    hide LiteralScalar.LiteralOk;
  }

  /** A null leaves what was written, less one space at most, or "~" as an entry that
      would be lost; both are null again under the core schema. */
  lemma NullStands(out: string, at: ScalarEmission.Setting)
    ensures var r := ScalarEmission.NullText(out, at);
            && (at.inFlowSeq && !at.wroteProps <==> r == out + "~")
            && (r != out + "~" ==> r == out || (r + " " == out && !at.isKey && !at.wroteProps))
    ensures Resolve(CORE_RULES, "~", Plain) == NULL_TAG == Resolve(CORE_RULES, "", Plain)
  {
    CoreTags("~");
    CoreTags("");
  }

  predicate WordChar(c: char) { 'a' <= c <= 'z' || 'A' <= c <= 'Z' || '0' <= c <= '9' || c == '_' }

  /** Words and the spaces between them need no quotes, inside brackets or not. */
  lemma WordsBare(v: string, flow: bool)
    requires v != "" && v[0] != ' ' && v[|v| - 1] != ' ' && forall i | 0 <= i < |v| :: WordChar(v[i]) || v[i] == ' '
    ensures PlainText.Bare(v, flow)
  {
    forall i: nat | i < |v| ensures !PlainText.Clash(v, i, flow) {
      assert WordChar(v[i]) || v[i] == ' ';
      assert i + 1 < |v| ==> WordChar(v[i + 1]) || v[i + 1] == ' ';
    }
    assert WordChar(v[0]);
    if |v| >= 3 { assert v[..3][0] == v[0]; }
  }

  // ----- block scalar headers -----

  function Digits(n: nat): string
    requires n < 10
  {
    if n == 0 then "" else [('0' as int + n) as char]
  }

  function ChompMark(mode: BlockScalar.Chomping): string {
    match mode
    case Clip => ""
    case Strip => "-"
    case Keep => "+"
  }

  /** A header: an indentation digit and a chomping indicator, both optional and in
      either order, then the end of the line. */
  lemma HeaderForms(s: string, j: nat, mode: BlockScalar.Chomping, explicit: nat, markFirst: bool)
    requires explicit < 10
    requires At(s, j, (if markFirst then ChompMark(mode) + Digits(explicit) else Digits(explicit) + ChompMark(mode)) + "\n")
    ensures j <= |s| && BlockScalar.HeaderAt(s, j) ==
                        Some(BlockScalar.Header(mode, explicit, j + |ChompMark(mode)| + |Digits(explicit)| + 1))
  {
    hide *;
    var a, b := if markFirst then ChompMark(mode) else Digits(explicit), if markFirst then Digits(explicit) else ChompMark(mode);
    AtSplit(s, j, a + b, "\n");
    AtSplit(s, j, a, b);
    AtInside(s, j, a);
    var k := j + |a| + |b|;
    AtInside(s, k, "\n");
    AtChar(s, k, "\n", 0);
    IndicatorsRead(s, j, mode, explicit, markFirst);
    HeaderEnds(s, j, BlockScalar.Header(mode, explicit, k));
  }

  lemma HeaderEnds(s: string, j: nat, h: BlockScalar.Header)
    requires j <= |s| && BlockScalar.Indicators(s, j, 2, BlockScalar.Clip, 0) == h && h.pos < |s| && s[h.pos] == '\n'
    ensures BlockScalar.HeaderAt(s, j) == Some(h.(pos := h.pos + 1))
  {
    hide BlockScalar.Indicators;
    assert AfterBlanks(s, h.pos) == h.pos && BlockScalar.AfterLine(s, h.pos) == h.pos + 1;
  }

  lemma IndicatorsRead(s: string, j: nat, mode: BlockScalar.Chomping, explicit: nat, markFirst: bool)
    requires explicit < 10 && j <= |s|
    requires var a := if markFirst then ChompMark(mode) else Digits(explicit);
             var b := if markFirst then Digits(explicit) else ChompMark(mode);
             At(s, j, a) && At(s, j + |a|, b) && j + |a| + |b| < |s| && s[j + |a| + |b|] == '\n'
    ensures BlockScalar.Indicators(s, j, 2, BlockScalar.Clip, 0) ==
            BlockScalar.Header(mode, explicit, j + |ChompMark(mode)| + |Digits(explicit)|)
  {
    var a, b := if markFirst then ChompMark(mode) else Digits(explicit), if markFirst then Digits(explicit) else ChompMark(mode);
    if a != "" { AtChar(s, j, a, 0); }
    if b != "" { AtChar(s, j + |a|, b, 0); }
    OneIndicator(s, j + |a|, 0, mode, explicit);
    OneIndicator(s, j + |a| + |b|, 0, mode, explicit);
  }

  lemma OneIndicator(s: string, k: nat, n: nat, mode: BlockScalar.Chomping, explicit: nat)
    requires k <= |s|
    ensures BlockScalar.Indicators(s, k, 0, mode, explicit) == BlockScalar.Header(mode, explicit, k)
  {}

  /** An indentation digit counts from the enclosing block's indentation, or from
      the margin outside all blocks, whatever the lines are. */
  lemma DigitCounts(s: string, pos: nat, indent: int, explicit: nat)
    requires pos <= |s| && explicit > 0 && indent >= -1
    ensures BlockScalar.BaseIndent(s, pos, indent, explicit) == Some(if indent < 0 then explicit else indent + explicit)
  {}

  /** Of the line feeds at the end, "-" keeps none, "+" all, and neither of them one,
      or none if there is nothing else. */
  lemma ChompsMean(body: string, n: nat, mode: BlockScalar.Chomping)
    requires body != "" ==> body[|body| - 1] != '\n'
    ensures BlockScalar.Chomp(body + Repeat('\n', n), mode) ==
            match mode
            case Strip => body
            case Keep => body + Repeat('\n', n)
            case Clip => if body == "" then "" else body + "\n"
  {
    FeedsTrimmed(body, n);
  }

  lemma {:induction false} FeedsTrimmed(body: string, n: nat)
    requires body != "" ==> body[|body| - 1] != '\n'
    ensures BlockScalar.TrimBreaks(body + Repeat('\n', n)) == body
    decreases n
  {
    var t := body + Repeat('\n', n);
    if n == 0 {
      assert t == body;
    } else {
      assert t[..|t| - 1] == body + Repeat('\n', n - 1);
      FeedsTrimmed(body, n - 1);
    }
  }
}
