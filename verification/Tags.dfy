/**
 * Tags (YAML 1.2.2 section 6.9.1): the emitter writes "!!suffix", "!suffix" or
 * a percent-encoded "!<...>"; scanning and expanding gives back the bytes.
 */
module Tags {
  import opened Chars
  import opened Events

  const STANDARD := "tag:yaml.org,2002:"

  predicate Flow(c: char) { c in {',', '[', ']', '{', '}'} }

  predicate UriChar(c: char) {
    'a' <= c <= 'z' || 'A' <= c <= 'Z' || '0' <= c <= '9' || c in "-#;/?:@&=+$,_.!~*'()[]"
  }

  predicate TagChar(c: char) { UriChar(c) && c != '!' && !Flow(c) }

  predicate AllTagChars(s: string) {
    forall i | 0 <= i < |s| :: TagChar(s[i])
  }

  // ----- writing -----

  function EncodedChar(c: char): string
    requires c as int < 256
  {
    if UriChar(c) then [c] else ['%', HexDigit(c as int / 16), HexDigit(c as int % 16)]
  }

  function Encoded(s: string): string
    requires IsBytes(s)
  {
    if s == "" then "" else EncodedChar(s[0]) + Encoded(s[1..])
  }

  predicate WrittenStandard(tag: string) {
    |tag| > |STANDARD| && STANDARD <= tag && AllTagChars(tag[|STANDARD|..])
  }

  predicate WrittenLocal(tag: string)
    requires tag != ""
  {
    tag[0] == '!' && AllTagChars(tag[1..])
  }

  /** The tag as written, before the space that ends it. */
  function Written(tag: string): string
    requires tag != "" && IsBytes(tag)
  {
    if WrittenStandard(tag) then "!!" + tag[|STANDARD|..]
    else if WrittenLocal(tag) then tag
    else "!<" + Encoded(tag) + ">"
  }

  method AllTagCharsOf(s: string) returns (all: bool)
    ensures all == AllTagChars(s)
  {
    for i := 0 to |s|
      invariant AllTagChars(s[..i])
    {
      if !TagChar(s[i]) { return false; }
      assert forall k | 0 <= k < i :: s[k] == s[..i][k];
    }
    assert s[..|s|] == s;
    return true;
  }

  lemma EncodedFrom(tag: string, i: nat)
    requires IsBytes(tag) && i <= |tag|
    ensures i < |tag| ==> Encoded(tag[i..]) == EncodedChar(tag[i]) + Encoded(tag[i + 1..])
    ensures i == |tag| ==> Encoded(tag[i..]) == ""
  {
    if i < |tag| { assert tag[i..][1..] == tag[i + 1..] && tag[i..][0] == tag[i]; }
  }

  /** Percent-encodes what a verbatim tag may not hold. */
  method EmitEncoded(out: string, tag: string) returns (r: string)
    requires IsBytes(tag)
    ensures r == out + Encoded(tag)
  {
    hide Encoded;
    r := out;
    assert tag[0..] == tag;
    for i := 0 to |tag|
      invariant r + Encoded(tag[i..]) == out + Encoded(tag)
    {
      EncodedFrom(tag, i);
      var piece := EncodedChar(tag[i]);
      Joined(r, piece, Encoded(tag[i + 1..]));
      r := r + piece;
    }
    EncodedFrom(tag, |tag|);
    assert r + "" == r;
  }

  /** emit_tag */
  method EmitTag(out: string, tag: string) returns (r: string)
    requires IsBytes(tag)
    ensures r == out + if tag == "" then "" else Written(tag) + " "
  {
    if tag == "" { return out; }
    var standard := IsStandard(tag);
    var local := tag[0] == '!';
    if local { local := AllTagCharsOf(tag[1..]); }
    hide WrittenStandard, AllTagChars, Encoded;
    if standard {
      r := out + ("!!" + tag[|STANDARD|..]);
    } else if local {
      r := out + tag;
    } else {
      r := EmitEncoded("!<", tag);
      r := out + (r + ">");
    }
    r := r + " ";
    Joined(out, Written(tag), " ");
  }

  lemma Joined(a: string, b: string, c: string)
    ensures a + b + c == a + (b + c)
  {}

  method IsStandard(tag: string) returns (standard: bool)
    ensures standard == WrittenStandard(tag)
    ensures standard ==> |tag| > |STANDARD|
  {
    standard := |tag| > |STANDARD| && STANDARD <= tag;
    if standard { standard := AllTagCharsOf(tag[|STANDARD|..]); }
  }

  // ----- scanning -----

  predicate Control(c: char) { c as int < 0x20 || c as int == 0x7f }

  /** Past the characters of a shorthand tag; None at a control character. */
  function ShortEnd(s: string, j: nat): (r: Option<nat>)
    requires j <= |s|
    ensures r.Some? ==> j <= r.value <= |s|
    decreases |s| - j
  {
    if j == |s| || Blank(s[j]) || Break(s[j]) || Flow(s[j]) then Some(j)
    else if Control(s[j]) then None
    else ShortEnd(s, j + 1)
  }

  /** Where the '>' or a blank stops a verbatim tag. */
  function VerbatimEnd(s: string, j: nat): (r: Option<nat>)
    requires j <= |s|
    ensures r.Some? ==> j <= r.value <= |s|
    decreases |s| - j
  {
    if j == |s| || s[j] == '>' || Blank(s[j]) || Break(s[j]) then Some(j)
    else if Control(s[j]) then None
    else VerbatimEnd(s, j + 1)
  }

  /** The end of the tag whose '!' is at `j`; None if it is malformed. */
  function TagEnd(s: string, j: nat): (r: Option<nat>)
    requires j < |s|
    ensures r.Some? ==> j < r.value <= |s|
  {
    if j + 1 < |s| && s[j + 1] == '<' then
      var e := VerbatimEnd(s, j + 2);
      if e.None? || e.value == |s| || s[e.value] != '>' || e.value == j + 2 then None else Some(e.value + 1)
    else ShortEnd(s, if j + 1 < |s| && s[j + 1] == '!' then j + 2 else j + 1)
  }

  /** scan_tag */
  method ScanTag(s: string, j: nat) returns (r: Option<nat>)
    requires j < |s|
    ensures r == TagEnd(s, j)
  {
    var pos := j + 1;
    if pos < |s| && s[pos] == '!' {
      pos := pos + 1;
    } else if pos < |s| && s[pos] == '<' {
      pos := pos + 1;
      while pos < |s| && s[pos] != '>' && !Blank(s[pos]) && !Break(s[pos])
        invariant j + 2 <= pos <= |s| && VerbatimEnd(s, pos) == VerbatimEnd(s, j + 2)
      {
        if Control(s[pos]) { return None; }
        pos := pos + 1;
      }
      if pos == |s| || s[pos] != '>' || pos == j + 2 { return None; }
      return Some(pos + 1);
    }
    ghost var from := pos;
    while pos < |s| && !Blank(s[pos]) && !Break(s[pos]) && !Flow(s[pos])
      invariant from <= pos <= |s| && ShortEnd(s, pos) == ShortEnd(s, from)
    {
      if Control(s[pos]) { return None; }
      pos := pos + 1;
    }
    return Some(pos);
  }

  // ----- expanding -----

  function Decoded(s: string): string {
    if s == "" then ""
    else if s[0] == '%' && |s| > 2 && IsHex(s[1]) && IsHex(s[2]) then
      [(HexValue(s[1]) * 16 + HexValue(s[2])) as char] + Decoded(s[3..])
    else [s[0]] + Decoded(s[1..])
  }

  predicate EscapedAt(src: string, i: nat) {
    i + 2 < |src| && src[i] == '%' && IsHex(src[i + 1]) && IsHex(src[i + 2])
  }

  lemma DecodedFrom(src: string, i: nat)
    requires i <= |src|
    ensures Decoded(src[i..]) ==
            if i == |src| then ""
            else if EscapedAt(src, i) then [(HexValue(src[i + 1]) * 16 + HexValue(src[i + 2])) as char] + Decoded(src[i + 3..])
            else [src[i]] + Decoded(src[i + 1..])
  {
    var rest := src[i..];
    if i < |src| { assert rest[1..] == src[i + 1..] && rest[0] == src[i]; }
    if i + 2 < |src| { assert rest[3..] == src[i + 3..] && rest[1] == src[i + 1] && rest[2] == src[i + 2]; }
  }

  /** pct_decode */
  method PctDecode(src: string) returns (dst: string)
    ensures dst == Decoded(src)
  {
    hide Decoded, IsHex;
    dst := "";
    var i := 0;
    assert src[0..] == src && dst + Decoded(src) == Decoded(src);
    while i < |src|
      invariant 0 <= i <= |src| && dst + Decoded(src[i..]) == Decoded(src)
      decreases |src| - i
    {
      DecodedFrom(src, i);
      if src[i] == '%' && i + 2 < |src| && IsHex(src[i + 1]) && IsHex(src[i + 2]) {
        var c := (HexValue(src[i + 1]) * 16 + HexValue(src[i + 2])) as char;
        Joined(dst, [c], Decoded(src[i + 3..]));
        dst := dst + [c];
        i := i + 3;
      } else {
        Joined(dst, [src[i]], Decoded(src[i + 1..]));
        dst := dst + [src[i]];
        i := i + 1;
      }
    }
    DecodedFrom(src, |src|);
    assert dst + "" == dst;
  }

  datatype Directive = Directive(handle: string, prefix: string)

  /** The position after the first '!' from `i` on; 1 without one. */
  function HandleFrom(raw: string, i: nat): nat
    requires i <= |raw|
    decreases |raw| - i
  {
    if i == |raw| then 1 else if raw[i] == '!' then i + 1 else HandleFrom(raw, i + 1)
  }

  function HandleLength(raw: string): (n: nat)
    requires raw != ""
  {
    if |raw| >= 2 && raw[1] == '!' then 2 else if |raw| >= 3 then HandleFrom(raw, 1) else 1
  }

  lemma {:induction false} HandleInside(raw: string, i: nat)
    requires i <= |raw| && raw != ""
    ensures 1 <= HandleFrom(raw, i) <= |raw|
    decreases |raw| - i
  {
    if i < |raw| { HandleInside(raw, i + 1); }
  }

  function PrefixFor(dirs: seq<Directive>, handle: string): Option<string> {
    if dirs == [] then None
    else if dirs[0].handle == handle then Some(dirs[0].prefix)
    else PrefixFor(dirs[1..], handle)
  }

  /** What a tag token stands for under the document's %TAG directives. */
  function Expand(raw: string, dirs: seq<Directive>): string {
    if raw == "" || raw[0] != '!' then raw
    else if |raw| >= 3 && raw[1] == '<' && raw[|raw| - 1] == '>' then Decoded(raw[2..|raw| - 1])
    else
      HandleInside(raw, 1);
      var n := HandleLength(raw);
      match PrefixFor(dirs, raw[..n])
      case Some(prefix) => prefix + Decoded(raw[n..])
      case None => if |raw| >= 2 && raw[1] == '!' then STANDARD + Decoded(raw[2..]) else raw
  }

  /** expand_tag */
  method ExpandTag(raw: string, dirs: seq<Directive>) returns (tag: string)
    ensures tag == Expand(raw, dirs)
  {
    if raw == "" || raw[0] != '!' { return raw; }
    if |raw| >= 3 && raw[1] == '<' && raw[|raw| - 1] == '>' {
      tag := PctDecode(raw[2..|raw| - 1]);
      return;
    }
    HandleInside(raw, 1);
    var n := 1;
    if |raw| >= 2 && raw[1] == '!' {
      n := 2;
    } else if |raw| >= 3 {
      var i := 1;
      while i < |raw| && raw[i] != '!'
        invariant 1 <= i <= |raw| && HandleFrom(raw, i) == HandleFrom(raw, 1)
      {
        i := i + 1;
      }
      if i < |raw| { n := i + 1; }
    }
    for d := 0 to |dirs|
      invariant PrefixFor(dirs[d..], raw[..n]) == PrefixFor(dirs, raw[..n])
    {
      assert dirs[d..][1..] == dirs[d + 1..];
      if dirs[d].handle == raw[..n] {
        var suffix := PctDecode(raw[n..]);
        return dirs[d].prefix + suffix;
      }
    }
    if |raw| >= 2 && raw[1] == '!' {
      var suffix := PctDecode(raw[2..]);
      return STANDARD + suffix;
    }
    return raw;
  }

  // ----- each form reads back -----

  lemma {:induction false} DecodedPlain(s: string)
    requires '%' !in s
    ensures Decoded(s) == s
  {
    if s != "" { DecodedPlain(s[1..]); }
  }

  lemma {:induction false} DecodeEncoded(s: string)
    requires IsBytes(s)
    ensures Decoded(Encoded(s)) == s
  {
    if s != "" {
      DecodeEncoded(s[1..]);
      DecodeChar(s[0], Encoded(s[1..]));
    }
  }

  lemma DecodeChar(c: char, rest: string)
    requires c as int < 256
    ensures Decoded(EncodedChar(c) + rest) == [c] + Decoded(rest)
  {
    hide UriChar;
    if !UriChar(c) {
      HexBack(c);
      var e := EncodedChar(c) + rest;
      assert e[3..] == rest;
    } else {
      UriPlain(c);
      assert ([c] + rest)[1..] == rest;
    }
  }

  lemma UriPlain(c: char)
    requires UriChar(c)
    ensures c != '%' && Verbatim(c)
  {}

  lemma HexBack(c: char)
    requires c as int < 256
    ensures var h, l := HexDigit(c as int / 16), HexDigit(c as int % 16);
            IsHex(h) && IsHex(l) && HexValue(h) * 16 + HexValue(l) == c as int && Verbatim(h) && Verbatim(l)
  {}

  predicate Verbatim(c: char) { c != '>' && !Blank(c) && !Break(c) && !Control(c) }

  /** Encoded characters do not end a verbatim tag. */
  lemma {:induction false} EncodedSafe(s: string)
    requires IsBytes(s)
    ensures forall i | 0 <= i < |Encoded(s)| :: Verbatim(Encoded(s)[i])
    ensures s != "" ==> Encoded(s) != ""
  {
    if s != "" {
      hide UriChar, HexDigit, Verbatim;
      EncodedSafe(s[1..]);
      if UriChar(s[0]) { UriPlain(s[0]); } else { HexBack(s[0]); PercentSafe(); }
    }
  }

  lemma PercentSafe()
    ensures Verbatim('%')
  {}

  lemma {:induction false} VerbatimStops(s: string, j: nat, e: nat)
    requires j <= e < |s| && s[e] == '>' && forall i | j <= i < e :: Verbatim(s[i])
    ensures VerbatimEnd(s, j) == Some(e)
    decreases e - j
  {
    if j < e { VerbatimStops(s, j + 1, e); }
  }

  lemma {:induction false} ShortStops(s: string, j: nat, e: nat)
    requires j <= e < |s| && Blank(s[e]) && forall i | j <= i < e :: TagChar(s[i])
    ensures ShortEnd(s, j) == Some(e)
    decreases e - j
  {
    if j < e { ShortStops(s, j + 1, e); }
  }

  lemma {:induction false} LocalHandle(raw: string, i: nat)
    requires i <= |raw| && '!' !in raw[i..]
    ensures HandleFrom(raw, i) == 1
    decreases |raw| - i
  {
    if i < |raw| {
      assert raw[i] == raw[i..][0] && raw[i + 1..] == raw[i..][1..];
      LocalHandle(raw, i + 1);
    }
  }

  /** `w` and a space stand at `j`. */
  predicate Stands(s: string, j: nat, w: string) {
    j + |w| < |s| && s[j + |w|] == ' ' && forall i | 0 <= i < |w| :: s[j + i] == w[i]
  }

  lemma StandardScans(s: string, j: nat, suffix: string)
    requires Stands(s, j, "!!" + suffix) && AllTagChars(suffix)
    ensures TagEnd(s, j) == Some(j + 2 + |suffix|)
  {
    hide ShortEnd, VerbatimEnd, TagChar;
    StandsApart(s, j, "!!", suffix);
    assert s[j + 1] == "!!"[1];
    ShortStops(s, j + 2, j + 2 + |suffix|);
  }

  lemma StandsApart(s: string, j: nat, a: string, b: string)
    requires Stands(s, j, a + b)
    ensures j + |a| + |b| < |s| && s[j + |a| + |b|] == ' '
    ensures (forall i | 0 <= i < |a| :: s[j + i] == a[i]) && forall i | j + |a| <= i < j + |a| + |b| :: s[i] == b[i - j - |a|]
  {
    forall i | 0 <= i < |a| ensures s[j + i] == a[i] { assert (a + b)[i] == a[i]; }
    forall i | j + |a| <= i < j + |a| + |b| ensures s[i] == b[i - j - |a|] { assert s[j + (i - j)] == (a + b)[i - j]; }
  }

  lemma LocalScans(s: string, j: nat, tag: string)
    requires tag != "" && Stands(s, j, tag) && AllTagChars(tag[1..])
    ensures TagEnd(s, j) == Some(j + |tag|)
  {
    forall i | j + 1 <= i < j + |tag| ensures TagChar(s[i]) { assert s[j + (i - j)] == tag[i - j] == tag[1..][i - j - 1]; }
    assert s[j + 1] == ' ' || TagChar(s[j + 1]);
    ShortStops(s, j + 1, j + |tag|);
  }

  lemma VerbatimScans(s: string, j: nat, uri: string)
    requires uri != "" && Stands(s, j, "!<" + uri + ">") && forall i | 0 <= i < |uri| :: Verbatim(uri[i])
    ensures TagEnd(s, j) == Some(j + 3 + |uri|)
  {
    var w, e := "!<" + uri + ">", j + 2 + |uri|;
    assert s[j + 1] == w[1] && s[j + (e - j)] == w[e - j] == '>';
    forall i | j + 2 <= i < e ensures Verbatim(s[i]) { assert s[j + (i - j)] == w[i - j] == uri[i - j - 2]; }
    VerbatimStops(s, j + 2, e);
  }

  /** The written tag is scanned to its end, whatever follows the space. */
  lemma ScansBack(before: string, tag: string, rest: string)
    requires tag != "" && IsBytes(tag)
    ensures TagEnd(before + Written(tag) + " " + rest, |before|) == Some(|before| + |Written(tag)|)
  {
    hide TagEnd, AllTagChars, Encoded, Control, Blank, Break;
    var s, j := before + Written(tag) + " " + rest, |before|;
    assert Stands(s, j, Written(tag));
    if WrittenStandard(tag) {
      StandardScans(s, j, tag[|STANDARD|..]);
    } else if WrittenLocal(tag) {
      LocalScans(s, j, tag);
    } else {
      EncodedSafe(tag);
      VerbatimScans(s, j, Encoded(tag));
    }
  }

  /** What a handle stands for: its directive's prefix, or the usual one. */
  function PrefixOr(dirs: seq<Directive>, handle: string, usual: string): string {
    match PrefixFor(dirs, handle)
    case Some(prefix) => prefix
    case None => usual
  }

  lemma StandardExpands(suffix: string, dirs: seq<Directive>)
    requires suffix != "" && AllTagChars(suffix)
    ensures Expand("!!" + suffix, dirs) == PrefixOr(dirs, "!!", STANDARD) + suffix
  {
    var w := "!!" + suffix;
    assert w[2..] == suffix && w[..2] == "!!";
    assert '%' !in suffix by { assert forall i | 0 <= i < |suffix| :: TagChar(suffix[i]); }
    DecodedPlain(suffix);
    assert w[|w| - 1] == suffix[|suffix| - 1];
  }

  lemma LocalExpands(tag: string, dirs: seq<Directive>)
    requires tag != "" && WrittenLocal(tag)
    ensures Expand(tag, dirs) == PrefixOr(dirs, "!", "!") + tag[1..]
  {
    hide TagChar, HandleFrom, Decoded, PrefixFor;
    NoMarks(tag[1..]);
    LocalHandle(tag, 1);
    assert |tag| >= 2 ==> tag[1] == tag[1..][0];
    assert tag[..1] == "!" && "!" + tag[1..] == tag;
    DecodedPlain(tag[1..]);
  }

  lemma NoMarks(t: string)
    requires AllTagChars(t)
    ensures '!' !in t && '%' !in t && '<' !in t
  {
    assert forall i | 0 <= i < |t| :: TagChar(t[i]);
  }

  lemma VerbatimExpands(tag: string, dirs: seq<Directive>)
    requires tag != "" && IsBytes(tag)
    ensures Expand("!<" + Encoded(tag) + ">", dirs) == tag
  {
    var w := "!<" + Encoded(tag) + ">";
    DecodeEncoded(tag);
    EncodedSafe(tag);
    assert w[2..|w| - 1] == Encoded(tag);
  }

  /** The handle the tag is written with means what it usually does. */
  predicate Unredefined(tag: string, dirs: seq<Directive>)
    requires tag != ""
  {
    if WrittenStandard(tag) then PrefixOr(dirs, "!!", STANDARD) == STANDARD
    else if WrittenLocal(tag) then PrefixOr(dirs, "!", "!") == "!"
    else true
  }

  lemma SameFront(a: string, b: string, c: string)
    ensures a + c == b + c <==> a == b
  {
    if a + c == b + c { assert a == (a + c)[..|a|] && b == (b + c)[..|b|]; }
  }

  /** Every non-empty tag is expanded to its original bytes, unless a directive
      redefines the handle it is written with. */
  lemma ExpandsBack(tag: string, dirs: seq<Directive>)
    requires tag != "" && IsBytes(tag)
    ensures Expand(Written(tag), dirs) == tag <==> Unredefined(tag, dirs)
  {
    hide Expand, Encoded, AllTagChars, PrefixOr;
    if WrittenStandard(tag) {
      var suffix := tag[|STANDARD|..];
      assert tag == STANDARD + suffix;
      StandardExpands(suffix, dirs);
      SameFront(PrefixOr(dirs, "!!", STANDARD), STANDARD, suffix);
    } else if WrittenLocal(tag) {
      assert tag == "!" + tag[1..];
      LocalExpands(tag, dirs);
      SameFront(PrefixOr(dirs, "!", "!"), "!", tag[1..]);
    } else {
      VerbatimExpands(tag, dirs);
    }
  }

  lemma NoDirectives(tag: string)
    requires tag != ""
    ensures Unredefined(tag, [])
  {}

  lemma TagWritten(before: string, w: string, rest: string)
    ensures before + (w + " ") + rest == before + w + " " + rest
    ensures (before + w + " " + rest)[|before|..|before| + |w|] == w
  {}

  /** Written, scanned and expanded; with no directives the tag is always the same. */
  method RoundTrip(before: string, tag: string, rest: string, dirs: seq<Directive>) returns (r: Option<string>)
    requires tag != "" && IsBytes(tag)
    ensures r.Some? && (r.value == tag <==> Unredefined(tag, dirs))
    ensures dirs == [] ==> r == Some(tag)
  {
    hide *;
    var out := EmitTag(before, tag);
    TagWritten(before, Written(tag), rest);
    ScansBack(before, tag, rest);
    var end := ScanTag(out + rest, |before|);
    ExpandsBack(tag, dirs);
    NoDirectives(tag);
    var t := ExpandTag((out + rest)[|before|..end.value], dirs);
    r := Some(t);
  }
}
