/**
 * Tag resolution of plain scalars (YAML 1.2.2 chapter 10), and the emitter's
 * test for texts that would resolve to another type than a string.
 */
module Schema {
  import opened Chars
  import Events

  const NULL_TAG := "tag:yaml.org,2002:null"
  const BOOL_TAG := "tag:yaml.org,2002:bool"
  const INT_TAG := "tag:yaml.org,2002:int"
  const FLOAT_TAG := "tag:yaml.org,2002:float"
  const STR_TAG := "tag:yaml.org,2002:str"

  predicate Digit(c: char) { '0' <= c <= '9' }

  predicate Sign(c: char) { c == '+' || c == '-' }

  predicate Exp(c: char) { c == 'e' || c == 'E' }

  predicate AllDigits(s: string) {
    forall i | 0 <= i < |s| :: Digit(s[i])
  }

  function Unsigned(v: string): string {
    if v != "" && Sign(v[0]) then v[1..] else v
  }

  // ----- integers and floats, as grammars -----

  /** [-+]?[0-9]+ | [-+]?0x[0-9a-fA-F]+ | [-+]?0o[0-7]+ */
  predicate IsInt(v: string) {
    var u := Unsigned(v);
    if |u| > 1 && u[0] == '0' && u[1] == 'x' then |u| > 2 && forall i | 2 <= i < |u| :: IsHex(u[i])
    else if |u| > 1 && u[0] == '0' && u[1] == 'o' then |u| > 2 && forall i | 2 <= i < |u| :: '0' <= u[i] <= '7'
    else u != "" && AllDigits(u)
  }

  /** \.[0-9]+ | [0-9]+(\.[0-9]*)? */
  predicate Mantissa(m: string) {
    (|m| > 1 && m[0] == '.' && AllDigits(m[1..])) ||
    exists i: nat :: 0 < i <= |m| && WholePart(m, i)
  }

  /** Digits up to `i`, then nothing or a point and more digits. */
  predicate WholePart(m: string, i: nat)
    requires i <= |m|
  {
    AllDigits(m[..i]) && (i < |m| ==> m[i] == '.' && AllDigits(m[i + 1..]))
  }

  /** ([eE][-+]?[0-9]+)? */
  predicate Exponent(e: string) {
    e == "" || (Exp(e[0]) && Unsigned(e[1..]) != "" && AllDigits(Unsigned(e[1..])))
  }

  predicate SplitsAt(u: string, k: nat) {
    k <= |u| && Mantissa(u[..k]) && Exponent(u[k..]) && ('.' in u[..k] || k < |u|)
  }

  /** A mantissa and an exponent, with a point or an exponent. */
  predicate Decimal(u: string) {
    exists k: nat | k <= |u| :: SplitsAt(u, k)
  }

  predicate IsFloat(v: string) {
    v == ".nan" || Unsigned(v) == ".inf" || Decimal(Unsigned(v))
  }

  // ----- the matchers -----

  method MatchInt(v: string) returns (b: bool)
    ensures b == IsInt(v)
  {
    if |v| == 0 { return false; }
    var i := 0;
    if v[0] == '+' || v[0] == '-' {
      i := 1;
      if i >= |v| { return false; }
    }
    ghost var u := Unsigned(v);
    assert u == v[i..];
    if i + 1 < |v| && v[i] == '0' && v[i + 1] == 'x' {
      if i + 2 >= |v| { return false; }
      for j := i + 2 to |v|
        invariant forall k | 2 <= k < j - i :: IsHex(u[k])
      {
        if !IsHex(v[j]) { assert !IsHex(u[j - i]); return false; }
      }
      return true;
    }
    if i + 1 < |v| && v[i] == '0' && v[i + 1] == 'o' {
      if i + 2 >= |v| { return false; }
      for j := i + 2 to |v|
        invariant forall k | 2 <= k < j - i :: '0' <= u[k] <= '7'
      {
        if v[j] < '0' || v[j] > '7' { assert !('0' <= u[j - i] <= '7'); return false; }
      }
      return true;
    }
    for j := i to |v|
      invariant forall k | 0 <= k < j - i :: Digit(u[k])
    {
      if !Digit(v[j]) { assert !Digit(u[j - i]); return false; }
    }
    b := true;
  }

  function DigitsEnd(s: string, i: nat): (j: nat)
    requires i <= |s|
    ensures i <= j <= |s| && (j < |s| ==> !Digit(s[j])) && forall k | i <= k < j :: Digit(s[k])
    decreases |s| - i
  {
    if i < |s| && Digit(s[i]) then DigitsEnd(s, i + 1) else i
  }

  method DigitRun(s: string, i: nat) returns (j: nat)
    requires i <= |s|
    ensures j == DigitsEnd(s, i)
  {
    j := i;
    while j < |s| && Digit(s[j])
      invariant i <= j <= |s| && DigitsEnd(s, j) == DigitsEnd(s, i)
    {
      j := j + 1;
    }
  }

  lemma {:induction false} DigitsStop(s: string, i: nat, j: nat)
    requires i <= j <= |s| && (forall k | i <= k < j :: Digit(s[k])) && (j < |s| ==> !Digit(s[j]))
    ensures DigitsEnd(s, i) == j
    decreases j - i
  {
    if i < j { DigitsStop(s, i + 1, j); }
  }

  /** The longest mantissa a text starts with. */
  function MantissaEnd(u: string): (k: nat)
    ensures k <= |u|
  {
    if u == "" then 0
    else if u[0] == '.' then (if |u| > 1 && Digit(u[1]) then DigitsEnd(u, 1) else 0)
    else
      var i := DigitsEnd(u, 0);
      if 0 < i < |u| && u[i] == '.' then DigitsEnd(u, i + 1) else i
  }

  lemma MantissaEnds(u: string)
    requires MantissaEnd(u) > 0
    ensures Mantissa(u[..MantissaEnd(u)])
  {
    var k := MantissaEnd(u);
    var m := u[..k];
    if u[0] == '.' {
      assert AllDigits(m[1..]);
    } else {
      var i := DigitsEnd(u, 0);
      assert AllDigits(m[..i]);
      assert i < k ==> AllDigits(m[i + 1..]);
      assert WholePart(m, i);
    }
  }

  /** The only place a mantissa can end before an exponent. */
  lemma MantissaOnly(u: string, k: nat)
    requires k <= |u| && Mantissa(u[..k]) && (k < |u| ==> Exp(u[k]))
    ensures MantissaEnd(u) == k > 0
  {
    var m := u[..k];
    if |m| > 1 && m[0] == '.' && AllDigits(m[1..]) {
      assert forall i | 1 <= i < k :: u[i] == m[1..][i - 1];
      DigitsStop(u, 1, k);
    } else {
      var i: nat :| 0 < i <= |m| && WholePart(m, i);
      assert forall j | 0 <= j < i :: u[j] == m[..i][j];
      DigitsStop(u, 0, i);
      if i < k {
        assert forall j | i + 1 <= j < k :: u[j] == m[i + 1..][j - i - 1];
        DigitsStop(u, i + 1, k);
      }
    }
  }

  lemma DecimalAt(u: string)
    ensures Decimal(u) <==> MantissaEnd(u) > 0 && SplitsAt(u, MantissaEnd(u))
  {
    if Decimal(u) {
      var k: nat :| k <= |u| && SplitsAt(u, k);
      if k < |u| { assert u[k..] != "" && u[k..][0] == u[k]; }
      MantissaOnly(u, k);
    }
  }

  method MatchFloat(v: string) returns (b: bool)
    ensures b == IsFloat(v)
  {
    if |v| == 0 { DecimalAt(v); return false; }
    if v == ".nan" { return true; }
    var u := v;
    if v[0] == '+' || v[0] == '-' {
      u := v[1..];
      if u == "" { DecimalAt(u); return false; }
    }
    if u == ".inf" { return true; }
    b := MatchDecimal(u);
  }

  /** The part before the exponent: where it ends, 0 if there is none, and
      whether it has a point. */
  method MatchMantissa(u: string) returns (k: nat, hasDot: bool)
    requires u != ""
    ensures k == MantissaEnd(u) && (k > 0 ==> hasDot == ('.' in u[..k]))
  {
    hasDot := false;
    if u[0] == '.' {
      hasDot := true;
      if 1 >= |u| || !Digit(u[1]) { return 0, true; }
      k := DigitRun(u, 1);
    } else {
      if !Digit(u[0]) { return 0, false; }
      k := DigitRun(u, 0);
      if k < |u| && u[k] == '.' {
        hasDot := true;
        k := DigitRun(u, k + 1);
      }
    }
    PointSeen(u, hasDot);
  }

  /** The exponent from `k` on: whether it is one, up to the end. */
  method MatchExponent(u: string, k: nat) returns (ok: bool, hasExp: bool)
    requires k <= |u|
    ensures ok == Exponent(u[k..]) && (ok ==> hasExp == (k < |u|))
  {
    ghost var e := u[k..];
    if k == |u| { return true, false; }
    assert e[0] == u[k];
    if !Exp(u[k]) { return false, false; }
    var i := k + 1;
    assert e[1..] == u[i..];
    if i < |u| && Sign(u[i]) { i := i + 1; }
    assert Unsigned(e[1..]) == u[i..];
    if i >= |u| || !Digit(u[i]) {
      assert i < |u| ==> u[i..][0] == u[i];
      return false, true;
    }
    var j := DigitRun(u, i);
    assert j < |u| ==> u[i..][j - i] == u[j];
    ok, hasExp := j == |u|, true;
  }

  method MatchDecimal(u: string) returns (b: bool)
    requires u != ""
    ensures b == Decimal(u)
  {
    hide Decimal, MantissaEnd, Mantissa, Exponent;
    DecimalAt(u);
    var k, hasDot := MatchMantissa(u);
    if k == 0 { return false; }
    MantissaEnds(u);
    var ok, hasExp := MatchExponent(u, k);
    b := ok && (hasDot || hasExp);
  }

  lemma PointSeen(u: string, dot: bool)
    requires u != "" && MantissaEnd(u) > 0
    requires dot == (u[0] == '.' || (DigitsEnd(u, 0) < |u| && u[DigitsEnd(u, 0)] == '.'))
    ensures dot == ('.' in u[..MantissaEnd(u)])
  {
    var k, i := MantissaEnd(u), DigitsEnd(u, 0);
    if u[0] == '.' {
      assert u[..k][0] == '.';
    } else if dot {
      assert u[..k][i] == '.';
    } else {
      assert forall j | 0 <= j < k :: Digit(u[..k][j]);
    }
  }

  // ----- schemas -----

  datatype Match = Exact | IgnoreCase | Builtin

  datatype Rule = Rule(how: Match, pattern: string, tag: string)

  /** A schema's rules; without a match a scalar is a string. */
  type Rules = seq<Rule>

  function Lower(c: char): char {
    if 'A' <= c <= 'Z' then (c as int + 32) as char else c
  }

  predicate SameText(v: string, p: string) {
    |v| == |p| && forall i | 0 <= i < |v| :: Lower(v[i]) == Lower(p[i])
  }

  predicate Matches(r: Rule, v: string) {
    match r.how
    case Exact => v == r.pattern
    case IgnoreCase => SameText(v, r.pattern)
    case Builtin => (r.pattern == "int" && IsInt(v)) || (r.pattern == "float" && IsFloat(v))
  }

  /** oyl_schema_resolve: the first rule that matches a plain scalar decides. */
  function Resolve(rules: Rules, v: string, style: Events.ScalarStyle): string {
    if style != Events.Plain || rules == [] then STR_TAG
    else if Matches(rules[0], v) then rules[0].tag
    else Resolve(rules[1..], v, style)
  }

  method IsSameText(v: string, p: string) returns (b: bool)
    ensures b == SameText(v, p)
  {
    if |v| != |p| { return false; }
    for i := 0 to |v|
      invariant forall k | 0 <= k < i :: Lower(v[k]) == Lower(p[k])
    {
      if Lower(v[i]) != Lower(p[i]) { return false; }
    }
    b := true;
  }

  method ResolveTag(rules: Rules, v: string, style: Events.ScalarStyle) returns (tag: string)
    ensures tag == Resolve(rules, v, style)
  {
    if style != Events.Plain { return STR_TAG; }
    assert rules[0..] == rules;
    for i := 0 to |rules|
      invariant Resolve(rules[i..], v, style) == Resolve(rules, v, style)
    {
      assert rules[i..][1..] == rules[i + 1..];
      var r := rules[i];
      match r.how {
        case Exact => if v == r.pattern { return r.tag; }
        case IgnoreCase =>
          var same := IsSameText(v, r.pattern);
          if same { return r.tag; }
        case Builtin =>
          var isInt := MatchInt(v);
          if r.pattern == "int" && isInt { return r.tag; }
          var isFloat := MatchFloat(v);
          if r.pattern == "float" && isFloat { return r.tag; }
      }
    }
    tag := STR_TAG;
  }

  const FAILSAFE: Rules := []

  const NUMBERS: Rules := [Rule(Builtin, "int", INT_TAG), Rule(Builtin, "float", FLOAT_TAG)]

  /** Exact terms for one tag, as the schema builder adds them. */
  function Terms(terms: seq<string>, tag: string): (r: Rules)
    ensures |r| == |terms| && forall i | 0 <= i < |r| :: r[i] == Rule(Exact, terms[i], tag)
  {
    seq(|terms|, i requires 0 <= i < |terms| => Rule(Exact, terms[i], tag))
  }

  const JSON_RULES: Rules := Terms(["null"], NULL_TAG) + Terms(["true", "false"], BOOL_TAG) + NUMBERS

  const CORE_RULES: Rules :=
    Terms(["null", "Null", "NULL", "~", ""], NULL_TAG) +
    Terms(["true", "True", "TRUE", "false", "False", "FALSE"], BOOL_TAG) + NUMBERS

  // ----- the emitter's test -----

  /** is_yaml_keyword */
  predicate Keyword(v: string) {
    || v == "null" || v == "Null" || v == "NULL" || v == "~"
    || v == "true" || v == "True" || v == "TRUE" || v == "false" || v == "False" || v == "FALSE"
    || v == ".inf" || v == "+.inf" || v == "-.inf" || v == ".nan" || v == ".Inf" || v == ".NaN" || v == ".Nan"
    || v == ".INF" || v == ".NAN"
  }

  /** From `j` on only digits, a point, an exponent mark and signs after one. */
  predicate NumberTail(v: string, j: nat, dot: bool, exp: bool)
    decreases |v| - j
  {
    j >= |v| ||
    (if Digit(v[j]) then NumberTail(v, j + 1, dot, exp)
     else if v[j] == '.' && !dot then NumberTail(v, j + 1, true, exp)
     else if Exp(v[j]) && !exp then NumberTail(v, j + 1, dot, true)
     else Sign(v[j]) && j > 0 && Exp(v[j - 1]) && NumberTail(v, j + 1, dot, exp))
  }

  predicate NumberLike(v: string) {
    v != "" &&
    var i := if Sign(v[0]) then 1 else 0;
    i < |v| && ((i + 1 < |v| && v[i] == '0' && (v[i + 1] == 'x' || v[i + 1] == 'o')) || NumberTail(v, i, false, false))
  }

  /** looks_like_number */
  method LooksLikeNumber(v: string) returns (b: bool)
    ensures b == NumberLike(v)
  {
    if |v| == 0 { return false; }
    var i: nat := 0;
    if v[0] == '+' || v[0] == '-' {
      i := 1;
      if i >= |v| { return false; }
    }
    if i + 1 < |v| && v[i] == '0' && (v[i + 1] == 'x' || v[i + 1] == 'o') { return true; }
    var hasDot, hasE, j: nat := false, false, i;
    while j < |v|
      invariant i <= j <= |v| && NumberTail(v, j, hasDot, hasE) == NumberTail(v, i, false, false)
    {
      if Digit(v[j]) {
      } else if v[j] == '.' && !hasDot {
        hasDot := true;
      } else if Exp(v[j]) && !hasE {
        hasE := true;
      } else if !(Sign(v[j]) && j > 0 && Exp(v[j - 1])) {
        return false;
      }
      j := j + 1;
    }
    b := true;
  }

  /** Would be read as another type, as far as the emitter can tell. */
  predicate Typed(v: string) { Keyword(v) || NumberLike(v) }

  // ----- what it catches -----

  lemma {:induction false} TailDigits(v: string, j: nat, k: nat, dot: bool, exp: bool)
    requires j <= k <= |v| && forall i | j <= i < k :: Digit(v[i])
    ensures NumberTail(v, j, dot, exp) == NumberTail(v, k, dot, exp)
    decreases k - j
  {
    if j < k { TailDigits(v, j + 1, k, dot, exp); }
  }

  /** Where the unsigned part of `v` starts. */
  function Offset(v: string): (b: nat)
    ensures b <= |v| && Unsigned(v) == v[b..]
  {
    if v != "" && Sign(v[0]) then 1 else 0
  }

  lemma IntCaught(v: string)
    requires IsInt(v)
    ensures NumberLike(v)
  {
    var b, u := Offset(v), Unsigned(v);
    assert |u| > 1 ==> v[b + 1] == u[1];
    if !(|u| > 1 && u[0] == '0' && (u[1] == 'x' || u[1] == 'o')) {
      assert forall i | b <= i < |v| :: v[i] == u[i - b];
      TailDigits(v, b, |v|, false, false);
    }
  }

  lemma ExponentCaught(v: string, j: nat, dot: bool)
    requires j <= |v| && Exponent(v[j..])
    ensures NumberTail(v, j, dot, false)
  {
    if j < |v| {
      var e := v[j..];
      assert e[0] == v[j] && e[1..] == v[j + 1..];
      var at := j + 1 + Offset(v[j + 1..]);
      var d := Unsigned(e[1..]);
      assert d == v[at..] && forall i | at <= i < |v| :: v[i] == d[i - at];
      assert at == j + 2 ==> v[j + 1] == e[1..][0];
      TailDigits(v, at, |v|, dot, true);
    }
  }

  lemma PointCaught(v: string, b: nat, k: nat)
    requires b + 1 < k <= |v| && v[b] == '.' && (forall i | b < i < k :: Digit(v[i])) && Exponent(v[k..])
    ensures NumberTail(v, b, false, false)
  {
    hide Exponent, Digit, Sign, Exp;
    ExponentCaught(v, k, true);
    TailDigits(v, b + 1, k, true, false);
    TailPoint(v, b);
  }

  lemma TailPoint(v: string, j: nat)
    requires j < |v| && v[j] == '.' && NumberTail(v, j + 1, true, false)
    ensures NumberTail(v, j, false, false)
  {}

  lemma WholeCaught(v: string, b: nat, e: nat, k: nat)
    requires b < e <= k <= |v| && (forall i | b <= i < e :: Digit(v[i])) && Exponent(v[k..])
    requires e < k ==> v[e] == '.' && forall i | e < i < k :: Digit(v[i])
    ensures NumberTail(v, b, false, false)
  {
    hide Exponent, Digit, Sign, Exp, NumberTail;
    ExponentCaught(v, k, e < k);
    if e < k {
      TailDigits(v, e + 1, k, true, false);
      TailPoint(v, e);
    }
    TailDigits(v, b, e, false, false);
  }

  /** A mantissa, with the rest of the text after it. */
  lemma MantissaCaught(v: string, b: nat, k: nat)
    requires b + k <= |v| && Mantissa(v[b..b + k]) && Exponent(v[b + k..])
    ensures NumberTail(v, b, false, false)
  {
    hide NumberTail, Exponent;
    var m := v[b..b + k];
    assert forall i | b <= i < b + k :: v[i] == m[i - b];
    if |m| > 1 && m[0] == '.' && AllDigits(m[1..]) {
      assert forall i | b + 1 <= i < b + k :: v[i] == m[1..][i - b - 1];
      PointCaught(v, b, b + k);
    } else {
      var i: nat :| 0 < i <= |m| && WholePart(m, i);
      assert forall j | b <= j < b + i :: v[j] == m[..i][j - b];
      assert i < k ==> forall j | b + i + 1 <= j < b + k :: v[j] == m[i + 1..][j - b - i - 1];
      WholeCaught(v, b, b + i, b + k);
    }
  }

  lemma FloatCaught(v: string)
    requires IsFloat(v)
    ensures Typed(v)
  {
    var b, u := Offset(v), Unsigned(v);
    if v == ".nan" {
    } else if u == ".inf" {
      assert v == v[..b] + u;
    } else {
      var k: nat :| k <= |u| && SplitsAt(u, k);
      assert u[..k] == v[b..b + k] && u[k..] == v[b + k..];
      MantissaNonempty(u[..k]);
      MantissaCaught(v, b, k);
    }
  }

  lemma MantissaNonempty(m: string)
    requires Mantissa(m)
    ensures m != ""
  {}

  /** Only a rule that matches takes a text away from the strings. */
  lemma {:induction false} ResolvedBy(rules: Rules, v: string)
    ensures Resolve(rules, v, Events.Plain) == STR_TAG || exists r :: r in rules && Matches(r, v)
  {
    if rules != [] && !Matches(rules[0], v) {
      ResolvedBy(rules[1..], v);
      if r :| r in rules[1..] && Matches(r, v) { assert r in rules; }
    } else if rules != [] {
      assert rules[0] in rules;
    }
  }

  lemma BuiltinCaught(r: Rule, v: string)
    requires r.how == Builtin && Matches(r, v)
    ensures Typed(v)
  {
    if r.pattern == "int" { IntCaught(v); } else { FloatCaught(v); }
  }
}
