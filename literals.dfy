/** The literal patterns of the formula interchange: constant values
    (`^-?(\d+(\.\d*)?|\.\d+)([eE][+-]?\d+)?$`), the textual percent pattern
    (`^(0(\.\d+)?|1(\.0+)?)$`), formula variables (`^[a-zA-Z]`) and the numeric
    percent range check. A constant is recognised by a small parser that splits
    it into the pattern's parts; the parts are printed back by `ConstText`, and the
    two are proved inverse, which makes the parser's language that of the pattern. */
module Literals {
  import opened Wrappers
  import opened Identifiers

  /** `[eE][+-]?\d+` */
  datatype Exponent = Exponent(marker: char, sign: Option<char>, digits: string)

  /** `\d+(\.\d*)?|\.\d+`: the integer digits, whether a point follows, the fraction digits. */
  datatype Mantissa = Mantissa(intDigits: string, hasPoint: bool, fracDigits: string)

  /** `-?`, the mantissa, the optional exponent. */
  datatype ConstParts = ConstParts(negative: bool, mantissa: Mantissa, exponent: Option<Exponent>)

  predicate IsExponentMarker(c: char)
  {
    c == 'e' || c == 'E'
  }

  predicate WellFormedExponent(e: Exponent)
  {
    && IsExponentMarker(e.marker)
    && (e.sign.None? || e.sign.value == '+' || e.sign.value == '-')
    && |e.digits| > 0 && AllDigits(e.digits)
  }

  predicate WellFormedMantissa(m: Mantissa)
  {
    && AllDigits(m.intDigits) && AllDigits(m.fracDigits)
    && (if m.hasPoint then |m.intDigits| + |m.fracDigits| > 0
        else |m.intDigits| > 0 && m.fracDigits == [])
  }

  predicate WellFormedParts(p: ConstParts)
  {
    && WellFormedMantissa(p.mantissa)
    && (p.exponent.Some? ==> WellFormedExponent(p.exponent.value))
  }

  function ExponentText(e: Option<Exponent>): string
  {
    match e
    case None => ""
    case Some(x) => [x.marker] + (if x.sign.Some? then [x.sign.value] else "") + x.digits
  }

  function MantissaText(m: Mantissa): string
  {
    m.intDigits + (if m.hasPoint then "." else "") + m.fracDigits
  }

  /** The text a decomposition stands for. */
  function ConstText(p: ConstParts): string
  {
    (if p.negative then "-" else "") + MantissaText(p.mantissa) + ExponentText(p.exponent)
  }

  /** Index of the first `e`/`E`, or the length when there is none. */
  function FirstExponentMarker(s: string): (k: nat)
    ensures k <= |s|
    ensures forall j :: 0 <= j < k ==> !IsExponentMarker(s[j])
    ensures k < |s| ==> IsExponentMarker(s[k])
  {
    if |s| == 0 then 0
    else if IsExponentMarker(s[0]) then 0
    else 1 + FirstExponentMarker(s[1..])
  }

  /** Index of the first `.`, or the length when there is none. */
  function FirstPoint(s: string): (k: nat)
    ensures k <= |s|
    ensures forall j :: 0 <= j < k ==> s[j] != '.'
    ensures k < |s| ==> s[k] == '.'
  {
    if |s| == 0 then 0
    else if s[0] == '.' then 0
    else 1 + FirstPoint(s[1..])
  }

  /** Splits a mantissa at its first point. */
  function ParseMantissa(text: string): (r: Option<Mantissa>)
    ensures r.Some? ==> WellFormedMantissa(r.value) && MantissaText(r.value) == text
  {
    var d := FirstPoint(text);
    var hasPoint := d < |text|;
    var intDigits := text[..d];
    var fracDigits := if hasPoint then text[d + 1..] else [];
    var m := Mantissa(intDigits, hasPoint, fracDigits);
    if WellFormedMantissa(m) then
      assert hasPoint ==> text == intDigits + "." + fracDigits;
      Some(m)
    else None
  }

  /** Splits the text after an exponent marker into its sign and digits. */
  function ParseExponent(marker: char, rest: string): (r: Option<Exponent>)
    requires IsExponentMarker(marker)
    ensures r.Some? ==> WellFormedExponent(r.value) && ExponentText(r) == [marker] + rest
  {
    var sign := if |rest| > 0 && (rest[0] == '+' || rest[0] == '-') then Some(rest[0]) else None;
    var digits := if sign.Some? then rest[1..] else rest;
    if |digits| > 0 && AllDigits(digits) then
      assert sign.Some? ==> rest == [rest[0]] + rest[1..];
      Some(Exponent(marker, sign, digits))
    else None
  }

  /** `b` is `b[..k]`, then `b[k]`, then the rest. */
  lemma SplitAt(b: string, k: nat)
    requires k < |b|
    ensures b == b[..k] + ([b[k]] + b[k + 1..])
  {
    assert b[k..] == [b[k]] + b[k + 1..];
    assert b == b[..k] + b[k..];
  }

  /** Splits the text after the sign at its first exponent marker into the
      mantissa and the exponent; what it returns prints back to the text. */
  function ParseBody(body: string): (r: Option<(Mantissa, Option<Exponent>)>)
    ensures r.Some? ==> WellFormedMantissa(r.value.0)
    ensures r.Some? ==> r.value.1.Some? ==> WellFormedExponent(r.value.1.value)
    ensures r.Some? ==> MantissaText(r.value.0) + ExponentText(r.value.1) == body
  {
    var k := FirstExponentMarker(body);
    match ParseMantissa(body[..k])
    case None => None
    case Some(m) =>
      if k == |body| then
        assert body[..k] == body;
        Some((m, None))
      else
        match ParseExponent(body[k], body[k + 1..])
        case None => None
        case Some(e) =>
          SplitAt(body, k);
          Some((m, Some(e)))
  }

  /** The text after an optional leading `-`. */
  function ConstBody(s: string): (body: string)
    ensures s == (if |s| > 0 && s[0] == '-' then "-" else "") + body
  {
    if |s| > 0 && s[0] == '-' then
      assert s == [s[0]] + s[1..];
      s[1..]
    else s
  }

  lemma ConcatAssoc(a: string, b: string, c: string)
    ensures a + b + c == a + (b + c)
  {
  }

  /** The recogniser of the constant-value pattern: the decomposition of the text
      into the pattern's parts, or `None` when it does not match. What it returns
      is well formed and prints back to the text. */
  function ParseConst(s: string): (r: Option<ConstParts>)
    ensures r.Some? ==> WellFormedParts(r.value) && ConstText(r.value) == s
  {
    var negative := |s| > 0 && s[0] == '-';
    match ParseBody(ConstBody(s))
    case None => None
    case Some(parts) =>
      var p := ConstParts(negative, parts.0, parts.1);
      ConcatAssoc(if negative then "-" else "", MantissaText(parts.0), ExponentText(parts.1));
      Some(p)
  }

  /** `ID_PATTERNS['constValue']` / `ID_PATTERNS.constValue`. */
  predicate IsConstLiteral(s: string)
  {
    ParseConst(s).Some?
  }

  lemma FirstExponentMarkerAt(a: string, b: string)
    requires forall j :: 0 <= j < |a| ==> !IsExponentMarker(a[j])
    requires b == [] || IsExponentMarker(b[0])
    ensures FirstExponentMarker(a + b) == |a|
  {
    var k := FirstExponentMarker(a + b);
    assert forall j :: 0 <= j < |a| ==> (a + b)[j] == a[j];
    assert |b| > 0 ==> (a + b)[|a|] == b[0];
  }

  lemma FirstPointAt(a: string, b: string)
    requires forall j :: 0 <= j < |a| ==> a[j] != '.'
    requires b == [] || b[0] == '.'
    ensures FirstPoint(a + b) == |a|
  {
    var k := FirstPoint(a + b);
    assert forall j :: 0 <= j < |a| ==> (a + b)[j] == a[j];
    assert |b| > 0 ==> (a + b)[|a|] == b[0];
  }

  /** A mantissa's text has no exponent marker and does not start with `-`. */
  lemma MantissaTextShape(m: Mantissa)
    requires WellFormedMantissa(m)
    ensures |MantissaText(m)| > 0 && MantissaText(m)[0] != '-'
    ensures forall j :: 0 <= j < |MantissaText(m)| ==> !IsExponentMarker(MantissaText(m)[j])
  {
    var t := MantissaText(m);
    if |m.intDigits| > 0 { assert t[0] == m.intDigits[0]; }
    forall j | 0 <= j < |t| ensures !IsExponentMarker(t[j]) {
      if j < |m.intDigits| { assert t[j] == m.intDigits[j]; }
      else if m.hasPoint && j == |m.intDigits| { assert t[j] == '.'; }
      else {
        var o := if m.hasPoint then |m.intDigits| + 1 else |m.intDigits|;
        assert t[j] == m.fracDigits[j - o];
      }
    }
  }

  /** Printing a well-formed mantissa and splitting it at its first point gives it back. */
  lemma ParseMantissaText(m: Mantissa)
    requires WellFormedMantissa(m)
    ensures ParseMantissa(MantissaText(m)) == Some(m)
  {
    var t := MantissaText(m);
    var pointPart := (if m.hasPoint then "." else "") + m.fracDigits;
    assert t == m.intDigits + pointPart;
    FirstPointAt(m.intDigits, pointPart);
    assert t[..|m.intDigits|] == m.intDigits;
    if m.hasPoint {
      assert t[|m.intDigits| + 1..] == m.fracDigits;
    }
  }

  /** Printing a well-formed exponent's tail and splitting it gives it back. */
  lemma ParseExponentText(e: Exponent)
    requires WellFormedExponent(e)
    ensures ParseExponent(e.marker, ExponentText(Some(e))[1..]) == Some(e)
  {
    var rest := ExponentText(Some(e))[1..];
    assert rest == (if e.sign.Some? then [e.sign.value] else "") + e.digits;
    if e.sign.Some? {
      assert rest[1..] == e.digits;
    } else {
      assert rest[0] == e.digits[0] && IsDigit(e.digits[0]);
    }
  }

  /** Printing a mantissa and an exponent and splitting the text gives them back. */
  lemma ParseBodyText(m: Mantissa, e: Option<Exponent>)
    requires WellFormedMantissa(m)
    requires e.Some? ==> WellFormedExponent(e.value)
    ensures ParseBody(MantissaText(m) + ExponentText(e)) == Some((m, e))
  {
    var mt := MantissaText(m);
    var et := ExponentText(e);
    var body := mt + et;
    MantissaTextShape(m);
    FirstExponentMarkerAt(mt, et);
    assert body[..|mt|] == mt;
    ParseMantissaText(m);
    if e.Some? {
      assert body[|mt|] == e.value.marker;
      assert body[|mt| + 1..] == et[1..];
      ParseExponentText(e.value);
    }
  }

  /** Printing a well-formed decomposition and parsing it back gives the
      decomposition again: every text of the pattern is recognised, with these parts. */
  lemma ParseConstText(p: ConstParts)
    requires WellFormedParts(p)
    ensures ParseConst(ConstText(p)) == Some(p)
  {
    var s := ConstText(p);
    var body := MantissaText(p.mantissa) + ExponentText(p.exponent);
    ConcatAssoc(if p.negative then "-" else "", MantissaText(p.mantissa), ExponentText(p.exponent));
    MantissaTextShape(p.mantissa);
    assert body[0] == MantissaText(p.mantissa)[0];
    assert ConstBody(s) == body && (|s| > 0 && s[0] == '-') == p.negative by {
      if p.negative { assert s[1..] == body; } else { assert s[0] == body[0]; }
    }
    ParseBodyText(p.mantissa, p.exponent);
  }

  // ---------------------------------------------------------------------------
  // Values of constants (Python's float() read as an exact decimal)
  // ---------------------------------------------------------------------------

  function DigitValue(c: char): nat
    requires IsDigit(c)
  {
    (c as int - '0' as int) as nat
  }

  function DigitsValue(s: string): nat
    requires AllDigits(s)
  {
    if s == [] then 0 else 10 * DigitsValue(s[..|s| - 1]) + DigitValue(s[|s| - 1])
  }

  function Pow10(n: nat): (r: nat)
    ensures r > 0
  {
    if n == 0 then 1 else 10 * Pow10(n - 1)
  }

  function ExponentScale(e: Option<Exponent>): (r: real)
    requires e.Some? ==> WellFormedExponent(e.value)
    ensures r > 0.0
  {
    match e
    case None => 1.0
    case Some(x) =>
      if x.sign == Some('-') then 1.0 / Pow10(DigitsValue(x.digits)) as real
      else Pow10(DigitsValue(x.digits)) as real
  }

  /** The number a well-formed constant denotes. */
  function ConstValue(p: ConstParts): real
    requires WellFormedParts(p)
  {
    var scaled := MantissaValue(p.mantissa) * ExponentScale(p.exponent);
    if p.negative then -scaled else scaled
  }

  /** A digit string is below ten to the power of its length. */
  lemma {:induction false} DigitsValueBelowPow10(s: string)
    requires AllDigits(s)
    ensures DigitsValue(s) < Pow10(|s|)
  {
    if s != [] {
      DigitsValueBelowPow10(s[..|s| - 1]);
    }
  }

  predicate AllZeros(s: string)
  {
    forall i :: 0 <= i < |s| ==> s[i] == '0'
  }

  lemma {:induction false} ZerosValue(s: string)
    requires AllZeros(s)
    ensures AllDigits(s) && DigitsValue(s) == 0
  {
    if s != [] {
      ZerosValue(s[..|s| - 1]);
    }
  }

  // ---------------------------------------------------------------------------
  // The percent pattern and the numeric percent check
  // ---------------------------------------------------------------------------

  /** `^(0(\.\d+)?|1(\.0+)?)$` */
  predicate IsPercentText(s: string)
  {
    || s == "0"
    || s == "1"
    || (|s| >= 3 && s[0] == '0' && s[1] == '.' && AllDigits(s[2..]))
    || (|s| >= 3 && s[0] == '1' && s[1] == '.' && AllZeros(s[2..]))
  }

  /** `validate_percent_value` / `validatePercentValue`: 0 <= v <= 1, both ends included. */
  predicate IsPercentValue(v: real)
  {
    0.0 <= v <= 1.0
  }

  /** The decomposition of a percent text: one integer digit, then the point and
      the fraction digits when there are any. */
  function PercentParts(s: string): ConstParts
    requires IsPercentText(s)
  {
    ConstParts(false, Mantissa([s[0]], |s| >= 3, if |s| >= 3 then s[2..] else ""), None)
  }

  lemma PercentTextParses(s: string)
    requires IsPercentText(s)
    ensures WellFormedParts(PercentParts(s))
    ensures ParseConst(s) == Some(PercentParts(s))
  {
    var p := PercentParts(s);
    if |s| >= 3 && s[0] == '1' {
      ZerosValue(s[2..]);
    }
    assert WellFormedParts(p);
    assert ConstText(p) == s by {
      if |s| >= 3 { assert s == [s[0]] + "." + s[2..]; }
    }
    ParseConstText(p);
  }

  /** A fraction `0.d...` lies in [0, 1). */
  lemma FractionBelowOne(d: string)
    requires AllDigits(d)
    ensures 0.0 <= DigitsValue(d) as real / Pow10(|d|) as real < 1.0
  {
    DigitsValueBelowPow10(d);
    QuotientBelowOne(DigitsValue(d) as real, Pow10(|d|) as real);
  }

  lemma QuotientBelowOne(a: real, b: real)
    requires 0.0 <= a < b
    ensures 0.0 <= a / b < 1.0
  {
    assert a / b * b == a;
  }

  /** The value of an unsigned mantissa without exponent. */
  function MantissaValue(m: Mantissa): real
    requires WellFormedMantissa(m)
  {
    DigitsValue(m.intDigits) as real + DigitsValue(m.fracDigits) as real / Pow10(|m.fracDigits|) as real
  }

  /** The value of a percent text's decomposition lies in [0, 1]: a leading `0`
      with a fraction below one, or a leading `1` with an all-zero fraction. */
  lemma PercentPartsValue(s: string)
    requires IsPercentText(s)
    requires WellFormedParts(PercentParts(s))
    ensures IsPercentValue(ConstValue(PercentParts(s)))
  {
    var p := PercentParts(s);
    var m := p.mantissa;
    assert ConstValue(p) == MantissaValue(m) * 1.0;
    assert DigitsValue(m.intDigits) == DigitValue(s[0]) by {
      assert m.intDigits[..0] == [];
    }
    FractionBelowOne(m.fracDigits);
    if s[0] == '1' {
      ZerosValue(m.fracDigits);
    }
  }

  /** Every text the percent pattern accepts is a constant literal whose value
      passes the numeric percent check. */
  lemma PercentTextInRange(s: string)
    requires IsPercentText(s)
    ensures IsConstLiteral(s)
    ensures IsPercentValue(ConstValue(ParseConst(s).value))
  {
    PercentTextParses(s);
    PercentPartsValue(s);
  }

  /** The constant pattern accepts a trailing point (`5.`). */
  lemma ConstAcceptsTrailingPoint()
    ensures IsConstLiteral("5.")
  {
    var p := ConstParts(false, Mantissa("5", true, ""), None);
    ParseConstText(p);
    assert ConstText(p) == "5.";
  }

  /** The constant pattern accepts a leading point (`.5`). */
  lemma ConstAcceptsLeadingPoint()
    ensures IsConstLiteral(".5")
  {
    var p := ConstParts(false, Mantissa("", true, "5"), None);
    ParseConstText(p);
    assert ConstText(p) == ".5";
  }

  /** The constant pattern accepts an exponent without a point (`1e5`). */
  lemma ConstAcceptsExponent()
    ensures IsConstLiteral("1e5")
  {
    var p := ConstParts(false, Mantissa("1", false, ""), Some(Exponent('e', None, "5")));
    ParseConstText(p);
    assert ConstText(p) == "1e5";
  }

  /** The constant pattern rejects a leading plus sign (`+5`). */
  lemma ConstRejectsPlus()
    ensures !IsConstLiteral("+5")
  {
    assert ConstBody("+5") == "+5";
    assert FirstExponentMarker("+5") == 2;
    assert FirstPoint("+5") == 2;
    assert !IsDigit("+5"[0]);
  }

  /** The constant pattern rejects a lone point (`.`). */
  lemma ConstRejectsLonePoint()
    ensures !IsConstLiteral(".")
  {
    assert ConstBody(".") == ".";
    assert FirstExponentMarker(".") == 1;
    assert FirstPoint(".") == 0;
  }

  /** The constant pattern rejects an exponent without digits (`1e`). */
  lemma ConstRejectsEmptyExponent()
    ensures !IsConstLiteral("1e")
  {
    assert ConstBody("1e") == "1e";
    assert FirstExponentMarker("1e") == 1;
    assert ParseExponent('e', "1e"[2..]) == None;
  }

  /** The percent pattern accepts `0`, `0.25`, `1` and `1.000`, and rejects `1.5` and `.5`. */
  lemma PercentTextExamples()
    ensures IsPercentText("0") && IsPercentText("0.25") && IsPercentText("1") && IsPercentText("1.000")
    ensures !IsPercentText("1.5") && !IsPercentText(".5")
  {
    assert "1.5"[2..] == "5" && "5"[0] != '0';
    assert "0.25"[2..] == "25";
    assert "1.000"[2..] == "000";
    assert ".5"[0] == '.';
  }

  /** `^[a-zA-Z]` without an end anchor: only the first character is constrained. */
  predicate IsFormulaVar(s: string)
  {
    |s| > 0 && IsAsciiLetter(s[0])
  }
}
