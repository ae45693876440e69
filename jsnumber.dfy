/**
 * JavaScript numbers as the settings forms use them: `parseFloat` on the text
 * of the stale-time field, `*` and `/` between stored values and time units,
 * `isNaN`, truthiness, and `Number#toString` when a stored value is shown
 * again. Finite numbers are exact reals here (no binary rounding, no overflow
 * to Infinity).
 */
module JsNumber {
  import opened Wrappers
  import JsText
  import Seqs

  datatype JsNum = Finite(value: real) | PosInfinity | NegInfinity | NaN

  /** `isNaN(x)`. */
  predicate IsNaN(x: JsNum) {
    x.NaN?
  }

  /** JavaScript truthiness of a number: everything except 0 and NaN. */
  predicate Truthy(x: JsNum) {
    !(x == Finite(0.0) || x.NaN?)
  }

  /** `a * b` under IEEE 754 rules for the special values. */
  function Mul(a: JsNum, b: JsNum): (r: JsNum)
    ensures a.NaN? || b.NaN? ==> r.NaN?
    ensures a.Finite? && b.Finite? ==> r == Finite(a.value * b.value)
  {
    if a.NaN? || b.NaN? then NaN
    else if a.Finite? && b.Finite? then Finite(a.value * b.value)
    else if a.Finite? then
      (if a.value == 0.0 then NaN else if (a.value > 0.0) == b.PosInfinity? then PosInfinity else NegInfinity)
    else if b.Finite? then
      (if b.value == 0.0 then NaN else if (b.value > 0.0) == a.PosInfinity? then PosInfinity else NegInfinity)
    else if a == b then PosInfinity
    else NegInfinity
  }

  /** `a / d` for a positive finite divisor, the only kind the dashboard divides by. */
  function DivPositive(a: JsNum, d: real): (r: JsNum)
    requires d > 0.0
    ensures a.Finite? <==> r.Finite?
    ensures a.Finite? ==> r.value * d == a.value
    ensures !a.Finite? ==> r == a
  {
    if a.Finite? then Finite(a.value / d) else a
  }

  // ---------------------------------------------------------------------------
  // Decimal digits.

  predicate IsDigit(c: char) {
    '0' <= c <= '9'
  }

  function DigitValue(c: char): (v: nat)
    requires IsDigit(c)
    ensures v < 10
  {
    (c as int) - ('0' as int)
  }

  function DigitChar(d: nat): (c: char)
    requires d < 10
    ensures IsDigit(c) && DigitValue(c) == d
  {
    ('0' as int + d) as char
  }

  /** The number of leading decimal digits of s. */
  function DigitRunLength(s: string): (n: nat)
    ensures n <= |s|
    ensures forall k :: 0 <= k < n ==> IsDigit(s[k])
    ensures n < |s| ==> !IsDigit(s[n])
  {
    if s != [] && IsDigit(s[0]) then 1 + DigitRunLength(s[1..]) else 0
  }

  /** The value of a string of decimal digits, most significant first. */
  function DecimalValue(s: string): nat
    requires forall k :: 0 <= k < |s| ==> IsDigit(s[k])
  {
    if s == [] then 0 else 10 * DecimalValue(s[..|s| - 1]) + DigitValue(s[|s| - 1])
  }

  /** x times 10 raised to e, one factor of ten at a time. */
  function Shift(x: real, e: int): (r: real)
    ensures x > 0.0 ==> r > 0.0
    decreases if e >= 0 then e else -e
  {
    if e == 0 then x
    else if e > 0 then Shift(x * 10.0, e - 1)
    else Shift(x / 10.0, e + 1)
  }

  /** `n.toString()` for a natural number: its decimal digits, without leading zeros. */
  function NatToString(n: nat): (s: string)
    ensures |s| >= 1 && (forall k :: 0 <= k < |s| ==> IsDigit(s[k]))
    ensures |s| > 1 ==> s[0] != '0'
  {
    if n < 10 then [DigitChar(n)] else NatToString(n / 10) + [DigitChar(n % 10)]
  }

  /** The digits of n read back as n. */
  lemma {:induction false} NatToStringValue(n: nat)
    ensures DecimalValue(NatToString(n)) == n
  {
    if n >= 10 {
      NatToStringValue(n / 10);
      var s := NatToString(n);
      assert s[..|s| - 1] == NatToString(n / 10);
    }
  }

  /** `k.toString()` for an integer. */
  function IntToString(k: int): string {
    if k < 0 then "-" + NatToString(-k) else NatToString(k)
  }

  // ---------------------------------------------------------------------------
  // `parseFloat`.

  /** The exponent of an exponent part `e[+|-]digits` at the start of s; 0 when s does not start with one. */
  function ExponentPart(s: string): int {
    if |s| >= 1 && (s[0] == 'e' || s[0] == 'E') then
      var t := s[1..];
      var negative := |t| >= 1 && t[0] == '-';
      var u := if |t| >= 1 && (t[0] == '-' || t[0] == '+') then t[1..] else t;
      var m := DigitRunLength(u);
      var e: int := DecimalValue(u[..m]);
      if negative then -e else e
    else 0
  }

  /**
   * The decimal literal at the start of u, the part of `parseFloat` after the
   * sign: the longest prefix `digits [. digits] [e [sign] digits]` with at
   * least one digit before the exponent, whatever follows; None when u does
   * not start with one.
   */
  function ParseDecimal(u: string): Option<real> {
    var n1 := DigitRunLength(u);
    var n2 := FractionLength(u, n1);
    if n1 + n2 == 0 then None
    else Some(Shift(DecimalValue(LiteralDigits(u, n1, n2)) as real, ExponentPart(u[LiteralEnd(u, n1, n2)..]) - n2))
  }

  /** The number of fraction digits after the integer digits u[..n1]: none without a decimal point. */
  function FractionLength(u: string, n1: nat): (n2: nat)
    requires n1 <= |u|
    ensures n2 > 0 ==> n1 < |u| && u[n1] == '.' && n1 + 1 + n2 <= |u|
  {
    if n1 < |u| && u[n1] == '.' then DigitRunLength(u[n1 + 1..]) else 0
  }

  /** Where a literal of n1 integer digits and n2 fraction digits ends: after the point when there is one. */
  function LiteralEnd(u: string, n1: nat, n2: nat): (end: nat)
    requires n1 <= |u|
    requires n2 > 0 ==> n1 < |u| && u[n1] == '.' && n1 + 1 + n2 <= |u|
    ensures end <= |u|
  {
    if n1 < |u| && u[n1] == '.' then n1 + 1 + n2 else n1
  }

  /** The integer and fraction digits of a literal, without the point. */
  function LiteralDigits(u: string, n1: nat, n2: nat): (digits: string)
    requires n1 <= |u| && forall k :: 0 <= k < n1 ==> IsDigit(u[k])
    requires n2 > 0 ==> n1 < |u| && u[n1] == '.' && n1 + 1 + n2 <= |u| && forall k :: n1 + 1 <= k < n1 + 1 + n2 ==> IsDigit(u[k])
    ensures forall k :: 0 <= k < |digits| ==> IsDigit(digits[k])
  {
    u[..n1] + (if n2 > 0 then u[n1 + 1..n1 + 1 + n2] else "")
  }

  predicate StartsWithInfinity(u: string) {
    |u| >= 8 && u[..8] == "Infinity"
  }

  /**
   * `parseFloat(s)`: leading white space is skipped, one sign is read, then
   * either `Infinity` or a decimal literal is read; anything after it is
   * ignored. Without either the result is NaN.
   */
  function ParseFloat(s: string): JsNum {
    var t := JsText.TrimStart(s);
    var negative := |t| >= 1 && t[0] == '-';
    var u := if |t| >= 1 && (t[0] == '-' || t[0] == '+') then t[1..] else t;
    if StartsWithInfinity(u) then
      (if negative then NegInfinity else PosInfinity)
    else SignedDecimal(ParseDecimal(u), negative)
  }

  /** The number read after the sign: NaN when there is no literal, the literal's value with the sign otherwise. */
  function SignedDecimal(m: Option<real>, negative: bool): JsNum {
    match m
    case None => NaN
    case Some(v) => Finite(if negative then -v else v)
  }

  /** Text that cannot continue a number: not a digit, not a decimal point, not an exponent marker. */
  predicate EndsNumber(s: string) {
    s == [] || !(IsDigit(s[0]) || s[0] == '.' || s[0] == 'e' || s[0] == 'E')
  }

  lemma {:induction false} DigitRunOfDigitsThenEnd(d: string, rest: string)
    requires forall k :: 0 <= k < |d| ==> IsDigit(d[k])
    requires rest == [] || !IsDigit(rest[0])
    ensures DigitRunLength(d + rest) == |d|
  {
    if d != [] {
      assert (d + rest)[1..] == d[1..] + rest;
      DigitRunOfDigitsThenEnd(d[1..], rest);
    }
  }

  /** A run of digits followed by text that cannot continue a number is read as that run's value. */
  lemma ParseDecimalOfDigits(d: string, rest: string)
    requires |d| >= 1 && forall k :: 0 <= k < |d| ==> IsDigit(d[k])
    requires EndsNumber(rest)
    ensures ParseDecimal(d + rest) == Some(DecimalValue(d) as real)
  {
    var u := d + rest;
    DigitRunOfDigitsThenEnd(d, rest);
    assert u[..|d|] == d && u[..|d|] + "" == d;
    assert u[|d|..] == rest;
    assert !(|d| < |u| && u[|d|] == '.');
    assert ExponentPart(rest) == 0;
  }

  /**
   * The text of an integer parses back to that integer, whatever follows it as
   * long as it cannot continue the number (`parseFloat("20160")` is 20160).
   */
  lemma ParseFloatOfIntText(k: int, rest: string)
    requires EndsNumber(rest)
    ensures ParseFloat(IntToString(k) + rest) == Finite(k as real)
  {
    var d := NatToString(if k < 0 then -k else k);
    NatToStringValue(if k < 0 then -k else k);
    ParseDecimalOfDigits(d, rest);
    IntTextThen(k, rest);
    ParseFloatOfUnsigned(IntToString(k) + rest, d + rest, k < 0, DecimalValue(d) as real);
  }

  /** An integer's text followed by more text: the optional minus sign, then the digits and the rest. */
  lemma IntTextThen(k: int, rest: string)
    ensures var d := NatToString(if k < 0 then -k else k);
      IntToString(k) + rest == if k < 0 then "-" + (d + rest) else d + rest
  {
    if k < 0 {
      Seqs.AppendAssoc3("-", NatToString(-k), rest);
    }
  }

  /** Text s that starts with a digit, after an optional minus sign, is read as its decimal literal m. */
  lemma ParseFloatOfUnsigned(s: string, u: string, negative: bool, m: real)
    requires s == if negative then "-" + u else u
    requires |u| >= 1 && IsDigit(u[0]) && ParseDecimal(u) == Some(m)
    ensures ParseFloat(s) == Finite(if negative then -m else m)
  {
    TrimStartOfNonBlank(s);
    NoInfinityBeforeDigit(u);
    if negative {
      assert s[1..] == u && s[0] == '-';
    }
  }

  /** Text starting with a character other than white space has nothing to skip. */
  lemma TrimStartOfNonBlank(s: string)
    requires s != [] && !JsText.IsJsWhitespace(s[0])
    ensures JsText.TrimStart(s) == s
  {
  }

  /** Text starting with a digit does not start with `Infinity`. */
  lemma NoInfinityBeforeDigit(u: string)
    requires |u| >= 1 && IsDigit(u[0])
    ensures !StartsWithInfinity(u)
  {
    if |u| >= 8 {
      assert u[..8][0] == u[0];
    }
  }

  /** `parseFloat` of the empty text, or of text that starts with a letter other than `I`, is NaN. */
  lemma ParseFloatOfNonNumber(s: string)
    requires s == [] || (('a' <= s[0] <= 'z') || ('A' <= s[0] <= 'H') || ('J' <= s[0] <= 'Z'))
    ensures IsNaN(ParseFloat(s))
  {
    assert JsText.TrimStart(s) == s;
  }

  // ---------------------------------------------------------------------------
  // `Number#toString`.

  /** Up to n decimal digits of a fraction 0 <= f < 1, stopping as soon as the rest is zero. */
  function FractionDigits(f: real, n: nat): string
    requires 0.0 <= f < 1.0
    decreases n
  {
    if n == 0 || f == 0.0 then ""
    else
      var d := (f * 10.0).Floor;
      assert 0 <= d < 10;
      [DigitChar(d)] + FractionDigits(f * 10.0 - d as real, n - 1)
  }

  /** Shifting ten times x is ten times shifting x. */
  lemma {:induction false} ShiftTimesTen(x: real, e: nat)
    ensures Shift(x * 10.0, e) == Shift(x, e) * 10.0
    decreases e
  {
    if e > 0 {
      ShiftTimesTen(x * 10.0, e - 1);
    }
  }

  /** n written as m times 10 to the z, m without trailing zeros (see TrailingZerosValue). */
  function TrailingZeros(n: nat): (r: (nat, nat))
    requires n > 0
    ensures r.0 > 0 && r.0 % 10 != 0
  {
    if n % 10 == 0 then
      var (m, z) := TrailingZeros(n / 10);
      (m, z + 1)
    else (n, 0)
  }

  /** The two parts of TrailingZeros(n) shift back to n. */
  lemma {:induction false} TrailingZerosValue(n: nat)
    requires n > 0
    ensures Shift(TrailingZeros(n).0 as real, TrailingZeros(n).1) == n as real
  {
    if n % 10 == 0 {
      TrailingZerosValue(n / 10);
      var (m, z) := TrailingZeros(n / 10);
      ShiftTimesTen(m as real, z);
      assert Shift(m as real, z + 1) == Shift(m as real * 10.0, z);
      assert (n / 10) as real * 10.0 == n as real;
    }
  }

  /** The least magnitude `Number#toString` prints in exponent form: 1e21. */
  const ExponentFrom: int := 1_000_000_000_000_000_000_000

  /**
   * The exponent form of a positive whole number: its significant digits with
   * a decimal point after the first one (none when there is only one), then
   * `e+` and the exponent, as in `1e+21` and `1.5e+22`.
   */
  function ExponentText(n: nat): (s: string)
    requires n > 0
  {
    var (m, z) := TrailingZeros(n);
    var d := NatToString(m);
    (if |d| == 1 then d else [d[0]] + "." + d[1..]) + "e+" + NatToString(|d| - 1 + z)
  }

  /** The exponent form starts with a digit and holds the letter `e`. */
  lemma ExponentTextShape(n: nat)
    requires n > 0
    ensures var s := ExponentText(n); |s| >= 1 && IsDigit(s[0]) && 'e' in s
  {
    var (m, z) := TrailingZeros(n);
    var d := NatToString(m);
    var head := if |d| == 1 then d else [d[0]] + "." + d[1..];
    var s := head + "e+" + NatToString(|d| - 1 + z);
    assert s[|head|] == 'e';
    assert s[0] == d[0];
  }

  /** The exponent form of n, with or without a minus sign, is not the digits of any integer, which hold no `e`. */
  lemma ExponentTextIsNotIntText(n: nat, negative: bool, k: int)
    requires n > 0
    ensures (if negative then "-" + ExponentText(n) else ExponentText(n)) != IntToString(k)
  {
    var x := ExponentText(n);
    var s := if negative then "-" + x else x;
    ExponentTextShape(n);
    var i :| 0 <= i < |x| && x[i] == 'e';
    var j := if negative then i + 1 else i;
    assert s[j] == 'e';
    var d := NatToString(if k < 0 then -k else k);
    var t := IntToString(k);
    assert forall p :: 0 <= p < |t| ==> t[p] == '-' || IsDigit(t[p]) by {
      if k < 0 {
        assert forall p :: 1 <= p < |t| ==> t[p] == d[p - 1];
      }
    }
  }

  /**
   * `k.toString()` for an integer k: its digits below 1e21 in magnitude, the
   * exponent form from 1e21 on.
   */
  function IntegerText(k: int): (s: string)
    ensures (s == IntToString(k)) <==> -ExponentFrom < k < ExponentFrom
    ensures k >= ExponentFrom ==> s == ExponentText(k)
    ensures k <= -ExponentFrom ==> s == "-" + ExponentText(-k)
  {
    if k <= -ExponentFrom then
      ExponentTextIsNotIntText(-k, true, k);
      "-" + ExponentText(-k)
    else if k >= ExponentFrom then
      ExponentTextIsNotIntText(k, false, k);
      ExponentText(k)
    else IntToString(k)
  }

  /** An exponent part `e+digits` gives the value of its digits. */
  lemma ExponentPartOfDigits(e: string)
    requires forall k :: 0 <= k < |e| ==> IsDigit(e[k])
    ensures ExponentPart("e+" + e) == DecimalValue(e)
  {
    var tail := "e+" + e;
    assert tail[1..][1..] == e;
    DigitRunOfDigitsThenEnd(e, "");
    assert e + "" == e;
    assert e[..|e|] == e;
  }

  /** A single digit d, then an exponent part, is read as d shifted by that exponent. */
  lemma ParseDecimalOfDigitExponent(d: string, tail: string, u: string)
    requires |d| == 1 && IsDigit(d[0])
    requires |tail| >= 1 && tail[0] == 'e'
    requires u == d + tail
    ensures ParseDecimal(u) == Some(Shift(DecimalValue(d) as real, ExponentPart(tail)))
  {
    DigitRunOfDigitsThenEnd(d, tail);
    assert FractionLength(u, 1) == 0 by {
      assert u[1] == 'e';
    }
    assert LiteralDigits(u, 1, 0) == d;
    assert u[LiteralEnd(u, 1, 0)..] == tail;
  }

  /** The two digit runs of a digit, a decimal point, n2 more digits and an exponent part. */
  lemma PointLiteralRuns(d: string, tail: string, u: string, n2: nat)
    requires |d| >= 2 && forall k :: 0 <= k < |d| ==> IsDigit(d[k])
    requires |tail| >= 1 && tail[0] == 'e'
    requires u == [d[0]] + "." + d[1..] + tail && n2 == |d| - 1
    ensures DigitRunLength(u) == 1 && 1 < |u| && u[1] == '.'
    ensures DigitRunLength(u[2..]) == n2
  {
    assert u[1..][0] == '.';
    assert u[2..] == d[1..] + tail;
    DigitRunOfDigitsThenEnd(d[1..], tail);
  }

  /** The digits and the rest of a digit, a decimal point, n2 more digits and an exponent part. */
  lemma PointLiteralParts(d: string, tail: string, u: string, n2: nat)
    requires |d| >= 2
    requires u == [d[0]] + "." + d[1..] + tail && n2 == |d| - 1
    ensures u[..1] + u[2..2 + n2] == d
    ensures u[2 + n2..] == tail
  {
    assert u[2..2 + n2] == d[1..];
  }

  /**
   * A digit, a decimal point, n2 more digits and an exponent part are read as
   * all the digits shifted by the exponent less n2.
   */
  lemma ParseDecimalOfPointExponent(d: string, tail: string, u: string, n2: nat)
    requires |d| >= 2 && forall k :: 0 <= k < |d| ==> IsDigit(d[k])
    requires |tail| >= 1 && tail[0] == 'e'
    requires u == [d[0]] + "." + d[1..] + tail && n2 == |d| - 1
    ensures ParseDecimal(u) == Some(Shift(DecimalValue(d) as real, ExponentPart(tail) - n2))
  {
    PointLiteralRuns(d, tail, u, n2);
    PointLiteralParts(d, tail, u, n2);
    ParseDecimalWithPoint(u, n2, d, tail);
  }

  /** ParseDecimal of one digit, a decimal point and n2 more digits, then the text after. */
  lemma ParseDecimalWithPoint(u: string, n2: nat, digits: string, after: string)
    requires DigitRunLength(u) == 1 && 1 < |u| && u[1] == '.' && DigitRunLength(u[2..]) == n2
    requires digits == u[..1] + u[2..2 + n2] && after == u[2 + n2..]
    requires forall k :: 0 <= k < |digits| ==> IsDigit(digits[k])
    ensures ParseDecimal(u) == Some(Shift(DecimalValue(digits) as real, ExponentPart(after) - n2))
  {
  }

  /**
   * Significant digits d written with a point after the first (none for a
   * single digit), then `e+` and the exponent digits e, are read as d shifted
   * by e less the number of digits after the point.
   */
  lemma ParseDecimalOfScientific(d: string, e: string, u: string, n2: nat)
    requires |d| >= 1 && forall k :: 0 <= k < |d| ==> IsDigit(d[k])
    requires forall k :: 0 <= k < |e| ==> IsDigit(e[k])
    requires u == (if |d| == 1 then d else [d[0]] + "." + d[1..]) + "e+" + e && n2 == |d| - 1
    ensures ParseDecimal(u) == Some(Shift(DecimalValue(d) as real, DecimalValue(e) - n2))
  {
    var tail := "e+" + e;
    ExponentPartOfDigits(e);
    if |d| == 1 {
      Seqs.AppendAssoc3(d, "e+", e);
      ParseDecimalOfDigitExponent(d, tail, u);
    } else {
      Seqs.AppendAssoc3([d[0]] + "." + d[1..], "e+", e);
      ParseDecimalOfPointExponent(d, tail, u, n2);
    }
  }

  /** The exponent form of n parses back to n. */
  lemma ParseDecimalOfExponentText(n: nat)
    requires n > 0
    ensures ParseDecimal(ExponentText(n)) == Some(n as real)
  {
    var (m, z) := TrailingZeros(n);
    var d := NatToString(m);
    var e := NatToString(|d| - 1 + z);
    ParseDecimalOfScientific(d, e, ExponentText(n), |d| - 1);
    NatToStringValue(m);
    NatToStringValue(|d| - 1 + z);
    TrailingZerosValue(n);
  }

  /**
   * `x.toString()`: whole numbers as by IntegerText; other finite numbers as
   * the integer part, a decimal point and up to 20 fraction digits.
   */
  function ToString(x: JsNum): string {
    match x
    case NaN => "NaN"
    case PosInfinity => "Infinity"
    case NegInfinity => "-Infinity"
    case Finite(v) =>
      if v == v.Floor as real then IntegerText(v.Floor)
      else
        var a := if v < 0.0 then -v else v;
        var whole := a.Floor;
        (if v < 0.0 then "-" else "") + NatToString(whole) + "." + FractionDigits(a - whole as real, 20)
  }

  /** A whole number prints as its integer text: its digits below 1e21, the exponent form from there. */
  lemma ToStringOfInteger(k: int)
    ensures ToString(Finite(k as real)) == IntegerText(k)
    ensures -ExponentFrom < k < ExponentFrom ==> ToString(Finite(k as real)) == IntToString(k)
  {
    assert (k as real).Floor == k;
  }

  /** The exponent form of n, with or without a minus sign, parses back to n or -n. */
  lemma SignedExponentTextParses(n: nat, negative: bool, s: string)
    requires n > 0 && s == if negative then "-" + ExponentText(n) else ExponentText(n)
    ensures ParseFloat(s) == Finite(if negative then -(n as real) else n as real)
  {
    ExponentTextShape(n);
    ParseDecimalOfExponentText(n);
    ParseFloatOfUnsigned(s, ExponentText(n), negative, n as real);
  }

  /** The text `toString` gives a whole number parses back to that number, in either form. */
  lemma IntegerTextParses(k: int)
    ensures ParseFloat(IntegerText(k)) == Finite(k as real)
  {
    if -ExponentFrom < k < ExponentFrom {
      IntTextParses(k);
    } else {
      SignedExponentTextParses(if k < 0 then -k else k, k < 0, IntegerText(k));
    }
  }

  // ---------------------------------------------------------------------------
  // Stale-time units.

  /** One minute, hour, day and week in milliseconds: the values of the time-unit selectors. */
  const Minute: int := 1000 * 60
  const Hour: int := 1000 * 60 * 60
  const Day: int := 1000 * 60 * 60 * 24
  const Week: int := 1000 * 60 * 60 * 24 * 7

  /** The units offered, in the order the selector lists them. */
  const TimeUnits: seq<int> := [Minute, Hour, Day, Week]

  lemma TimeUnitValues()
    ensures TimeUnits == [60000, 3600000, 86400000, 604800000]
    ensures forall i, j :: 0 <= i < j < |TimeUnits| ==> TimeUnits[i] < TimeUnits[j]
    ensures 7 * Day == Week && 24 * Hour == Day && 60 * Minute == Hour
  {
  }

  /** The stale time the form writes: `parseFloat(value) * unit`. */
  function StaleTimeMillis(value: string, unit: int): JsNum {
    Mul(ParseFloat(value), Finite(unit as real))
  }

  /** The text a stored stale time is shown as, in minutes: `(staleTime / 60000).toString()`. */
  function MinutesText(staleTime: JsNum): string {
    ToString(DivPositive(staleTime, Minute as real))
  }

  /** 20160 minutes, the suggested default, is two weeks. */
  lemma DefaultStaleTimeIsTwoWeeks()
    ensures StaleTimeMillis("20160", Minute) == Finite(1209600000.0)
    ensures 1209600000 == 2 * Week
  {
    assert NatToString(2) == "2";
    assert NatToString(20) == "20";
    assert NatToString(201) == "201";
    assert NatToString(2016) == "2016";
    assert NatToString(20160) == "20160";
    ParseFloatOfIntText(20160, "");
    assert IntToString(20160) + "" == "20160";
    MulFinite(20160.0, 60000.0);
  }

  lemma MulFinite(x: real, y: real)
    ensures Mul(Finite(x), Finite(y)) == Finite(x * y)
  {
  }

  /** The text of an integer on its own parses back to it. */
  lemma IntTextParses(k: int)
    ensures ParseFloat(IntToString(k)) == Finite(k as real)
  {
    assert IntToString(k) + "" == IntToString(k);
    ParseFloatOfIntText(k, "");
  }

  /** The stale time written for a value that parses as x. */
  lemma StaleTimeOfParsed(value: string, x: real, unit: int)
    requires ParseFloat(value) == Finite(x)
    ensures StaleTimeMillis(value, unit) == Mul(Finite(x), Finite(unit as real))
  {
  }

  lemma MulOfInts(k: int, unit: int)
    ensures Mul(Finite(k as real), Finite(unit as real)) == Finite((k * unit) as real)
  {
  }

  /** A stale time of k whole minutes is shown as the text of k. */
  lemma MinutesTextOfWhole(k: int)
    ensures MinutesText(Finite((k * Minute) as real)) == IntegerText(k)
  {
    var ms := k as real * 60000.0;
    assert (k * Minute) as real == ms;
    var shown := DivPositive(Finite(ms), Minute as real);
    assert shown.value * 60000.0 == ms;
    assert shown == Finite(k as real);
    ToStringOfInteger(k);
  }

  /** The text of k, submitted with a unit, writes k units. */
  lemma IntegerTextMillis(k: int, unit: int)
    ensures StaleTimeMillis(IntegerText(k), unit) == Finite((k * unit) as real)
  {
    IntegerTextParses(k);
    StaleTimeOfParsed(IntegerText(k), k as real, unit);
    MulOfInts(k, unit);
  }

  /**
   * A stale time of whole minutes, shown in minutes and submitted again with
   * the minute unit, writes the same number of milliseconds.
   */
  lemma MinutesRoundTrip(k: int)
    ensures StaleTimeMillis(MinutesText(Finite((k * Minute) as real)), Minute) == Finite((k * Minute) as real)
  {
    MinutesTextOfWhole(k);
    IntegerTextMillis(k, Minute);
  }
}
