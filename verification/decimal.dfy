/** `parseFloat` over display strings such as "4.5km", and the one-decimal
    rendering `toFixed(1)` produces. `parseFloat` reads the longest prefix that
    is a decimal literal (section 19.2.4 of ECMA-262): leading whitespace is
    skipped, then an optional sign, digits with an optional fraction, and an
    optional exponent; whatever follows, such as a unit, is ignored. */
module Decimal {
  import opened Types
  import opened Text

  function Pow10(n: nat): (p: nat)
    ensures p >= 1
  {
    if n == 0 then 1 else 10 * Pow10(n - 1)
  }

  /** Length of the longest all-digit prefix of `s`. */
  function DigitRun(s: string): (n: nat)
    ensures n <= |s| && AllDigits(s[..n])
    ensures n < |s| ==> !IsDigit(s[n])
  {
    if |s| > 0 && IsDigit(s[0]) then
      var m := DigitRun(s[1..]);
      assert forall i :: 0 <= i < m ==> s[..m + 1][i + 1] == s[1..][..m][i];
      m + 1
    else 0
  }

  /** An exponent part (`e` or `E`, an optional sign, at least one digit) at the
      start of `s`, as the exponent it denotes. */
  function ExponentPart(s: string): Option<int> {
    if |s| >= 2 && (s[0] == 'e' || s[0] == 'E') then
      var digits := if s[1] == '+' || s[1] == '-' then s[2..] else s[1..];
      var n := DigitRun(digits);
      if n == 0 then None
      else
        var v: int := DigitsValue(digits[..n]);
        Some(if s[1] == '-' then -v else v)
    else None
  }

  /** 10 to the power `e`. */
  function Scale(e: int): real {
    if e >= 0 then Pow10(e) as real else 1.0 / Pow10(-e) as real
  }

  /** What follows the leading whitespace and the optional sign. */
  function Unsigned(s: string): string {
    var t := TrimStart(s);
    if |t| > 0 && (t[0] == '-' || t[0] == '+') then t[1..] else t
  }

  /** `s` begins a decimal literal: a digit, or a '.' followed by a digit. */
  predicate StartsDecimal(s: string) {
    (|s| > 0 && IsDigit(s[0])) || (|s| > 1 && s[0] == '.' && IsDigit(s[1]))
  }

  /** The digits before the point, the digits after it, and what follows. */
  datatype Mantissa = Mantissa(whole: string, fraction: string, rest: string)

  /** Splits the longest `digits [. digits]` prefix off `body`. */
  function ScanMantissa(body: string): (m: Mantissa)
    ensures AllDigits(m.whole) && AllDigits(m.fraction)
    ensures m.whole == "" && m.fraction == "" <==> !StartsDecimal(body)
  {
    var i := DigitRun(body);
    if i < |body| && body[i] == '.' then
      var f := DigitRun(body[i + 1..]);
      Mantissa(body[..i], body[i + 1..][..f], body[i + 1..][f..])
    else Mantissa(body[..i], "", body[i..])
  }

  function MantissaValue(m: Mantissa): real
    requires AllDigits(m.whole) && AllDigits(m.fraction)
  {
    DigitsValue(m.whole) as real + DigitsValue(m.fraction) as real / Pow10(|m.fraction|) as real
  }

  /** `Math.floor` of a non-negative number. */
  function FloorNat(x: real): (n: nat)
    requires x >= 0.0
    ensures n as real <= x < n as real + 1.0
  {
    x.Floor
  }

  /** `parseFloat(s)`, with `None` standing for NaN. */
  function ParseFloat(s: string): (r: Option<real>)
    ensures r.None? <==> !StartsDecimal(Unsigned(s))
  {
    var t := TrimStart(s);
    var m := ScanMantissa(Unsigned(s));
    if m.whole == "" && m.fraction == "" then None
    else
      var v := match ExponentPart(m.rest)
        case Some(e) => MantissaValue(m) * Scale(e)
        case None => MantissaValue(m);
      Some(if |t| > 0 && t[0] == '-' then -v else v)
  }

  /** `x.toFixed(1)` for a non-negative `x` whose value rounded to tenths is
      `tenths / 10`. */
  function TenthsToString(tenths: nat): (s: string)
    ensures |s| >= 3 && IsDigit(s[0]) && s[|s| - 2] == '.'
  {
    NatToString(tenths / 10) + "." + [DigitChar(tenths % 10)]
  }

  /** A suffix that `parseFloat` would read as more of the number. */
  predicate ContinuesNumber(u: string) {
    (|u| > 0 && IsDigit(u[0])) || ExponentPart(u).Some?
  }

  lemma {:induction false} DigitRunConcat(a: string, b: string)
    requires AllDigits(a)
    requires |b| == 0 || !IsDigit(b[0])
    ensures DigitRun(a + b) == |a|
  {
    if |a| > 0 {
      assert (a + b)[1..] == a[1..] + b;
      DigitRunConcat(a[1..], b);
    }
  }

  lemma UnsignedOfDigitStart(s: string)
    requires |s| > 0 && IsDigit(s[0])
    ensures Unsigned(s) == s
  {
    assert !IsWhitespace(s[0]);
  }

  /** `parseFloat` of an unsigned literal without exponent is its mantissa. */
  lemma ParseUnsignedPlain(s: string, m: Mantissa, value: real)
    requires |s| > 0 && IsDigit(s[0])
    requires ScanMantissa(s) == m && m.whole != ""
    requires ExponentPart(m.rest).None?
    requires AllDigits(m.whole) && AllDigits(m.fraction) && MantissaValue(m) == value
    ensures ParseFloat(s) == Some(value)
  {
    UnsignedOfDigitStart(s);
    assert !IsWhitespace(s[0]);
    assert TrimStart(s) == s;
  }

  lemma ScanWithFraction(w: string, d: char, unit: string)
    requires AllDigits(w) && IsDigit(d)
    requires !(|unit| > 0 && IsDigit(unit[0]))
    ensures ScanMantissa(w + ("." + [d] + unit)) == Mantissa(w, [d], unit)
  {
    var s := w + ("." + [d] + unit);
    DigitRunConcat(w, "." + [d] + unit);
    assert s[|w|] == '.';
    assert s[|w| + 1..] == [d] + unit;
    DigitRunConcat([d], unit);
    assert ([d] + unit)[..1] == [d];
    assert ([d] + unit)[1..] == unit;
    assert s[..|w|] == w;
  }

  lemma ScanWithoutFraction(w: string, unit: string)
    requires AllDigits(w)
    requires !(|unit| > 0 && (IsDigit(unit[0]) || unit[0] == '.'))
    ensures ScanMantissa(w + unit) == Mantissa(w, "", unit)
  {
    var s := w + unit;
    DigitRunConcat(w, unit);
    assert s[..|w|] == w;
    assert s[|w|..] == unit;
  }

  /** A one-decimal rendering followed by a unit parses back to its value:
      `parseFloat("4.5km")` is 4.5. */
  lemma ParseTenths(tenths: nat, unit: string)
    requires !ContinuesNumber(unit)
    ensures ParseFloat(TenthsToString(tenths) + unit) == Some(tenths as real / 10.0)
  {
    var w, d := NatToString(tenths / 10), DigitChar(tenths % 10);
    calc {
      ParseFloat(TenthsToString(tenths) + unit);
      ParseFloat(w + "." + [d] + unit);
      { MantissaOfTenths(tenths, unit);
        ParseOneDecimal(w, d, unit, tenths as real / 10.0); }
      Some(tenths as real / 10.0);
    }
  }

  /** A digit run, a point, one digit and a unit that does not continue the
      number parse to the value of their mantissa. */
  lemma ParseOneDecimal(w: string, d: char, unit: string, v: real)
    requires |w| > 0 && AllDigits(w) && IsDigit(d) && !ContinuesNumber(unit)
    requires MantissaValue(Mantissa(w, [d], unit)) == v
    ensures ParseFloat(w + "." + [d] + unit) == Some(v)
  {
    var s := w + "." + [d] + unit;
    assert s == w + ("." + [d] + unit);
    assert s[0] == w[0];
    ScanWithFraction(w, d, unit);
    ParseUnsignedPlain(s, Mantissa(w, [d], unit), v);
  }

  lemma MantissaOfTenths(tenths: nat, unit: string)
    ensures MantissaValue(Mantissa(NatToString(tenths / 10), [DigitChar(tenths % 10)], unit)) == tenths as real / 10.0
  {
    var d := DigitChar(tenths % 10);
    NatToStringRoundTrip(tenths / 10);
    assert DigitsValue([d]) == tenths % 10 by {
      assert [d][..0] == [];
    }
    assert Pow10(1) == 10;
    TenthsSplit(tenths);
  }

  lemma TenthsSplit(t: nat)
    ensures (t / 10) as real + (t % 10) as real / 10.0 == t as real / 10.0
  {
    var q, r := t / 10, t % 10;
    assert t == 10 * q + r;
    assert t as real == 10.0 * q as real + r as real;
  }

  /** An integer rendering followed by a unit parses back to its value:
      `parseFloat("12km")` is 12. */
  lemma ParseInteger(n: nat, unit: string)
    requires !ContinuesNumber(unit) && !(|unit| > 0 && unit[0] == '.')
    ensures ParseFloat(NatToString(n) + unit) == Some(n as real)
  {
    var w := NatToString(n);
    ScanWithoutFraction(w, unit);
    var m := Mantissa(w, "", unit);
    NatToStringRoundTrip(n);
    assert DigitsValue(m.fraction) == 0;
    assert MantissaValue(m) == n as real;
    ParseUnsignedPlain(w + unit, m, n as real);
  }
}
