/**
 * Python's `decimal.Decimal` for finite non-negative numbers: a coefficient and an
 * exponent whose value is coef × 10^exp.  Modelled here: reading a literal
 * (`Decimal(str)`), writing one (`str(Decimal)`), numeric equality, multiplication by
 * an integer, exact division by 100, and `quantize` under the default rounding mode
 * ROUND_HALF_EVEN.
 */
module Decimals {
  import opened Base
  import opened Text

  datatype Dec = Dec(coef: nat, exp: int)

  /** Numeric equality of two Decimals, which ignores the exponent: `Decimal('67.20') == Decimal('67.2')`. */
  predicate SameValue(a: Dec, b: Dec)
  {
    var m := Min(a.exp, b.exp);
    a.coef * Pow10(a.exp - m) == b.coef * Pow10(b.exp - m)
  }

  function Dist(a: int, b: int): nat { if a >= b then a - b else b - a }

  // ---------------------------------------------------------------- reading

  /** The part after `E`: an optional sign followed by at least one digit. */
  function ParseExponent(s: string): (r: Option<int>)
  {
    if |s| > 0 && (s[0] == '+' || s[0] == '-') then
      var ds := s[1..];
      if |ds| > 0 && AllDigits(ds) then Some(if s[0] == '-' then -(DigitsValue(ds) as int) else DigitsValue(ds))
      else None
    else if |s| > 0 && AllDigits(s) then Some(DigitsValue(s))
    else None
  }

  /** Digits with at most one `.` and at least one digit, scaled by the exponent `e`. */
  function ParseMantissa(s: string, e: int): (r: Option<Dec>)
  {
    var p := SplitOnce(s, '.');
    var whole := p[0];
    var frac := if |p| == 2 then p[1] else "";
    if AllDigits(whole) && AllDigits(frac) && |whole| + |frac| > 0 then
      DigitsValueAppend(whole, frac);
      Some(Dec(DigitsValue(whole + frac), e - |frac|))
    else None
  }

  /**
   * `Decimal(s)` for an unsigned literal: surrounding whitespace is ignored, then
   * `digits[.digits][E[+|-]digits]` with at least one mantissa digit; `e` and `E` alike.
   */
  function ParseDecimal(s: string): (r: Option<Dec>)
  {
    var t := ReplaceChar(Strip(s), 'e', 'E');
    var p := SplitOnce(t, 'E');
    if |p| == 1 then ParseMantissa(p[0], 0)
    else
      match ParseExponent(p[1])
      case None => None
      case Some(e) => ParseMantissa(p[0], e)
  }

  // ---------------------------------------------------------------- writing

  function ExponentText(e: int): string
  {
    (if e >= 0 then "+" else "-") + NatToString(if e >= 0 then e else -e)
  }

  /**
   * `str(d)`: plain notation when the exponent is not positive and the number has
   * more than -6 digits before the point, scientific notation otherwise.
   */
  function ToString(d: Dec): string
  {
    var digits := NatToString(d.coef);
    var left := d.exp + |digits|;
    if d.exp <= 0 && left > -6 then
      if left <= 0 then "0." + Zeros(-left) + digits
      else if d.exp == 0 then digits
      else digits[..left] + "." + digits[left..]
    else ScientificText(digits, left - 1)
  }

  /** `d[.ddd]E±x`: the first digit, the others after a point, then the adjusted exponent. */
  function ScientificText(digits: string, adjusted: int): string
    requires |digits| > 0
  {
    [digits[0]] + (if |digits| > 1 then "." + digits[1..] else "") + "E" + ExponentText(adjusted)
  }

  lemma ReplaceAbsent(s: string, a: char, b: char)
    requires a !in s
    ensures ReplaceChar(s, a, b) == s
  {
  }

  lemma ParseExponentText(e: int)
    ensures ParseExponent(ExponentText(e)) == Some(e)
  {
    var x := ExponentText(e);
    var n := if e >= 0 then e else -e;
    assert x[1..] == NatToString(n);
    NatToStringValue(n);
  }

  lemma DigitsHaveNoLetters(s: string)
    requires AllDigits(s)
    ensures 'E' !in s && 'e' !in s && '.' !in s
  {
    assert forall i :: 0 <= i < |s| ==> IsDigit(s[i]);
  }

  /** Text without an exponent mark is read as a mantissa with exponent 0. */
  lemma ParseWithoutExponent(t: string)
    requires t != [] && !IsSpace(t[0]) && !IsSpace(t[|t| - 1])
    requires 'E' !in t && 'e' !in t
    ensures ParseDecimal(t) == ParseMantissa(t, 0)
  {
    StripClean(t);
    ReplaceAbsent(t, 'e', 'E');
  }

  /** Text `m E x` is read as the mantissa `m` scaled by the exponent `x`. */
  lemma ParseWithExponent(m: string, x: string)
    requires m != [] && !IsSpace(m[0]) && x != [] && !IsSpace(x[|x| - 1])
    requires 'E' !in m && 'e' !in m && 'e' !in x
    ensures ParseDecimal(m + "E" + x) ==
      match ParseExponent(x)
      case None => None
      case Some(e) => ParseMantissa(m, e)
  {
    var t := m + "E" + x;
    assert t[0] == m[0] && t[|t| - 1] == x[|x| - 1];
    StripClean(t);
    assert 'e' !in t;
    ReplaceAbsent(t, 'e', 'E');
    SplitOnceAt(m, x, 'E');
  }

  lemma ParseMantissaWhole(w: string, e: int)
    requires AllDigits(w) && |w| > 0
    ensures ParseMantissa(w, e) == Some(Dec(DigitsValue(w), e))
  {
    DigitsHaveNoLetters(w);
    assert w + "" == w;
  }

  lemma ParseMantissaPoint(w: string, f: string, e: int)
    requires AllDigits(w) && AllDigits(f) && |w| > 0
    ensures AllDigits(w + f)
    ensures ParseMantissa(w + "." + f, e) == Some(Dec(DigitsValue(w + f), e - |f|))
  {
    DigitsHaveNoLetters(w);
    DigitsValueAppend(w, f);
    SplitOnceAt(w, f, '.');
  }

  lemma PointTextClean(w: string, f: string)
    requires AllDigits(w) && AllDigits(f) && |w| > 0 && |f| > 0
    ensures var t := w + "." + f; t != [] && !IsSpace(t[0]) && !IsSpace(t[|t| - 1]) && 'E' !in t && 'e' !in t
  {
    DigitsHaveNoLetters(w);
    DigitsHaveNoLetters(f);
    var t := w + "." + f;
    assert t[0] == w[0] && t[|t| - 1] == f[|f| - 1];
  }

  /** Plain notation `w.f` reads back. */
  lemma ParsePointText(w: string, f: string)
    requires AllDigits(w) && AllDigits(f) && |w| > 0 && |f| > 0
    ensures AllDigits(w + f)
    ensures ParseDecimal(w + "." + f) == Some(Dec(DigitsValue(w + f), -|f|))
  {
    PointTextClean(w, f);
    ParseWithoutExponent(w + "." + f);
    ParseMantissaPoint(w, f, 0);
  }

  /** Any text of the shape `w.f` reads back as the Decimal its digits denote. */
  lemma ParsePointAs(t: string, w: string, f: string, d: Dec)
    requires AllDigits(w) && AllDigits(f) && |w| > 0 && |f| > 0 && t == w + "." + f
    requires AllDigits(w + f) && DigitsValue(w + f) == d.coef && d.exp == -|f|
    ensures ParseDecimal(t) == Some(d)
  {
    ParsePointText(w, f);
  }

  /** Any text of digits only reads back as an integral Decimal. */
  lemma ParseWholeAs(t: string, d: Dec)
    requires AllDigits(t) && |t| > 0 && DigitsValue(t) == d.coef && d.exp == 0
    ensures ParseDecimal(t) == Some(d)
  {
    DigitsHaveNoLetters(t);
    ParseWithoutExponent(t);
    ParseMantissaWhole(t, 0);
  }

  /** Any text of the shape `m E x` with `x` an exponent text reads back. */
  lemma ParseScientificAs(t: string, m: string, x: string, e: int, d: Dec)
    requires t == m + "E" + x && x == ExponentText(e)
    requires m != [] && !IsSpace(m[0]) && 'E' !in m && 'e' !in m
    requires ParseMantissa(m, e) == Some(d)
    ensures ParseDecimal(t) == Some(d)
  {
    var n := if e >= 0 then e else -e;
    assert x == x[..1] + NatToString(n);
    DigitsHaveNoLetters(NatToString(n));
    assert 'e' !in x;
    assert x[|x| - 1] == NatToString(n)[|NatToString(n)| - 1];
    ParseExponentText(e);
    ParseWithExponent(m, x);
  }

  /** `str(d)` yields the digits of the coefficient, a nonempty digit string. */
  lemma CoefDigits(d: Dec)
    ensures var digits := NatToString(d.coef); AllDigits(digits) && |digits| > 0 && DigitsValue(digits) == d.coef
  {
    NatToStringValue(d.coef);
  }

  /** Zeros put in front of a digit string, and then a `0` in front of those, keep its value. */
  lemma ZerosInFront(digits: string, k: nat)
    requires AllDigits(digits)
    ensures var frac := Zeros(k) + digits;
      AllDigits(frac) && AllDigits("0" + frac) && DigitsValue("0" + frac) == DigitsValue(digits)
  {
    var frac := Zeros(k) + digits;
    LeadingZerosValue(k, digits);
    DigitsValueAppend("0", frac);
    assert DigitsValue("0") == 0;
  }

  /** Plain notation `0.000ddd` reads back. */
  lemma ParseSmallPlain(d: Dec)
    requires d.exp <= 0 && -6 < d.exp + |NatToString(d.coef)| <= 0
    ensures ParseDecimal(ToString(d)) == Some(d)
  {
    var digits := NatToString(d.coef);
    var left := d.exp + |digits|;
    var frac := Zeros(-left) + digits;
    assert ToString(d) == "0" + "." + frac;
    CoefDigits(d);
    ZerosInFront(digits, -left);
    ParsePointAs(ToString(d), "0", frac, d);
  }

  /** Plain notation without a point reads back. */
  lemma ParseWholePlain(d: Dec)
    requires d.exp == 0
    ensures ParseDecimal(ToString(d)) == Some(d)
  {
    CoefDigits(d);
    ParseWholeAs(ToString(d), d);
  }

  /** Plain notation `ddd.ddd` reads back. */
  lemma ParseMiddlePlain(d: Dec)
    requires d.exp < 0 && 0 < d.exp + |NatToString(d.coef)|
    ensures ParseDecimal(ToString(d)) == Some(d)
  {
    var digits := NatToString(d.coef);
    var left := d.exp + |digits|;
    var t := ToString(d);
    CoefDigits(d);
    var w, f := digits[..left], digits[left..];
    assert t == w + "." + f && w + f == digits;
    assert AllDigits(w) && AllDigits(f);
    ParsePointAs(t, w, f, d);
  }

  /** The mantissa `d[.ddd]` of scientific notation reads back with the exponent given. */
  lemma ParseSciMantissa(digits: string, e: int)
    requires AllDigits(digits) && |digits| > 0
    ensures var m := [digits[0]] + (if |digits| > 1 then "." + digits[1..] else "");
      m != [] && !IsSpace(m[0]) && 'E' !in m && 'e' !in m &&
      ParseMantissa(m, e) == Some(Dec(DigitsValue(digits), e - (|digits| - 1)))
  {
    var f := digits[1..];
    var m := [digits[0]] + (if |digits| > 1 then "." + f else "");
    var r := Dec(DigitsValue(digits), e - (|digits| - 1));
    assert m != [] && !IsSpace(m[0]) && 'E' !in m && 'e' !in m by {
      assert m[0] == digits[0] && IsDigit(digits[0]);
      DigitsHaveNoLetters(digits);
      assert forall c :: c in m ==> c == '.' || c in digits;
    }
    if |digits| > 1 {
      var w := [digits[0]];
      assert m == w + "." + f;
      assert AllDigits(w) && AllDigits(f) && |w| > 0;
      assert Dec(DigitsValue(w + f), e - |f|) == r by {
        assert w + f == digits;
      }
      ParseMantissaPointAs(m, w, f, e, r);
    } else {
      assert m == digits;
      ParseMantissaWhole(m, e);
    }
  }

  lemma ParseMantissaPointAs(m: string, w: string, f: string, e: int, r: Dec)
    requires AllDigits(w) && AllDigits(f) && |w| > 0 && m == w + "." + f
    requires Dec(DigitsValue(w + f), e - |f|) == r
    ensures ParseMantissa(m, e) == Some(r)
  {
    ParseMantissaPoint(w, f, e);
  }

  /** Scientific notation `d[.ddd]E±x` reads back. */
  lemma ParseScientificText(t: string, digits: string, adjusted: int, r: Dec)
    requires AllDigits(digits) && |digits| > 0 && t == ScientificText(digits, adjusted)
    requires r == Dec(DigitsValue(digits), adjusted - (|digits| - 1))
    ensures ParseDecimal(t) == Some(r)
  {
    var m := [digits[0]] + (if |digits| > 1 then "." + digits[1..] else "");
    var x := ExponentText(adjusted);
    ParseSciMantissa(digits, adjusted);
    ParseScientificAs(t, m, x, adjusted, r);
  }

  lemma ParseScientific(d: Dec)
    requires !(d.exp <= 0 && d.exp + |NatToString(d.coef)| > -6)
    ensures ParseDecimal(ToString(d)) == Some(d)
  {
    var digits := NatToString(d.coef);
    var left := d.exp + |digits|;
    CoefDigits(d);
    ParseScientificText(ToString(d), digits, left - 1, d);
  }

  /** `Decimal(str(d))` gives back `d` itself, exponent included. */
  lemma ParseToString(d: Dec)
    ensures ParseDecimal(ToString(d)) == Some(d)
  {
    var left := d.exp + |NatToString(d.coef)|;
    if d.exp <= 0 && left > -6 {
      if left <= 0 {
        ParseSmallPlain(d);
      } else if d.exp == 0 {
        ParseWholePlain(d);
      } else {
        ParseMiddlePlain(d);
      }
    } else {
      ParseScientific(d);
    }
  }

  // ---------------------------------------------------------------- arithmetic

  /** `d * n` for an `int` n: exact, exponent kept. */
  function MulInt(d: Dec, n: nat): Dec
  {
    Dec(d.coef * n, d.exp)
  }

  /** Trailing zeros removed from `c × 10^e` while the exponent is below `ideal`. */
  function Reduce(c: nat, e: int, ideal: int): (r: Dec)
    ensures e <= r.exp && (e <= ideal ==> r.exp <= ideal)
    ensures r.coef * Pow10(r.exp - e) == c
    decreases ideal - e
  {
    if e < ideal && c % 10 == 0 then
      var r := Reduce(c / 10, e + 1, ideal);
      Pow10Step(r.coef, r.exp - e - 1, c / 10);
      r
    else Dec(c, e)
  }

  lemma Pow10Step(x: nat, k: nat, y: nat)
    requires x * Pow10(k) == y
    ensures x * Pow10(k + 1) == 10 * y
  {
    assert x * Pow10(k + 1) == x * (10 * Pow10(k));
  }

  /**
   * `d / 100` (a Decimal divided by the integer 100): the exact quotient, written with
   * the exponent closest to the ideal one, `d.exp`.
   */
  function DivBy100(d: Dec): (r: Dec)
    ensures SameValue(r, Dec(d.coef, d.exp - 2))
    ensures r.exp <= d.exp
  {
    Reduce(d.coef, d.exp - 2, d.exp)
  }

  /** `n / m` rounded to the nearest integer, ties going to the even neighbour. */
  function RoundHalfEven(n: nat, m: nat): (q: nat)
    requires m > 0
    ensures 2 * Dist(q * m, n) <= m
    ensures 2 * Dist(q * m, n) == m ==> q % 2 == 0
  {
    var f, r := n / m, n % m;
    NeighbourDistances(n, m, f, r);
    if 2 * r < m then f else if 2 * r > m then f + 1 else if f % 2 == 0 then f else f + 1
  }

  /** The distances from `n = f × m + r` to the two multiples of `m` around it. */
  lemma NeighbourDistances(n: nat, m: nat, f: nat, r: nat)
    requires m > 0 && n == f * m + r && r < m
    ensures Dist(f * m, n) == r && Dist((f + 1) * m, n) == m - r
  {
    assert (f + 1) * m == f * m + m;
  }

  /**
   * `d.quantize(Decimal('1E-(places as int)'))`: `d` rounded half-even to `places` digits after
   * the point; the result always carries exponent `-(places as int)`.
   */
  function Quantize(d: Dec, places: nat): (r: Dec)
    ensures r.exp == -(places as int)
    ensures d.exp >= -(places as int) ==> SameValue(r, d)
    ensures d.exp < -(places as int) ==>
      var m := Pow10(-(places as int) - d.exp);
      2 * Dist(r.coef * m, d.coef) <= m && (2 * Dist(r.coef * m, d.coef) == m ==> r.coef % 2 == 0)
  {
    if d.exp >= -(places as int) then Dec(d.coef * Pow10(d.exp + places), -(places as int))
    else Dec(RoundHalfEven(d.coef, Pow10(-(places as int) - d.exp)), -(places as int))
  }

  /** Rounding a value that is already a multiple of the unit changes nothing. */
  lemma RoundHalfEvenExact(u: nat, m: nat)
    requires m > 0
    ensures RoundHalfEven(u * m, m) == u
  {
    var q := RoundHalfEven(u * m, m);
    if q < u {
      MulGap(u, q, m);
    } else if q > u {
      MulGap(q, u, m);
    }
  }

  lemma MulGap(a: nat, b: nat, m: nat)
    requires a > b
    ensures a * m - b * m >= m
  {
    var k := a - b - 1;
    assert a == b + 1 + k;
    assert a * m == b * m + m + k * m;
    assert k * m >= 0;
  }

  /** A value that fits in `places` digits after the point is quantized exactly. */
  lemma QuantizeExact(d: Dec, places: nat, u: nat)
    requires SameValue(d, Dec(u, -(places as int)))
    ensures Quantize(d, places) == Dec(u, -(places as int))
  {
    if d.exp < -(places as int) {
      RoundHalfEvenExact(u, Pow10(-(places as int) - d.exp));
    }
  }

  /** Quantizing twice to the same number of places is quantizing once. */
  lemma {:induction false} QuantizeIdempotent(d: Dec, places: nat)
    ensures Quantize(Quantize(d, places), places) == Quantize(d, places)
  {
    var r := Quantize(d, places);
    QuantizeExact(r, places, r.coef);
  }

  /** Minor units converted as `(Decimal(n) / 100).quantize(Decimal('0.01'))`: exactly n hundredths. */
  lemma MinorUnitsExact(n: nat)
    ensures Quantize(DivBy100(Dec(n, 0)), 2) == Dec(n, -2)
  {
    QuantizeExact(DivBy100(Dec(n, 0)), 2, n);
  }
}
