/**
 * Money as the source handles it: `formatMoney` (`Number(n).toFixed(2)`) and
 * `Number(text) || 0` on the price text of an item. Amounts are exact here:
 * integer cents where the source's value is cent-exact, `real` elsewhere.
 */
module Money {
  import opened Options
  import opened Strings

  /** `toFixed(2)` of `c / 100` for a whole number of cents: integer part, '.', two digits. */
  function CentsText(c: nat): string {
    NatToDigits(c / 100) + ['.', DigitChar(c % 100 / 10), DigitChar(c % 10)]
  }

  /** The number of cents `toFixed(2)` writes for `x >= 0`: the nearest, the larger one on a tie. */
  function RoundCents(x: real): (n: nat)
    requires x >= 0.0
    ensures n as real - 0.5 <= x * 100.0 < n as real + 0.5
  {
    (x * 100.0 + 0.5).Floor
  }

  /** `formatMoney(x)`, that is `Number(x).toFixed(2)`; a negative amount gets a '-' in front of its magnitude. */
  function FormatMoney(x: real): string {
    if x < 0.0 then "-" + CentsText(RoundCents(-x)) else CentsText(RoundCents(x))
  }

  /** An amount that is a whole number of cents is written exactly. */
  lemma FormatCents(c: nat)
    ensures FormatMoney(c as real / 100.0) == CentsText(c)
  {
    assert RoundCents(c as real / 100.0) == c;
  }

  /** `Number(t)` for a trimmed, non-empty `t`: an optional sign before an unsigned decimal literal. */
  function NumberLiteral(t: string): Option<real> {
    if |t| > 0 && (t[0] == '-' || t[0] == '+') then
      match UnsignedLiteral(t[1..])
      case Some(v) => Some(if t[0] == '-' then -v else v)
      case None => None
    else UnsignedLiteral(t)
  }

  /** Where the exponent mark `e`/`E` of a literal is, or `|u|` when there is none. */
  function ExponentMark(u: string, i: nat): (j: nat)
    requires i <= |u|
    ensures i <= j <= |u|
    ensures forall p :: i <= p < j ==> u[p] != 'e' && u[p] != 'E'
    ensures j == |u| || u[j] == 'e' || u[j] == 'E'
    decreases |u| - i
  {
    if i == |u| || u[i] == 'e' || u[i] == 'E' then i else ExponentMark(u, i + 1)
  }

  /** The value of the decimal `intDigits.fracDigits`. */
  function DecimalOf(intDigits: string, fracDigits: string): real
    requires AllDigits(intDigits) && AllDigits(fracDigits)
  {
    DigitsValue(intDigits) as real + DigitsValue(fracDigits) as real / Pow10(|fracDigits|) as real
  }

  /** `digits`, `digits.`, `digits.digits` or `.digits`. */
  function Mantissa(m: string): Option<real> {
    var i := Span(m, 0, Digit);
    if i == |m| then
      if i > 0 then Some(DigitsValue(m) as real) else None
    else if m[i] != '.' then None
    else
      var f := m[i + 1..];
      if Span(f, 0, Digit) == |f| && (i > 0 || |f| > 0)
      then Some(DecimalOf(m[..i], f))
      else None
  }

  /** The exponent after `e`: an optional sign and at least one digit. */
  function Exponent(x: string): Option<int> {
    var signed := |x| > 0 && (x[0] == '-' || x[0] == '+');
    var d := if signed then x[1..] else x;
    if |d| > 0 && Span(d, 0, Digit) == |d| then
      Some(if signed && x[0] == '-' then -(DigitsValue(d) as int) else DigitsValue(d) as int)
    else None
  }

  function UnsignedLiteral(u: string): Option<real> {
    var e := ExponentMark(u, 0);
    match Mantissa(u[..e])
    case None => None
    case Some(v) =>
      if e == |u| then Some(v)
      else match Exponent(u[e + 1..])
        case None => None
        case Some(x) => Some(if x >= 0 then v * Pow10(x) as real else v / Pow10(-x) as real)
  }

  /**
   * `Number(s) || 0`: the value of the decimal literal `s` after trimming, 0
   * for blank text and for text that is not a number.
   */
  function NumericValue(s: string): real {
    var t := Trim(s);
    if t == [] then 0.0 else NumberLiteral(t).GetOr(0.0)
  }

  lemma {:induction false} NoMark(u: string, i: nat)
    requires i <= |u|
    requires forall p :: i <= p < |u| ==> u[p] != 'e' && u[p] != 'E'
    ensures ExponentMark(u, i) == |u|
    decreases |u| - i
  {
    if i < |u| {
      NoMark(u, i + 1);
    }
  }

  lemma NoExponent(t: string, d: string, f: string)
    requires t == d + "." + f && AllDigits(d) && AllDigits(f)
    ensures ExponentMark(t, 0) == |t|
  {
    forall p | 0 <= p < |t| ensures t[p] != 'e' && t[p] != 'E' {
      if p < |d| {
        assert t[p] == d[p];
      } else if p > |d| {
        assert t[p] == f[p - |d| - 1];
      }
    }
    NoMark(t, 0);
  }

  /** For text that has no sign and no white space at either end, `Number` reads an unsigned literal. */
  lemma PlainLiteral(t: string)
    requires |t| > 0 && t[0] != '-' && t[0] != '+' && !IsSpace(t[0]) && !IsSpace(t[|t| - 1])
    ensures NumericValue(t) == UnsignedLiteral(t).GetOr(0.0)
  {
    assert Trim(t) == t by {
      TrimNoop(t);
    }
    assert NumberLiteral(t) == UnsignedLiteral(t);
  }

  lemma MantissaValue(t: string, d: string, f: string)
    requires t == d + "." + f && AllDigits(d) && AllDigits(f) && |d| + |f| > 0
    ensures Mantissa(t) == Some(DecimalOf(d, f))
  {
    forall p | 0 <= p < |d| ensures InClass(t[p], Digit) {
      assert t[p] == d[p];
    }
    SpanIs(t, 0, Digit, |d|);
    assert t[|d| + 1..] == f;
    SpanIs(f, 0, Digit, |f|);
    assert t[..|d|] == d;
  }

  /** A plain decimal `d.f`, digits on either side and at least one in all, reads back as its value. */
  lemma DecimalValue(d: string, f: string)
    requires AllDigits(d) && AllDigits(f) && |d| + |f| > 0
    ensures NumericValue(d + "." + f) == DecimalOf(d, f)
  {
    var t := d + "." + f;
    assert t[0] == if d == [] then '.' else d[0];
    assert t[|t| - 1] == if f == [] then '.' else f[|f| - 1];
    PlainLiteral(t);
    UnsignedDecimal(t, d, f);
  }

  /** Without an exponent the literal is its mantissa. */
  lemma UnsignedDecimal(t: string, d: string, f: string)
    requires t == d + "." + f && AllDigits(d) && AllDigits(f) && |d| + |f| > 0
    ensures UnsignedLiteral(t) == Some(DecimalOf(d, f))
  {
    NoExponent(t, d, f);
    assert t[..|t|] == t;
    MantissaValue(t, d, f);
  }

  lemma CentsSplit(c: nat)
    ensures (c / 100) as real + (c % 100) as real / 100.0 == c as real / 100.0
  {
    var q, r := c / 100, c % 100;
    assert c == 100 * q + r;
    assert c as real == 100.0 * q as real + r as real;
  }

  /** The two decimals `CentsText` writes read back as the cents below one unit. */
  lemma TwoDecimals(c: nat)
    ensures DigitsValue([DigitChar(c % 100 / 10), DigitChar(c % 10)]) == c % 100
  {
    TwoDigits(c % 100 / 10, c % 10);
    DecimalsSplit(c);
  }

  /** Two digits read as a number of two places. */
  lemma TwoDigits(a: nat, b: nat)
    requires a < 10 && b < 10
    ensures DigitsValue([DigitChar(a), DigitChar(b)]) == 10 * a + b
  {
    var f := [DigitChar(a), DigitChar(b)];
    assert f[..1] == [DigitChar(a)] && f[..1][..0] == [];
    assert DigitsValue(f[..1]) == a;
  }

  /** The tens and the units of the cents below one unit. */
  lemma DecimalsSplit(c: nat)
    ensures 10 * (c % 100 / 10) + c % 10 == c % 100
  {
    var q, r := c / 100, c % 100;
    assert c == 100 * q + r;
    var t, u := r / 10, r % 10;
    assert r == 10 * t + u;
    assert c == 10 * (10 * q + t) + u;
  }

  lemma CentsTextDecimal(c: nat)
    ensures NumericValue(CentsText(c)) == DecimalOf(NatToDigits(c / 100), [DigitChar(c % 100 / 10), DigitChar(c % 10)])
  {
    var d := NatToDigits(c / 100);
    var f := [DigitChar(c % 100 / 10), DigitChar(c % 10)];
    assert CentsText(c) == d + "." + f;
    DecimalValue(d, f);
  }

  lemma CentsDecimal(c: nat)
    ensures DecimalOf(NatToDigits(c / 100), [DigitChar(c % 100 / 10), DigitChar(c % 10)])
         == (c / 100) as real + (c % 100) as real / 100.0
  {
    DigitsRoundTrip(c / 100);
    TwoDecimals(c);
    assert Pow10(2) == 100;
  }

  /** Reading back what `formatMoney` wrote for whole cents gives the amount: `Number(CentsText(c)) == c / 100`. */
  lemma NumericValueOfCents(c: nat)
    ensures NumericValue(CentsText(c)) == c as real / 100.0
  {
    CentsTextDecimal(c);
    CentsDecimal(c);
    CentsSplit(c);
  }
}
