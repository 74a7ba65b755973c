/**
  Turning a result into display text. `FormatNumber` is the calculator's own step: it takes whatever its
  number formatter prints and replaces "-0" by "0". The formatter is a parameter of the engine; `Format`
  below is the pattern "#.##########" printed with '.' as decimal separator and half-even rounding.
 */
module Formatting {
  import opened Wrappers
  import opened Numerals
  import opened Keypad

  /** The formatter's text for `v`, except that "-0" becomes "0". */
  function FormatNumber(format: real -> string, v: real): (r: string)
    ensures r != "-0"
    ensures format(v) == "-0" ==> r == "0"
    ensures format(v) != "-0" ==> r == format(v)
  {
    var s := format(v);
    if s == "-0" then "0" else s
  }

  /** The pattern keeps ten fraction digits: values are rounded to whole multiples of 1 / SCALE. */
  const FRACTION_DIGITS: nat := 10
  const SCALE: nat := 10_000_000_000

  lemma ScaleIsPow()
    ensures Pow(10, FRACTION_DIGITS) == SCALE
  {
  }

  function Magnitude(v: real): (m: real)
    ensures m >= 0.0 && (m == v || m == -v)
  {
    if v < 0.0 then -v else v
  }

  /** Rounding to the nearest integer, ties to the even neighbour (the formatter's default rounding mode). */
  function RoundHalfEven(x: real): (n: int)
    ensures x - 0.5 <= n as real <= x + 0.5
    ensures x == x.Floor as real ==> n == x.Floor
    ensures x - x.Floor as real == 0.5 ==> n % 2 == 0
  {
    var f := x.Floor;
    var d := x - f as real;
    if d < 0.5 then f else if d > 0.5 then f + 1 else if f % 2 == 0 then f else f + 1
  }

  /** The magnitude of `v` in units of 1 / SCALE, rounded half-even. */
  function Units(v: real): (n: nat) {
    var n := RoundHalfEven(Magnitude(v) * SCALE as real);
    assert n >= 0;
    n
  }

  /** The number the printed text of `v` stands for: `v` rounded half-even to ten fraction digits. */
  function Rounded(v: real): real {
    Signed(v < 0.0, Units(v) as real / SCALE as real)
  }

  function Zeros(k: nat): (z: string)
    ensures |z| == k && forall i :: 0 <= i < k ==> z[i] == '0'
  {
    if k == 0 then [] else Zeros(k - 1) + "0"
  }

  /** `s` without its trailing zeros. */
  function TrimZeros(s: string): (r: string)
    ensures |r| <= |s| && r == s[..|r|]
    ensures forall i :: |r| <= i < |s| ==> s[i] == '0'
    ensures r == [] || r[|r| - 1] != '0'
  {
    if s != [] && s[|s| - 1] == '0' then TrimZeros(s[..|s| - 1]) else s
  }

  /** The ten fraction digits of `frac` (below SCALE), zero-padded in front. */
  function FractionDigits(frac: nat): (s: string)
    requires frac < SCALE
    ensures |s| == FRACTION_DIGITS
  {
    var digits := Numeral(frac, 10);
    ScaleIsPow();
    NumeralLength(frac, 10, FRACTION_DIGITS);
    Zeros(FRACTION_DIGITS - |digits|) + digits
  }

  /**
    The text of `v` under the pattern "#.##########": a '-' for negative values, the whole digits (none
    when the whole part is zero), and a '.' with the fraction digits only when a non-zero one survives
    rounding; a value with neither prints as "0". So 0.5 prints as ".5", and a negative value that rounds
    to zero prints as "-0".
   */
  function Format(v: real): string {
    SignText(v < 0.0) + UnsignedText(Units(v))
  }

  /** The text of `n / SCALE` without a sign. */
  function UnsignedText(n: nat): string {
    var whole, frac := n / SCALE, n % SCALE;
    var wholeText := if whole == 0 then "" else Numeral(whole, 10);
    var fracText := TrimZeros(FractionDigits(frac));
    if fracText == [] then (if wholeText == [] then "0" else wholeText) else wholeText + "." + fracText
  }

  /** Reading the printed text back gives `v` rounded to ten fraction digits: nothing else is lost. */
  lemma FormatRoundTrip(v: real)
    ensures Parse(Format(v)) == Some(Rounded(v))
  {
    ParseUnsignedText(v < 0.0, Units(v));
  }

  lemma ParseUnsignedText(neg: bool, n: nat)
    ensures Parse(SignText(neg) + UnsignedText(n)) == Some(Signed(neg, n as real / SCALE as real))
  {
    UnitsSplit(n);
    if n % SCALE == 0 {
      ParseUnsignedWhole(neg, n);
    } else {
      ParseUnsignedFraction(neg, n);
    }
  }

  lemma ParseUnsignedWhole(neg: bool, n: nat)
    requires n % SCALE == 0
    ensures Parse(SignText(neg) + UnsignedText(n)) == Some(Signed(neg, (n / SCALE) as real))
  {
    var whole := n / SCALE;
    FractionValue(0);
    NumeralShape(whole, 10);
    assert UnsignedText(n) == if whole == 0 then "0" else Numeral(whole, 10);
    ParseWholeText(neg, whole);
  }

  lemma ParseUnsignedFraction(neg: bool, n: nat)
    requires n % SCALE != 0
    ensures Parse(SignText(neg) + UnsignedText(n))
      == Some(Signed(neg, (n / SCALE) as real + (n % SCALE) as real / SCALE as real))
  {
    var whole, frac := n / SCALE, n % SCALE;
    var wholeText := if whole == 0 then "" else Numeral(whole, 10);
    var fracText := TrimZeros(FractionDigits(frac));
    FractionValue(frac);
    assert UnsignedText(n) == wholeText + "." + fracText;
    ParseFractionText(neg, whole, frac);
  }


  lemma ParseWholeText(neg: bool, whole: nat)
    ensures Parse(SignText(neg) + (if whole == 0 then "0" else Numeral(whole, 10))) == Some(Signed(neg, whole as real))
  {
    var body := if whole == 0 then "0" else Numeral(whole, 10);
    NumeralRoundTrip(whole, 10);
    assert ValueOf("0", 10) == 0;
    ParseInteger(neg, body);
  }

  lemma ParseFractionText(neg: bool, whole: nat, frac: nat)
    requires 0 < frac < SCALE
    ensures var wholeText := if whole == 0 then "" else Numeral(whole, 10);
      Parse(SignText(neg) + (wholeText + "." + TrimZeros(FractionDigits(frac))))
        == Some(Signed(neg, whole as real + frac as real / SCALE as real))
  {
    var wholeText := if whole == 0 then "" else Numeral(whole, 10);
    var fracText := TrimZeros(FractionDigits(frac));
    NumeralRoundTrip(whole, 10);
    assert IsNumeral(wholeText, 10) && ValueOf(wholeText, 10) == whole;
    FractionValue(frac);
    assert DecimalValue(wholeText, fracText) == whole as real + frac as real / SCALE as real;
    ParseDecimal(neg, wholeText, fracText);
    assert Parse(SignText(neg) + (wholeText + "." + fracText)) == Some(Signed(neg, DecimalValue(wholeText, fracText)));
    assert Signed(neg, DecimalValue(wholeText, fracText)) == Signed(neg, whole as real + frac as real / SCALE as real);
  }

  /** The trimmed fraction digits of `frac` spell `frac / SCALE`. */
  lemma FractionValue(frac: nat)
    requires frac < SCALE
    ensures var t := TrimZeros(FractionDigits(frac));
      && IsNumeral(t, 10)
      && ValueOf(t, 10) as real / Pow(10, |t|) as real == frac as real / SCALE as real
      && (t == [] <==> frac == 0)
  {
    var digits := Numeral(frac, 10);
    var padded := FractionDigits(frac);
    NumeralRoundTrip(frac, 10);
    ScaleIsPow();
    NumeralLength(frac, 10, FRACTION_DIGITS);
    LeadingZeros(Zeros(FRACTION_DIGITS - |digits|), digits, 10);
    assert ValueOf(padded, 10) == frac;
    var t := TrimZeros(padded);
    TrimValue(padded);
    var k := FRACTION_DIGITS - |t|;
    PowAdd(|t|, k);
    ScaleFraction(ValueOf(t, 10), Pow(10, |t|), Pow(10, k));
    if t == [] {
      assert ValueOf(t, 10) == 0;
    }
  }

  /** Trailing zeros scale the value of a digit string by a power of ten. */
  lemma TrimValue(s: string)
    requires IsNumeral(s, 10)
    ensures IsNumeral(TrimZeros(s), 10)
    ensures ValueOf(s, 10) == ValueOf(TrimZeros(s), 10) * Pow(10, |s| - |TrimZeros(s)|)
  {
    var r := TrimZeros(s);
    var tail := s[|r|..];
    assert s == r + tail;
    AllZeros(tail, 10);
    ValueOfAppend(r, tail, 10);
  }

  lemma {:induction false} PowAdd(a: nat, b: nat)
    ensures Pow(10, a + b) == Pow(10, a) * Pow(10, b)
  {
    if a > 0 {
      PowAdd(a - 1, b);
    }
  }

  lemma ScaleFraction(x: nat, p: nat, q: nat)
    requires p > 0 && q > 0
    ensures x as real / p as real == (x * q) as real / (p * q) as real
  {
  }

  lemma UnitsSplit(n: nat)
    ensures n as real / SCALE as real == (n / SCALE) as real + (n % SCALE) as real / SCALE as real
  {
  }

  /** The rounding loses at most half a unit in the tenth fraction digit. */
  lemma RoundedClose(v: real)
    ensures -0.5 / SCALE as real <= Rounded(v) - v <= 0.5 / SCALE as real
  {
    var x := Magnitude(v) * SCALE as real;
    var n := Units(v);
    assert x - 0.5 <= n as real <= x + 0.5;
    assert Magnitude(v) - 0.5 / SCALE as real <= n as real / SCALE as real <= Magnitude(v) + 0.5 / SCALE as real;
  }

  /** A value with at most ten fraction digits, `k / SCALE`, is kept exactly. */
  lemma RoundedExact(k: int)
    ensures Rounded(k as real / SCALE as real) == k as real / SCALE as real
  {
    var v := k as real / SCALE as real;
    var m := if k < 0 then -k else k;
    assert Magnitude(v) * SCALE as real == m as real;
    assert (m as real).Floor == m;
    assert Units(v) == m;
  }

  /** The pattern prints "-0" exactly for the negative values that round to zero; this is the case `FormatNumber` repairs. */
  lemma FormatNegativeZero(v: real)
    ensures Format(v) == "-0" <==> v < 0.0 && Units(v) == 0
  {
    var n := Units(v);
    UnsignedZero(n);
    if v < 0.0 {
      assert Format(v) == "-" + UnsignedText(n);
      assert Format(v)[1..] == UnsignedText(n);
    } else {
      assert Format(v) == UnsignedText(n);
    }
  }

  lemma UnsignedZero(n: nat)
    ensures UnsignedText(n) == "0" <==> n == 0
    ensures |UnsignedText(n)| > 0 && UnsignedText(n)[0] != '-'
  {
    var whole, frac := n / SCALE, n % SCALE;
    FractionValue(frac);
    NumeralShape(whole, 10);
    NumeralRoundTrip(whole, 10);
    if n == 0 {
      assert whole == 0 && frac == 0;
    } else if frac == 0 {
      assert whole != 0;
      assert UnsignedText(n) == Numeral(whole, 10);
    }
  }

  /** What the calculator displays for a result reads back as the result rounded to ten fraction digits. */
  lemma FormatNumberRoundTrip(v: real)
    ensures Parse(FormatNumber(Format, v)) == Some(Rounded(v))
  {
    FormatNegativeZero(v);
    if Format(v) == "-0" {
      assert FormatNumber(Format, v) == "0";
      assert Rounded(v) == 0.0;
      ParseZero();
    } else {
      assert FormatNumber(Format, v) == Format(v);
      FormatRoundTrip(v);
    }
  }

  lemma ParseZero()
    ensures Parse("0") == Some(0.0)
  {
    ParseInteger(false, "0");
    assert ValueOf("0", 10) == 0;
    assert SignText(false) + "0" == "0";
  }

  /** A whole number prints as its decimal numeral, with neither point nor fraction. */
  lemma FormatWhole(k: nat)
    ensures Format(k as real) == Numeral(k, 10)
  {
    var n := k * SCALE;
    assert Magnitude(k as real) * SCALE as real == n as real;
    assert (n as real).Floor == n;
    assert Units(k as real) == n;
    assert n / SCALE == k && n % SCALE == 0;
    FractionValue(0);
    assert SignText(false) + UnsignedText(n) == UnsignedText(n);
  }
}
