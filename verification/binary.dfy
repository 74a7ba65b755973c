/**
  What the BIN key shows for an integral value: Java's `(long)` cast, `Math.abs` on a long and
  `Long.toBinaryString`, each with its 64-bit behaviour written out.
 */
module Binary {
  import opened Numerals

  const LONG_MIN: int := -0x8000_0000_0000_0000
  const LONG_MAX: int := 0x7FFF_FFFF_FFFF_FFFF
  const TWO_TO_64: int := 0x1_0000_0000_0000_0000

  predicate IsLong(x: int) {
    LONG_MIN <= x <= LONG_MAX
  }

  function Abs(x: int): nat {
    if x < 0 then -x else x
  }

  /** The `(long)` cast of an integral double: values inside the range are kept, the others saturate. */
  function SaturatingLong(n: int): (x: int)
    ensures IsLong(x)
    ensures IsLong(n) ==> x == n
  {
    if n < LONG_MIN then LONG_MIN else if n > LONG_MAX then LONG_MAX else n
  }

  /** `Math.abs` on a long: negating LONG_MIN overflows back to LONG_MIN, every other value gets its magnitude. */
  function LongAbs(x: int): (r: int)
    requires IsLong(x)
    ensures IsLong(r)
    ensures x != LONG_MIN ==> r == Abs(x)
  {
    if x == LONG_MIN then LONG_MIN else Abs(x)
  }

  /** `Long.toBinaryString`: the base-2 digits of the long read as an unsigned 64-bit value. */
  function LongToBinaryString(x: int): string
    requires IsLong(x)
  {
    Numeral(if x < 0 then x + TWO_TO_64 else x, 2)
  }

  /** The text the BIN key puts on the display for the integral value `n`. */
  function BinaryText(n: int): string {
    var v := SaturatingLong(n);
    var bin := LongToBinaryString(LongAbs(v));
    if v < 0 then "-" + bin else bin
  }

  /** On every long, including LONG_MIN, BIN shows a sign exactly for negatives and then the binary numeral of the magnitude. */
  lemma BinaryTextOfLong(n: int)
    requires IsLong(n)
    ensures BinaryText(n) == (if n < 0 then "-" else "") + Numeral(Abs(n), 2)
  {
    if n == LONG_MIN {
      assert LongToBinaryString(LongAbs(n)) == Numeral(Abs(n), 2);
    }
  }

  /**
    Reading the shown digits back in base 2 gives the magnitude of `n`; the '-' is there exactly when
    `n` is negative, and the digits start with '1' unless `n` is zero.
   */
  lemma BinaryTextRoundTrip(n: int)
    requires IsLong(n)
    ensures |BinaryText(n)| > 0
    ensures BinaryText(n)[0] == '-' <==> n < 0
    ensures var digits := if n < 0 then BinaryText(n)[1..] else BinaryText(n);
      && IsNumeral(digits, 2)
      && ValueOf(digits, 2) == Abs(n)
      && |digits| > 0
      && (digits[0] == '1' || n == 0)
  {
    BinaryTextOfLong(n);
    var bits := Numeral(Abs(n), 2);
    NumeralRoundTrip(Abs(n), 2);
    NumeralShape(Abs(n), 2);
    assert bits[0] != '-';
    if n < 0 {
      assert BinaryText(n)[1..] == bits;
    }
  }

  /** Beyond the long range BIN shows the saturated value, not the typed one. */
  lemma BinaryTextSaturates(n: int)
    ensures n > LONG_MAX ==> BinaryText(n) == BinaryText(LONG_MAX)
    ensures n < LONG_MIN ==> BinaryText(n) == BinaryText(LONG_MIN)
  {
  }
}
