/**
  Positional digit strings, most significant digit first, in any base from 2 to 10.
  Base 10 is what the keypad builds and the formatter prints; base 2 is what the BIN key shows.
 */
module Numerals {

  predicate IsDigit(c: char) {
    '0' <= c <= '9'
  }

  function DigitValue(c: char): (d: nat)
    requires IsDigit(c)
    ensures d < 10
  {
    c as int - '0' as int
  }

  function DigitChar(d: nat): (c: char)
    requires d < 10
    ensures IsDigit(c) && DigitValue(c) == d
  {
    ('0' as int + d) as char
  }

  /** Every character of `s` is a digit below `base`. */
  predicate IsNumeral(s: string, base: nat) {
    forall i :: 0 <= i < |s| ==> IsDigit(s[i]) && DigitValue(s[i]) < base
  }

  function Pow(base: nat, n: nat): (p: nat)
    requires base >= 1
    ensures p >= 1
  {
    if n == 0 then 1 else base * Pow(base, n - 1)
  }

  /** The number a digit string denotes in `base`; the empty string reads as 0. */
  function ValueOf(s: string, base: nat): nat
    requires IsNumeral(s, base)
    decreases |s|
  {
    if s == [] then 0 else base * ValueOf(s[..|s| - 1], base) + DigitValue(s[|s| - 1])
  }

  /** The shortest digit string of `n` in `base`: "0" for zero, otherwise no leading zero. */
  function Numeral(n: nat, base: nat): (s: string)
    requires 2 <= base <= 10
    decreases n
  {
    if n < base then [DigitChar(n)] else Numeral(n / base, base) + [DigitChar(n % base)]
  }

  /** Reading the numeral of `n` back in the same base gives `n`. */
  lemma {:induction false} NumeralRoundTrip(n: nat, base: nat)
    requires 2 <= base <= 10
    ensures IsNumeral(Numeral(n, base), base)
    ensures ValueOf(Numeral(n, base), base) == n
  {
    if n >= base {
      NumeralRoundTrip(n / base, base);
      NumeralStep(n, base);
    } else {
      NumeralDigit(n, base);
    }
  }

  /** A value below the base is a one-digit numeral. */
  lemma NumeralDigit(n: nat, base: nat)
    requires 2 <= base <= 10 && n < base
    ensures IsNumeral(Numeral(n, base), base) && ValueOf(Numeral(n, base), base) == n
  {
    ValueOfSnoc([], DigitChar(n), base);
    assert [] + [DigitChar(n)] == Numeral(n, base);
  }

  /** The inductive step of the round trip: the last digit is the remainder, the rest the quotient. */
  lemma NumeralStep(n: nat, base: nat)
    requires 2 <= base <= n && base <= 10
    requires IsNumeral(Numeral(n / base, base), base) && ValueOf(Numeral(n / base, base), base) == n / base
    ensures IsNumeral(Numeral(n, base), base) && ValueOf(Numeral(n, base), base) == n
  {
    var p := Numeral(n / base, base);
    ValueOfSnoc(p, DigitChar(n % base), base);
    DivMod(n, base);
  }

  /** Appending one digit multiplies the value by the base and adds the digit. */
  lemma ValueOfSnoc(p: string, d: char, base: nat)
    requires IsNumeral(p, base) && IsDigit(d) && DigitValue(d) < base
    ensures IsNumeral(p + [d], base)
    ensures ValueOf(p + [d], base) == base * ValueOf(p, base) + DigitValue(d)
  {
    assert (p + [d])[..|p|] == p;
  }

  lemma DivMod(n: nat, base: nat)
    requires base >= 1
    ensures n == base * (n / base) + n % base
  {
  }

  /** The numeral of `n` is never empty and starts with '0' only when `n` is zero. */
  lemma {:induction false} NumeralShape(n: nat, base: nat)
    requires 2 <= base <= 10
    ensures |Numeral(n, base)| > 0
    ensures Numeral(n, base)[0] == '0' <==> n == 0
  {
    if n >= base {
      var q := n / base;
      assert 0 < q by {
        DivMod(n, base);
      }
      NumeralShape(q, base);
      assert Numeral(n, base)[0] == Numeral(q, base)[0];
    }
  }

  /** A numeral of `n` needs no more than `w` digits when `n < base^w`. */
  lemma {:induction false} NumeralLength(n: nat, base: nat, w: nat)
    requires 2 <= base <= 10 && w >= 1 && n < Pow(base, w)
    ensures |Numeral(n, base)| <= w
  {
    if n >= base {
      assert w >= 2;
      QuotientBound(n, base, Pow(base, w - 1));
      NumeralLength(n / base, base, w - 1);
    }
  }

  lemma QuotientBound(n: nat, base: nat, p: nat)
    requires base >= 1 && n < base * p
    ensures n / base < p
  {
    DivMod(n, base);
  }

  /** Leading zeros do not change the value of a digit string. */
  lemma {:induction false} LeadingZeros(z: string, s: string, base: nat)
    requires IsNumeral(s, base) && base >= 1
    requires forall i :: 0 <= i < |z| ==> z[i] == '0'
    ensures IsNumeral(z + s, base)
    ensures ValueOf(z + s, base) == ValueOf(s, base)
  {
    if s == [] {
      assert z + s == z;
      AllZeros(z, base);
    } else {
      var init := s[..|s| - 1];
      LeadingZeros(z, init, base);
      assert (z + s)[..|z + s| - 1] == z + init;
    }
  }

  lemma {:induction false} AllZeros(z: string, base: nat)
    requires base >= 1
    requires forall i :: 0 <= i < |z| ==> z[i] == '0'
    ensures IsNumeral(z, base) && ValueOf(z, base) == 0
  {
    if z != [] {
      AllZeros(z[..|z| - 1], base);
    }
  }

  /** Appending a digit string `t` scales the value of `s` by `base^|t|`. */
  lemma {:induction false} ValueOfAppend(s: string, t: string, base: nat)
    requires IsNumeral(s, base) && IsNumeral(t, base) && base >= 1
    ensures IsNumeral(s + t, base)
    ensures ValueOf(s + t, base) == ValueOf(s, base) * Pow(base, |t|) + ValueOf(t, base)
  {
    if t == [] {
      assert s + t == s;
    } else {
      var init := t[..|t| - 1];
      ValueOfAppend(s, init, base);
      assert (s + t)[..|s + t| - 1] == s + init;
      var d := DigitValue(t[|t| - 1]);
      assert ValueOf(s + t, base) == base * ValueOf(s + init, base) + d;
      Rescale(ValueOf(s, base), Pow(base, |init|), ValueOf(init, base), base);
    }
  }

  lemma Rescale(a: nat, p: nat, b: nat, base: nat)
    ensures base * (a * p + b) == a * (base * p) + base * b
  {
    assert base * (a * p + b) == base * (a * p) + base * b;
  }
}
