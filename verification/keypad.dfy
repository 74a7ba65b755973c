/**
  The text the keypad builds while a number is typed, and the reading of a display text as a number
  (`Double.parseDouble` in the calculator, restricted to texts over digits, '.' and '-').
 */
module Keypad {
  import opened Wrappers
  import opened Numerals

  /**
    A typed entry: an optional leading '-', then digits with at most one '.' among them.
    This includes the in-progress texts "-", "-." and "5." that are not yet complete numbers.
   */
  predicate IsEntry(s: string) {
    && |s| > 0
    && (forall i :: 0 <= i < |s| ==> IsDigit(s[i]) || s[i] == '.' || (i == 0 && s[i] == '-'))
    && (forall i, j :: 0 <= i < j < |s| && s[i] == '.' ==> s[j] != '.')
  }

  predicate HasDigit(s: string) {
    exists i :: 0 <= i < |s| && IsDigit(s[i])
  }

  /** Index of the first '.' in `t`, or `|t|` when there is none. */
  function FirstDot(t: string): (k: nat)
    ensures k <= |t|
    ensures forall i :: 0 <= i < k ==> t[i] != '.'
    ensures k < |t| ==> t[k] == '.'
  {
    if t == [] || t[0] == '.' then 0 else 1 + FirstDot(t[1..])
  }

  /** 1 when the text starts with a minus sign, else 0: where the unsigned part begins. */
  function SignLength(s: string): nat {
    if |s| > 0 && s[0] == '-' then 1 else 0
  }

  /** The digits before the first '.', after the sign. */
  function WholePart(s: string): string {
    var t := s[SignLength(s)..];
    t[..FirstDot(t)]
  }

  /** Everything after the first '.', or nothing when there is no '.'. */
  function FractionPart(s: string): string {
    var t := s[SignLength(s)..];
    var k := FirstDot(t);
    if k < |t| then t[k + 1..] else []
  }

  /**
    An optional '-', a whole part and an optional '.' followed by a fraction part, both made of digits and
    not both empty. "5." and ".5" are numbers; "", "-", "." and "-." are not, nor is any text with a second
    '.', a '-' after the first character or any other character.
   */
  predicate IsNumber(s: string) {
    IsNumeral(WholePart(s), 10) && IsNumeral(FractionPart(s), 10) && |WholePart(s)| + |FractionPart(s)| > 0
  }

  /** The number a display text denotes, or None when it is not a number. */
  function Parse(s: string): (r: Option<real>)
    ensures r.Some? <==> IsNumber(s)
  {
    if IsNumber(s) then Some(Signed(SignLength(s) == 1, DecimalValue(WholePart(s), FractionPart(s)))) else None
  }

  /** The value of the digits `whole`, then a decimal point, then the digits `frac`. */
  function DecimalValue(whole: string, frac: string): real
    requires IsNumeral(whole, 10) && IsNumeral(frac, 10)
  {
    ValueOf(whole, 10) as real + ValueOf(frac, 10) as real / Pow(10, |frac|) as real
  }

  function Signed(neg: bool, m: real): real {
    if neg then -m else m
  }

  /** The numbers are exactly the typed entries that hold at least one digit. */
  lemma ParseAcceptsEntries(s: string)
    ensures IsNumber(s) <==> IsEntry(s) && HasDigit(s)
  {
    if IsNumber(s) {
      NumberIsEntry(s);
    }
    if IsEntry(s) && HasDigit(s) {
      EntryIsNumber(s);
    }
  }

  lemma NumberIsEntry(s: string)
    requires IsNumber(s)
    ensures IsEntry(s) && HasDigit(s)
  {
    var off := SignLength(s);
    var t := s[off..];
    var k := FirstDot(t);
    var whole := t[..k];
    var frac := if k < |t| then t[k + 1..] else [];
    assert IsNumeral(whole, 10) && IsNumeral(frac, 10) && |whole| + |frac| > 0;
    forall i | 0 <= i < |s| && s[i] != '.' && !(i == 0 && s[i] == '-')
      ensures IsDigit(s[i])
    {
      if i - off < k {
        assert s[i] == whole[i - off];
      } else {
        assert s[i] == frac[i - off - k - 1];
      }
    }
    forall i, j | 0 <= i < j < |s| && s[i] == '.'
      ensures s[j] != '.'
    {
      assert i - off == k;
      assert s[j] == frac[j - off - k - 1];
    }
    if |whole| > 0 {
      assert IsDigit(s[off]);
    } else {
      assert IsDigit(s[off + k + 1]);
    }
  }

  lemma EntryIsNumber(s: string)
    requires IsEntry(s) && HasDigit(s)
    ensures IsNumber(s)
  {
    EntryParts(s);
    var off := SignLength(s);
    var k := FirstDot(s[off..]);
    var i :| 0 <= i < |s| && IsDigit(s[i]);
    if i - off < k {
      assert |WholePart(s)| > 0;
    } else {
      assert i - off != k;
      assert |FractionPart(s)| > 0;
    }
  }

  /** Both parts of an entry are digit strings. */
  lemma EntryParts(s: string)
    requires IsEntry(s)
    ensures IsNumeral(WholePart(s), 10) && IsNumeral(FractionPart(s), 10)
  {
    var off := SignLength(s);
    var t := s[off..];
    var k := FirstDot(t);
    var whole, frac := WholePart(s), FractionPart(s);
    forall i | 0 <= i < |whole|
      ensures IsDigit(whole[i])
    {
      assert whole[i] == s[i + off] && t[i] != '.';
    }
    forall i | 0 <= i < |frac|
      ensures IsDigit(frac[i])
    {
      assert frac[i] == s[i + off + k + 1] && s[off + k] == '.';
    }
  }


  /** Typing a digit at the end of an entry gives an entry. */
  lemma EntryAppendDigit(s: string, d: char)
    requires IsEntry(s) && IsDigit(d)
    ensures IsEntry(s + [d]) && HasDigit(s + [d])
  {
    assert IsDigit((s + [d])[|s|]);
  }

  /** Typing '.' at the end of an entry that has none gives an entry. */
  lemma EntryAppendDot(s: string)
    requires IsEntry(s) && '.' !in s
    ensures IsEntry(s + ".")
  {
  }

  /** Removing the last character of an entry longer than one character gives an entry. */
  lemma EntryDropLast(s: string)
    requires IsEntry(s) && |s| > 1
    ensures IsEntry(s[..|s| - 1])
  {
  }

  function SignText(neg: bool): string {
    if neg then "-" else ""
  }

  /** A sign and a non-empty digit string read as the signed decimal value of the digits. */
  lemma ParseInteger(neg: bool, ds: string)
    requires IsNumeral(ds, 10) && |ds| > 0
    ensures Parse(SignText(neg) + ds) == Some(Signed(neg, ValueOf(ds, 10) as real))
  {
    var s := SignText(neg) + ds;
    SplitInteger(neg, ds);
    assert IsNumber(s);
    WholeValue(ds);
    assert Parse(s) == Some(Signed(SignLength(s) == 1, DecimalValue(ds, [])));
  }

  lemma WholeValue(ds: string)
    requires IsNumeral(ds, 10)
    ensures DecimalValue(ds, []) == ValueOf(ds, 10) as real
  {
    assert ValueOf([], 10) == 0 && Pow(10, 0) == 1;
  }

  lemma SplitInteger(neg: bool, ds: string)
    requires IsNumeral(ds, 10) && |ds| > 0
    ensures var s := SignText(neg) + ds;
      SignLength(s) == (if neg then 1 else 0) && WholePart(s) == ds && FractionPart(s) == []
  {
    var s := SignText(neg) + ds;
    assert SignLength(s) == |SignText(neg)|;
    assert s[SignLength(s)..] == ds;
    FirstDotAbsent(ds);
  }

  /** A sign, a digit string, '.' and a non-empty digit string read as the signed decimal fraction they spell. */
  lemma ParseDecimal(neg: bool, whole: string, frac: string)
    requires IsNumeral(whole, 10) && IsNumeral(frac, 10) && |frac| > 0
    ensures Parse(SignText(neg) + (whole + "." + frac))
         == Some(Signed(neg, DecimalValue(whole, frac)))
  {
    SplitDecimal(neg, whole, frac);
  }

  lemma SplitDecimal(neg: bool, whole: string, frac: string)
    requires IsNumeral(whole, 10) && IsNumeral(frac, 10) && |frac| > 0
    ensures var s := SignText(neg) + (whole + "." + frac);
      SignLength(s) == (if neg then 1 else 0) && WholePart(s) == whole && FractionPart(s) == frac
  {
    var s := SignText(neg) + (whole + "." + frac);
    assert SignLength(s) == |SignText(neg)|;
    var t := whole + "." + frac;
    assert s[SignLength(s)..] == t;
    var k := FirstDot(t);
    assert t[|whole|] == '.';
    assert k == |whole|;
    assert t[..k] == whole;
    assert t[k + 1..] == frac;
  }

  lemma {:induction false} FirstDotAbsent(t: string)
    requires forall i :: 0 <= i < |t| ==> t[i] != '.'
    ensures FirstDot(t) == |t|
  {
    if t != [] {
      FirstDotAbsent(t[1..]);
    }
  }
}
