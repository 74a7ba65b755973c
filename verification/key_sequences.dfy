/** Properties of whole sequences of button presses. */
module KeySequences {
  import opened Wrappers
  import opened Numerals
  import opened Keypad
  import opened Formatting
  import opened Engine
  import opened EngineProperties

  /** The labels of the digit buttons for the digits of `ds`, one press per digit. */
  function DigitLabels(ds: string): (names: seq<string>)
    ensures |names| == |ds|
  {
    seq(|ds|, i requires 0 <= i < |ds| => [ds[i]])
  }

  /** `ds` without its leading zeros, keeping a single "0" when all its digits are zeros. */
  function SuppressLeadingZeros(ds: string): string {
    if |ds| > 1 && ds[0] == '0' then SuppressLeadingZeros(ds[1..]) else ds
  }

  lemma {:induction false} SuppressAppend(ds: string, d: char)
    requires |ds| > 0
    ensures SuppressLeadingZeros(ds + [d])
         == if SuppressLeadingZeros(ds) == "0" then [d] else SuppressLeadingZeros(ds) + [d]
  {
    if |ds| > 1 && ds[0] == '0' {
      assert (ds + [d])[1..] == ds[1..] + [d];
      SuppressAppend(ds[1..], d);
    } else if ds == "0" {
      assert (ds + [d])[1..] == [d];
    }
  }

  /** Suppressing leading zeros keeps the value and leaves a non-empty numeral. */
  lemma {:induction false} SuppressValue(ds: string)
    requires IsNumeral(ds, 10) && |ds| > 0
    ensures IsNumeral(SuppressLeadingZeros(ds), 10) && |SuppressLeadingZeros(ds)| > 0
    ensures ValueOf(SuppressLeadingZeros(ds), 10) == ValueOf(ds, 10)
  {
    if |ds| > 1 && ds[0] == '0' {
      SuppressValue(ds[1..]);
      LeadingZeros("0", ds[1..], 10);
      assert "0" + ds[1..] == ds;
    }
  }

  lemma PressAllSingle(s: State, name: string, format: real -> string, sqrt: real -> real)
    ensures PressAll(s, [name], format, sqrt) == Press(s, name, format, sqrt)
  {
    assert [name][..0] == [];
  }

  /** Pressing `a` and then `b` is pressing `a + b`. */
  lemma {:induction false} PressAllAppend(s: State, a: seq<string>, b: seq<string>, format: real -> string, sqrt: real -> real)
    ensures PressAll(s, a + b, format, sqrt) == PressAll(PressAll(s, a, format, sqrt), b, format, sqrt)
    decreases |b|
  {
    if b == [] {
      assert a + b == a;
    } else {
      var init := b[..|b| - 1];
      assert (a + b)[..|a + b| - 1] == a + init;
      PressAllAppend(s, a, init, format, sqrt);
    }
  }

  /**
    Typing digits into a fresh entry shows them with leading zeros suppressed ("007" shows "7", "00" shows
    "0"); nothing but the display and the entry flag changes.
   */
  lemma {:induction false} TypedDigits(s: State, ds: string, format: real -> string, sqrt: real -> real)
    requires !s.errorState && s.enteringNewNumber && IsNumeral(ds, 10) && |ds| > 0
    ensures PressAll(s, DigitLabels(ds), format, sqrt) == s.(display := SuppressLeadingZeros(ds), enteringNewNumber := false)
  {
    var d := ds[|ds| - 1];
    var init := ds[..|ds| - 1];
    assert DigitLabels(ds)[..|ds| - 1] == DigitLabels(init);
    assert DigitLabels(ds)[|ds| - 1] == Label(Digit(d));
    var before := PressAll(s, DigitLabels(init), format, sqrt);
    if init == [] {
      assert before == s;
      PressRoutes(s, Digit(d), format, sqrt);
      assert ds == [d];
    } else {
      TypedDigits(s, init, format, sqrt);
      PressRoutes(before, Digit(d), format, sqrt);
      SuppressAppend(init, d);
      assert init + [d] == ds;
    }
  }

  /** The digits typed into a fresh entry read back as their decimal value. */
  lemma TypedValue(ds: string)
    requires IsNumeral(ds, 10) && |ds| > 0
    ensures Parse(SuppressLeadingZeros(ds)) == Some(ValueOf(ds, 10) as real)
  {
    SuppressValue(ds);
    ParseInteger(false, SuppressLeadingZeros(ds));
    assert SignText(false) + SuppressLeadingZeros(ds) == SuppressLeadingZeros(ds);
  }

  /**
    Operators chain strictly from left to right with no precedence: after an entry showing `x`, pressing
    `o1`, typing `ys`, pressing `o2`, typing `zs` and pressing "=" computes (x o1 y) o2 z, shows it, and
    remembers `o2` and z for a repeated "=".
   */
  lemma ChainLeftToRight(s: State, x: real, o1: Op, ys: string, o2: Op, zs: string, format: real -> string, sqrt: real -> real)
    requires !s.errorState && !s.enteringNewNumber && s.currentOperator.None? && Parse(s.display) == Some(x)
    requires IsNumeral(ys, 10) && |ys| > 0 && IsNumeral(zs, 10) && |zs| > 0
    requires Apply(o1, x, ValueOf(ys, 10) as real).Some?
    requires Apply(o2, Apply(o1, x, ValueOf(ys, 10) as real).value, ValueOf(zs, 10) as real).Some?
    ensures var r := PressAll(s, [OpLabel(o1)] + DigitLabels(ys) + [OpLabel(o2)] + DigitLabels(zs) + ["="], format, sqrt);
      var v := Apply(o2, Apply(o1, x, ValueOf(ys, 10) as real).value, ValueOf(zs, 10) as real).value;
      && r.currentValue == v
      && r.display == FormatNumber(format, v)
      && !r.errorState && r.enteringNewNumber && r.currentOperator.None?
      && r.lastOperator == Some(o2) && r.lastOperand == ValueOf(zs, 10) as real
  {
    var y, z := ValueOf(ys, 10) as real, ValueOf(zs, 10) as real;
    var a := Apply(o1, x, y).value;
    var l1 := [OpLabel(o1)];
    var l2 := l1 + DigitLabels(ys);
    var l3 := l2 + [OpLabel(o2)];
    var l4 := l3 + DigitLabels(zs);
    // o1 stores x
    PressAllSingle(s, OpLabel(o1), format, sqrt);
    PressRoutes(s, Operator(o1), format, sqrt);
    OperatorPressedSpec(s, o1, x, format);
    var s1 := s.(currentValue := x, currentOperator := Some(o1), enteringNewNumber := true);
    assert PressAll(s, l1, format, sqrt) == s1;
    // ys is typed
    PressAllAppend(s, l1, DigitLabels(ys), format, sqrt);
    TypedDigits(s1, ys, format, sqrt);
    TypedValue(ys);
    var s2 := s1.(display := SuppressLeadingZeros(ys), enteringNewNumber := false);
    assert PressAll(s, l2, format, sqrt) == s2;
    // o2 applies o1
    PressAllAppend(s, l2, [OpLabel(o2)], format, sqrt);
    PressAllSingle(s2, OpLabel(o2), format, sqrt);
    PressRoutes(s2, Operator(o2), format, sqrt);
    OperatorPressedSpec(s2, o2, y, format);
    var s3 := s2.(currentValue := a, display := FormatNumber(format, a), currentOperator := Some(o2), enteringNewNumber := true);
    assert PressAll(s, l3, format, sqrt) == s3;
    // zs is typed
    PressAllAppend(s, l3, DigitLabels(zs), format, sqrt);
    TypedDigits(s3, zs, format, sqrt);
    TypedValue(zs);
    var s4 := s3.(display := SuppressLeadingZeros(zs), enteringNewNumber := false);
    assert PressAll(s, l4, format, sqrt) == s4;
    // "=" applies o2
    PressAllAppend(s, l4, ["="], format, sqrt);
    PressAllSingle(s4, "=", format, sqrt);
    PressRoutes(s4, Equals, format, sqrt);
    EqualsPressedSpec(s4, z, format);
  }

  /**
    A repeated "=" works on what the display shows: with the pattern formatter, the second "=" applies the
    remembered operator and operand to the first result rounded to ten fraction digits.
   */
  lemma RepeatEqualsCompounds(s: State, op: Op, x: real, v: real, sqrt: real -> real)
    requires !s.errorState && s.currentOperator == Some(op) && Parse(s.display) == Some(x)
    requires Apply(op, s.currentValue, x) == Some(v)
    ensures var r := PressAll(s, ["=", "="], Format, sqrt);
      && r.currentValue == Apply(op, Rounded(v), x).value
      && r.display == FormatNumber(Format, r.currentValue)
      && r.lastOperator == Some(op) && r.lastOperand == x && !r.errorState
  {
    PressAllAppend(s, ["="], ["="], Format, sqrt);
    assert ["="] + ["="] == ["=", "="];
    PressAllSingle(s, "=", Format, sqrt);
    PressRoutes(s, Equals, Format, sqrt);
    EqualsPressedSpec(s, x, Format);
    var s1 := EqualsPressed(s, Format);
    assert s1.lastOperator == Some(op) && s1.lastOperand == x && s1.display == FormatNumber(Format, v);
    FormatNumberRoundTrip(v);
    PressAllSingle(s1, "=", Format, sqrt);
    PressRoutes(s1, Equals, Format, sqrt);
    assert Apply(op, Rounded(v), x).Some? by {
      if op == Div {
        assert x != 0.0;
      }
    }
    EqualsPressedSpec(s1, Rounded(v), Format);
  }
}
