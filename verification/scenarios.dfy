/**
  Worked key sequences: what the calculator shows for a few concrete inputs.
  Each example takes its key sequence as a parameter `keys` fixed by its `requires`; this is the
  literal sequence itself, passed as a parameter only so that the verifier does not unfold the
  literal list eagerly.
 */
module Scenarios {
  import opened Wrappers
  import opened Numerals
  import opened Keypad
  import opened Binary
  import opened Formatting
  import opened Engine
  import opened EngineProperties
  import opened KeySequences

  /** A number typed from start-up: `display` is on screen and nothing else has changed. */
  function Typed(display: string): State {
    Cleared().(display := display, enteringNewNumber := false)
  }

  // ---------------------------------------------------------------------------------------------
  // One more button after a known prefix
  // ---------------------------------------------------------------------------------------------

  lemma Step(s0: State, names: seq<string>, t: State, k: Key, format: real -> string, sqrt: real -> real)
    requires PressAll(s0, names, format, sqrt) == t
    requires IsKey(k) && !t.errorState && !(k == Operator(Sub) && t.enteringNewNumber && t.display == "0")
    ensures PressAll(s0, names + [Label(k)], format, sqrt) == Dispatch(t, k, format, sqrt)
  {
    PressAllAppend(s0, names, [Label(k)], format, sqrt);
    PressAllSingle(t, Label(k), format, sqrt);
    PressRoutes(t, k, format, sqrt);
  }

  lemma DigitStep(s0: State, names: seq<string>, t: State, d: char, format: real -> string, sqrt: real -> real)
    requires PressAll(s0, names, format, sqrt) == t && !t.errorState && IsDigit(d)
    ensures PressAll(s0, names + [[d]], format, sqrt) == AppendDigit(t, d)
  {
    Step(s0, names, t, Digit(d), format, sqrt);
  }

  lemma DotStep(s0: State, names: seq<string>, t: State, format: real -> string, sqrt: real -> real)
    requires PressAll(s0, names, format, sqrt) == t && !t.errorState
    ensures PressAll(s0, names + ["."], format, sqrt) == AppendDot(t)
  {
    Step(s0, names, t, Dot, format, sqrt);
  }

  /** With nothing pending, an operator stores the displayed value and becomes pending. */
  lemma OperatorStep(s0: State, names: seq<string>, t: State, op: Op, x: real, format: real -> string, sqrt: real -> real)
    requires PressAll(s0, names, format, sqrt) == t && !t.errorState && Parse(t.display) == Some(x)
    requires t.currentOperator.None? && op != Sub
    ensures PressAll(s0, names + [OpLabel(op)], format, sqrt)
      == t.(currentValue := x, currentOperator := Some(op), enteringNewNumber := true)
  {
    Step(s0, names, t, Operator(op), format, sqrt);
    OperatorPressedSpec(t, op, x, format);
  }

  /** "=" with an operation pending applies it to the stored and the displayed value and remembers it for a repeat. */
  lemma EqualsStep(s0: State, names: seq<string>, t: State, x: real, format: real -> string, sqrt: real -> real)
    requires PressAll(s0, names, format, sqrt) == t && !t.errorState && Parse(t.display) == Some(x)
    requires t.currentOperator.Some? && Apply(t.currentOperator.value, t.currentValue, x).Some?
    ensures var v := Apply(t.currentOperator.value, t.currentValue, x).value;
      PressAll(s0, names + ["="], format, sqrt)
        == t.(currentValue := v, display := FormatNumber(format, v), currentOperator := None, enteringNewNumber := true,
              lastOperator := t.currentOperator, lastOperand := x)
  {
    Step(s0, names, t, Equals, format, sqrt);
    EqualsPressedSpec(t, x, format);
  }

  /** "=" on a zero divisor sets the error. */
  lemma DivideByZeroStep(s0: State, names: seq<string>, t: State, format: real -> string, sqrt: real -> real)
    requires PressAll(s0, names, format, sqrt) == t && !t.errorState && Parse(t.display) == Some(0.0)
    requires t.currentOperator == Some(Div)
    ensures PressAll(s0, names + ["="], format, sqrt) == SetError(t)
  {
    Step(s0, names, t, Equals, format, sqrt);
    EqualsPressedSpec(t, 0.0, format);
  }

  /** A repeated "=" applies the remembered operator to the displayed value and the remembered operand. */
  lemma RepeatStep(s0: State, names: seq<string>, t: State, x: real, format: real -> string, sqrt: real -> real)
    requires PressAll(s0, names, format, sqrt) == t && !t.errorState && Parse(t.display) == Some(x)
    requires t.currentOperator.None? && t.lastOperator.Some? && Apply(t.lastOperator.value, x, t.lastOperand).Some?
    ensures PressAll(s0, names + ["="], format, sqrt).display
      == FormatNumber(format, Apply(t.lastOperator.value, x, t.lastOperand).value)
  {
    Step(s0, names, t, Equals, format, sqrt);
  }

  /** "=" with nothing pending and nothing remembered changes nothing. */
  lemma IdleEqualsStep(s0: State, names: seq<string>, t: State, x: real, format: real -> string, sqrt: real -> real)
    requires PressAll(s0, names, format, sqrt) == t && !t.errorState && Parse(t.display) == Some(x)
    requires t.currentOperator.None? && t.lastOperator.None?
    ensures PressAll(s0, names + ["="], format, sqrt) == t
  {
    Step(s0, names, t, Equals, format, sqrt);
  }

  /** √ of a negative display sets the error. */
  lemma NegativeRootStep(s0: State, names: seq<string>, t: State, v: real, format: real -> string, sqrt: real -> real)
    requires PressAll(s0, names, format, sqrt) == t && !t.errorState && Parse(t.display) == Some(v) && v < 0.0
    ensures PressAll(s0, names + ["\U{221A}"], format, sqrt) == SetError(t)
  {
    Step(s0, names, t, Sqrt, format, sqrt);
    SqrtPressedSpec(t, v, format, sqrt);
  }

  /** BIN on a whole displayed long shows its sign and binary numeral. */
  lemma BinaryStep(s0: State, names: seq<string>, t: State, v: int, format: real -> string, sqrt: real -> real)
    requires PressAll(s0, names, format, sqrt) == t && !t.errorState && Parse(t.display) == Some(v as real) && IsLong(v)
    ensures PressAll(s0, names + ["BIN"], format, sqrt).display == (if v < 0 then "-" else "") + Numeral(Abs(v), 2)
  {
    Step(s0, names, t, Bin, format, sqrt);
    BinaryShows(t, v);
  }

  lemma BinaryShows(t: State, v: int)
    requires Parse(t.display) == Some(v as real) && IsLong(v)
    ensures BinaryPressed(t).display == (if v < 0 then "-" else "") + Numeral(Abs(v), 2)
  {
    BinaryPressedSpec(t, v as real);
    BinaryTextOfLong(v);
  }

  /** BIN on a display that is not a whole number sets the error. */
  lemma NotWholeStep(s0: State, names: seq<string>, t: State, v: real, format: real -> string, sqrt: real -> real)
    requires PressAll(s0, names, format, sqrt) == t && !t.errorState && Parse(t.display) == Some(v)
    requires v != v.Floor as real
    ensures PressAll(s0, names + ["BIN"], format, sqrt) == SetError(t)
  {
    Step(s0, names, t, Bin, format, sqrt);
    BinaryPressedSpec(t, v);
  }

  // ---------------------------------------------------------------------------------------------
  // Entries typed from start-up
  // ---------------------------------------------------------------------------------------------

  /** Digits typed from start-up show without leading zeros and read back as their decimal value. */
  lemma TypedNumber(keys: seq<string>, ds: string, format: real -> string, sqrt: real -> real)
    requires IsNumeral(ds, 10) && |ds| > 0 && keys == DigitLabels(ds)
    ensures PressAll(Cleared(), keys, format, sqrt) == Typed(SuppressLeadingZeros(ds))
    ensures Parse(SuppressLeadingZeros(ds)) == Some(ValueOf(ds, 10) as real)
  {
    TypedDigits(Cleared(), ds, format, sqrt);
    TypedValue(ds);
  }

  /** A one-digit display reads as the digit's value. */
  lemma ParseDigit(d: char)
    requires IsDigit(d)
    ensures Parse([d]) == Some(DigitValue(d) as real)
  {
    TypedValue([d]);
  }

  /** "-" on the start-up display and then a digit show that digit negated. */
  lemma MinusDigit(keys: seq<string>, d: char, format: real -> string, sqrt: real -> real)
    requires IsDigit(d) && keys == ["-", [d]]
    ensures PressAll(Cleared(), keys, format, sqrt) == Typed(['-', d])
    ensures Parse(['-', d]) == Some(-(DigitValue(d) as real))
  {
    LeadingMinus(Cleared(), format, sqrt);
    PressAllSingle(Cleared(), "-", format, sqrt);
    assert keys[..1] == ["-"];
    DigitStep(Cleared(), keys[..1], Typed("-"), d, format, sqrt);
    assert keys == keys[..1] + [[d]];
    ParseInteger(true, [d]);
    assert SignText(true) + [d] == ['-', d];
  }

  /** "0 0 7" shows "7": zeros typed on a display of "0" are not kept. */
  lemma LeadingZerosExample(keys: seq<string>, format: real -> string, sqrt: real -> real)
    requires keys == ["0", "0", "7"]
    ensures PressAll(Cleared(), keys, format, sqrt).display == "7"
  {
    assert DigitLabels("007") == keys;
    TypedDigits(Cleared(), "007", format, sqrt);
    assert SuppressLeadingZeros("007") == "7";
  }

  /** "- 5 =" with nothing pending keeps the negative entry on display and raises no error. */
  lemma NegativeEntryExample(keys: seq<string>, format: real -> string, sqrt: real -> real)
    requires keys == ["-", "5", "="]
    ensures var r := PressAll(Cleared(), keys, format, sqrt);
      r.display == "-5" && !r.errorState && Parse(r.display) == Some(-5.0)
  {
    MinusDigit(keys[..2], '5', format, sqrt);
    IdleEqualsStep(Cleared(), keys[..2], Typed("-5"), -5.0, format, sqrt);
    assert keys == keys[..2] + ["="];
  }

  // ---------------------------------------------------------------------------------------------
  // Chaining and repeated "="
  // ---------------------------------------------------------------------------------------------

  /** "2 + 3 * 4 =" is (2 + 3) * 4: the display shows 20, not 14, whatever the formatter. */
  lemma ChainExample(keys: seq<string>, format: real -> string, sqrt: real -> real)
    requires keys == ["2", "+", "3", "*", "4", "="]
    ensures PressAll(Cleared(), keys, format, sqrt).display == FormatNumber(format, 20.0)
  {
    assert keys == ["2"] + ([OpLabel(Add)] + DigitLabels("3") + [OpLabel(Mul)] + DigitLabels("4") + ["="]);
    ChainDigits(keys, "2", "3", "4", format, sqrt);
  }

  lemma ChainDigits(keys: seq<string>, xs: string, ys: string, zs: string, format: real -> string, sqrt: real -> real)
    requires xs == "2" && ys == "3" && zs == "4"
    requires keys == DigitLabels(xs) + ([OpLabel(Add)] + DigitLabels(ys) + [OpLabel(Mul)] + DigitLabels(zs) + ["="])
    ensures PressAll(Cleared(), keys, format, sqrt).display == FormatNumber(format, 20.0)
  {
    TypedNumber(DigitLabels(xs), xs, format, sqrt);
    assert ValueOf(xs, 10) == 2 && ValueOf(ys, 10) == 3 && ValueOf(zs, 10) == 4;
    ChainLeftToRight(Typed(xs), 2.0, Add, ys, Mul, zs, format, sqrt);
    PressAllAppend(Cleared(), DigitLabels(xs), keys[|xs|..], format, sqrt);
    assert keys == DigitLabels(xs) + keys[|xs|..];
  }

  /** The decimal formatter prints a whole number as its plain decimal numeral. */
  lemma WholeText(k: nat, text: string)
    requires text == Numeral(k, 10)
    ensures FormatNumber(Format, k as real) == text
  {
    FormatWhole(k);
    NumeralShape(k, 10);
  }

  /** With the decimal formatter the chained result reads "20". */
  lemma ChainExampleText(keys: seq<string>, sqrt: real -> real)
    requires keys == ["2", "+", "3", "*", "4", "="]
    ensures PressAll(Cleared(), keys, Format, sqrt).display == "20"
  {
    ChainExample(keys, Format, sqrt);
    assert Numeral(20, 10) == "20" by {
      assert Numeral(2, 10) == "2";
    }
    WholeText(20, "20");
  }

  /** After "5 + 3" the 5 waits as the left operand of a pending addition and 3 is on display. */
  lemma FivePlusThree(keys: seq<string>, format: real -> string, sqrt: real -> real)
    requires keys == ["5", "+", "3"]
    ensures PressAll(Cleared(), keys, format, sqrt) == Typed("3").(currentValue := 5.0, currentOperator := Some(Add))
  {
    TypedNumber(keys[..1], "5", format, sqrt);
    OperatorStep(Cleared(), keys[..1], Typed("5"), Add, 5.0, format, sqrt);
    assert keys[..2] == keys[..1] + ["+"];
    var s2 := Typed("5").(currentValue := 5.0, currentOperator := Some(Add), enteringNewNumber := true);
    DigitStep(Cleared(), keys[..2], s2, '3', format, sqrt);
    assert keys == keys[..2] + ["3"];
  }

  /** The state "5 + 3 =" leaves: 8 computed and shown, and "+ 3" remembered. */
  function AfterEquals(format: real -> string): State {
    Typed("3").(currentValue := 8.0, display := FormatNumber(format, 8.0), currentOperator := None,
                enteringNewNumber := true, lastOperator := Some(Add), lastOperand := 3.0)
  }

  /** "5 + 3 =" shows 8, whatever the formatter makes of it, and remembers "+ 3". */
  lemma EqualsExample(keys: seq<string>, format: real -> string, sqrt: real -> real)
    requires keys == ["5", "+", "3", "="]
    ensures PressAll(Cleared(), keys, format, sqrt) == AfterEquals(format)
    ensures PressAll(Cleared(), keys, format, sqrt).display == FormatNumber(format, 8.0)
  {
    var s3 := Typed("3").(currentValue := 5.0, currentOperator := Some(Add));
    FivePlusThree(keys[..3], format, sqrt);
    ParseDigit('3');
    EqualsStep(Cleared(), keys[..3], s3, 3.0, format, sqrt);
    assert keys == keys[..3] + ["="];
  }

  /** With the decimal formatter "5 + 3 =" reads "8". */
  lemma EqualsExampleText(keys: seq<string>, sqrt: real -> real)
    requires keys == ["5", "+", "3", "="]
    ensures PressAll(Cleared(), keys, Format, sqrt).display == "8"
  {
    EqualsExample(keys, Format, sqrt);
    WholeText(8, "8");
  }

  /** A second "=" after "5 + 3 =" reads the 8 back from the display, adds 3 again and shows 11. */
  lemma RepeatEqualsExample(keys: seq<string>, sqrt: real -> real)
    requires keys == ["5", "+", "3", "=", "="]
    ensures PressAll(Cleared(), keys, Format, sqrt).display == "11"
  {
    EqualsExample(keys[..4], Format, sqrt);
    FormatNumberRoundTrip(8.0);
    EightIsExact();
    RepeatStep(Cleared(), keys[..4], AfterEquals(Format), 8.0, Format, sqrt);
    assert keys == keys[..4] + ["="];
    ElevenText();
  }

  lemma ElevenText()
    ensures FormatNumber(Format, 11.0) == "11"
  {
    assert Numeral(11, 10) == "11" by {
      assert Numeral(1, 10) == "1";
    }
    WholeText(11, "11");
  }

  lemma EightIsExact()
    ensures Rounded(8.0) == 8.0
  {
    RoundedExact(8 * SCALE);
    assert 8.0 == (8 * SCALE) as real / SCALE as real;
  }

  // ---------------------------------------------------------------------------------------------
  // Errors
  // ---------------------------------------------------------------------------------------------

  /** After "7 / 0" a division by zero is pending. */
  lemma SevenOverZero(keys: seq<string>, format: real -> string, sqrt: real -> real)
    requires keys == ["7", "/", "0"]
    ensures PressAll(Cleared(), keys, format, sqrt) == Typed("0").(currentValue := 7.0, currentOperator := Some(Div))
  {
    TypedNumber(keys[..1], "7", format, sqrt);
    OperatorStep(Cleared(), keys[..1], Typed("7"), Div, 7.0, format, sqrt);
    assert keys[..2] == keys[..1] + ["/"];
    var s2 := Typed("7").(currentValue := 7.0, currentOperator := Some(Div), enteringNewNumber := true);
    DigitStep(Cleared(), keys[..2], s2, '0', format, sqrt);
    assert keys == keys[..2] + ["0"];
  }

  /** "7 / 0 =" shows "Error" and sets the latch; the stored 7 is kept. */
  lemma DivisionByZeroExample(keys: seq<string>, format: real -> string, sqrt: real -> real)
    requires keys == ["7", "/", "0", "="]
    ensures PressAll(Cleared(), keys, format, sqrt) == SetError(Typed("0").(currentValue := 7.0, currentOperator := Some(Div)))
    ensures var r := PressAll(Cleared(), keys, format, sqrt);
      r.display == "Error" && r.errorState && r.currentValue == 7.0 && r.currentOperator.None?
  {
    var s3 := Typed("0").(currentValue := 7.0, currentOperator := Some(Div));
    SevenOverZero(keys[..3], format, sqrt);
    ParseZero();
    DivideByZeroStep(Cleared(), keys[..3], s3, format, sqrt);
    assert keys == keys[..3] + ["="];
  }

  /** After "7 / 0 =" a further digit changes nothing, and only "C" brings back the start-up state. */
  lemma ErrorLatchExample(keys: seq<string>, format: real -> string, sqrt: real -> real)
    requires keys == ["7", "/", "0", "="]
    ensures PressAll(Cleared(), keys + ["8"], format, sqrt) == PressAll(Cleared(), keys, format, sqrt)
    ensures PressAll(Cleared(), keys + ["C"], format, sqrt) == Cleared()
  {
    DivisionByZeroExample(keys, format, sqrt);
    var r := PressAll(Cleared(), keys, format, sqrt);
    PressAllAppend(Cleared(), keys, ["8"], format, sqrt);
    PressAllSingle(r, "8", format, sqrt);
    ErrorLatch(r, "8", format, sqrt);
    PressAllAppend(Cleared(), keys, ["C"], format, sqrt);
    PressAllSingle(r, "C", format, sqrt);
  }

  /** "- 4 √": the square root of a negative entry shows the same "Error" as a division by zero. */
  lemma NegativeRootExample(keys: seq<string>, format: real -> string, sqrt: real -> real)
    requires keys == ["-", "4", "\U{221A}"]
    ensures var r := PressAll(Cleared(), keys, format, sqrt);
      r.display == "Error" && r.errorState
  {
    MinusDigit(keys[..2], '4', format, sqrt);
    NegativeRootStep(Cleared(), keys[..2], Typed("-4"), -4.0, format, sqrt);
    assert keys == keys[..2] + ["\U{221A}"];
  }

  // ---------------------------------------------------------------------------------------------
  // BIN
  // ---------------------------------------------------------------------------------------------

  /** "1 0" from start-up shows 10. */
  lemma TypedTen(keys: seq<string>, format: real -> string, sqrt: real -> real)
    requires keys == ["1", "0"]
    ensures PressAll(Cleared(), keys, format, sqrt) == Typed("10")
    ensures Parse("10") == Some(10.0)
  {
    assert keys == DigitLabels("10");
    TypedNumber(keys, "10", format, sqrt);
    assert SuppressLeadingZeros("10") == "10" && ValueOf("10", 10) == 10;
  }

  /** "1 0 BIN" shows 1010. */
  lemma BinaryExample(keys: seq<string>, format: real -> string, sqrt: real -> real)
    requires keys == ["1", "0", "BIN"]
    ensures PressAll(Cleared(), keys, format, sqrt).display == "1010"
  {
    TypedTen(keys[..2], format, sqrt);
    BinaryStep(Cleared(), keys[..2], Typed("10"), 10, format, sqrt);
    assert keys == keys[..2] + ["BIN"];
    assert Numeral(10, 2) == "1010";
  }

  /** "- 5 BIN" shows the sign and the binary numeral of the magnitude, -101. */
  lemma NegativeBinaryExample(keys: seq<string>, format: real -> string, sqrt: real -> real)
    requires keys == ["-", "5", "BIN"]
    ensures PressAll(Cleared(), keys, format, sqrt).display == "-101"
  {
    MinusDigit(keys[..2], '5', format, sqrt);
    BinaryStep(Cleared(), keys[..2], Typed("-5"), -5, format, sqrt);
    assert keys == keys[..2] + ["BIN"];
    assert Numeral(5, 2) == "101";
  }

  /** Typing "2 . 5" from start-up shows 2.5. */
  lemma TwoPointFive(keys: seq<string>, format: real -> string, sqrt: real -> real)
    requires keys == ["2", ".", "5"]
    ensures PressAll(Cleared(), keys, format, sqrt) == Typed("2.5")
  {
    TypedNumber(keys[..1], "2", format, sqrt);
    DotStep(Cleared(), keys[..1], Typed("2"), format, sqrt);
    assert keys[..2] == keys[..1] + ["."];
    DigitStep(Cleared(), keys[..2], Typed("2."), '5', format, sqrt);
    assert keys == keys[..2] + ["5"];
  }

  /** "2 . 5 BIN": a value with a fractional part has no binary form and shows "Error". */
  lemma FractionalBinaryExample(keys: seq<string>, format: real -> string, sqrt: real -> real)
    requires keys == ["2", ".", "5", "BIN"]
    ensures var r := PressAll(Cleared(), keys, format, sqrt);
      r.display == "Error" && r.errorState
  {
    TwoPointFive(keys[..3], format, sqrt);
    ParseTwoPointFive();
    assert 2.5.Floor == 2;
    NotWholeStep(Cleared(), keys[..3], Typed("2.5"), 2.5, format, sqrt);
    assert keys == keys[..3] + ["BIN"];
  }

  lemma ParseTwoPointFive()
    ensures Parse("2.5") == Some(2.5)
  {
    ParseHalves("2", "5");
    assert "2" + "." + "5" == "2.5";
  }

  lemma ParseHalves(whole: string, frac: string)
    requires whole == "2" && frac == "5"
    ensures Parse(whole + "." + frac) == Some(2.5)
  {
    ParseDecimal(false, whole, frac);
    assert SignText(false) + (whole + "." + frac) == whole + "." + frac;
    assert ValueOf(whole, 10) == 2 && ValueOf(frac, 10) == 5 && Pow(10, |frac|) == 10;
  }
}
