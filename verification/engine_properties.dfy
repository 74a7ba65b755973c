/** What the calculator promises, stated and proved about the step functions of `Engine`. */
module EngineProperties {
  import opened Wrappers
  import opened Numerals
  import opened Keypad
  import opened Binary
  import opened Formatting
  import opened Engine

  // ---------------------------------------------------------------------------------------------
  // onButtonPressed: the error latch, clearing, the leading minus and the routing of labels
  // ---------------------------------------------------------------------------------------------

  /** While the error latch is set, every label but "C" leaves the whole state, display included, as it is. */
  lemma ErrorLatch(s: State, name: string, format: real -> string, sqrt: real -> real)
    requires s.errorState && name != "C"
    ensures Press(s, name, format, sqrt) == s
  {
  }

  /** "C" works in every state, the error state included, and resets every field. */
  lemma ClearResets(s: State, format: real -> string, sqrt: real -> real)
    ensures var c := Press(s, "C", format, sqrt);
      && c.display == "0" && c.currentValue == 0.0 && c.lastOperand == 0.0
      && c.currentOperator.None? && c.lastOperator.None?
      && c.enteringNewNumber && !c.errorState
  {
  }

  /**
    "-" on a fresh "0" starts a negative entry and touches nothing but the display and the entry flag;
    in every other state without error it is the subtraction operator.
   */
  lemma LeadingMinus(s: State, format: real -> string, sqrt: real -> real)
    requires !s.errorState
    ensures s.enteringNewNumber && s.display == "0" ==>
      Press(s, "-", format, sqrt) == s.(display := "-", enteringNewNumber := false)
    ensures !(s.enteringNewNumber && s.display == "0") ==>
      Press(s, "-", format, sqrt) == OperatorPressed(s, Sub, format)
  {
  }

  /** Outside the error state and the leading-minus case, a button's label runs exactly that button's handler. */
  lemma PressRoutes(s: State, k: Key, format: real -> string, sqrt: real -> real)
    requires IsKey(k) && !s.errorState
    requires !(k == Operator(Sub) && s.enteringNewNumber && s.display == "0")
    ensures Press(s, Label(k), format, sqrt) == Dispatch(s, k, format, sqrt)
  {
    KeyOfLabel(k);
  }

  /** A label that is on no button changes nothing. */
  lemma UnknownLabelIgnored(s: State, name: string, format: real -> string, sqrt: real -> real)
    requires KeyOf(name).None?
    ensures Press(s, name, format, sqrt) == s
  {
  }

  // ---------------------------------------------------------------------------------------------
  // Editing the entry: appendDigit, appendDot, backspace
  // ---------------------------------------------------------------------------------------------

  /**
    A digit starts a new entry, replaces a lone "0" or is appended at the end; afterwards an entry is being
    typed, and no other field changes.
   */
  lemma AppendDigitSpec(s: State, digit: char)
    ensures var r := AppendDigit(s, digit);
      && !r.enteringNewNumber
      && (s.enteringNewNumber || s.display == "0" ==> r.display == [digit])
      && (!s.enteringNewNumber && s.display != "0" ==> r.display == s.display + [digit])
      && r.(display := s.display, enteringNewNumber := s.enteringNewNumber) == s
  {
  }

  /**
    "." starts a fresh entry as "0."; otherwise it is appended only when the entry has no '.' yet. Nothing
    else changes.
   */
  lemma AppendDotSpec(s: State)
    ensures var r := AppendDot(s);
      && !r.enteringNewNumber
      && (s.enteringNewNumber ==> r.display == "0.")
      && (!s.enteringNewNumber && '.' !in s.display ==> r.display == s.display + ".")
      && (!s.enteringNewNumber && '.' in s.display ==> r == s)
      && r.(display := s.display, enteringNewNumber := s.enteringNewNumber) == s
  {
  }

  /** A second "." right after a first changes nothing. */
  lemma AppendDotIdempotent(s: State)
    ensures AppendDot(AppendDot(s)) == AppendDot(s)
  {
  }

  /**
    Backspace does nothing on a fresh entry; it turns a one-character entry into a fresh "0" and otherwise
    removes exactly the last character.
   */
  lemma BackspaceSpec(s: State)
    ensures s.enteringNewNumber ==> Backspace(s) == s
    ensures !s.enteringNewNumber && |s.display| <= 1 ==> Backspace(s) == s.(display := "0", enteringNewNumber := true)
    ensures !s.enteringNewNumber && |s.display| > 1 ==>
      && Backspace(s).display + [s.display[|s.display| - 1]] == s.display
      && Backspace(s) == s.(display := Backspace(s).display)
  {
  }

  // ---------------------------------------------------------------------------------------------
  // Binary operators: operatorPressed, equalsPressed, applyOperation
  // ---------------------------------------------------------------------------------------------

  /** An error leaves the value, the repeat-`=` memory and the entry flag as they were. */
  lemma SetErrorSpec(s: State)
    ensures var r := SetError(s);
      && r.display == "Error" && r.errorState && r.currentOperator.None?
      && r.currentValue == s.currentValue && r.lastOperator == s.lastOperator && r.lastOperand == s.lastOperand
      && r.enteringNewNumber == s.enteringNewNumber
  {
  }

  /**
    An operator stores the displayed value when nothing is pending; otherwise it first applies the pending
    operator to the stored value and the displayed one, even when no new digit was typed. Either way the new
    operator becomes pending and the next digit starts a new entry.
   */
  lemma OperatorPressedSpec(s: State, op: Op, x: real, format: real -> string)
    requires Parse(s.display) == Some(x)
    ensures s.currentOperator.None? ==>
      OperatorPressed(s, op, format) == s.(currentValue := x, currentOperator := Some(op), enteringNewNumber := true)
    ensures s.currentOperator.Some? && Apply(s.currentOperator.value, s.currentValue, x).Some? ==>
      var v := Apply(s.currentOperator.value, s.currentValue, x).value;
      OperatorPressed(s, op, format)
        == s.(currentValue := v, display := FormatNumber(format, v), currentOperator := Some(op), enteringNewNumber := true)
    ensures s.currentOperator == Some(Div) && x == 0.0 ==> OperatorPressed(s, op, format) == SetError(s)
  {
  }

  /**
    "=" completes the pending operation and remembers its operator and right operand; with nothing pending it
    repeats the remembered operation on the displayed value; with neither it does nothing. A zero divisor sets
    the error before anything is remembered.
   */
  lemma EqualsPressedSpec(s: State, x: real, format: real -> string)
    requires Parse(s.display) == Some(x)
    ensures s.currentOperator.Some? && Apply(s.currentOperator.value, s.currentValue, x).Some? ==>
      var v := Apply(s.currentOperator.value, s.currentValue, x).value;
      EqualsPressed(s, format)
        == s.(currentValue := v, display := FormatNumber(format, v), currentOperator := None, enteringNewNumber := true,
              lastOperator := s.currentOperator, lastOperand := x)
    ensures s.currentOperator == Some(Div) && x == 0.0 ==>
      && EqualsPressed(s, format) == SetError(s)
      && EqualsPressed(s, format).lastOperator == s.lastOperator
      && EqualsPressed(s, format).lastOperand == s.lastOperand
    ensures s.currentOperator.None? && s.lastOperator.Some? && Apply(s.lastOperator.value, x, s.lastOperand).Some? ==>
      var v := Apply(s.lastOperator.value, x, s.lastOperand).value;
      EqualsPressed(s, format) == s.(currentValue := v, display := FormatNumber(format, v), enteringNewNumber := true)
    ensures s.currentOperator.None? && s.lastOperator.None? ==> EqualsPressed(s, format) == s
  {
  }

  /** A display that is not a number makes every operator, "=", √, x² and BIN set the error. */
  lemma UnparsableDisplay(s: State, op: Op, format: real -> string, sqrt: real -> real)
    requires Parse(s.display).None?
    ensures OperatorPressed(s, op, format) == SetError(s)
    ensures EqualsPressed(s, format) == SetError(s)
    ensures SqrtPressed(s, format, sqrt) == SetError(s)
    ensures SquarePressed(s, format) == SetError(s)
    ensures BinaryPressed(s) == SetError(s)
  {
  }

  /** A repeated "=" never divides by zero: a remembered division always has a non-zero operand. */
  lemma RepeatedDivisionIsSafe(s: State, x: real, format: real -> string)
    requires Inv(s) && !s.errorState && s.currentOperator.None? && s.lastOperator.Some?
    requires Parse(s.display) == Some(x)
    ensures !EqualsPressed(s, format).errorState
  {
  }

  // ---------------------------------------------------------------------------------------------
  // Unary keys: sqrtPressed, squarePressed, binaryPressed
  // ---------------------------------------------------------------------------------------------

  /** √ of a negative value is an error; otherwise only the display and the entry flag change. */
  lemma SqrtPressedSpec(s: State, v: real, format: real -> string, sqrt: real -> real)
    requires Parse(s.display) == Some(v)
    ensures v < 0.0 ==> SqrtPressed(s, format, sqrt) == SetError(s)
    ensures v >= 0.0 ==> SqrtPressed(s, format, sqrt) == s.(display := FormatNumber(format, sqrt(v)), enteringNewNumber := true)
  {
  }

  /** x² shows the square of the displayed value; only the display and the entry flag change. */
  lemma SquarePressedSpec(s: State, v: real, format: real -> string)
    requires Parse(s.display) == Some(v)
    ensures SquarePressed(s, format) == s.(display := FormatNumber(format, Squared(v)), enteringNewNumber := true)
  {
  }

  /**
    BIN of a value that is not whole is an error. BIN of a whole value `n` in the long range shows '-'
    exactly when `n` is negative, followed by base-2 digits that read back as the magnitude of `n`; only
    the display and the entry flag change.
   */
  lemma BinaryPressedSpec(s: State, v: real)
    requires Parse(s.display) == Some(v)
    ensures v != v.Floor as real ==> BinaryPressed(s) == SetError(s)
    ensures v == v.Floor as real ==> BinaryPressed(s) == s.(display := BinaryText(v.Floor), enteringNewNumber := true)
    ensures v == v.Floor as real && IsLong(v.Floor) ==>
      var t := BinaryPressed(s).display;
      && |t| > 0
      && (t[0] == '-' <==> v < 0.0)
      && var digits := if v < 0.0 then t[1..] else t;
         IsNumeral(digits, 2) && ValueOf(digits, 2) == Abs(v.Floor)
  {
    if v == v.Floor as real && IsLong(v.Floor) {
      BinaryTextRoundTrip(v.Floor);
    }
  }

  // ---------------------------------------------------------------------------------------------
  // The invariant
  // ---------------------------------------------------------------------------------------------

  lemma ClearedInv()
    ensures Inv(Cleared())
  {
  }

  /** Every button keeps the invariant. */
  lemma PressKeepsInv(s: State, name: string, format: real -> string, sqrt: real -> real)
    requires Inv(s)
    ensures Inv(Press(s, name, format, sqrt))
  {
    if s.errorState && name != "C" {
    } else if name == "-" && s.enteringNewNumber && s.display == "0" {
      assert IsEntry("-");
    } else if KeyOf(name).Some? {
      DispatchKeepsInv(s, KeyOf(name).value, format, sqrt);
    }
  }

  lemma DispatchKeepsInv(s: State, k: Key, format: real -> string, sqrt: real -> real)
    requires Inv(s) && IsKey(k) && (s.errorState ==> k == Clear)
    ensures Inv(Dispatch(s, k, format, sqrt))
  {
    match k
    case Digit(d) => AppendDigitKeepsInv(s, d);
    case Dot => AppendDotKeepsInv(s);
    case Back => BackspaceKeepsInv(s);
    case Operator(op) => OperatorKeepsInv(s, op, format);
    case Equals => EqualsKeepsInv(s, format);
    case Clear =>
    case Sqrt => UnaryKeepsInv(s, format, sqrt);
    case Square => UnaryKeepsInv(s, format, sqrt);
    case Bin => UnaryKeepsInv(s, format, sqrt);
  }

  lemma AppendDigitKeepsInv(s: State, d: char)
    requires Inv(s) && !s.errorState && IsDigit(d)
    ensures Inv(AppendDigit(s, d))
  {
    if s.enteringNewNumber || s.display == "0" {
      assert IsEntry([d]);
    } else {
      EntryAppendDigit(s.display, d);
    }
  }

  lemma AppendDotKeepsInv(s: State)
    requires Inv(s) && !s.errorState
    ensures Inv(AppendDot(s))
  {
    if s.enteringNewNumber {
      assert IsEntry("0.");
    } else if '.' !in s.display {
      EntryAppendDot(s.display);
    }
  }

  lemma BackspaceKeepsInv(s: State)
    requires Inv(s) && !s.errorState
    ensures Inv(Backspace(s))
  {
    if !s.enteringNewNumber && |s.display| > 1 {
      EntryDropLast(s.display);
    }
  }

  lemma OperatorKeepsInv(s: State, op: Op, format: real -> string)
    requires Inv(s) && !s.errorState
    ensures Inv(OperatorPressed(s, op, format))
  {
    var r := OperatorPressed(s, op, format);
    assert r.lastOperator == s.lastOperator && r.lastOperand == s.lastOperand;
    assert r.errorState ==> r == SetError(s);
    assert !r.errorState ==> r.enteringNewNumber;
  }

  lemma EqualsKeepsInv(s: State, format: real -> string)
    requires Inv(s) && !s.errorState
    ensures Inv(EqualsPressed(s, format))
  {
    var r := EqualsPressed(s, format);
    assert r.errorState ==> r == SetError(s);
    assert r != s && !r.errorState ==> r.enteringNewNumber;
    assert r.lastOperator != s.lastOperator ==> r.lastOperator == s.currentOperator && Parse(s.display) == Some(r.lastOperand);
  }

  lemma UnaryKeepsInv(s: State, format: real -> string, sqrt: real -> real)
    requires Inv(s) && !s.errorState
    ensures Inv(SqrtPressed(s, format, sqrt))
    ensures Inv(SquarePressed(s, format))
    ensures Inv(BinaryPressed(s))
  {
  }

  /** Every state reached from start-up by any sequence of button presses satisfies the invariant. */
  lemma {:induction false} ReachableInv(names: seq<string>, format: real -> string, sqrt: real -> real)
    ensures Inv(PressAll(Cleared(), names, format, sqrt))
  {
    if names == [] {
      ClearedInv();
    } else {
      ReachableInv(names[..|names| - 1], format, sqrt);
      PressKeepsInv(PressAll(Cleared(), names[..|names| - 1], format, sqrt), names[|names| - 1], format, sqrt);
    }
  }
}
