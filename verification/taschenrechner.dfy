/**
  The calculator object: the display text and the six fields of arithmetic state, updated in place by one
  handler per button. Every handler is proved to move the fields exactly as the matching step function of
  `Engine` moves a `State`, so the properties proved about the step functions hold of the object.
 */
module Taschenrechner {
  import opened Wrappers
  import Keypad
  import Binary
  import Formatting
  import Engine
  import EngineProperties

  class Calculator {
    var display: string
    var currentValue: real
    var currentOperator: Option<Engine.Op>
    var enteringNewNumber: bool
    var errorState: bool
    var lastOperator: Option<Engine.Op>
    var lastOperand: real

    /** The decimal formatter and the square root, supplied by the environment. */
    const format: real -> string
    const sqrt: real -> real

    /** The fields read as one value of the abstract state. */
    ghost function State(): Engine.State
      reads this
    {
      Engine.State(display, currentValue, currentOperator, enteringNewNumber, errorState, lastOperator, lastOperand)
    }

    ghost predicate Valid()
      reads this
    {
      Engine.Inv(State())
    }

    /** A new calculator shows "0" with nothing stored, pending or remembered. */
    constructor (format: real -> string, sqrt: real -> real)
      ensures State() == Engine.Cleared() && Valid()
      ensures this.format == format && this.sqrt == sqrt
    {
      this.format := format;
      this.sqrt := sqrt;
      display := "0";
      currentValue := 0.0;
      currentOperator := None;
      enteringNewNumber := true;
      errorState := false;
      lastOperator := None;
      lastOperand := 0.0;
      new;
      EngineProperties.ClearedInv();
    }

    /** The single entry point of every button: the error latch, the leading minus, then the button's handler. */
    method OnButtonPressed(name: string)
      requires Valid()
      modifies this
      ensures Valid()
      ensures State() == Engine.Press(old(State()), name, format, sqrt)
    {
      EngineProperties.PressKeepsInv(State(), name, format, sqrt);
      if errorState && name != "C" {
        return;
      }
      if name == "-" && enteringNewNumber && display == "0" {
        display := "-";
        enteringNewNumber := false;
        return;
      }
      match Engine.KeyOf(name) {
        case None =>
        case Some(k) =>
          match k {
            case Digit(d) => AppendDigit(d);
            case Dot => AppendDot();
            case Operator(op) => OperatorPressed(op);
            case Equals => EqualsPressed();
            case Clear => ClearAll();
            case Back => Backspace();
            case Sqrt => SqrtPressed();
            case Square => SquarePressed();
            case Bin => BinaryPressed();
          }
      }
    }

    method AppendDigit(digit: char)
      modifies this
      ensures State() == Engine.AppendDigit(old(State()), digit)
    {
      if enteringNewNumber {
        display := [digit];
        enteringNewNumber := false;
      } else {
        var text := display;
        if text == "0" {
          display := [digit];
        } else {
          display := text + [digit];
        }
      }
    }

    method AppendDot()
      modifies this
      ensures State() == Engine.AppendDot(old(State()))
    {
      if enteringNewNumber {
        display := "0.";
        enteringNewNumber := false;
      } else if '.' !in display {
        display := display + ".";
      }
    }

    method Backspace()
      modifies this
      ensures State() == Engine.Backspace(old(State()))
    {
      if enteringNewNumber {
        return;
      }
      var s := display;
      if |s| <= 1 {
        display := "0";
        enteringNewNumber := true;
      } else {
        display := s[..|s| - 1];
      }
    }

    method ClearAll()
      modifies this
      ensures State() == Engine.Cleared()
    {
      currentValue := 0.0;
      lastOperator := None;
      lastOperand := 0.0;
      currentOperator := None;
      enteringNewNumber := true;
      errorState := false;
      display := "0";
    }

    method OperatorPressed(op: Engine.Op)
      modifies this
      ensures State() == Engine.OperatorPressed(old(State()), op, format)
    {
      var parsed := Keypad.Parse(display);
      if parsed.None? {
        SetError("Error");
        return;
      }
      var displayed := parsed.value;
      if currentOperator.None? {
        currentValue := displayed;
      } else {
        var result := Engine.Apply(currentOperator.value, currentValue, displayed);
        if result.None? {
          SetError("Error");
          return;
        }
        currentValue := result.value;
        display := Formatting.FormatNumber(format, currentValue);
      }
      currentOperator := Some(op);
      enteringNewNumber := true;
    }

    method EqualsPressed()
      modifies this
      ensures State() == Engine.EqualsPressed(old(State()), format)
    {
      var parsed := Keypad.Parse(display);
      if parsed.None? {
        SetError("Error");
        return;
      }
      var displayed := parsed.value;
      if currentOperator.Some? {
        var result := Engine.Apply(currentOperator.value, currentValue, displayed);
        if result.None? {
          SetError("Error");
          return;
        }
        lastOperator := currentOperator;
        lastOperand := displayed;
        currentValue := result.value;
        display := Formatting.FormatNumber(format, result.value);
        currentOperator := None;
        enteringNewNumber := true;
      } else if lastOperator.Some? {
        // the display is read a second time for the left operand of the repeat
        var reparsed := Keypad.Parse(display);
        var base := reparsed.value;
        var result := Engine.Apply(lastOperator.value, base, lastOperand);
        if result.None? {
          SetError("Error");
          return;
        }
        currentValue := result.value;
        display := Formatting.FormatNumber(format, result.value);
        enteringNewNumber := true;
      }
    }

    method SqrtPressed()
      modifies this
      ensures State() == Engine.SqrtPressed(old(State()), format, sqrt)
    {
      var parsed := Keypad.Parse(display);
      if parsed.None? {
        SetError("Error");
        return;
      }
      var v := parsed.value;
      if v < 0.0 {
        SetError("Invalid input");
        return;
      }
      display := Formatting.FormatNumber(format, sqrt(v));
      enteringNewNumber := true;
    }

    method SquarePressed()
      modifies this
      ensures State() == Engine.SquarePressed(old(State()), format)
    {
      var parsed := Keypad.Parse(display);
      if parsed.None? {
        SetError("Error");
        return;
      }
      var r := Engine.Squared(parsed.value);
      display := Formatting.FormatNumber(format, r);
      enteringNewNumber := true;
    }

    method BinaryPressed()
      modifies this
      ensures State() == Engine.BinaryPressed(old(State()))
    {
      var parsed := Keypad.Parse(display);
      if parsed.None? {
        SetError("Error");
        return;
      }
      var v := parsed.value;
      if v != v.Floor as real {
        SetError("Not integer");
        return;
      }
      var value := Binary.SaturatingLong(v.Floor);
      var bin := Binary.LongToBinaryString(Binary.LongAbs(value));
      if value < 0 {
        bin := "-" + bin;
      }
      display := bin;
      enteringNewNumber := true;
    }

    /** Every error shows the same marker, whatever message the caller passes. */
    method SetError(msg: string)
      modifies this
      ensures State() == Engine.SetError(old(State()))
    {
      display := "Error";
      errorState := true;
      currentOperator := None;
    }
  }
}
