/**
  The calculator's state machine as values: the seven fields of the calculator as one record, one step
  function per button handler, and `Press`, which routes a button label to its handler. The class
  `Taschenrechner.Calculator` performs the same steps in place and is proved to agree with these functions.
 */
module Engine {
  import opened Wrappers
  import opened Numerals
  import opened Keypad
  import opened Binary
  import opened Formatting

  /** The four binary operators, held as "+", "-", "*" and "/" by the calculator. */
  datatype Op = Add | Sub | Mul | Div

  /** The buttons of the keypad. */
  datatype Key =
    | Digit(d: char)
    | Dot
    | Operator(op: Op)
    | Equals
    | Clear
    | Back
    | Sqrt
    | Square
    | Bin

  /**
    The calculator's fields: the display text, the left operand `currentValue` of the pending operator
    `currentOperator`, whether the next digit starts a new entry, the error latch, and the operator and
    right operand of the last completed `=`, which a further `=` repeats.
   */
  datatype State = State(
    display: string,
    currentValue: real,
    currentOperator: Option<Op>,
    enteringNewNumber: bool,
    errorState: bool,
    lastOperator: Option<Op>,
    lastOperand: real)

  /**
    What holds in every state the calculator reaches: the error latch shows "Error" and has no pending
    operator; an entry being typed is a well-formed entry (so never two dots); the repeat-`=` operand is
    0 until a `=` has completed, and never 0 for a repeated division.
   */
  predicate Inv(s: State) {
    && (s.errorState ==> s.display == "Error" && s.currentOperator.None?)
    && (!s.errorState && !s.enteringNewNumber ==> IsEntry(s.display))
    && (s.lastOperator.None? ==> s.lastOperand == 0.0)
    && (s.lastOperator == Some(Div) ==> s.lastOperand != 0.0)
  }

  /** The state at start-up, and the state `C` returns to. */
  function Cleared(): State {
    State("0", 0.0, None, true, false, None, 0.0)
  }

  function OpLabel(op: Op): string {
    match op
    case Add => "+"
    case Sub => "-"
    case Mul => "*"
    case Div => "/"
  }

  predicate IsKey(k: Key) {
    k.Digit? ==> IsDigit(k.d)
  }

  /** The label on the button. */
  function Label(k: Key): string {
    match k
    case Digit(d) => [d]
    case Dot => "."
    case Operator(op) => OpLabel(op)
    case Equals => "="
    case Clear => "C"
    case Back => "\U{2190}"
    case Sqrt => "\U{221A}"
    case Square => "x\U{00B2}"
    case Bin => "BIN"
  }

  /** The button a label names; labels of no button are ignored by the calculator. */
  function KeyOf(name: string): (k: Option<Key>)
    ensures k.Some? ==> IsKey(k.value) && Label(k.value) == name
  {
    if |name| == 1 && IsDigit(name[0]) then Some(Digit(name[0]))
    else if name == "." then Some(Dot)
    else if name == "+" then Some(Operator(Add))
    else if name == "-" then Some(Operator(Sub))
    else if name == "*" then Some(Operator(Mul))
    else if name == "/" then Some(Operator(Div))
    else if name == "=" then Some(Equals)
    else if name == "C" then Some(Clear)
    else if name == "\U{2190}" then Some(Back)
    else if name == "\U{221A}" then Some(Sqrt)
    else if name == "x\U{00B2}" then Some(Square)
    else if name == "BIN" then Some(Bin)
    else None
  }

  /** Every button is found again from its label. */
  lemma KeyOfLabel(k: Key)
    requires IsKey(k)
    ensures KeyOf(Label(k)) == Some(k)
  {
  }

  /** `applyOperation`: None stands for the exception thrown for a zero divisor. */
  function Apply(op: Op, a: real, b: real): (r: Option<real>)
    ensures r.None? <==> op == Div && b == 0.0
  {
    match op
    case Add => Some(a + b)
    case Sub => Some(a - b)
    case Mul => Some(a * b)
    case Div => if b == 0.0 then None else Some(a / b)
  }

  /** `setError`: whatever the message, the display shows "Error", the latch is set and the pending operator dropped. */
  function SetError(s: State): State {
    s.(display := "Error", errorState := true, currentOperator := None)
  }

  function AppendDigit(s: State, digit: char): State {
    if s.enteringNewNumber then s.(display := [digit], enteringNewNumber := false)
    else if s.display == "0" then s.(display := [digit])
    else s.(display := s.display + [digit])
  }

  function AppendDot(s: State): State {
    if s.enteringNewNumber then s.(display := "0.", enteringNewNumber := false)
    else if '.' !in s.display then s.(display := s.display + ".")
    else s
  }

  function Backspace(s: State): State {
    if s.enteringNewNumber then s
    else if |s.display| <= 1 then s.(display := "0", enteringNewNumber := true)
    else s.(display := s.display[..|s.display| - 1])
  }

  function OperatorPressed(s: State, op: Op, format: real -> string): State {
    match Parse(s.display)
    case None => SetError(s)
    case Some(displayed) =>
      if s.currentOperator.None? then
        s.(currentValue := displayed, currentOperator := Some(op), enteringNewNumber := true)
      else
        match Apply(s.currentOperator.value, s.currentValue, displayed)
        case None => SetError(s)
        case Some(r) =>
          s.(currentValue := r, display := FormatNumber(format, r), currentOperator := Some(op), enteringNewNumber := true)
  }

  function EqualsPressed(s: State, format: real -> string): State {
    match Parse(s.display)
    case None => SetError(s)
    case Some(displayed) =>
      if s.currentOperator.Some? then
        match Apply(s.currentOperator.value, s.currentValue, displayed)
        case None => SetError(s)
        case Some(r) =>
          s.(lastOperator := s.currentOperator, lastOperand := displayed, currentValue := r,
             display := FormatNumber(format, r), currentOperator := None, enteringNewNumber := true)
      else if s.lastOperator.Some? then
        match Apply(s.lastOperator.value, displayed, s.lastOperand)
        case None => SetError(s)
        case Some(r) => s.(currentValue := r, display := FormatNumber(format, r), enteringNewNumber := true)
      else
        s
  }

  function SqrtPressed(s: State, format: real -> string, sqrt: real -> real): State {
    match Parse(s.display)
    case None => SetError(s)
    case Some(v) =>
      if v < 0.0 then SetError(s)
      else s.(display := FormatNumber(format, sqrt(v)), enteringNewNumber := true)
  }

  /** x² multiplies the value by itself. */
  function Squared(v: real): (r: real)
    ensures r >= 0.0
  {
    v * v
  }

  function SquarePressed(s: State, format: real -> string): State {
    match Parse(s.display)
    case None => SetError(s)
    case Some(v) => s.(display := FormatNumber(format, Squared(v)), enteringNewNumber := true)
  }

  function BinaryPressed(s: State): State {
    match Parse(s.display)
    case None => SetError(s)
    case Some(v) =>
      if v != v.Floor as real then SetError(s)
      else s.(display := BinaryText(v.Floor), enteringNewNumber := true)
  }

  /** The handler a button calls. */
  function Dispatch(s: State, k: Key, format: real -> string, sqrt: real -> real): State {
    match k
    case Digit(d) => AppendDigit(s, d)
    case Dot => AppendDot(s)
    case Operator(op) => OperatorPressed(s, op, format)
    case Equals => EqualsPressed(s, format)
    case Clear => Cleared()
    case Back => Backspace(s)
    case Sqrt => SqrtPressed(s, format, sqrt)
    case Square => SquarePressed(s, format)
    case Bin => BinaryPressed(s)
  }

  /**
    `onButtonPressed`: while the error latch is set only "C" does anything; a "-" on a fresh "0" starts a
    negative entry; every other label goes to its handler, and a label of no button changes nothing.
   */
  function Press(s: State, name: string, format: real -> string, sqrt: real -> real): State {
    if s.errorState && name != "C" then s
    else if name == "-" && s.enteringNewNumber && s.display == "0" then s.(display := "-", enteringNewNumber := false)
    else
      match KeyOf(name)
      case None => s
      case Some(k) => Dispatch(s, k, format, sqrt)
  }

  /** The state after pressing the buttons labelled `names`, in order. */
  function PressAll(s: State, names: seq<string>, format: real -> string, sqrt: real -> real): State
    decreases |names|
  {
    if names == [] then s
    else Press(PressAll(s, names[..|names| - 1], format, sqrt), names[|names| - 1], format, sqrt)
  }
}
