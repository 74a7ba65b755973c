# Taschenrechner: a verified model of the calculator engine

`TaschenrechnerPruefung` is a Swing desktop calculator. Every button press sends the button's label to
`onButtonPressed`. That method applies the error latch and the leading-minus rule, then calls one handler
per button:

- `appendDigit`, `appendDot`, `backspace` and `clearAll` edit the entry.
- `operatorPressed` and `equalsPressed` evaluate left to right, with no precedence. `applyOperation` computes each operation.
- `sqrtPressed`, `squarePressed` and `binaryPressed` act on the displayed value.

Results go through `formatNumber`. Errors go through `setError`. The handlers share seven fields:

- the display text
- the stored left operand `currentValue`
- the pending operator
- the "next digit starts a new entry" flag
- the error latch
- the operator and operand of the last completed `=`, which a further `=` repeats

The model has three layers.

- `Engine` (engine.dfy) holds the seven fields as one `State` value. It has one step function per
  handler, `Press` for `onButtonPressed`, and `PressAll` for a sequence of presses.
- `Taschenrechner.Calculator` (taschenrechner.dfy) is the object itself. Its fields are updated in
  place by one method per handler. Each method is proved to move the fields exactly as the matching
  step function moves a `State`.
- The remaining modules state and prove what the handlers promise:
  - `EngineProperties`: one contract per handler, the invariant every reachable state keeps, and the
    error latch.
  - `KeySequences`: typing digits, left-to-right chaining, and repeated `=`.
  - `Scenarios`: concrete key sequences with the text they leave on the display.

The supporting modules model what the handlers call into.

- `Keypad` models `Double.parseDouble` on the texts the display can hold, as `Parse`. It also
  characterises the entries the keypad builds.
- `Formatting` models `formatNumber` and the `DecimalFormat("#.##########")` it uses:
  - a '.' separator
  - half-even rounding to ten fraction digits
  - no trailing zeros
  - ".5" for one half
  - "-0" for small negative values
- `Binary` models Java's `(long)` cast, `Math.abs` on a long and `Long.toBinaryString`, all with their
  64-bit behaviour.
- `Numerals` covers the digit strings in base 2 and 10.

Modelling choices:

- A `double` is a `real`. A `String` operator is the datatype `Op`, and a `null` operator is `None`.
- The exceptions become values:
  - `Parse` returns `None` where `parseDouble` throws.
  - `Apply` returns `None` where `applyOperation` throws on a zero divisor.
  - Each handler's `catch` becomes the branch that calls `SetError`.
- `Math.sqrt` and the number formatter are parameters of the engine (`sqrt`, `format`). The properties
  that depend on the printed text are proved for the concrete formatter `Formatting.Format`.
- `sqrtPressed` and `binaryPressed` pass "Invalid input" and "Not integer" to `setError`
  (src/TaschenrechnerPruefung.java:225, 255), but `setError` ignores its argument (lines 273-277), so
  the display always shows "Error". `Calculator.SetError` takes the message and drops it, and
  `NegativeRootExample` shows the same "Error" as a division by zero.
- BIN of a whole value outside the long range shows the binary text of the saturated long, as the
  `(long)` cast makes it. BIN of `Long.MIN_VALUE` shows "-1" followed by 63 zeros, because
  `Long.toBinaryString` reads the still-negative `Math.abs` result as unsigned. Both are modelled, not
  excluded.

## Model

| member | source | states |
|---|---|---|
| Taschenrechner.Calculator.constructor | src/TaschenrechnerPruefung.java:7-15 | a new calculator shows "0", stores 0, has no pending or remembered operator, no error, and expects a new entry; the invariant holds |
| Taschenrechner.Calculator.OnButtonPressed | src/TaschenrechnerPruefung.java:65-118 | the fields change exactly as `Engine.Press` prescribes for the label, and the invariant is kept |
| Taschenrechner.Calculator.AppendDigit | src/TaschenrechnerPruefung.java:120-129 | the fields change exactly as `Engine.AppendDigit` prescribes |
| Taschenrechner.Calculator.AppendDot | src/TaschenrechnerPruefung.java:131-138 | the fields change exactly as `Engine.AppendDot` prescribes |
| Taschenrechner.Calculator.Backspace | src/TaschenrechnerPruefung.java:140-149 | the fields change exactly as `Engine.Backspace` prescribes |
| Taschenrechner.Calculator.ClearAll | src/TaschenrechnerPruefung.java:151-159 | every field returns to its start-up value |
| Taschenrechner.Calculator.OperatorPressed | src/TaschenrechnerPruefung.java:161-177 | the fields change exactly as `Engine.OperatorPressed` prescribes |
| Taschenrechner.Calculator.EqualsPressed | src/TaschenrechnerPruefung.java:179-206 | the fields change exactly as `Engine.EqualsPressed` prescribes, including the second read of the display for a repeat |
| Taschenrechner.Calculator.SqrtPressed | src/TaschenrechnerPruefung.java:221-235 | the fields change exactly as `Engine.SqrtPressed` prescribes |
| Taschenrechner.Calculator.SquarePressed | src/TaschenrechnerPruefung.java:237-247 | the fields change exactly as `Engine.SquarePressed` prescribes |
| Taschenrechner.Calculator.BinaryPressed | src/TaschenrechnerPruefung.java:249-270 | the fields change exactly as `Engine.BinaryPressed` prescribes, through the long cast, `Math.abs` and `toBinaryString` |
| Taschenrechner.Calculator.SetError | src/TaschenrechnerPruefung.java:273-277 | whatever the message, the display shows "Error", the latch is set and the pending operator is dropped; nothing else changes |
| Engine.KeyOf | src/TaschenrechnerPruefung.java:77-117 | a label that selects a handler names a keypad button whose label it is |
| Engine.KeyOfLabel | src/TaschenrechnerPruefung.java:77-117 | every button's label selects that button's handler |
| Engine.Apply | src/TaschenrechnerPruefung.java:208-218 | the operation fails exactly when it is a division by zero |
| Engine.Squared | src/TaschenrechnerPruefung.java:240 | the square is never negative |
| Engine.Cleared | src/TaschenrechnerPruefung.java:7-15 | the start-up state; `EngineProperties.ClearedInv` proves it satisfies the invariant and `ClearResets` that "C" returns to it |
| Engine.SetError | src/TaschenrechnerPruefung.java:273-277 | specified by `EngineProperties.SetErrorSpec`: "Error", the latch and no pending operator, everything else kept |
| Engine.AppendDigit | src/TaschenrechnerPruefung.java:120-129 | specified by `EngineProperties.AppendDigitSpec` and `KeySequences.TypedDigits`; `AppendDigitKeepsInv` shows it keeps entries well formed |
| Engine.AppendDot | src/TaschenrechnerPruefung.java:131-138 | specified by `EngineProperties.AppendDotSpec` and `AppendDotIdempotent`; `AppendDotKeepsInv` shows it never adds a second point |
| Engine.Backspace | src/TaschenrechnerPruefung.java:140-149 | specified by `EngineProperties.BackspaceSpec`; `BackspaceKeepsInv` shows it keeps entries well formed |
| Engine.OperatorPressed | src/TaschenrechnerPruefung.java:161-177 | specified by `EngineProperties.OperatorPressedSpec` and `UnparsableDisplay`; chaining is stated by `KeySequences.ChainLeftToRight` |
| Engine.EqualsPressed | src/TaschenrechnerPruefung.java:179-206 | specified by `EngineProperties.EqualsPressedSpec`, `UnparsableDisplay` and `RepeatedDivisionIsSafe`; repeats by `KeySequences.RepeatEqualsCompounds` |
| Engine.SqrtPressed | src/TaschenrechnerPruefung.java:221-235 | specified by `EngineProperties.SqrtPressedSpec` and `UnparsableDisplay` |
| Engine.SquarePressed | src/TaschenrechnerPruefung.java:237-247 | specified by `EngineProperties.SquarePressedSpec` and `UnparsableDisplay` |
| Engine.BinaryPressed | src/TaschenrechnerPruefung.java:249-270 | specified by `EngineProperties.BinaryPressedSpec` and `UnparsableDisplay` |
| Engine.Press | src/TaschenrechnerPruefung.java:65-118 | specified by `EngineProperties.ErrorLatch`, `LeadingMinus`, `PressRoutes` and `UnknownLabelIgnored`; `PressKeepsInv` shows every press keeps the invariant |
| Binary.LongToBinaryString | src/TaschenrechnerPruefung.java:261 | specified through `Binary.BinaryTextOfLong`, which shows that its unsigned reading of the still-negative `Math.abs(Long.MIN_VALUE)` gives the base-2 numeral of the magnitude, and `Numerals.NumeralRoundTrip`, which reads that numeral back |
| Binary.BinaryText | src/TaschenrechnerPruefung.java:259-262 | specified by `Binary.BinaryTextOfLong`, `BinaryTextRoundTrip` and `BinaryTextSaturates` |
| Formatting.Format | src/TaschenrechnerPruefung.java:17 | specified by `Formatting.FormatRoundTrip`, `FormatNegativeZero` and `FormatWhole` |
| EngineProperties.ErrorLatch | src/TaschenrechnerPruefung.java:67-69 | while the latch is set, every label except "C" leaves the whole state unchanged |
| EngineProperties.ClearResets | src/TaschenrechnerPruefung.java:151-159 | "C" works in every state, the error state included, and resets all seven fields |
| EngineProperties.LeadingMinus | src/TaschenrechnerPruefung.java:71-75 | "-" on a fresh "0" starts a negative entry; in every other non-error state it is the subtraction operator |
| EngineProperties.PressRoutes | src/TaschenrechnerPruefung.java:77-117 | outside the error state and the leading-minus case, a button's label runs exactly that button's handler |
| EngineProperties.UnknownLabelIgnored | src/TaschenrechnerPruefung.java:114-116 | a label that is on no button changes nothing |
| EngineProperties.AppendDigitSpec | src/TaschenrechnerPruefung.java:120-129 | a digit starts a new entry, replaces a lone "0" or is appended; an entry is then in progress; nothing else changes |
| EngineProperties.AppendDotSpec | src/TaschenrechnerPruefung.java:131-138 | "." starts a new entry as "0.", is appended when the entry has no '.', and is ignored otherwise; nothing else changes |
| EngineProperties.AppendDotIdempotent | src/TaschenrechnerPruefung.java:131-138 | a second "." right after a first changes nothing |
| EngineProperties.BackspaceSpec | src/TaschenrechnerPruefung.java:140-149 | backspace does nothing on a fresh entry, turns a one-character entry into a fresh "0", and otherwise removes exactly the last character |
| EngineProperties.SetErrorSpec | src/TaschenrechnerPruefung.java:273-277 | an error shows "Error", sets the latch, drops the pending operator, and keeps the value, the repeat memory and the entry flag |
| EngineProperties.OperatorPressedSpec | src/TaschenrechnerPruefung.java:161-177 | with nothing pending, the operator stores the displayed value; otherwise it applies the pending operator and shows the result, or sets the error on a zero divisor; the new operator then becomes pending |
| EngineProperties.EqualsPressedSpec | src/TaschenrechnerPruefung.java:179-206 | "=" completes the pending operation and remembers its operator and right operand; with nothing pending it repeats the remembered operation on the displayed value; with neither it does nothing; a zero divisor sets the error without touching the memory |
| EngineProperties.UnparsableDisplay | src/TaschenrechnerPruefung.java:161-270 | when the display is not a number, every operator, "=", √, x² and BIN sets the error |
| EngineProperties.RepeatedDivisionIsSafe | src/TaschenrechnerPruefung.java:195-201 | in a reachable state, a repeated "=" never divides by zero |
| EngineProperties.SqrtPressedSpec | src/TaschenrechnerPruefung.java:221-235 | √ of a negative value sets the error; otherwise it shows the formatted root and only the display and the entry flag change |
| EngineProperties.SquarePressedSpec | src/TaschenrechnerPruefung.java:237-247 | x² shows the formatted square; only the display and the entry flag change |
| EngineProperties.BinaryPressedSpec | src/TaschenrechnerPruefung.java:249-270 | BIN of a fraction sets the error; for a whole long it shows '-' exactly for negatives, then base-2 digits that read back as the magnitude |
| EngineProperties.ClearedInv | src/TaschenrechnerPruefung.java:7-15 | the start-up state satisfies the invariant |
| EngineProperties.PressKeepsInv | src/TaschenrechnerPruefung.java:65-118 | every button press keeps the invariant: the latch shows "Error" with nothing pending, an entry in progress is well formed, and a remembered division has a non-zero operand |
| EngineProperties.DispatchKeepsInv | src/TaschenrechnerPruefung.java:77-117 | every handler keeps the invariant |
| EngineProperties.AppendDigitKeepsInv | src/TaschenrechnerPruefung.java:120-129 | typing a digit keeps the invariant |
| EngineProperties.AppendDotKeepsInv | src/TaschenrechnerPruefung.java:131-138 | typing "." keeps the invariant |
| EngineProperties.BackspaceKeepsInv | src/TaschenrechnerPruefung.java:140-149 | backspace keeps the invariant |
| EngineProperties.OperatorKeepsInv | src/TaschenrechnerPruefung.java:161-177 | an operator keeps the invariant |
| EngineProperties.EqualsKeepsInv | src/TaschenrechnerPruefung.java:179-206 | "=" keeps the invariant; in particular it remembers a division only with a non-zero divisor |
| EngineProperties.UnaryKeepsInv | src/TaschenrechnerPruefung.java:221-270 | √, x² and BIN keep the invariant |
| EngineProperties.ReachableInv | src/TaschenrechnerPruefung.java:65-118 | every state reached from start-up by any sequence of presses satisfies the invariant |
| Keypad.Parse | src/TaschenrechnerPruefung.java:163 | a display text reads as a number exactly when it is a well-formed decimal literal |
| Keypad.ParseAcceptsEntries | src/TaschenrechnerPruefung.java:163 | the texts that read as numbers are exactly the keypad entries that contain a digit |
| Keypad.EntryAppendDigit | src/TaschenrechnerPruefung.java:126-127 | appending a digit to an entry gives an entry with a digit |
| Keypad.EntryAppendDot | src/TaschenrechnerPruefung.java:135-136 | appending '.' to an entry without one gives an entry |
| Keypad.EntryDropLast | src/TaschenrechnerPruefung.java:146-147 | removing the last character of a longer entry gives an entry |
| Keypad.ParseInteger | src/TaschenrechnerPruefung.java:163 | an optional '-' and digits read as the signed decimal value of the digits |
| Keypad.ParseDecimal | src/TaschenrechnerPruefung.java:163 | an optional '-', digits, '.' and digits read as the signed decimal fraction they spell |
| Numerals.NumeralRoundTrip | src/TaschenrechnerPruefung.java:261 | the digits of a number read back in the same base give the number |
| Numerals.NumeralShape | src/TaschenrechnerPruefung.java:261 | a numeral is never empty and starts with '0' only for zero |
| Binary.SaturatingLong | src/TaschenrechnerPruefung.java:259 | the cast always gives a long and keeps every value already in the long range |
| Binary.LongAbs | src/TaschenrechnerPruefung.java:261 | the absolute value of a long is a long and is the magnitude for every value except the minimum |
| Binary.BinaryTextOfLong | src/TaschenrechnerPruefung.java:259-262 | on every long, the minimum included, BIN shows '-' exactly for negatives and then the binary numeral of the magnitude |
| Binary.BinaryTextRoundTrip | src/TaschenrechnerPruefung.java:259-262 | the digits BIN shows read back in base 2 as the magnitude, have no leading zero, and carry a '-' exactly for negatives |
| Binary.BinaryTextSaturates | src/TaschenrechnerPruefung.java:259 | beyond the long range BIN shows the text of the nearest long |
| Formatting.FormatNumber | src/TaschenrechnerPruefung.java:279-283 | the shown text is the formatter's text, except that "-0" becomes "0"; it is never "-0" |
| Formatting.RoundHalfEven | src/TaschenrechnerPruefung.java:17 | rounding moves a value by at most one half, keeps whole values, and sends ties to the even neighbour |
| Formatting.TrimZeros | src/TaschenrechnerPruefung.java:17 | only trailing zeros are removed, and all of them |
| Formatting.FormatRoundTrip | src/TaschenrechnerPruefung.java:17 | the pattern's text reads back as the value rounded to ten fraction digits |
| Formatting.RoundedClose | src/TaschenrechnerPruefung.java:17 | rounding to ten fraction digits moves a value by at most half a unit in the tenth digit |
| Formatting.RoundedExact | src/TaschenrechnerPruefung.java:17 | a value with at most ten fraction digits is kept exactly |
| Formatting.FormatNegativeZero | src/TaschenrechnerPruefung.java:279-283 | the pattern prints "-0" exactly for negative values that round to zero, which is the case `formatNumber` repairs |
| Formatting.FormatNumberRoundTrip | src/TaschenrechnerPruefung.java:279-283 | what the calculator displays for a result reads back as the result rounded to ten fraction digits |
| Formatting.FormatWhole | src/TaschenrechnerPruefung.java:17 | a whole number prints as its decimal numeral, with no point |
| KeySequences.TypedDigits | src/TaschenrechnerPruefung.java:120-129 | digits typed into a fresh entry show without leading zeros; only the display and the entry flag change |
| KeySequences.TypedValue | src/TaschenrechnerPruefung.java:120-129 | typed digits read back as their decimal value |
| KeySequences.ChainLeftToRight | src/TaschenrechnerPruefung.java:161-206 | "x o1 y o2 z =" computes (x o1 y) o2 z, shows it, and remembers o2 and z |
| KeySequences.RepeatEqualsCompounds | src/TaschenrechnerPruefung.java:195-201 | a second "=" applies the operation again to the displayed, rounded result and the same right operand |
| Scenarios.LeadingZerosExample | src/TaschenrechnerPruefung.java:126-127 | "0 0 7" shows "7" |
| Scenarios.NegativeEntryExample | src/TaschenrechnerPruefung.java:71-75 | "- 5 =" shows "-5" without an error |
| Scenarios.ChainExample | src/TaschenrechnerPruefung.java:161-206 | "2 + 3 * 4 =" shows the formatted 20, not 14 |
| Scenarios.ChainExampleText | src/TaschenrechnerPruefung.java:161-206 | with the decimal pattern, "2 + 3 * 4 =" shows "20" |
| Scenarios.EqualsExample | src/TaschenrechnerPruefung.java:179-194 | "5 + 3 =" shows the formatted 8 and remembers "+ 3" |
| Scenarios.EqualsExampleText | src/TaschenrechnerPruefung.java:179-194 | with the decimal pattern, "5 + 3 =" shows "8" |
| Scenarios.RepeatEqualsExample | src/TaschenrechnerPruefung.java:195-201 | "5 + 3 = =" shows "11" |
| Scenarios.DivisionByZeroExample | src/TaschenrechnerPruefung.java:213-214 | "7 / 0 =" shows "Error" and sets the latch, keeping the stored 7 |
| Scenarios.ErrorLatchExample | src/TaschenrechnerPruefung.java:67-69 | after "7 / 0 =" a digit changes nothing and "C" restores the start-up state |
| Scenarios.NegativeRootExample | src/TaschenrechnerPruefung.java:224-227 | "- 4 √" shows the same "Error" as a division by zero |
| Scenarios.BinaryExample | src/TaschenrechnerPruefung.java:249-265 | "1 0 BIN" shows "1010" |
| Scenarios.NegativeBinaryExample | src/TaschenrechnerPruefung.java:259-262 | "- 5 BIN" shows "-101" |
| Scenarios.FractionalBinaryExample | src/TaschenrechnerPruefung.java:254-257 | "2 . 5 BIN" shows "Error" and sets the latch |

## Left out

- The Swing window, button layout, fonts and event wiring (lines 19-63), and `main`. These only
  forward labels to `onButtonPressed` and show the display text.
- IEEE 754 doubles: rounding of `+ - * /` and of `parseDouble`, overflow to infinity (which the
  formatter prints as "∞", so it reads back as an error), NaN, and negative zero. Values are exact
  reals.
- Keypad.Parse: accepts only texts over digits, '.' and '-'. `Double.parseDouble` also accepts
  whitespace, a leading '+', exponents, type suffixes, hexadecimal and "NaN"/"Infinity". Apart from
  "NaN" after an IEEE overflow (left out above), the display never holds any of those. It holds only
  keypad entries, the formatter's output, BIN output, or "Error" while the latch is set.
- `Math.sqrt` is the parameter `sqrt`, with no properties assumed. The engine's properties hold for
  every square-root function.
- The default-locale behaviour of `DecimalFormat` is left out. `Formatting.Format` uses '.' as the
  decimal separator. Under a locale with a ',' separator the Java program cannot read its own
  results back. The engine's properties that do not mention `Format` hold for every formatter.
- The `ArithmeticException` for an unknown operator (line 217) is not modelled. `Op` has exactly the
  four operators, so that case cannot arise.
