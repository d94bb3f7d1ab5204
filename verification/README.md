# CalcPro calculator engines in Dafny

This project models the two calculator state machines of CalcPro and proves properties of them.

- **The archived explicit-operand calculator** is the `Calculator` component of the backup app. Its state is the text shown, the left operand (`previousValue`), the operand being typed (`currentValue`), the pending operator and an error flag. Each key is a pure transition:
  - digit, decimal point, operator, percent, sign, equals and clear;
  - `performCalculation` is the binary evaluator;
  - `handleError` and `resetError` enter and leave the error state.

  Modules `Accumulator` (operand text rules), `Evaluator`, `Engine` (state and transitions) and `EngineProperties` (invariants and key-sequence lemmas).
- **The expression-string service** is `CalculatorService`. Its state is the display, the expression typed so far, a history bounded to five entries and an `isResult` flag. It has `appendInput`, `setOperator`, `calculatePercentage`, `calculate`, `reset`, `deleteLast` and `setError`. Modules `History`, `Service` and `ServiceProperties`.

Shared modules:
- `Wrappers`: `Option` for `T | null`, and `Result` for operations that throw.
- `Text`: character classes, occurrence counts, `slice(0, -1)`, and the adjacent-operator predicate.
- `Numbers`: a JavaScript number is `Finite(real)` or `NaN`. `parseFloat`, `toString` and the two float formatters are fields of a `Numerics` record passed as a parameter, so the properties do not depend on how those IEEE-754 routines print, except where a lemma says so. The two invariant proofs assume that the printers never produce two points (`SinglePointFormats`) or operator-like text (`NumberLikeFormats`), and the worked examples fix what `parseFloat` returns on their operands; "## Left out" lists these assumptions. What the source decides outside those routines is modelled:
  - `x || 0` turns NaN into 0;
  - `formatDisplay(NaN)` prints `"NaN"`;
  - `formatResult` maps every non-finite value to `"Error"`.

Behaviour of the archived calculator worth noting:
- The archived decimal-point key has no length cap. Twelve digits and a point give a 13-character operand. The model proves that an operand typed from empty has at most 12 digits, i.e. `|v| <= 12 + number of points`.
- After equals, the archived calculator keeps the formatted result in `currentValue`. A following digit appends to that result rather than starting a fresh operand.
- The archived percent key keeps the pending operator. Non-finite results are not an error there: they are printed by `formatDisplay`.
- Equals right after an operator, with no second operand, is a no-op in the archived calculator.

## Model

| member | source | states |
|---|---|---|
| Accumulator.StripLeadingZero | _archive/calc-app-backup/src/app/calculator/calculator.ts:76-78 | at most one leading "0" is removed, and only when followed by something other than "."; the number of points is unchanged |
| Accumulator.AppendDigit | _archive/calc-app-backup/src/app/calculator/calculator.ts:73-81 | the key is dropped exactly when the operand plus the key, after stripping a redundant leading "0", is longer than 12; an accepted operand has at most 12 characters and is the old operand plus the key, with the "0" removed exactly when it is followed by something other than "." |
| Accumulator.AppendDecimal | _archive/calc-app-backup/src/app/calculator/calculator.ts:97-105 | the result always holds a point; "0." from empty; unchanged when a point is present; otherwise one point is appended, so the point count never exceeds one more than before |
| Accumulator.DecimalIdempotent | _archive/calc-app-backup/src/app/calculator/calculator.ts:100-105 | a second decimal point never changes the operand |
| Accumulator.FeedKeepsWellFormed | _archive/calc-app-backup/src/app/calculator/calculator.ts:73-105 | a digit or point key keeps an operand well-formed: only digits and points, at most one point, no "0" before a digit at the front, at most 12 digits |
| Accumulator.BuildWellFormed | _archive/calc-app-backup/src/app/calculator/calculator.ts:73-105 | every operand typed from the empty buffer is well-formed, so it never starts with "0" followed by a digit and never holds two points |
| Accumulator.DigitAccepted | _archive/calc-app-backup/src/app/calculator/calculator.ts:73-84 | on a well-formed operand shorter than 12, a digit is accepted and appended, or replaces a lone "0" |
| Accumulator.LeadingZerosExample | _archive/calc-app-backup/src/app/calculator/calculator.ts:76-78 | keys 0, 0, 5 give "5" |
| Accumulator.DecimalDedupExample | _archive/calc-app-backup/src/app/calculator/calculator.ts:100-105 | keys 1, ., 2, . give "1.2" |
| Numbers.OrZero | _archive/calc-app-backup/src/app/calculator/calculator.ts:121 | `parseFloat(x) \|\| 0` turns NaN into 0 and keeps every finite value |
| Evaluator.PerformCalculation | _archive/calc-app-backup/src/app/calculator/calculator.ts:197-213 | fails exactly when the operator is "/" and the right operand is 0; gives the sum, difference or product of finite operands; gives a quotient that times the divisor is the dividend; gives `current` for an unknown operator; NaN propagates |
| Evaluator.SubUndoesAdd | _archive/calc-app-backup/src/app/calculator/calculator.ts:199-202 | subtracting what was added gives back the left operand |
| Evaluator.MulUndoesDiv | _archive/calc-app-backup/src/app/calculator/calculator.ts:203-209 | multiplying a quotient by a non-zero divisor gives back the dividend |
| Engine.ResetError | _archive/calc-app-backup/src/app/calculator/calculator.ts:303-306 | clears the error flag and changes nothing else |
| Engine.Recover | _archive/calc-app-backup/src/app/calculator/calculator.ts:69-71 | a key handler leaves the error state first, changing nothing else |
| Engine.HandleError | _archive/calc-app-backup/src/app/calculator/calculator.ts:287-298 | the error state shows "Error" and has no operand, no left operand and no operator (null) |
| Engine.HandleNumber | _archive/calc-app-backup/src/app/calculator/calculator.ts:66-85 | never in error afterwards; the pending operation is untouched; the key is dropped (only the error flag reset) exactly when `AppendDigit` drops it; otherwise the operand becomes `AppendDigit`'s result (the old operand plus the digit, minus a redundant leading "0", at most 12 long) and the display shows it |
| Engine.HandleDecimal | _archive/calc-app-backup/src/app/calculator/calculator.ts:90-109 | the operand then holds a point and is displayed; it becomes "0." from empty and the old operand plus "." when it had no point; it is unchanged if it had one; the point count becomes 1 or stays as it was; the pending operation is untouched |
| Engine.HandleOperator | _archive/calc-app-backup/src/app/calculator/calculator.ts:114-151 | error exactly when a pending "/" meets an operand that reads as 0; otherwise the new operator is pending with an empty operand; with a pending pair the left operand becomes its result and is displayed, else the operand (or 0) becomes the left operand and the display is kept |
| Engine.HandlePercentage | _archive/calc-app-backup/src/app/calculator/calculator.ts:156-174 | without a left operand or an operand only the error flag is reset; otherwise the operand and display become the formatted `previousValue * operand / 100`; the pending operation is kept |
| Engine.ToggleSign | _archive/calc-app-backup/src/app/calculator/calculator.ts:179-192 | an empty operand is left alone; otherwise operand and display become the text of the negated operand |
| Engine.Calculate | _archive/calc-app-backup/src/app/calculator/calculator.ts:218-244 | no-op without a pending operator or an operand; otherwise the operation is consumed; error exactly on "/" with an operand parsing to 0; on success the display and operand are the formatted result |
| Engine.Clear | _archive/calc-app-backup/src/app/calculator/calculator.ts:249-259 | display "0", no operand, no left operand, no operator, no error |
| EngineProperties.StepKeepsInvariant | _archive/calc-app-backup/src/app/calculator/calculator.ts:66-259 | each key keeps the invariant: at most one point in the operand, the error state has nothing pending, an operator always has a left operand |
| EngineProperties.RunKeepsInvariant | _archive/calc-app-backup/src/app/calculator/calculator.ts:66-259 | the invariant holds after any key sequence |
| EngineProperties.TypingBuildsOperand | _archive/calc-app-backup/src/app/calculator/calculator.ts:66-109 | typing keys into the calculator builds exactly the operand `Accumulator` builds and shows it, without touching the pending operation |
| EngineProperties.TwoOperandEquals | _archive/calc-app-backup/src/app/calculator/calculator.ts:114-244 | `x op y =` shows the formatted `performCalculation` result with the operation consumed, or "Error" exactly when dividing by a `y` that parses to 0 |
| EngineProperties.ChainedOperator | _archive/calc-app-backup/src/app/calculator/calculator.ts:123-142 | a second operator evaluates the pending pair, keeps and shows its result as the left operand with the new operator pending, or errs exactly on division by zero |
| EngineProperties.PercentOfLeftOperand | _archive/calc-app-backup/src/app/calculator/calculator.ts:156-174 | `x op y %` shows the formatted `x * y / 100` and keeps `op` pending |
| EngineProperties.ErrorRecovery | _archive/calc-app-backup/src/app/calculator/calculator.ts:66-85 | in the error state a digit both leaves the error and becomes the operand and the display |
| EngineProperties.DigitCapLeavesStateUnchanged | _archive/calc-app-backup/src/app/calculator/calculator.ts:81 | a digit that does not fit leaves an error-free state entirely unchanged |
| EngineProperties.EqualsWithoutPendingIsNoOp | _archive/calc-app-backup/src/app/calculator/calculator.ts:221-223 | equals with no pending operator or no operand changes nothing |
| EngineProperties.ClearCanonical | _archive/calc-app-backup/src/app/calculator/calculator.ts:249-258 | clear gives the same initial state from any two states and is idempotent |
| EngineProperties.ErrorForgetsState | _archive/calc-app-backup/src/app/calculator/calculator.ts:287-297 | the error state does not depend on the state it was entered from |
| EngineProperties.ChainedPrefix | _archive/calc-app-backup/src/app/calculator/calculator.ts:123-142 | `5 + 3 -` leaves 8 as the left operand with "-" pending and an empty operand |
| EngineProperties.ChainedTail | _archive/calc-app-backup/src/app/calculator/calculator.ts:66-85 | with 8 as the left operand and "-" pending, `2 =` shows the formatted 6 |
| EngineProperties.ChainedExample | _archive/calc-app-backup/src/app/calculator/calculator.ts:114-151 | `5 + 3 - 2 =` shows the formatted 6 |
| EngineProperties.DivideByZeroExample | _archive/calc-app-backup/src/app/calculator/calculator.ts:205-208 | `1 / 0 =` ends in the error state showing "Error" |
| EngineProperties.PercentExample | _archive/calc-app-backup/src/app/calculator/calculator.ts:164-171 | `200 * 10 %` shows the formatted 20 |
| Numbers.Show | _archive/calc-app-backup/src/app/calculator/calculator.ts:188 | `toString` prints NaN as "NaN" and defers to the printer for finite values |
| Numbers.FormatDisplay | _archive/calc-app-backup/src/app/calculator/calculator.ts:264-282 | `formatDisplay` prints NaN as "NaN" (every branch falls through for it) and defers to the printer for finite values |
| Numbers.FormatResult | src/app/core/services/calculator.service.ts:225 | a non-finite result is rendered "Error"; a finite one goes to the printer |
| History.Push | src/app/core/services/calculator.service.ts:182 | the new history holds min(n + 1, 5) entries, is a suffix of the old history plus the entry, ends with the entry, and is exactly old plus entry while fewer than five |
| History.PushIsLastN | src/app/core/services/calculator.service.ts:182 | one push is the extended log trimmed to its last five entries |
| History.PushAllKeepsLastFive | src/app/core/services/calculator.service.ts:182 | pushing entries one by one into a log of at most five keeps exactly the last five of the whole log, in order |
| Service.Reset | src/app/core/services/calculator.service.ts:190-194 | display "0", empty expression, not a result; history kept |
| Service.SetError | src/app/core/services/calculator.service.ts:218-222 | display "Error", empty expression, marked as a result; history kept |
| Service.LeaveError | src/app/core/services/calculator.service.ts:27-29 | an "Error" display is reset before input; any other state is kept |
| Service.StartText | src/app/core/services/calculator.service.ts:33-34 | a fresh entry starts with "0." for the point and with the key otherwise |
| Service.AppendAfter | src/app/core/services/calculator.service.ts:31-55 | the branch structure of `appendInput` after the error reset: a result restarts with the key ("0." for "."); a second point changes nothing; on a "0" display a non-point key becomes the display and the expression becomes the given overwrite text; a display of 12 or more characters is left unchanged; the history is kept and the flag cleared |
| Service.AppendAfterFacts | src/app/core/services/calculator.service.ts:31-55 | whatever the overwrite text, input leaves a non-result state with the history kept and a non-empty display; a one-character key never makes the display longer than 12 unless nothing changed; the expression is kept, extended by the key, or replaced by the overwrite text |
| Service.AppendInputAsWritten | src/app/core/services/calculator.service.ts:26-56 | after a result the display and expression restart with the key ("0." for "."); a second point changes nothing; on a "0" display (also the one an "Error" display is reset to) a non-point key overwrites the display AND the whole expression; otherwise, while the display is shorter than 12, the key is appended to both display and expression; a display of 12 or more characters is left unchanged; a one-character key never grows the display past 12 |
| Service.DropZeroOperand | src/app/core/services/calculator.service.ts:47-49 | only a trailing lone "0" operand is removed |
| Service.AppendInput | src/app/core/services/calculator.service.ts:26-56 | the corrected input: outside a result the expression is kept, extended by the key, or loses only a placeholder "0" operand before the key; after a trailing operator on a "0" display the key is appended to the expression; on the ordinary branch (no result, no duplicate point, no "0" display, display shorter than 12) the key is appended to both display and expression; the display never grows past 12 |
| Service.CorrectionOnlyChangesExpression | src/app/core/services/calculator.service.ts:47-49 | the corrected input differs from the written one only in the expression, and only on the "0"-overwrite branch; there its expression is the old expression minus a trailing lone "0" operand, plus the key |
| Service.JsOperator | src/app/core/services/calculator.service.ts:65-76 | × maps to "*", ÷ to "/", + to "+", − to "-", % to "/100", and any other label to itself |
| Service.CalculatePercentage | src/app/core/services/calculator.service.ts:130-144 | display and expression become the text of display / 100, marked as a result; history kept |
| Service.SetOperator | src/app/core/services/calculator.service.ts:61-128 | no-op on "Error"; a trailing operator is replaced in place (or kept for "%"); otherwise "%" applies the percentage and other operators are appended with display "0"; a keypad operator never creates two adjacent operators and leaves the expression ending in one |
| Service.TrimmedExpression | src/app/core/services/calculator.service.ts:168-172 | a trailing operator is dropped before evaluation; anything else is kept |
| Service.Calculate | src/app/core/services/calculator.service.ts:146-188 | no-op on "Error"; a throwing evaluation enters the error state; otherwise the formatted result is display and expression, marked as a result, and "expr = result" is pushed onto the five-entry history; the history changes only then |
| Service.DeleteLast | src/app/core/services/calculator.service.ts:196-216 | a result or error resets; otherwise the display loses its last character (or becomes "0" at one character) and the expression loses its last character |
| ServiceProperties.AppendAfterKeepsInvariant | src/app/core/services/calculator.service.ts:26-56 | every branch of `appendInput` keeps the service invariant, whatever text the "0"-overwrite branch installs, as long as it has no adjacent operators |
| ServiceProperties.KeyKeepsInvariant | src/app/core/services/calculator.service.ts:26-56 | a number-pad key handled by the corrected input keeps the service invariant |
| ServiceProperties.AsWrittenKeyKeepsInvariant | src/app/core/services/calculator.service.ts:26-56 | a number-pad key handled by `appendInput` as written keeps the service invariant too |
| ServiceProperties.OperatorKeepsInvariant | src/app/core/services/calculator.service.ts:61-128 | an operator key keeps the service invariant |
| ServiceProperties.StepKeepsInvariant | src/app/core/services/calculator.service.ts:26-222 | every event, with number-pad keys handled either as written or corrected, keeps the invariant: at most five history entries, no adjacent operators, a non-empty display of at most 12 characters while entering, no trailing operator in a result's expression |
| ServiceProperties.RunKeepsInvariant | src/app/core/services/calculator.service.ts:26-222 | the invariant holds after any event sequence, for the service as written and for the corrected input |
| ServiceProperties.KeyAppends | src/app/core/services/calculator.service.ts:51-53 | outside a result, an error, a "0" display and a duplicate point, a key on a display shorter than 12 is appended to display and expression, in both input versions |
| ServiceProperties.TypedEntryExample | src/app/core/services/calculator.service.ts:26-56 | typing 1, 2, ., 5 from the start shows and records "12.5" in both versions |
| ServiceProperties.SecondPointIgnored | src/app/core/services/calculator.service.ts:42-44 | "." on a display that already has a point changes nothing |
| ServiceProperties.ErrorThenDigit | src/app/core/services/calculator.service.ts:27-49 | a digit on an "Error" display starts a fresh entry holding just that digit, in the corrected and the as-written input |
| ServiceProperties.BackspaceAfterResultClears | src/app/core/services/calculator.service.ts:197-200 | backspace on a result or error is the same as reset |
| ServiceProperties.ResetIdempotent | src/app/core/services/calculator.service.ts:190-194 | reset gives the initial display, expression and flag from anywhere and is idempotent |
| ServiceProperties.AsWrittenLosesLeftOperand | src/app/core/services/calculator.service.ts:47-49 | as written, typing 5, +, 3 leaves the expression "3" |
| ServiceProperties.AsWrittenOverwriteForgetsExpression | src/app/core/services/calculator.service.ts:47-49 | as written, any digit on a "0" display outside a result replaces the whole expression, pending operator included |
| ServiceProperties.CorrectedKeepsLeftOperand | src/app/core/services/calculator.service.ts:160-164 | with the correction, typing 5, +, 3 leaves the expression "5+3" |

## Left out

- The float routines `parseFloat`, `Number.prototype.toString`, `formatDisplay` and `formatResult` are not modelled. Rounding to ten places, `toFixed(8)` and `toExponential(6)` are IEEE-754 printing. They are the opaque fields of `Numbers.Numerics`; only the NaN behaviour the source decides itself is modelled.
- Infinities are not modelled: a number is a real or NaN, and real arithmetic never overflows. A JavaScript division by zero yielding Infinity cannot arise in the archived evaluator, which throws first. In the service, any non-finite value reaches `formatResult` as `NaN`, which the guard treats the same way.
- Evaluator.PerformCalculation: + − × ÷ are exact on reals in the model, while the program rounds each result to an IEEE-754 double. So "the quotient times the divisor is the dividend" holds of the model only.
- Evaluator.SubUndoesAdd: holds of exact real arithmetic only. With double rounding, 0.1 + 0.2 − 0.2 is not 0.1.
- Evaluator.MulUndoesDiv: holds of exact real arithmetic only. With double rounding, (1 / 49) × 49 is not 1.
- The dynamic `new Function('return ' + expr)` evaluation in the service's `calculate` is not modelled. Its outcome (a number, or a thrown error) is the `EvalOutcome` argument of the equals key.
- Angular signals, `computed` and `asReadonly` are replaced by one immutable record per engine. The archived `CalcState.display` field is written but never read, so the model's `display` is the public display signal. The archived `isError` signal agrees with the state's flag in every reachable state, so there is one flag.
- The UI component is not part of this model: button arrays, click dispatch and the keyboard-to-label mapping. Its inputs appear only as the event types: digits and "." for `appendInput`, the labels ×, ÷, +, − (and "%") for `setOperator`.
- The empty root component `app.ts` is not part of this model.
- `opMap` lookups of inherited object properties (for example an operator string "constructor") are not modelled. Any label outside the map falls back to the label itself.
- The `try`/`catch` around `calculatePercentage` is not modelled: division by 100 never throws.
- EngineProperties.RunKeepsInvariant: the "at most one point" part assumes `toString` and `formatDisplay` never print two points (`SinglePointFormats`). Those routines are outside the model.
- EngineProperties.ChainedExample, EngineProperties.DivideByZeroExample, EngineProperties.PercentExample: these traces require `parseFloat` to return the obvious values on their operand texts (for example "5" reads as 5). The parser is outside the model.
- ServiceProperties.RunKeepsInvariant: assumes `toString` and `formatResult` print non-empty text with no trailing or adjacent operator characters (`NumberLikeFormats`). Those routines are outside the model.

## Findings

| source | as written | input that shows it | evidently intended | confidence | as-written member | corrected member |
|---|---|---|---|---|---|---|
| src/app/core/services/calculator.service.ts:47-49 | on a "0" display, a non-point key replaces the whole expression with the key | appendInput("5"), setOperator("+"), appendInput("3") leaves the expression "3", so equals evaluates 3 instead of 8 | the trace written beside `calculate` (lines 160-164) expects "5+5" after 5, +, 5: only a placeholder "0" operand is replaced and the left operand and operator survive | high, not executed | ServiceProperties.AsWrittenLosesLeftOperand | Service.AppendInput |

`Service.AppendInputAsWritten` models the code as written. `Service.AppendInput` is the corrected definition. `ServiceProperties.Step` and `Run` take a flag that selects either one, and the invariant is proved for both. It shares every branch of the written version. Only the overwrite branch differs: it drops a trailing lone "0" operand from the expression and appends the key, instead of replacing the expression.
