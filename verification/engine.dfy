/**
 * The archived explicit-operand calculator: a record of display text, the
 * left operand, the operand being typed, the pending operator and an error
 * flag, with one pure transition per key.
 */
module Engine {
  import opened Wrappers
  import opened Text
  import opened Numbers
  import opened Accumulator
  import opened Evaluator

  /**
   * `display` is the text shown to the user; `previousValue` is the left
   * operand; `currentValue` the operand being typed; `operator` the pending
   * operator, kept as the key's text.
   */
  datatype State = State(
    display: string,
    previousValue: Option<Num>,
    currentValue: string,
    operator: Option<string>,
    isError: bool)

  const ErrorText: string := "Error"

  /** The state on start-up and after the clear key. */
  const Initial: State := State("0", None, "", None, false)

  /** An operator is pending when it is present and not the empty (falsy) string. */
  predicate OperatorPending(s: State) {
    s.operator.Some? && s.operator.value != ""
  }

  /** The display shows the operand being typed, or "0" while it is empty. */
  predicate ShowsOperand(s: State) {
    s.display == (if s.currentValue == "" then "0" else s.currentValue)
  }

  /** Leaves the error state and nothing else. */
  function ResetError(s: State): (r: State)
    ensures !r.isError
    ensures r.(isError := s.isError) == s
  {
    s.(isError := false)
  }

  /** Every key except equals and clear first leaves the error state. */
  function Recover(s: State): (r: State)
    ensures !r.isError
    ensures r.(isError := s.isError) == s
  {
    if s.isError then ResetError(s) else s
  }

  /** The error state: "Error" shown, with no operand and no pending operation. */
  function HandleError(s: State): (r: State)
    ensures r.isError && r.display == ErrorText
    ensures r.operator.None? && r.previousValue.None? && r.currentValue == ""
  {
    s.(display := ErrorText, isError := true, currentValue := "", previousValue := None, operator := None)
  }

  /** A digit key: extend the operand, or drop the key if the operand would grow past the cap. */
  function HandleNumber(s: State, num: string): (r: State)
    ensures !r.isError
    ensures r.previousValue == s.previousValue && r.operator == s.operator
    ensures AppendDigit(s.currentValue, num).None? ==> r == Recover(s)
    ensures AppendDigit(s.currentValue, num).Some? ==>
      r.currentValue == AppendDigit(s.currentValue, num).value && ShowsOperand(r)
  {
    var t := Recover(s);
    match AppendDigit(s.currentValue, num)
    case None => t
    case Some(v) => t.(currentValue := v, display := if v == "" then "0" else v)
  }

  /** The decimal-point key: the operand gains a point unless it has one. */
  function HandleDecimal(s: State): (r: State)
    ensures !r.isError
    ensures r.previousValue == s.previousValue && r.operator == s.operator
    ensures ShowsOperand(r) && '.' in r.currentValue
    ensures '.' in s.currentValue ==> r.currentValue == s.currentValue
    ensures s.currentValue == "" ==> r.currentValue == "0."
    ensures s.currentValue != "" && '.' !in s.currentValue ==> r.currentValue == s.currentValue + "."
    ensures Count(r.currentValue, '.') == (if '.' in s.currentValue then Count(s.currentValue, '.') else 1)
  {
    var v := AppendDecimal(s.currentValue);
    Recover(s).(currentValue := v, display := v)
  }

  /** Whether an operator key will evaluate the pending pair before installing itself. */
  predicate EvaluatesPending(s: State) {
    OperatorPending(s) && s.currentValue != ""
  }

  /**
   * An operator key. With a pending operator and an operand, the pending pair
   * is evaluated and becomes the new left operand; otherwise the operand (or 0)
   * becomes the left operand. Either way the new operator is installed and the
   * operand buffer emptied, unless the evaluation divided by zero.
   */
  function HandleOperator(nm: Numerics, s: State, op: string): (r: State)
    ensures r.isError <==>
      EvaluatesPending(s) && s.operator.value == "/" && OrZero(nm.parse(s.currentValue)) == Finite(0.0)
    ensures r.isError ==> r == HandleError(s)
    ensures !r.isError ==> r.operator == Some(op) && r.currentValue == "" && r.previousValue.Some?
    ensures !r.isError && EvaluatesPending(s) ==>
      && r.previousValue.value
         == PerformCalculation(s.previousValue.GetOr(Finite(0.0)), OrZero(nm.parse(s.currentValue)), s.operator.value).value
      && r.display == FormatDisplay(nm, r.previousValue.value)
    ensures !EvaluatesPending(s) ==>
      r.previousValue == Some(OrZero(nm.parse(s.currentValue))) && r.display == s.display
  {
    var t := Recover(s);
    var currentNum := OrZero(nm.parse(s.currentValue));
    if EvaluatesPending(s) then
      match PerformCalculation(s.previousValue.GetOr(Finite(0.0)), currentNum, s.operator.value)
      case Success(result) =>
        t.(previousValue := Some(result), currentValue := "", operator := Some(op),
           display := FormatDisplay(nm, result))
      case Failure(_) => HandleError(t)
    else
      t.(previousValue := Some(currentNum), currentValue := "", operator := Some(op))
  }

  /**
   * The percent key: with a left operand and an operand, the operand becomes
   * `previousValue * operand / 100` (formatted); otherwise only the error flag is reset.
   */
  function HandlePercentage(nm: Numerics, s: State): (r: State)
    ensures !r.isError
    ensures r.previousValue == s.previousValue && r.operator == s.operator
    ensures s.previousValue.None? || s.currentValue == "" ==> r == Recover(s)
    ensures s.previousValue.Some? && s.currentValue != "" ==>
      r.display == r.currentValue
      && r.currentValue == FormatDisplay(nm, Div(Mul(s.previousValue.value, nm.parse(s.currentValue)), Finite(100.0)))
  {
    var t := Recover(s);
    if s.previousValue.Some? && s.currentValue != "" then
      var current := nm.parse(s.currentValue);
      var percentage := Div(Mul(s.previousValue.value, current), Finite(100.0));
      t.(currentValue := FormatDisplay(nm, percentage), display := FormatDisplay(nm, percentage))
    else t
  }

  /** The sign key: a non-empty operand is replaced by the text of its negation. */
  function ToggleSign(nm: Numerics, s: State): (r: State)
    ensures !r.isError
    ensures r.previousValue == s.previousValue && r.operator == s.operator
    ensures s.currentValue == "" ==> r == Recover(s)
    ensures s.currentValue != "" ==>
      r.display == r.currentValue && r.currentValue == Show(nm, Neg(nm.parse(s.currentValue)))
  {
    var t := Recover(s);
    if s.currentValue != "" then
      var newValue := Show(nm, Neg(nm.parse(s.currentValue)));
      t.(currentValue := newValue, display := newValue)
    else t
  }

  /**
   * The equals key: without a pending operator or an operand nothing happens;
   * otherwise the pending pair is evaluated and the operation consumed, the
   * formatted result becoming both display and operand, or the error state on
   * division by zero.
   */
  function Calculate(nm: Numerics, s: State): (r: State)
    ensures !EvaluatesPending(s) ==> r == s
    ensures EvaluatesPending(s) ==> r.operator.None? && r.previousValue.None?
    ensures EvaluatesPending(s) ==>
      (r.isError <==> s.operator.value == "/" && nm.parse(s.currentValue) == Finite(0.0))
    ensures EvaluatesPending(s) && r.isError ==> r == HandleError(s)
    ensures EvaluatesPending(s) && !r.isError ==>
      r.display == r.currentValue
      && r.display
         == FormatDisplay(nm, PerformCalculation(s.previousValue.GetOr(Finite(0.0)), nm.parse(s.currentValue), s.operator.value).value)
  {
    if !EvaluatesPending(s) then s
    else
      match PerformCalculation(s.previousValue.GetOr(Finite(0.0)), nm.parse(s.currentValue), s.operator.value)
      case Success(result) =>
        var text := FormatDisplay(nm, result);
        s.(display := text, previousValue := None, currentValue := text, operator := None, isError := false)
      case Failure(_) => HandleError(s)
  }

  /** The clear key: back to the initial state from anywhere. */
  function Clear(s: State): (r: State)
    ensures r.display == "0" && r.currentValue == "" && !r.isError
    ensures r.previousValue.None? && r.operator.None?
  {
    Initial
  }

  /** The keys of the archived calculator. */
  datatype Event =
    | DigitPressed(d: Digit)
    | PointPressed
    | OperatorPressed(op: string)
    | PercentPressed
    | SignPressed
    | EqualsPressed
    | ClearPressed

  function Step(nm: Numerics, s: State, e: Event): State {
    match e
    case DigitPressed(d) => HandleNumber(s, [d])
    case PointPressed => HandleDecimal(s)
    case OperatorPressed(op) => HandleOperator(nm, s, op)
    case PercentPressed => HandlePercentage(nm, s)
    case SignPressed => ToggleSign(nm, s)
    case EqualsPressed => Calculate(nm, s)
    case ClearPressed => Clear(s)
  }

  /** The state after handling `es` in order, each to completion. */
  function Run(nm: Numerics, s: State, es: seq<Event>): State
    decreases |es|
  {
    if es == [] then s else Run(nm, Step(nm, s, es[0]), es[1..])
  }
}
