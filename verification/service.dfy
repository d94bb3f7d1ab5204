/**
 * The expression-string calculator service: the display text, the
 * expression typed so far, a bounded history and a flag saying the display
 * holds a result. Evaluation of the expression is outside the model; its
 * outcome is an input of the equals key.
 */
module Service {
  import opened Text
  import opened Numbers
  import opened History

  const MaxDigits: nat := 12
  const ErrorMsg: string := "Error"

  datatype State = State(display: string, expression: string, history: seq<string>, isResult: bool)

  const Initial: State := State("0", "", [], false)

  /** What evaluating the expression did: returned a number, or threw. */
  datatype EvalOutcome = Returned(value: Num) | Threw

  /** The clear key: display "0", empty expression; the history is kept. */
  function Reset(s: State): (r: State)
    ensures r.display == "0" && r.expression == "" && !r.isResult
    ensures r.history == s.history
  {
    s.(display := "0", expression := "", isResult := false)
  }

  /** The error state: "Error" shown, empty expression, marked as a result; the history is kept. */
  function SetError(s: State): (r: State)
    ensures r.display == ErrorMsg && r.expression == "" && r.isResult
    ensures r.history == s.history
  {
    s.(display := ErrorMsg, expression := "", isResult := true)
  }

  /** Input first leaves an error display by resetting. */
  function LeaveError(s: State): (r: State)
    ensures s.display == ErrorMsg ==> r == Reset(s)
    ensures s.display != ErrorMsg ==> r == s
  {
    if s.display == ErrorMsg then Reset(s) else s
  }

  /** The text a fresh operand starts with: "0." for the point, the key otherwise. */
  function StartText(value: string): (r: string)
    ensures value != "." ==> r == value
    ensures value == "." ==> r == "0."
  {
    if value == "." then "0." else value
  }

  /**
   * The branch structure of `appendInput` after the error reset, with the
   * expression that the zero-overwrite branch installs given as `overwritten`.
   */
  function AppendAfter(t: State, value: string, overwritten: string): (r: State)
    ensures r.history == t.history && !r.isResult
    ensures t.isResult ==> r.display == StartText(value) && r.expression == StartText(value)
    ensures !t.isResult && value == "." && '.' in t.display ==> r == t
    ensures !t.isResult && t.display == "0" && value != "." ==> r.display == value && r.expression == overwritten
    ensures !t.isResult && t.display != "0" && !(value == "." && '.' in t.display) && |t.display| >= MaxDigits ==> r == t
  {
    if t.isResult then
      t.(display := StartText(value), expression := StartText(value), isResult := false)
    else if value == "." && '.' in t.display then
      t
    else if t.display == "0" && value != "." then
      t.(display := value, expression := overwritten)
    else if |t.display| < MaxDigits then
      t.(display := t.display + value, expression := t.expression + value)
    else
      t
  }

  /** What every branch of `appendInput` guarantees, whatever the overwrite text. */
  lemma AppendAfterFacts(t: State, value: string, overwritten: string)
    ensures var r := AppendAfter(t, value, overwritten);
      && r.history == t.history && !r.isResult
      && (value != "" && t.display != "" ==> r.display != "")
      && (|value| <= 1 ==> |r.display| <= MaxDigits || r == t)
      && (!t.isResult ==>
            r.expression == t.expression || r.expression == t.expression + value || r.expression == overwritten)
      && (!t.isResult && !(value == "." && '.' in t.display) && !(t.display == "0" && value != ".")
            && |t.display| < MaxDigits ==>
            r.display == t.display + value && r.expression == t.expression + value)
  {
  }

  /**
   * `appendInput` as the source writes it: on a "0" display a non-point key
   * replaces both the display and the WHOLE expression.
   */
  function AppendInputAsWritten(s: State, value: string): (r: State)
    ensures r.history == s.history && !r.isResult
    ensures value != "" && s.display != "" ==> r.display != ""
    ensures LeaveError(s).isResult ==>
      r.display == StartText(value) && r.expression == StartText(value) && !r.isResult
    ensures !s.isResult && s.display != ErrorMsg && value == "." && '.' in s.display ==> r == s
    ensures var t := LeaveError(s);
      !t.isResult && t.display == "0" && value != "." ==> r.display == value && r.expression == value
    ensures !s.isResult && s.display !in {ErrorMsg, "0"} && |s.display| >= MaxDigits ==> r == s
    ensures var t := LeaveError(s);
      !t.isResult && !(value == "." && '.' in t.display) && !(t.display == "0" && value != ".")
        && |t.display| < MaxDigits ==>
      r.display == t.display + value && r.expression == t.expression + value
    ensures |value| <= 1 ==> |r.display| <= MaxDigits || r == s
  {
    var t := LeaveError(s);
    AppendAfterFacts(t, value, value);
    AppendAfter(t, value, value)
  }

  /** The expression ends in an operand that is exactly the placeholder "0". */
  predicate EndsWithZeroOperand(e: string) {
    e == "0" || (|e| >= 2 && e[|e| - 1] == '0' && IsOperatorChar(e[|e| - 2]))
  }

  /** The expression with a trailing lone "0" operand removed. */
  function DropZeroOperand(e: string): (r: string)
    ensures EndsWithZeroOperand(e) ==> r + "0" == e
    ensures !EndsWithZeroOperand(e) ==> r == e
  {
    if EndsWithZeroOperand(e) then DropLast(e) else e
  }

  /**
   * `appendInput` as the calculation trace documented beside `calculate`
   * intends it: the display behaves exactly as written, but on a "0" display
   * the key replaces only a placeholder "0" operand in the expression, so the
   * left operand and the pending operator survive.
   */
  function AppendInput(s: State, value: string): (r: State)
    ensures r.history == s.history && !r.isResult
    ensures value != "" && s.display != "" ==> r.display != ""
    ensures !LeaveError(s).isResult ==>
      var e := LeaveError(s).expression;
      || r.expression == e
      || r.expression == e + value
      || (EndsWithZeroOperand(e) && r.expression == DropLast(e) + value)
    ensures !LeaveError(s).isResult && EndsWithOperator(s.expression) && s.display == "0" && value != "." ==>
      r.expression == s.expression + value
    ensures var t := LeaveError(s);
      !t.isResult && !(value == "." && '.' in t.display) && !(t.display == "0" && value != ".")
        && |t.display| < MaxDigits ==>
      r.display == t.display + value && r.expression == t.expression + value
    ensures |value| <= 1 ==> |r.display| <= MaxDigits || r == s
  {
    var t := LeaveError(s);
    var overwritten := DropZeroOperand(t.expression) + value;
    assert EndsWithOperator(t.expression) ==> overwritten == t.expression + value;
    assert s.display == "0" ==> t == s && "0" != ErrorMsg;
    assert overwritten == t.expression + value || (EndsWithZeroOperand(t.expression) && overwritten == DropLast(t.expression) + value);
    AppendAfterFacts(t, value, overwritten);
    AppendAfter(t, value, overwritten)
  }

  /** The correction changes the expression only: display, flag and history are as written. */
  lemma CorrectionOnlyChangesExpression(s: State, value: string)
    ensures AppendInput(s, value) == AppendInputAsWritten(s, value).(expression := AppendInput(s, value).expression)
    ensures var t := LeaveError(s);
      !(!t.isResult && t.display == "0" && value != ".") ==> AppendInput(s, value) == AppendInputAsWritten(s, value)
    ensures var t := LeaveError(s);
      !t.isResult && t.display == "0" && value != "." ==>
        && (EndsWithZeroOperand(t.expression) ==> AppendInput(s, value).expression == DropLast(t.expression) + value)
        && (!EndsWithZeroOperand(t.expression) ==> AppendInput(s, value).expression == t.expression + value)
  {
  }

  /** The keypad's operator labels mapped to the operators of the expression. */
  function JsOperator(op: string): (r: string)
    ensures op in {"\U{00D7}", "\U{00F7}", "+", "\U{2212}"} ==> |r| == 1 && IsOperatorChar(r[0])
    ensures op == "\U{00D7}" ==> r == "*"
    ensures op == "\U{00F7}" ==> r == "/"
    ensures op == "+" ==> r == "+"
    ensures op == "\U{2212}" ==> r == "-"
    ensures op == "%" ==> r == "/100"
    ensures op !in {"\U{00D7}", "\U{00F7}", "+", "\U{2212}", "%"} ==> r == op
  {
    match op
    case "\U{00D7}" => "*"
    case "\U{00F7}" => "/"
    case "+" => "+"
    case "\U{2212}" => "-"
    case "%" => "/100"
    case _ => op
  }

  /** `calculatePercentage`: the display divided by 100 becomes display and expression, as a result. */
  function CalculatePercentage(nm: Numerics, s: State): (r: State)
    ensures r.isResult && r.display == r.expression
    ensures r.display == Show(nm, Div(nm.parse(s.display), Finite(100.0)))
    ensures r.history == s.history
  {
    var val := Show(nm, Div(nm.parse(s.display), Finite(100.0)));
    s.(display := val, expression := val, isResult := true)
  }

  /**
   * `setOperator`: ignored on an error display. A trailing operator in the
   * expression is replaced (or, for "%", left alone); otherwise "%" applies
   * the percentage and any other operator is appended with the display reset
   * to "0" for the next operand.
   */
  function SetOperator(nm: Numerics, s: State, op: string): (r: State)
    ensures s.display == ErrorMsg ==> r == s
    ensures r.history == s.history
    ensures s.display != ErrorMsg && EndsWithOperator(s.expression) ==>
      && r.display == s.display && !r.isResult
      && (op == "%" ==> r.expression == s.expression)
      && (op != "%" ==> r.expression == DropLast(s.expression) + JsOperator(op))
    ensures s.display != ErrorMsg && !EndsWithOperator(s.expression) && op != "%" ==>
      r.expression == s.expression + JsOperator(op) && r.display == "0" && !r.isResult
    ensures s.display != ErrorMsg && !EndsWithOperator(s.expression) && op == "%" ==>
      r == CalculatePercentage(nm, s.(isResult := false))
    ensures op in {"\U{00D7}", "\U{00F7}", "+", "\U{2212}"} && s.display != ErrorMsg && NoAdjacentOperators(s.expression) ==>
      NoAdjacentOperators(r.expression) && EndsWithOperator(r.expression)
    ensures op in {"\U{00D7}", "\U{00F7}", "+", "\U{2212}"} && s.display != ErrorMsg && EndsWithOperator(s.expression) ==>
      |r.expression| == |s.expression|
  {
    if s.display == ErrorMsg then s
    else
      var t := s.(isResult := false);
      var expr := t.expression;
      if EndsWithOperator(expr) then
        if op == "%" then t
        else
          OperatorReplacementKeepsNoAdjacent(expr, JsOperator(op));
          t.(expression := DropLast(expr) + JsOperator(op))
      else if op == "%" then
        CalculatePercentage(nm, t)
      else
        OperatorAppendKeepsNoAdjacent(expr, JsOperator(op));
        t.(expression := expr + JsOperator(op), display := "0")
  }

  lemma OperatorReplacementKeepsNoAdjacent(e: string, o: string)
    requires EndsWithOperator(e)
    ensures NoAdjacentOperators(e) && |o| == 1 && IsOperatorChar(o[0]) ==>
      NoAdjacentOperators(DropLast(e) + o) && EndsWithOperator(DropLast(e) + o)
  {
    if NoAdjacentOperators(e) && |o| == 1 && IsOperatorChar(o[0]) {
      var d := DropLast(e);
      DropLastKeepsNoAdjacent(e);
      if |d| > 0 {
        assert d[|d| - 1] == e[|e| - 2];
      }
      ConcatKeepsNoAdjacent(d, o);
    }
  }

  lemma OperatorAppendKeepsNoAdjacent(e: string, o: string)
    requires !EndsWithOperator(e)
    ensures NoAdjacentOperators(e) && |o| == 1 && IsOperatorChar(o[0]) ==>
      NoAdjacentOperators(e + o) && EndsWithOperator(e + o)
  {
    if NoAdjacentOperators(e) && |o| == 1 && IsOperatorChar(o[0]) {
      ConcatKeepsNoAdjacent(e, o);
    }
  }

  /** The expression that is evaluated: a trailing operator is dropped. */
  function TrimmedExpression(e: string): (r: string)
    ensures !EndsWithOperator(e) ==> r == e
    ensures EndsWithOperator(e) ==> r + [e[|e| - 1]] == e
  {
    if EndsWithOperator(e) then DropLast(e) else e
  }

  /**
   * `calculate`: ignored on an error display. A throwing evaluation enters
   * the error state; otherwise the formatted result becomes display and
   * expression and the entry "expression = result" is pushed to the history.
   */
  function Calculate(nm: Numerics, s: State, outcome: EvalOutcome): (r: State)
    ensures s.display == ErrorMsg ==> r == s
    ensures s.display != ErrorMsg && outcome.Threw? ==> r == SetError(s)
    ensures s.display != ErrorMsg && outcome.Returned? ==>
      && r.isResult
      && r.display == r.expression == FormatResult(nm, outcome.value)
      && r.history == Push(s.history, TrimmedExpression(s.expression) + " = " + r.display)
    ensures r.history != s.history ==> outcome.Returned? && |r.history| <= Capacity
  {
    if s.display == ErrorMsg then s
    else
      var expr := TrimmedExpression(s.expression);
      match outcome
      case Threw => SetError(s)
      case Returned(n) =>
        var limited := FormatResult(nm, n);
        s.(display := limited, expression := limited,
           history := Push(s.history, expr + " = " + limited), isResult := true)
  }

  /**
   * `deleteLast`: a result or error display resets. Otherwise the display
   * loses its last character, becoming "0" when one character is left, and
   * the expression loses its last character.
   */
  function DeleteLast(s: State): (r: State)
    ensures s.isResult || s.display == ErrorMsg ==> r == Reset(s)
    ensures !s.isResult && s.display != ErrorMsg ==>
      && r.expression == DropLast(s.expression) && !r.isResult && r.history == s.history
      && (|s.display| > 1 ==> r.display + [s.display[|s.display| - 1]] == s.display)
      && (|s.display| <= 1 ==> r.display == "0")
  {
    if s.isResult || s.display == ErrorMsg then Reset(s)
    else if |s.display| > 1 then s.(display := DropLast(s.display), expression := DropLast(s.expression))
    else s.(display := "0", expression := DropLast(s.expression))
  }
}
