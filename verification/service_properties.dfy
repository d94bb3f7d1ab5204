/** Properties of the expression-string service over single keys and key sequences. */
module ServiceProperties {
  import opened Text
  import opened Numbers
  import opened History
  import opened Service

  /** A key of the number pad: a digit or the decimal point. */
  type Key = c: char | IsDigit(c) || c == '.' witness '0'

  /** The operator keys, by the label the keypad passes to `setOperator`. */
  datatype OperatorKey = Times | Divide | Plus | Minus | PercentSign {
    function Label(): (r: string)
      ensures this != PercentSign <==> r in {"\U{00D7}", "\U{00F7}", "+", "\U{2212}"}
    {
      match this
      case Times => "\U{00D7}"
      case Divide => "\U{00F7}"
      case Plus => "+"
      case Minus => "\U{2212}"
      case PercentSign => "%"
    }
  }

  /** The service's entry points as driven by the keypad and keyboard. */
  datatype Event =
    | KeyPressed(k: Key)
    | OperatorPressed(o: OperatorKey)
    | PercentPressed
    | EqualsPressed(outcome: EvalOutcome)
    | ClearPressed
    | BackspacePressed

  /**
   * One event handled to completion; `corrected` selects the corrected
   * `AppendInput` for number-pad keys, otherwise the input is handled as written.
   */
  function Step(nm: Numerics, corrected: bool, s: State, e: Event): State {
    match e
    case KeyPressed(k) => if corrected then AppendInput(s, [k]) else AppendInputAsWritten(s, [k])
    case OperatorPressed(o) => SetOperator(nm, s, o.Label())
    case PercentPressed => CalculatePercentage(nm, s)
    case EqualsPressed(outcome) => Calculate(nm, s, outcome)
    case ClearPressed => Reset(s)
    case BackspacePressed => DeleteLast(s)
  }

  /** The state after handling `es` in order, each to completion. */
  function Run(nm: Numerics, corrected: bool, s: State, es: seq<Event>): State
    decreases |es|
  {
    if es == [] then s else Run(nm, corrected, Step(nm, corrected, s, es[0]), es[1..])
  }

  /** Text a number printer may produce: non-empty, not ending in an operator, no two operators together. */
  predicate PrintedNumber(t: string) {
    t != "" && !EndsWithOperator(t) && NoAdjacentOperators(t)
  }

  /** The printers behind `toString` and `formatResult` produce number-like text. */
  ghost predicate NumberLikeFormats(nm: Numerics) {
    forall v :: PrintedNumber(nm.show(v)) && PrintedNumber(nm.resultFormat(v))
  }

  /**
   * What every reachable state satisfies: at most five history entries, no
   * two adjacent operators in the expression, a non-empty display of at most
   * twelve characters while a number is being entered, and no trailing
   * operator left in the expression of a result.
   */
  predicate Invariant(s: State) {
    && |s.history| <= Capacity
    && NoAdjacentOperators(s.expression)
    && (s.isResult ==> !EndsWithOperator(s.expression))
    && s.display != ""
    && (!s.isResult ==> |s.display| <= MaxDigits)
  }

  lemma InitialInvariant()
    ensures Invariant(Initial)
  {
  }

  lemma PrintedShow(nm: Numerics, a: Num)
    requires NumberLikeFormats(nm)
    ensures PrintedNumber(Show(nm, a))
  {
    if a.Finite? {
      assert PrintedNumber(nm.show(a.v));
    } else {
      assert PrintedNumber("NaN");
    }
  }

  lemma PrintedResult(nm: Numerics, a: Num)
    requires NumberLikeFormats(nm)
    ensures PrintedNumber(FormatResult(nm, a))
  {
    if a.Finite? {
      assert PrintedNumber(nm.resultFormat(a.v));
    } else {
      assert PrintedNumber("Error");
    }
  }

  /** Either input version keeps the invariant when the text it may install has no adjacent operators. */
  lemma AppendAfterKeepsInvariant(t: State, k: Key, overwritten: string)
    requires Invariant(t) && NoAdjacentOperators(overwritten)
    ensures Invariant(AppendAfter(t, [k], overwritten))
  {
    AppendAfterFacts(t, [k], overwritten);
    var r := AppendAfter(t, [k], overwritten);
    assert NoAdjacentOperators([k]);
    if t.isResult {
      assert NoAdjacentOperators("0.");
    } else if r.expression == t.expression + [k] {
      ConcatKeepsNoAdjacent(t.expression, [k]);
    }
  }

  /** A number-pad key keeps the invariant. */
  lemma KeyKeepsInvariant(s: State, k: Key)
    requires Invariant(s)
    ensures Invariant(AppendInput(s, [k]))
  {
    var t := LeaveError(s);
    var e := t.expression;
    assert NoAdjacentOperators([k]);
    if EndsWithZeroOperand(e) {
      DropLastKeepsNoAdjacent(e);
      ConcatKeepsNoAdjacent(DropLast(e), [k]);
    } else {
      ConcatKeepsNoAdjacent(e, [k]);
    }
    AppendAfterKeepsInvariant(t, k, DropZeroOperand(e) + [k]);
  }

  /** A number-pad key handled as written keeps the invariant too. */
  lemma AsWrittenKeyKeepsInvariant(s: State, k: Key)
    requires Invariant(s)
    ensures Invariant(AppendInputAsWritten(s, [k]))
  {
    assert NoAdjacentOperators([k]);
    AppendAfterKeepsInvariant(LeaveError(s), k, [k]);
  }

  /** An operator key keeps the invariant. */
  lemma OperatorKeepsInvariant(nm: Numerics, s: State, o: OperatorKey)
    requires NumberLikeFormats(nm)
    requires Invariant(s)
    ensures Invariant(SetOperator(nm, s, o.Label()))
  {
    if s.display != ErrorMsg && !EndsWithOperator(s.expression) && o == PercentSign {
      PrintedShow(nm, Div(nm.parse(s.display), Finite(100.0)));
    }
  }

  /** Every event keeps the invariant. */
  lemma StepKeepsInvariant(nm: Numerics, corrected: bool, s: State, e: Event)
    requires NumberLikeFormats(nm)
    requires Invariant(s)
    ensures Invariant(Step(nm, corrected, s, e))
  {
    match e
    case KeyPressed(k) =>
      if corrected {
        KeyKeepsInvariant(s, k);
      } else {
        AsWrittenKeyKeepsInvariant(s, k);
      }
    case OperatorPressed(o) => OperatorKeepsInvariant(nm, s, o);
    case PercentPressed => PrintedShow(nm, Div(nm.parse(s.display), Finite(100.0)));
    case EqualsPressed(outcome) =>
      if s.display != ErrorMsg && outcome.Returned? {
        PrintedResult(nm, outcome.value);
      }
    case ClearPressed =>
    case BackspacePressed =>
      DropLastKeepsNoAdjacent(s.expression);
  }

  /**
   * Whatever events arrive, the history never holds more than five entries,
   * the expression never has two adjacent operators, and the display is
   * never empty and never longer than twelve characters while entering.
   */
  lemma {:induction false} RunKeepsInvariant(nm: Numerics, corrected: bool, s: State, es: seq<Event>)
    requires NumberLikeFormats(nm)
    requires Invariant(s)
    ensures Invariant(Run(nm, corrected, s, es))
    decreases |es|
  {
    if es != [] {
      StepKeepsInvariant(nm, corrected, s, es[0]);
      RunKeepsInvariant(nm, corrected, Step(nm, corrected, s, es[0]), es[1..]);
    }
  }

  /** A second decimal point on the display changes nothing. */
  lemma SecondPointIgnored(s: State)
    requires !s.isResult && s.display != ErrorMsg && '.' in s.display
    ensures AppendInput(s, ".") == s
  {
  }

  /** An error display is left by the next key: the key starts a fresh entry. */
  lemma ErrorThenDigit(s: State, d: Digit)
    requires s.display == ErrorMsg
    ensures AppendInput(s, [d]) == s.(display := [d], expression := [d], isResult := false)
    ensures AppendInputAsWritten(s, [d]) == s.(display := [d], expression := [d], isResult := false)
  {
  }

  /** On the ordinary branch both input versions append the key to display and expression. */
  lemma KeyAppends(nm: Numerics, corrected: bool, s: State, k: Key)
    requires !s.isResult && s.display != ErrorMsg && s.display != "0"
    requires !(k == '.' && '.' in s.display) && |s.display| < MaxDigits
    ensures Step(nm, corrected, s, KeyPressed(k)) == s.(display := s.display + [k], expression := s.expression + [k])
  {
    assert LeaveError(s) == s;
  }

  /** Typing 1, 2, ., 5 from the start shows and records "12.5", whichever input version runs. */
  lemma TypedEntryExample(nm: Numerics, corrected: bool)
    ensures var r := Run(nm, corrected, Initial, [KeyPressed('1'), KeyPressed('2'), KeyPressed('.'), KeyPressed('5')]);
      r.display == "12.5" && r.expression == "12.5" && !r.isResult
  {
    assert LeaveError(Initial) == Initial;
    var s1 := Step(nm, corrected, Initial, KeyPressed('1'));
    assert s1 == State("1", "1", [], false);
    KeyAppends(nm, corrected, s1, '2');
    var s2 := Step(nm, corrected, s1, KeyPressed('2'));
    assert s2 == State("12", "12", [], false);
    KeyAppends(nm, corrected, s2, '.');
    var s3 := Step(nm, corrected, s2, KeyPressed('.'));
    assert s3 == State("12.", "12.", [], false);
    KeyAppends(nm, corrected, s3, '5');
    var s4 := Step(nm, corrected, s3, KeyPressed('5'));
    assert s4 == State("12.5", "12.5", [], false);
    var es := [KeyPressed('1'), KeyPressed('2'), KeyPressed('.'), KeyPressed('5')];
    assert Run(nm, corrected, s4, es[4..]) == s4;
    assert Run(nm, corrected, s3, es[3..]) == s4;
    assert Run(nm, corrected, s2, es[2..]) == s4;
    assert Run(nm, corrected, s1, es[1..]) == s4;
  }

  /** Backspace on a result or error is clear. */
  lemma BackspaceAfterResultClears(s: State)
    requires s.isResult || s.display == ErrorMsg
    ensures DeleteLast(s) == Reset(s)
  {
  }

  /** Clear yields the same display, expression and flag from anywhere, and is idempotent. */
  lemma ResetIdempotent(s: State)
    ensures Reset(Reset(s)) == Reset(s)
    ensures Reset(s) == Initial.(history := s.history)
  {
  }

  /**
   * As written, typing "5", "+", "3" leaves the expression "3": the overwrite
   * of the "0" display after the operator discards "5+".
   */
  lemma AsWrittenLosesLeftOperand(nm: Numerics)
    ensures var s := SetOperator(nm, AppendInputAsWritten(Initial, "5"), "+");
      && s.expression == "5+" && s.display == "0"
      && AppendInputAsWritten(s, "3").expression == "3"
  {
    assert LeaveError(Initial) == Initial;
    var s1 := AppendInputAsWritten(Initial, "5");
    assert s1 == State("5", "5", [], false);
    assert !EndsWithOperator("5") && JsOperator("+") == "+" && "5" + "+" == "5+";
    var s := SetOperator(nm, s1, "+");
    assert s == State("0", "5+", [], false);
    assert LeaveError(s) == s;
    assert AppendInputAsWritten(s, "3") == State("3", "3", [], false);
  }

  /** With the correction, typing "5", "+", "3" leaves the expression "5+3". */
  lemma CorrectedKeepsLeftOperand(nm: Numerics)
    ensures var s := SetOperator(nm, AppendInput(Initial, "5"), "+");
      AppendInput(s, "3").expression == "5+3"
  {
    var s := SetOperator(nm, AppendInput(Initial, "5"), "+");
    assert s.expression == "5+" && s.display == "0" && !s.isResult;
    assert EndsWithOperator(s.expression);
  }

  /**
   * As written, any digit typed over a "0" display outside a result replaces
   * the whole expression, whatever operation was pending in it.
   */
  lemma AsWrittenOverwriteForgetsExpression(s: State, d: Digit)
    requires !s.isResult && s.display == "0"
    ensures AppendInputAsWritten(s, [d]).expression == [d]
    ensures EndsWithOperator(s.expression) ==> AppendInputAsWritten(s, [d]).expression != s.expression + [d]
  {
  }
}
