/** Properties of the archived calculator over single keys and key sequences. */
module EngineProperties {
  import opened Wrappers
  import opened Text
  import opened Numbers
  import opened Accumulator
  import opened Evaluator
  import opened Engine

  /** Handling two sequences one after the other is handling their concatenation. */
  lemma {:induction false} RunConcat(nm: Numerics, s: State, a: seq<Event>, b: seq<Event>)
    ensures Run(nm, s, a + b) == Run(nm, Run(nm, s, a), b)
    decreases |a|
  {
    if a != [] {
      assert (a + b)[0] == a[0];
      assert (a + b)[1..] == a[1..] + b;
      RunConcat(nm, Step(nm, s, a[0]), a[1..], b);
    } else {
      assert a + b == b;
    }
  }

  /**
   * The structural invariant: the error state has nothing pending and shows
   * "Error", and an installed operator always has a left operand.
   */
  predicate Consistent(s: State) {
    && (s.isError ==>
          s.display == ErrorText && s.currentValue == "" && s.previousValue.None? && s.operator.None?)
    && (s.operator.Some? ==> s.previousValue.Some?)
  }

  /** The number printers never produce text with two decimal points. */
  ghost predicate SinglePointFormats(nm: Numerics) {
    forall v :: Count(nm.show(v), '.') <= 1 && Count(nm.displayFormat(v), '.') <= 1
  }

  /** What every reachable state satisfies. */
  predicate Invariant(s: State) {
    Consistent(s) && Count(s.currentValue, '.') <= 1
  }

  lemma InitialInvariant()
    ensures Invariant(Initial)
  {
    assert Count("", '.') == 0;
  }

  /** Every key keeps the invariant. */
  lemma StepKeepsInvariant(nm: Numerics, s: State, e: Event)
    requires SinglePointFormats(nm)
    requires Invariant(s)
    ensures Invariant(Step(nm, s, e))
  {
    var r := Step(nm, s, e);
    match e
    case DigitPressed(d) =>
      CountAppend(s.currentValue, [d], '.');
      if r.currentValue != s.currentValue {
        if ['0'] + r.currentValue == s.currentValue + [d] {
          CountAppend(['0'], r.currentValue, '.');
        }
      }
    case PointPressed =>
    case OperatorPressed(op) =>
      assert Count("", '.') == 0;
    case PercentPressed =>
      if s.previousValue.Some? && s.currentValue != "" {
        var p := Div(Mul(s.previousValue.value, nm.parse(s.currentValue)), Finite(100.0));
        if p.Finite? {
          assert Count(nm.displayFormat(p.v), '.') <= 1;
        } else {
          assert Count("NaN", '.') == 0;
        }
      }
    case SignPressed =>
      if s.currentValue != "" {
        var n := Neg(nm.parse(s.currentValue));
        if n.Finite? {
          assert Count(nm.show(n.v), '.') <= 1;
        } else {
          assert Count("NaN", '.') == 0;
        }
      }
    case EqualsPressed =>
      assert Count("", '.') == 0;
      if EvaluatesPending(s) && !r.isError {
        var p := PerformCalculation(s.previousValue.GetOr(Finite(0.0)), nm.parse(s.currentValue), s.operator.value).value;
        if p.Finite? {
          assert Count(nm.displayFormat(p.v), '.') <= 1;
        } else {
          assert Count("NaN", '.') == 0;
        }
      }
    case ClearPressed =>
      InitialInvariant();
  }

  /**
   * From any reachable state, whatever keys are pressed, the operand never
   * holds two decimal points, the error state has nothing pending, and an
   * installed operator has a left operand.
   */
  lemma {:induction false} RunKeepsInvariant(nm: Numerics, s: State, es: seq<Event>)
    requires SinglePointFormats(nm)
    requires Invariant(s)
    ensures Invariant(Run(nm, s, es))
    decreases |es|
  {
    if es != [] {
      StepKeepsInvariant(nm, s, es[0]);
      RunKeepsInvariant(nm, Step(nm, s, es[0]), es[1..]);
    }
  }

  /** The key presses that type an operand. */
  function Keys(ts: seq<Token>): (es: seq<Event>)
    ensures |es| == |ts|
    ensures forall i :: 0 <= i < |ts| ==>
      es[i] == (match ts[i] case DigitKey(d) => DigitPressed(d) case PointKey => PointPressed)
  {
    if ts == [] then []
    else
      [match ts[0] case DigitKey(d) => DigitPressed(d) case PointKey => PointPressed] + Keys(ts[1..])
  }

  /**
   * Typing keys into the engine builds exactly the operand the accumulator
   * builds, leaves the pending operation alone and leaves the error state;
   * starting from an empty operand, the display ends up showing it.
   */
  lemma {:induction false} TypingBuildsOperand(nm: Numerics, s: State, ts: seq<Token>)
    requires ts != []
    requires s.currentValue == "" || ShowsOperand(s)
    ensures Run(nm, s, Keys(ts)).currentValue == BuildFrom(s.currentValue, ts)
    ensures Run(nm, s, Keys(ts)).previousValue == s.previousValue
    ensures Run(nm, s, Keys(ts)).operator == s.operator
    ensures !Run(nm, s, Keys(ts)).isError
    ensures ShowsOperand(Run(nm, s, Keys(ts)))
    decreases |ts|
  {
    var es := Keys(ts);
    var s1 := Step(nm, s, es[0]);
    assert es[1..] == Keys(ts[1..]);
    assert s1.currentValue == Feed(s.currentValue, ts[0]);
    assert ShowsOperand(s1);
    if |ts| > 1 {
      TypingBuildsOperand(nm, s1, ts[1..]);
    }
  }

  /** The left operand an operator key stores when nothing is pending. */
  function LeftOperand(nm: Numerics, text: string): Num {
    OrZero(nm.parse(text))
  }

  /**
   * `x op y =` from the initial state: the display is the formatted result of
   * `performCalculation`, with the operation consumed, or the error state
   * exactly when the operator is "/" and `y` parses to zero.
   */
  lemma TwoOperandEquals(nm: Numerics, xs: seq<Token>, op: string, ys: seq<Token>)
    requires xs != [] && ys != [] && op != ""
    ensures var r := Run(nm, Initial, Keys(xs) + [OperatorPressed(op)] + Keys(ys) + [EqualsPressed]);
      && (r.isError <==> op == "/" && nm.parse(Build(ys)) == Finite(0.0))
      && (r.isError ==> r.display == ErrorText)
      && (!r.isError ==>
            r.display == FormatDisplay(nm, PerformCalculation(LeftOperand(nm, Build(xs)), nm.parse(Build(ys)), op).value))
      && r.operator.None? && r.previousValue.None?
  {
    var s1 := Run(nm, Initial, Keys(xs));
    TypingBuildsOperand(nm, Initial, xs);
    var s2 := Step(nm, s1, OperatorPressed(op));
    assert !EvaluatesPending(s1);
    assert s2.previousValue == Some(LeftOperand(nm, Build(xs)));
    var s3 := Run(nm, s2, Keys(ys));
    TypingBuildsOperand(nm, s2, ys);
    BuildFromNonEmpty("", ys);
    assert EvaluatesPending(s3);
    assert s3.operator == Some(op) && s3.previousValue == Some(LeftOperand(nm, Build(xs)));
    assert s3.currentValue == Build(ys) && !s3.isError;
    RunConcat(nm, Initial, Keys(xs), [OperatorPressed(op)]);
    RunConcat(nm, Initial, Keys(xs) + [OperatorPressed(op)], Keys(ys));
    RunConcat(nm, Initial, Keys(xs) + [OperatorPressed(op)] + Keys(ys), [EqualsPressed]);
    assert Run(nm, s3, [EqualsPressed]) == Step(nm, s3, EqualsPressed);
  }

  /**
   * `x op1 y op2`: the second operator evaluates the pending pair and keeps
   * the result as the left operand (shown on the display) with `op2` pending,
   * or enters the error state on a division by zero.
   */
  lemma ChainedOperator(nm: Numerics, xs: seq<Token>, op1: string, ys: seq<Token>, op2: string)
    requires xs != [] && ys != [] && op1 != ""
    ensures var r := Run(nm, Initial, Keys(xs) + [OperatorPressed(op1)] + Keys(ys) + [OperatorPressed(op2)]);
      var a := LeftOperand(nm, Build(xs));
      var b := LeftOperand(nm, Build(ys));
      && (r.isError <==> op1 == "/" && b == Finite(0.0))
      && (!r.isError ==>
            && r.previousValue == Some(PerformCalculation(a, b, op1).value)
            && r.display == FormatDisplay(nm, PerformCalculation(a, b, op1).value)
            && r.operator == Some(op2) && r.currentValue == "")
  {
    var s1 := Run(nm, Initial, Keys(xs));
    TypingBuildsOperand(nm, Initial, xs);
    var s2 := Step(nm, s1, OperatorPressed(op1));
    var s3 := Run(nm, s2, Keys(ys));
    TypingBuildsOperand(nm, s2, ys);
    BuildFromNonEmpty("", ys);
    assert EvaluatesPending(s3);
    RunConcat(nm, Initial, Keys(xs), [OperatorPressed(op1)]);
    RunConcat(nm, Initial, Keys(xs) + [OperatorPressed(op1)], Keys(ys));
    RunConcat(nm, Initial, Keys(xs) + [OperatorPressed(op1)] + Keys(ys), [OperatorPressed(op2)]);
  }

  /** `x op y %`: the operand and display become `x * y / 100`, and `op` stays pending. */
  lemma PercentOfLeftOperand(nm: Numerics, xs: seq<Token>, op: string, ys: seq<Token>)
    requires xs != [] && ys != []
    ensures var r := Run(nm, Initial, Keys(xs) + [OperatorPressed(op)] + Keys(ys) + [PercentPressed]);
      && r.display == FormatDisplay(nm, Div(Mul(LeftOperand(nm, Build(xs)), nm.parse(Build(ys))), Finite(100.0)))
      && r.operator == Some(op) && !r.isError
  {
    var s1 := Run(nm, Initial, Keys(xs));
    TypingBuildsOperand(nm, Initial, xs);
    var s2 := Step(nm, s1, OperatorPressed(op));
    var s3 := Run(nm, s2, Keys(ys));
    TypingBuildsOperand(nm, s2, ys);
    BuildFromNonEmpty("", ys);
    RunConcat(nm, Initial, Keys(xs), [OperatorPressed(op)]);
    RunConcat(nm, Initial, Keys(xs) + [OperatorPressed(op)], Keys(ys));
    RunConcat(nm, Initial, Keys(xs) + [OperatorPressed(op)] + Keys(ys), [PercentPressed]);
  }

  /** In the error state the next digit both clears the error and starts a new operand. */
  lemma ErrorRecovery(nm: Numerics, s: State, d: Digit)
    requires Consistent(s) && s.isError
    ensures Step(nm, s, DigitPressed(d)) == State([d], None, [d], None, false)
  {
  }

  /** A digit that does not fit leaves an error-free state exactly as it was. */
  lemma DigitCapLeavesStateUnchanged(s: State, d: Digit)
    requires !s.isError
    requires AppendDigit(s.currentValue, [d]).None?
    ensures HandleNumber(s, [d]) == s
  {
  }

  /** Equals without a pending pair changes nothing. */
  lemma EqualsWithoutPendingIsNoOp(nm: Numerics, s: State)
    requires !OperatorPending(s) || s.currentValue == ""
    ensures Step(nm, s, EqualsPressed) == s
  {
  }

  /** Clear yields the same canonical state from any two states, so clearing twice is clearing once. */
  lemma ClearCanonical(s: State, t: State)
    ensures Clear(s) == Clear(t) == Initial
    ensures Clear(Clear(s)) == Clear(s)
  {
  }

  /** The error state is the same whatever state it was entered from. */
  lemma ErrorForgetsState(s: State, t: State)
    ensures HandleError(s) == HandleError(t)
    ensures HandleError(HandleError(s)) == HandleError(s)
  {
  }

  /** `5 + 3 -` leaves 8 as the left operand with "-" pending. */
  lemma ChainedPrefix(nm: Numerics)
    requires nm.parse("5") == Finite(5.0) && nm.parse("3") == Finite(3.0)
    ensures var r := Run(nm, Initial, [DigitPressed('5'), OperatorPressed("+"), DigitPressed('3'), OperatorPressed("-")]);
      r.previousValue == Some(Finite(8.0)) && r.operator == Some("-") && r.currentValue == "" && !r.isError
  {
    var xs, ys := [DigitKey('5')], [DigitKey('3')];
    assert Feed("", xs[0]) == "5" && xs[1..] == [];
    assert Feed("", ys[0]) == "3" && ys[1..] == [];
    assert Build(xs) == "5" && Build(ys) == "3";
    ChainedOperator(nm, xs, "+", ys, "-");
    assert LeftOperand(nm, "5") == Finite(5.0);
    assert Keys(xs) + [OperatorPressed("+")] + Keys(ys) + [OperatorPressed("-")]
        == [DigitPressed('5'), OperatorPressed("+"), DigitPressed('3'), OperatorPressed("-")];
  }

  /** With 8 as the left operand and "-" pending, `2 =` shows 6. */
  lemma ChainedTail(nm: Numerics, s: State)
    requires nm.parse("2") == Finite(2.0)
    requires s.previousValue == Some(Finite(8.0)) && s.operator == Some("-") && s.currentValue == "" && !s.isError
    ensures Run(nm, s, [DigitPressed('2'), EqualsPressed]).display == FormatDisplay(nm, Finite(6.0))
  {
    var rest := [DigitPressed('2'), EqualsPressed];
    assert "" + "2" == "2" && StripLeadingZero("2") == "2";
    assert AppendDigit("", "2") == Some("2");
    var s1 := Step(nm, s, rest[0]);
    assert s1.currentValue == "2" && s1.previousValue == Some(Finite(8.0)) && s1.operator == Some("-");
    assert PerformCalculation(Finite(8.0), Finite(2.0), "-") == Success(Finite(6.0));
    var s2 := Step(nm, s1, rest[1]);
    assert s2.display == FormatDisplay(nm, Finite(6.0));
    assert Run(nm, s, rest) == s2 by { assert rest[1..][1..] == []; }
  }

  /** `5 + 3 - 2 =` shows 6: the second operator already evaluated `5 + 3`. */
  lemma ChainedExample(nm: Numerics)
    requires nm.parse("5") == Finite(5.0) && nm.parse("3") == Finite(3.0) && nm.parse("2") == Finite(2.0)
    ensures Run(nm, Initial,
      [DigitPressed('5'), OperatorPressed("+"), DigitPressed('3'), OperatorPressed("-"), DigitPressed('2'), EqualsPressed]).display
      == FormatDisplay(nm, Finite(6.0))
  {
    var prefix := [DigitPressed('5'), OperatorPressed("+"), DigitPressed('3'), OperatorPressed("-")];
    var rest := [DigitPressed('2'), EqualsPressed];
    ChainedPrefix(nm);
    ChainedTail(nm, Run(nm, Initial, prefix));
    RunConcat(nm, Initial, prefix, rest);
    assert prefix + rest
        == [DigitPressed('5'), OperatorPressed("+"), DigitPressed('3'), OperatorPressed("-"), DigitPressed('2'), EqualsPressed];
  }

  /** `1 / 0 =` ends in the error state. */
  lemma DivideByZeroExample(nm: Numerics)
    requires nm.parse("0") == Finite(0.0)
    ensures var r := Run(nm, Initial, [DigitPressed('1'), OperatorPressed("/"), DigitPressed('0'), EqualsPressed]);
      r.isError && r.display == "Error"
  {
    var xs, ys := [DigitKey('1')], [DigitKey('0')];
    assert Feed("", ys[0]) == "0" && ys[1..] == [];
    assert Build(ys) == "0";
    TwoOperandEquals(nm, xs, "/", ys);
    assert Keys(xs) + [OperatorPressed("/")] + Keys(ys) + [EqualsPressed]
        == [DigitPressed('1'), OperatorPressed("/"), DigitPressed('0'), EqualsPressed];
  }

  /** The operands "200" and "10" typed key by key. */
  lemma TypedOperandExamples()
    ensures Build([DigitKey('2'), DigitKey('0'), DigitKey('0')]) == "200"
    ensures Build([DigitKey('1'), DigitKey('0')]) == "10"
  {
    var xs, ys := [DigitKey('2'), DigitKey('0'), DigitKey('0')], [DigitKey('1'), DigitKey('0')];
    assert "2" + "0" == "20" && "20" + "0" == "200" && "1" + "0" == "10";
    assert Feed("", xs[0]) == "2" && Feed("2", xs[1]) == "20" && Feed("20", xs[2]) == "200";
    assert BuildFrom("20", xs[2..]) == BuildFrom("200", []) by { assert xs[2..][1..] == []; }
    assert BuildFrom("2", xs[1..]) == BuildFrom("20", xs[2..]) by { assert xs[1..][1..] == xs[2..]; }
    assert Feed("", ys[0]) == "1" && Feed("1", ys[1]) == "10";
    assert BuildFrom("1", ys[1..]) == BuildFrom("10", []) by { assert ys[1..][1..] == []; }
  }

  /** The key events of `200 * 10 %`. */
  lemma PercentKeys(xs: seq<Token>, ys: seq<Token>)
    requires xs == [DigitKey('2'), DigitKey('0'), DigitKey('0')] && ys == [DigitKey('1'), DigitKey('0')]
    ensures Keys(xs) + [OperatorPressed("*")] + Keys(ys) + [PercentPressed]
         == [DigitPressed('2'), DigitPressed('0'), DigitPressed('0'), OperatorPressed("*"),
             DigitPressed('1'), DigitPressed('0'), PercentPressed]
  {
    assert Keys(xs) == [DigitPressed('2'), DigitPressed('0'), DigitPressed('0')];
    assert Keys(ys) == [DigitPressed('1'), DigitPressed('0')];
  }

  /** `200 * 10 %` shows 20. */
  lemma PercentExample(nm: Numerics)
    requires nm.parse("200") == Finite(200.0) && nm.parse("10") == Finite(10.0)
    ensures Run(nm, Initial,
      [DigitPressed('2'), DigitPressed('0'), DigitPressed('0'), OperatorPressed("*"),
       DigitPressed('1'), DigitPressed('0'), PercentPressed]).display
      == FormatDisplay(nm, Finite(20.0))
  {
    var xs, ys := [DigitKey('2'), DigitKey('0'), DigitKey('0')], [DigitKey('1'), DigitKey('0')];
    TypedOperandExamples();
    PercentKeys(xs, ys);
    PercentOfLeftOperand(nm, xs, "*", ys);
    assert LeftOperand(nm, Build(xs)) == Finite(200.0);
    assert nm.parse(Build(ys)) == Finite(10.0);
    assert Div(Mul(Finite(200.0), Finite(10.0)), Finite(100.0)) == Finite(20.0);
  }
}
