/** `performCalculation` of the archived calculator: one binary operator on two numbers. */
module Evaluator {
  import opened Wrappers
  import opened Numbers

  datatype CalcError = DivisionByZero

  /**
   * Applies `operator` to `prev` and `current`; an exact zero divisor is the
   * only failure, and an operator it does not know yields `current`.
   */
  function PerformCalculation(prev: Num, current: Num, operator: string): (r: Result<Num, CalcError>)
    ensures r.Failure? <==> operator == "/" && current == Finite(0.0)
    ensures r.Success? && prev.Finite? && current.Finite? ==> r.value.Finite?
    ensures r.Success? && (prev.NaN? || current.NaN?) && operator in {"+", "-", "*", "/"} ==> r.value.NaN?
    ensures r.Success? && operator !in {"+", "-", "*", "/"} ==> r.value == current
    ensures prev.Finite? && current.Finite? && operator == "+" ==> r == Success(Finite(prev.v + current.v))
    ensures prev.Finite? && current.Finite? && operator == "-" ==> r == Success(Finite(prev.v - current.v))
    ensures prev.Finite? && current.Finite? && operator == "*" ==> r == Success(Finite(prev.v * current.v))
    ensures prev.Finite? && current.Finite? && operator == "/" && r.Success? ==> r.value.v * current.v == prev.v
  {
    match operator
    case "+" => Success(Add(prev, current))
    case "-" => Success(Sub(prev, current))
    case "*" => Success(Mul(prev, current))
    case "/" =>
      if current == Finite(0.0) then Failure(DivisionByZero)
      else Success(Div(prev, current))
    case _ => Success(current)
  }

  /** Subtracting what was added gives back the left operand. */
  lemma SubUndoesAdd(a: real, b: real)
    ensures PerformCalculation(PerformCalculation(Finite(a), Finite(b), "+").value, Finite(b), "-")
         == Success(Finite(a))
  {
  }

  /** Multiplying a successful quotient by its divisor gives back the dividend. */
  lemma MulUndoesDiv(a: real, b: real)
    requires b != 0.0
    ensures PerformCalculation(PerformCalculation(Finite(a), Finite(b), "/").value, Finite(b), "*")
         == Success(Finite(a))
  {
  }
}
