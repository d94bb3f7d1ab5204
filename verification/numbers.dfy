/**
 * JavaScript numbers as the two calculators use them. A number is a real or
 * NaN; parsing and printing are IEEE-754 routines that this model does not
 * describe, so they are supplied by the caller as a `Numerics` record.
 */
module Numbers {

  /** A JavaScript number: finite, or NaN. Infinities are not modelled. */
  datatype Num = Finite(v: real) | NaN

  /**
   * The floating-point collaborators of the calculators:
   * `parse` is `parseFloat`, `show` is `Number.prototype.toString` on a finite
   * value, `displayFormat` is the archived `formatDisplay` on a finite value and
   * `resultFormat` is the service's `formatResult` after its finiteness guard.
   */
  datatype Numerics = Numerics(
    parse: string -> Num,
    show: real -> string,
    displayFormat: real -> string,
    resultFormat: real -> string)

  function Add(a: Num, b: Num): (r: Num)
    ensures r.Finite? <==> a.Finite? && b.Finite?
  {
    if a.Finite? && b.Finite? then Finite(a.v + b.v) else NaN
  }

  function Sub(a: Num, b: Num): (r: Num)
    ensures r.Finite? <==> a.Finite? && b.Finite?
  {
    if a.Finite? && b.Finite? then Finite(a.v - b.v) else NaN
  }

  function Mul(a: Num, b: Num): (r: Num)
    ensures r.Finite? <==> a.Finite? && b.Finite?
  {
    if a.Finite? && b.Finite? then Finite(a.v * b.v) else NaN
  }

  /** Division by anything but an exact zero. */
  function Div(a: Num, b: Num): (r: Num)
    requires b != Finite(0.0)
    ensures r.Finite? <==> a.Finite? && b.Finite?
    ensures r.Finite? ==> r.v * b.v == a.v
  {
    if a.Finite? && b.Finite? then Finite(a.v / b.v) else NaN
  }

  function Neg(a: Num): (r: Num)
    ensures r.Finite? <==> a.Finite?
  {
    if a.Finite? then Finite(-a.v) else NaN
  }

  /** `x || 0` on a number: NaN (falsy) becomes 0, every other value is kept. */
  function OrZero(a: Num): (r: Num)
    ensures r.Finite?
    ensures a.Finite? ==> r == a
    ensures a.NaN? ==> r == Finite(0.0)
  {
    if a.Finite? then a else Finite(0.0)
  }

  /** `toString`: NaN prints as "NaN". */
  function Show(nm: Numerics, a: Num): (r: string)
    ensures a.NaN? ==> r == "NaN"
    ensures a.Finite? ==> r == nm.show(a.v)
  {
    if a.Finite? then nm.show(a.v) else "NaN"
  }

  /** The archived `formatDisplay`: on NaN every branch falls through to "NaN". */
  function FormatDisplay(nm: Numerics, a: Num): (r: string)
    ensures a.NaN? ==> r == "NaN"
    ensures a.Finite? ==> r == nm.displayFormat(a.v)
  {
    if a.Finite? then nm.displayFormat(a.v) else "NaN"
  }

  /** The service's `formatResult`: anything that is not finite becomes "Error". */
  function FormatResult(nm: Numerics, a: Num): (r: string)
    ensures a.NaN? ==> r == "Error"
    ensures a.Finite? ==> r == nm.resultFormat(a.v)
  {
    if a.Finite? then nm.resultFormat(a.v) else "Error"
  }
}
