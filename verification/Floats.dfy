/** Floating-point numbers as the validator meets them: what strconv.ParseFloat can return,
    with the comparisons and operations of IEEE 754 and exact arithmetic on finite values. */
module Floats {

  datatype Float = NaN | NegInf | PosInf | Fin(r: real)

  const ZERO := Fin(0.0)

  /** a > b; false whenever one of them is not a number. */
  predicate Gt(a: Float, b: Float) {
    match (a, b)
    case (Fin(x), Fin(y)) => x > y
    case (PosInf, Fin(_)) => true
    case (PosInf, NegInf) => true
    case (Fin(_), NegInf) => true
    case _ => false
  }

  /** a <= 0 */
  predicate NotPositive(a: Float) {
    match a
    case Fin(x) => x <= 0.0
    case NegInf => true
    case _ => false
  }

  function Negate(a: Float): Float {
    match a
    case NaN => NaN
    case NegInf => PosInf
    case PosInf => NegInf
    case Fin(x) => Fin(-x)
  }

  function AbsF(a: Float): Float {
    match a
    case NegInf => PosInf
    case Fin(x) => Fin(if x < 0.0 then -x else x)
    case _ => a
  }

  function Add(a: Float, b: Float): Float {
    match (a, b)
    case (NaN, _) => NaN
    case (_, NaN) => NaN
    case (Fin(x), Fin(y)) => Fin(x + y)
    case (Fin(_), _) => b
    case (_, Fin(_)) => a
    case _ => if a == b then a else NaN
  }

  function Infinity(positive: bool): Float { if positive then PosInf else NegInf }

  function Mul(a: Float, b: Float): Float {
    match (a, b)
    case (NaN, _) => NaN
    case (_, NaN) => NaN
    case (Fin(x), Fin(y)) => Fin(x * y)
    case (Fin(x), _) => if x == 0.0 then NaN else Infinity((x > 0.0) == (b == PosInf))
    case (_, Fin(y)) => if y == 0.0 then NaN else Infinity((y > 0.0) == (a == PosInf))
    case _ => Infinity(a == b)
  }

  /** Division by a positive number. */
  function DivByPositive(a: Float, b: Float): Float
    requires Gt(b, ZERO)
  {
    match (a, b)
    case (NaN, _) => NaN
    case (Fin(x), Fin(y)) => Fin(x / y)
    case (Fin(_), PosInf) => ZERO
    case (_, PosInf) => NaN
    case (_, _) => a
  }
}
