/**
 * The arithmetic of `double` as the evaluator uses it, seen without rounding:
 * a finite value is held exactly as a real, and the IEEE-754 special values
 * keep their rules (a signed infinity, and NaN).  Zero carries no sign here.
 */
module Doubles {

  datatype Double = Finite(r: real) | Infinity(negative: bool) | NaN

  /** `std::isinf`: true for either infinity, false for NaN and for finite values. */
  predicate IsInf(d: Double) {
    d.Infinity?
  }

  function Neg(a: Double): Double {
    match a
    case Finite(x) => Finite(-x)
    case Infinity(n) => Infinity(!n)
    case NaN => NaN
  }

  function Add(a: Double, b: Double): Double {
    match (a, b)
    case (NaN, _) => NaN
    case (_, NaN) => NaN
    case (Infinity(m), Infinity(n)) => if m == n then a else NaN
    case (Infinity(_), Finite(_)) => a
    case (Finite(_), Infinity(_)) => b
    case (Finite(x), Finite(y)) => Finite(x + y)
  }

  /** IEEE subtraction is addition of the negated operand. */
  function Sub(a: Double, b: Double): Double {
    Add(a, Neg(b))
  }

  function Mul(a: Double, b: Double): Double {
    match (a, b)
    case (NaN, _) => NaN
    case (_, NaN) => NaN
    case (Infinity(m), Infinity(n)) => Infinity(m != n)
    case (Infinity(m), Finite(y)) => if y == 0.0 then NaN else Infinity(m != (y < 0.0))
    case (Finite(x), Infinity(n)) => if x == 0.0 then NaN else Infinity((x < 0.0) != n)
    case (Finite(x), Finite(y)) => Finite(x * y)
  }

  function Div(a: Double, b: Double): Double {
    match (a, b)
    case (NaN, _) => NaN
    case (_, NaN) => NaN
    case (Infinity(_), Infinity(_)) => NaN
    case (Infinity(m), Finite(y)) => Infinity(m != (y < 0.0))
    case (Finite(_), Infinity(_)) => Finite(0.0)
    case (Finite(x), Finite(y)) =>
      if y != 0.0 then Finite(x / y)
      else if x == 0.0 then NaN
      else Infinity(x < 0.0)
  }
}
