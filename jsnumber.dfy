/**
 * The JavaScript numbers the handlers see once the request body has been
 * coerced with unary `+`.  Only the distinctions the handlers test are kept:
 * NaN, the two infinities and the finite values (signed zeros are one value).
 */
module JsNumber {

  datatype Number = NaN | PositiveInfinity | NegativeInfinity | Finite(value: real)

  /** `Number.isNaN(n)` */
  predicate IsNaN(n: Number)
  {
    n.NaN?
  }

  /** `n > 0` with IEEE-754 comparison: false for NaN, true for +Infinity. */
  predicate GreaterThanZero(n: Number)
  {
    match n
    case NaN => false
    case PositiveInfinity => true
    case NegativeInfinity => false
    case Finite(v) => v > 0.0
  }
}
