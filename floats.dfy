/**
 * Python floats as far as the tide filters use them: a finite value, NaN or an
 * infinity, compared with IEEE-754 `<` (every comparison involving NaN is false).
 * Rounding to binary64 is not modelled: a finite value is an exact real.
 */
module Floats {

  datatype Float = Finite(value: real) | NaN | Inf(negative: bool)

  /** `a < b` on Python floats. */
  predicate Less(a: Float, b: Float) {
    match (a, b)
    case (Finite(x), Finite(y)) => x < y
    case (Finite(_), Inf(neg)) => !neg
    case (Inf(neg), Finite(_)) => neg
    case (Inf(n1), Inf(n2)) => n1 && !n2
    case _ => false
  }

  /** `<` never holds with NaN on either side, and it is a strict order on the rest. */
  lemma LessIsStrictOrder(a: Float, b: Float, c: Float)
    ensures Less(a, b) ==> a != NaN && b != NaN
    ensures !Less(a, a)
    ensures Less(a, b) ==> !Less(b, a)
    ensures Less(a, b) && Less(b, c) ==> Less(a, c)
  {
  }
}
