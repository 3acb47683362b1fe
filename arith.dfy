/** Products of non-negative numbers, shared by the modules whose proofs
    need them as an explicit step. */
module Arith {

  lemma MulNonNegative(x: real, y: real)
    requires x >= 0.0 && y >= 0.0
    ensures x * y >= 0.0
  {}

  lemma MulNonNegativeInt(a: int, b: int)
    requires a >= 0 && b >= 0
    ensures a * b >= 0
  {}
}
