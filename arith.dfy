/** Integer facts the index and error-term proofs share. */
module Arith {
  /** Multiplying by a non-negative factor keeps the order of the other factor. */
  lemma MulMonotone(a: int, b: int, c: int)
    requires 0 <= a && b <= c
    ensures a * b <= a * c && b * a <= c * a
  {
  }
}
