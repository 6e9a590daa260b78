// Facts about integer multiplication that the rounding proofs share.

module Arithmetic {

  /** Multiplying by a non-negative factor keeps the order. */
  lemma MulMono(a: int, b: int, t: nat)
    requires a <= b
    ensures a * t <= b * t
  {
  }
}
