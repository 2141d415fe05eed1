/** Small facts about products and sums that several components need. */
module Arithmetic {

  lemma {:induction false} MulMonotone(a: nat, b: nat, p: nat)
    requires a <= b
    ensures a * p <= b * p
  {
    if a < b {
      MulMonotone(a, b - 1, p);
    }
  }

  /** Appending a digit: ten times a place-value sum is the sum with its weight multiplied by ten. */
  lemma Shift(a: int, p: int, b: int, d: int)
    ensures 10 * (a * p + b) + d == a * (10 * p) + (10 * b + d)
  {
  }
}
