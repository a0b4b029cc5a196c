/** Repeated addition. Addresses and frame times are built from it so that their proofs stay
    linear. */
module Sums {

  /** n * k by repeated addition. */
  function Times(n: int, k: int): int
  {
    if n <= 0 then 0 else Times(n - 1, k) + k
  }

  lemma {:induction false} TimesIsProduct(n: nat, k: int)
    ensures Times(n, k) == n * k
  {
    if n > 0 {
      TimesIsProduct(n - 1, k);
      assert (n - 1) * k == n * k - k;
    }
  }

  lemma {:induction false} TimesMono(a: int, b: int, k: int)
    requires a <= b && 0 <= k
    ensures 0 <= Times(a, k) <= Times(b, k)
    decreases b, b - a
  {
    if 0 < b {
      if a < b { TimesMono(a, b - 1, k); } else { TimesMono(a - 1, b - 1, k); }
    }
  }
}
