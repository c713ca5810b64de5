/** Repeated addition of a real number. */
module Reals {

  /** `n` times `x`, added up. */
  function Multiple(n: nat, x: real): real { if n == 0 then 0.0 else Multiple(n - 1, x) + x }

  lemma {:induction false} MultipleIsProduct(n: nat, x: real)
    ensures Multiple(n, x) == n as real * x
    decreases n
  {
    if n > 0 {
      MultipleIsProduct(n - 1, x);
      assert n as real * x == (n - 1) as real * x + x;
    }
  }
}
