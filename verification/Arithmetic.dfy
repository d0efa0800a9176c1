/** Powers of two, and order and products of reals, kept apart from the proofs that need them. */
module Arithmetic {

  ghost function Pow2(k: nat): (r: nat)
    ensures 1 <= r
  {
    if k == 0 then 1 else 2 * Pow2(k - 1)
  }

  lemma {:induction false} ProductGrows(x: real, y: real, rate: real)
    requires x <= y && 0.0 <= rate
    ensures x * rate <= y * rate
  {
  }

  lemma {:induction false} ProductGrowsStrictly(x: real, y: real, rate: real)
    requires x < y && 0.0 < rate
    ensures x * rate < y * rate
  {
  }

  lemma {:induction false} ProductsCompare(x: real, y: real, rate: real)
    requires 0.0 < rate
    ensures x >= y <==> x * rate >= y * rate
  {
    if x >= y {
      ProductGrows(y, x, rate);
    } else {
      ProductGrowsStrictly(x, y, rate);
    }
  }
}
