/** Integer powers of reals. */
module RealPower {

  function Pow(x: real, k: nat): real {
    if k == 0 then 1.0 else x * Pow(x, k - 1)
  }

  lemma {:induction false} PowPositive(x: real, k: nat)
    requires x > 0.0
    ensures Pow(x, k) > 0.0
  {
    if k > 0 {
      PowPositive(x, k - 1);
    }
  }

  lemma {:induction false} PowAtLeastOne(x: real, k: nat)
    requires x >= 1.0
    ensures Pow(x, k) >= 1.0
    ensures x > 1.0 && k > 0 ==> Pow(x, k) > 1.0
  {
    if k > 0 {
      PowAtLeastOne(x, k - 1);
    }
  }

  lemma MulAtMost(x: real, y: real)
    requires 0.0 < x <= 1.0 && 0.0 < y
    ensures 0.0 < x * y <= y
  {
  }

  lemma {:induction false} PowAtMostOne(x: real, k: nat)
    requires 0.0 < x <= 1.0
    ensures 0.0 < Pow(x, k) <= 1.0
  {
    if k > 0 {
      PowAtMostOne(x, k - 1);
      MulAtMost(x, Pow(x, k - 1));
    }
  }
}
