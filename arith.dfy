/** Integer replacements for the floating-point `Math.log2` and `**` of the source. */
module Arith {

  /** 2 raised to the power k. */
  function Pow2(k: nat): (r: nat)
    ensures r >= 1
  {
    if k == 0 then 1 else 2 * Pow2(k - 1)
  }

  lemma {:induction false} Pow2Monotone(a: nat, b: nat)
    requires a <= b
    ensures Pow2(a) <= Pow2(b)
  {
    if a < b {
      Pow2Monotone(a, b - 1);
    }
  }

  /** floor(log2 n): the exponent of the largest power of two not above n. */
  function FloorLog2(n: nat): (e: nat)
    requires n >= 1
    ensures Pow2(e) <= n < Pow2(e + 1)
  {
    if n == 1 then 0 else 1 + FloorLog2(n / 2)
  }

  /** ceil(log2 n): the exponent of the smallest power of two not below n. */
  function CeilLog2(n: nat): (e: nat)
    requires n >= 1
    ensures n <= Pow2(e)
    ensures e == 0 || Pow2(e - 1) < n
    ensures e == FloorLog2(n) <==> n == Pow2(FloorLog2(n))
    ensures e == FloorLog2(n) || e == FloorLog2(n) + 1
  {
    if Pow2(FloorLog2(n)) == n then FloorLog2(n) else FloorLog2(n) + 1
  }

  /** A power of two has itself as floor logarithm. */
  lemma {:induction false} FloorLog2OfPow2(k: nat)
    ensures FloorLog2(Pow2(k)) == k
  {
    var e := FloorLog2(Pow2(k));
    if e < k {
      Pow2Monotone(e + 1, k);
    } else if e > k {
      Pow2Monotone(k + 1, e);
    }
  }
}
