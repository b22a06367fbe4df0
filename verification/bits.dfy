/** Bitwise or of naturals. */
module Bits {
  function Pow2(k: nat): (p: nat)
    ensures p > 0
  {
    if k == 0 then 1 else 2 * Pow2(k - 1)
  }

  function Or(a: nat, b: nat): nat {
    if a == 0 && b == 0 then 0 else 2 * Or(a / 2, b / 2) + if a % 2 == 1 || b % 2 == 1 then 1 else 0
  }

  lemma OrStep(a: nat, b: nat)
    ensures Or(a, b) == 2 * Or(a / 2, b / 2) + if a % 2 == 1 || b % 2 == 1 then 1 else 0
  {
  }

  lemma {:induction false} OrCommutes(a: nat, b: nat)
    ensures Or(a, b) == Or(b, a)
  {
    if a > 0 || b > 0 {
      OrCommutes(a / 2, b / 2);
    }
  }

  lemma {:induction false} OrZero(a: nat)
    ensures Or(a, 0) == a
  {
    if a > 0 {
      OrZero(a / 2);
    }
  }

  lemma Halves(a: nat, p: nat)
    ensures a * (2 * p) == 2 * (a * p)
  {
  }

  /** Or works on the bits above and below a position separately. */
  lemma {:induction false} OrSplits(a: nat, x: nat, q: nat, y: nat, r: nat, k: nat)
    requires x == a * Pow2(k) && y == q * Pow2(k) && r < Pow2(k)
    ensures Or(x, y + r) == Or(a, q) * Pow2(k) + r
  {
    if k > 0 {
      var h := Pow2(k - 1);
      Halves(a, h);
      Halves(q, h);
      Halves(Or(a, q), h);
      OrStep(x, y + r);
      OrSplits(a, x / 2, q, y / 2, r / 2, k - 1);
    }
  }

  /** Putting a shifted number above all bits set so far adds it. */
  lemma OrAbove(low: nat, high: nat, x: nat, k: nat)
    requires low < Pow2(k) && x == high * Pow2(k)
    ensures Or(low, x) == low + x
  {
    OrSplits(high, x, 0, 0, low, k);
    OrZero(high);
    OrCommutes(low, x);
  }
}
