/** Counting steps of a fixed length. */
module Rounding {

  function Ceil(r: real): int {
    -((-r).Floor)
  }

  lemma CeilCovers(k: int, q: real)
    requires q > k as real - 1.0
    ensures Ceil(k as real) == k <= Ceil(q)
  {
  }

  /** How many steps of length `d` it takes to cover `x`. */
  function Steps(x: real, d: real): nat
    requires d > 0.0
  {
    if x <= 0.0 then 0 else Covered(x, d); Ceil(x / d)
  }

  lemma Covered(x: real, d: real)
    requires x > 0.0 && d > 0.0
    ensures x / d > 0.0 && Ceil(x / d) >= 1
  {
  }

  lemma OneStep(x: real, y: real, d: real)
    requires d > 0.0 && x > 0.0 && y >= d
    ensures Steps(x - y, d) < Steps(x, d)
  {
    Covered(x, d);
    if x - y > 0.0 {
      assert (x - y) / d <= x / d - 1.0 by {
        assert (x - y) / d == x / d - y / d;
        assert y / d >= 1.0;
      }
    }
  }

  lemma MoreSteps(x: real, y: real, d: real)
    requires d > 0.0 && x <= y
    ensures Steps(x, d) <= Steps(y, d)
  {
    if x > 0.0 {
      assert x / d <= y / d by {
        assert y / d - x / d == (y - x) / d;
      }
    }
  }
}
