/** Facts about integer multiplication and division used by the size estimates. */
module Arithmetic {

  /** Division recovers the quotient of a sum `d * q + rem` with a remainder below `d`. */
  lemma DivideExactly(a: int, d: int, q: int, rem: int)
    requires d > 0 && 0 <= rem < d && a == d * q + rem
    ensures a / d == q
  {
    var q' := a / d;
    assert d * q' <= a < d * q' + d;
    if q' < q {
      assert d * q' + d <= d * q by { MulMonotone(d, q' + 1, q); }
    } else if q' > q {
      assert d * q + d <= d * q' by { MulMonotone(d, q + 1, q'); }
    }
  }

  lemma MulMonotone(k: nat, a: int, b: int)
    requires a <= b
    ensures k * a <= k * b
  {
  }
}
