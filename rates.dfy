/**
 * The acceptance rate every view shows: accepted over generated, as a
 * percentage rounded half up (`Math.round` on a non-negative value), and 0
 * when nothing was generated.  Worked in exact integers.
 */
module Rates {

  function AcceptanceRate(accepted: nat, generated: nat): (r: nat)
    ensures generated == 0 ==> r == 0
    ensures generated > 0 ==>
      2 * generated * r <= 200 * accepted + generated < 2 * generated * (r + 1)
    ensures accepted <= generated ==> r <= 100
  {
    if generated == 0 then 0
    else
      var n, d := 200 * accepted + generated, 2 * generated;
      var r := n / d;
      DivisionBounds(n, d);
      assert accepted <= generated ==> r <= 100 by {
        if accepted <= generated && r > 100 {
          MultiplyMonotone(d, 101, r);
        }
      }
      r
  }

  /** Integer division rounds down: the quotient is the largest multiple that fits. */
  lemma DivisionBounds(n: nat, d: nat)
    requires d > 0
    ensures d * (n / d) <= n < d * (n / d + 1)
  {
    var q, m := n / d, n % d;
    assert n == d * q + m && m < d;
    assert d * (q + 1) == d * q + d;
  }

  lemma MultiplyMonotone(g: nat, x: nat, y: nat)
    requires x <= y
    ensures g * x <= g * y
  {
  }

  /**
   * Round half up leaves no choice: the one whole percentage within half a
   * point below, or less than half a point above, the exact ratio is the rate.
   */
  lemma RateIsTheRoundedRatio(accepted: nat, generated: nat, p: nat)
    requires generated > 0
    requires 2 * generated * p <= 200 * accepted + generated < 2 * generated * (p + 1)
    ensures p == AcceptanceRate(accepted, generated)
  {
    var r := AcceptanceRate(accepted, generated);
    var g := 2 * generated;
    if p < r {
      MultiplyMonotone(g, p + 1, r);
    } else if r < p {
      MultiplyMonotone(g, r + 1, p);
    }
  }
}
