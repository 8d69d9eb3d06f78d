/**
  Division by a number that is not a constant.
 */
module Quotients {
  /** Quotient and remainder are unique. */
  lemma QuotientUnique(a: nat, d: nat, q: nat, r: nat)
    requires d > 0 && r < d && a == q * d + r
    ensures a / d == q && a % d == r
  {
    var p := a / d;
    Division(a, d);
    if p < q {
      MulGap(p, q, d);
    } else if p > q {
      MulGap(q, p, d);
    }
  }

  lemma MulGap(p: nat, q: nat, d: nat)
    requires p < q
    ensures p * d + d <= q * d
  {
    var x := q - p - 1;
    assert q * d == p * d + d + x * d by {
      assert q == p + 1 + x;
    }
    assert x * d >= 0;
  }

  lemma Division(a: nat, d: nat)
    requires d > 0
    ensures a == a / d * d + a % d && a % d < d
  {
  }

  /** Rounding up, from quotient and remainder. */
  lemma RoundedUp(a: nat, d: nat, q: nat, r: nat)
    requires d > 0 && r < d && a == q * d + r
    ensures (a + d - 1) / d == q + if r != 0 then 1 else 0
  {
    if r == 0 {
      QuotientUnique(a + d - 1, d, q, d - 1);
    } else {
      assert (q + 1) * d == q * d + d;
      QuotientUnique(a + d - 1, d, q + 1, r - 1);
    }
  }

  lemma RoundedUpQuotient(a: nat, d: nat)
    requires d > 0
    ensures (a + d - 1) / d == a / d + if a % d != 0 then 1 else 0
  {
    Division(a, d);
    var (q, r) := (a / d, a % d);
    RoundedUp(a, d, q, r);
  }
}
