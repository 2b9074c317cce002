/** Products and quotients, in the small steps the solver can follow, and the numbers below a bound. */
module Arithmetic {

  lemma MulMonotone(a: int, b: int, k: int)
    requires a <= b && 0 <= k
    ensures a * k <= b * k
  {
    assert 0 <= (b - a) * k;
  }

  lemma QuotientIs(a: int, d: int, q: int)
    requires 0 < d && q * d <= a < q * d + d
    ensures a / d == q
  {
    var q' := a / d;
    assert q' * d <= a < q' * d + d;
    if q < q' {
      MulMonotone(q + 1, q', d);
    } else if q' < q {
      MulMonotone(q' + 1, q, d);
    }
  }

  lemma QuotientBounds(a: int, d: int)
    requires 0 < d
    ensures a / d * d <= a < a / d * d + d
  {
  }

  lemma QuotientSign(a: int, d: int)
    requires 0 < d && 0 <= a / d
    ensures 0 <= a
  {
    QuotientBounds(a, d);
    MulMonotone(0, a / d, d);
  }

  lemma QuotientNonNegative(a: int, d: int)
    requires 0 < d && 0 <= a
    ensures 0 <= a / d
  {
  }

  lemma DivModIs(a: int, d: int, q: int, r: int)
    requires 0 <= r < d && a == q * d + r
    ensures a / d == q && a % d == r
  {
    QuotientIs(a, d, q);
    assert a / d * d + a % d == a;
  }

  /** {0..n-1} */
  function Below(n: nat): (r: set<nat>)
    ensures |r| == n && forall i: nat :: i in r <==> i < n
  {
    if n == 0 then {} else Below(n - 1) + {n - 1}
  }
}
