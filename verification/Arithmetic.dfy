/** Quotients and multiples, for the planner's sizes and the rollup's buckets. */
module Arithmetic {
  lemma MulLe(a: nat, b: nat, c: nat)
    requires a <= b
    ensures a * c <= b * c
  {
  }

  lemma DivMonotone(a: nat, b: nat, d: nat)
    requires a <= b && d > 0
    ensures a / d <= b / d
  {
    if a / d > b / d {
      MulLe(b / d + 1, a / d, d);
    }
  }

  lemma QuotientAtLeast(t: nat, d: nat, q: nat)
    requires d > 0
    ensures t / d >= q <==> t >= q * d
  {
    assert t == t / d * d + t % d;
    if t / d >= q {
      MulLe(q, t / d, d);
    } else {
      MulLe(t / d + 1, q, d);
    }
  }

  lemma DivIs(x: nat, q: nat, r: nat, m: nat)
    requires m > 0 && r < m && x == q * m + r
    ensures x / m == q && x % m == r
  {
    if q < x / m {
      MulLe(q + 1, x / m, m);
    }
    if x / m < q {
      MulLe(x / m + 1, q, m);
    }
  }

  lemma MultipleIsAligned(q: nat, m: nat)
    requires m > 0
    ensures q * m % m == 0
  {
    DivIs(q * m, q, 0, m);
  }

  lemma AlignedGap(a: nat, b: nat, m: nat)
    requires m > 0 && a % m == 0 && b % m == 0 && a < b
    ensures a + m <= b
  {
    var p, q := a / m, b / m;
    assert a == p * m && b == q * m;
    if q <= p {
      MulLe(q, p, m);
    } else {
      MulLe(p + 1, q, m);
    }
  }
}
