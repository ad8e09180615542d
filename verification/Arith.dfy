/** Facts about products and quotients that several modules need. */
module Arith {

  lemma MulMonotone(a: nat, b: nat, c: nat)
    ensures a <= b ==> a * c <= b * c
  {
    assert b * c == a * c + (b - a) * c;
  }

  lemma QuotientIs(a: nat, d: nat, n: nat)
    requires d > 0 && n * d <= a < n * d + d
    ensures n == a / d
  {
    var q := a / d;
    assert q * d <= a < q * d + d;
    assert (n + 1) * d == n * d + d && (q + 1) * d == q * d + d;
    MulMonotone(n + 1, q, d);
    MulMonotone(q + 1, n, d);
  }

  lemma Products(q: nat, p: nat, b: nat)
    ensures (q * p) * b == q * (b * p)
    ensures (q * p + p) * b == q * (b * p) + b * p
  {
  }

  lemma QuotientBounds(n: nat, d: nat)
    requires d > 0
    ensures n / d * d <= n < n / d * d + d
  {
  }

  lemma NestedBounds(n: nat, m: nat, q: nat, b: nat, p: nat)
    requires m * b <= n < m * b + b && q * p <= m < q * p + p
    ensures q * (b * p) <= n < q * (b * p) + b * p
  {
    Products(q, p, b);
    MulMonotone(q * p, m, b);
    MulMonotone(m + 1, q * p + p, b);
    assert (m + 1) * b == m * b + b;
  }

  /** Dividing twice is dividing by the product. */
  lemma DivideTwice(n: nat, b: nat, p: nat)
    requires b > 0 && p > 0 && b * p > 0
    ensures n / b / p == n / (b * p)
  {
    QuotientBounds(n, b);
    QuotientBounds(n / b, p);
    NestedBounds(n, n / b, n / b / p, b, p);
    QuotientIs(n, b * p, n / b / p);
  }
}
