/** Division by positive numbers, for the calendar and the fractions of a second. */
module Quotients {

  lemma Division(n: int, d: int)
    requires d > 0
    ensures n == d * (n / d) + n % d && 0 <= n % d < d
  {}

  lemma Scale(d: int, x: int, y: int)
    requires d >= 0 && x <= y
    ensures d * x <= d * y
  {
    assert d * y == d * x + d * (y - x);
  }

  lemma ProductGap(a: int, b: int, d: int, r: int)
    requires 0 <= r < d
    ensures a < b <==> d * b + r >= d * a + d
  {
    if a < b {
      Scale(d, a + 1, b);
      assert d * (a + 1) == d * a + d;
    } else {
      Scale(d, b, a);
    }
  }

  lemma QuotientIs(n: int, d: int, q: int, r: int)
    requires n == d * q + r && 0 <= r < d
    ensures n / d == q && n % d == r
  {
    Division(n, d);
    ProductGap(n / d, q, d, r);
    ProductGap(q, n / d, d, n % d);
  }

  /** Dividing twice is dividing by the product. */
  lemma DivTwice(n: int, a: int, b: int)
    requires a > 0 && b > 0
    ensures a * b > 0 && n / a / b == n / (a * b)
  {
    var q, r, s := n / a / b, n / a % b, n % a;
    Division(n, a);
    Division(n / a, b);
    Scale(a, 1, b);
    Scale(a, 0, r);
    Scale(a, r + 1, b);
    Distribute(a, b, q, r);
    QuotientIs(n, a * b, q, a * r + s);
  }

  lemma Distribute(a: int, b: int, q: int, r: int)
    ensures a * (b * q + r) == (a * b) * q + a * r && a * (r + 1) == a * r + a
  {}

  /** The quotient goes up by one at each multiple. */
  lemma QuotientSteps(y: int, d: int)
    requires d >= 1
    ensures y / d == (y - 1) / d + (if y % d == 0 then 1 else 0)
  {
    Division(y, d);
    var q := y / d;
    assert d * (q - 1) == d * q - d;
    if y % d == 0 { QuotientIs(y - 1, d, q - 1, d - 1); } else { QuotientIs(y - 1, d, q, y % d - 1); }
  }

  /** A multiple of a multiple. */
  lemma MultipleOfFactor(y: int, k: int, d: int)
    requires k > 0 && d > 0 && k * d > 0 && y % (k * d) == 0
    ensures y % d == 0
  {
    Division(y, k * d);
    var q := y / (k * d);
    assert (k * d) * q == d * (k * q);
    QuotientIs(y, d, k * q, 0);
  }

  /** A multiple of d and another number: the quotients differ once a whole d lies between. */
  lemma QuotientGap(n: int, m: int, d: int)
    requires d > 0 && n % d == 0
    ensures n / d < m / d <==> m >= n + d
  {
    Division(n, d);
    Division(m, d);
    ProductGap(n / d, m / d, d, m % d);
  }

  lemma QuotientBelow(n: int, d: int, k: int)
    requires n < k * d && d > 0
    ensures n / d < k
  {
    Division(n, d);
    ProductGap(n / d, k, d, 0);
  }

  lemma MultiplesApart(n: int, m: int, d: int)
    requires d > 0 && n % d == 0 && m % d == 0 && n < m
    ensures m >= n + d
  {
    Division(n, d);
    Division(m, d);
    ProductGap(n / d, m / d, d, 0);
    ProductGap(m / d, n / d, d, 0);
  }
}
