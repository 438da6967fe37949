/** Integer division with a positive divisor, which rounds down. */
module Arithmetic {
  lemma Distribute(d: int, q: int, p: int)
    ensures d * (q - p) == d * q - d * p
  {
  }

  lemma OneMore(d: int, n: int)
    ensures d * n == d * (n - 1) + d
  {
  }

  lemma AtLeastOnce(d: int, k: int)
    requires d > 0 && k >= 1
    ensures d * k >= d
  {
  }

  lemma QuotientOrder(d: int, q: int, r: int, p: int, s: int)
    requires d > 0 && 0 <= r < d && 0 <= s < d && d * q + r <= d * p + s
    ensures q <= p
  {
    if q > p {
      Distribute(d, q, p);
      AtLeastOnce(d, q - p);
    }
  }

  lemma DivMod(x: int, d: int)
    requires d > 0
    ensures x == d * (x / d) + x % d && 0 <= x % d < d
  {
  }

  /** Quotient and remainder are the only ones that fit. */
  lemma DivUnique(x: int, d: int, q: int, r: int)
    requires d > 0 && x == d * q + r && 0 <= r < d
    ensures x / d == q && x % d == r
  {
    DivMod(x, d);
    QuotientOrder(d, q, r, x / d, x % d);
    QuotientOrder(d, x / d, x % d, q, r);
  }

  lemma DivMonotone(x: int, y: int, d: int)
    requires d > 0 && x <= y
    ensures x / d <= y / d
  {
    DivMod(x, d);
    DivMod(y, d);
    QuotientOrder(d, x / d, x % d, y / d, y % d);
  }

  /** Dividing twice is dividing once by the product. */
  lemma DivDiv(x: int, a: int, b: int)
    requires a > 0 && b > 0
    ensures a * b > 0 && x / a / b == x / (a * b)
  {
    Positive(a, b);
    var q := x / a;
    DivMod(x, a);
    DivMod(q, b);
    Nested(x, a, b, q / b, q % b, x % a);
    DivUnique(x, a * b, q / b, a * (q % b) + x % a);
  }

  lemma Positive(a: int, b: int)
    requires a > 0 && b > 0
    ensures a * b > 0
  {
  }

  lemma Nested(x: int, a: int, b: int, p: int, s: int, r: int)
    requires a > 0 && b > 0 && x == a * (b * p + s) + r && 0 <= s < b && 0 <= r < a
    ensures x == (a * b) * p + (a * s + r) && 0 <= a * s + r < a * b
  {
    assert a * (b * p + s) == a * (b * p) + a * s == (a * b) * p + a * s;
    Distribute(a, b, s);
    AtLeastOnce(a, b - s);
    assert a * s >= 0;
  }
}
