/** Facts about products and quotients of variables. */
module Arithmetic {

  lemma Distribute(q: int, d: int, h: int)
    ensures (q - d) * h == q * h - d * h
  {
  }

  lemma AtLeast(x: int, h: int)
    requires x >= 1 && h >= 1
    ensures x * h >= h
  {
  }

  lemma RemainderUnique(h: int, q: int, r: int, d: int, m: int)
    requires 0 <= r < h && 0 <= m < h && q * h + r == d * h + m
    ensures q == d && r == m
  {
    if q > d {
      Distribute(q, d, h);
      AtLeast(q - d, h);
    } else if q < d {
      Distribute(d, q, h);
      AtLeast(d - q, h);
    }
  }

  /** Quotient and remainder are determined by the usual equation. */
  lemma QuotientUnique(h: int, q: int, r: int)
    requires 0 <= r < h
    ensures (q * h + r) / h == q && (q * h + r) % h == r
  {
    var k := q * h + r;
    RemainderUnique(h, q, r, k / h, k % h);
  }
}
