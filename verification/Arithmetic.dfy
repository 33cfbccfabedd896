/** Extremes, and products with a variable factor, one fact at a time. */
module Arithmetic {
  function Max(a: int, b: int): int { if a >= b then a else b }

  function Min(a: int, b: int): int { if a <= b then a else b }

  lemma MulMono(c: int, a: int, b: int)
    requires c >= 0 && a <= b
    ensures c * a <= c * b
  {
  }

  lemma MulSucc(c: int, a: int)
    ensures c * (a + 1) == c * a + c && c * (a - 1) == c * a - c
  {
  }

  lemma MulCancels(c: int, a: int, b: int)
    requires c > 0 && c * a < c * b
    ensures a < b
  {
    if a >= b { MulMono(c, b, a); }
  }

  lemma MulBounds(s: int, q: int, n: int)
    requires s > 0 && 0 <= s * q < s * n
    ensures 0 <= q < n
  {
    if q < 0 { MulMono(s, q, -1); }
    MulCancels(s, q, n);
  }

  /** Quotient and remainder order numbers lexicographically. */
  lemma QuotientOrder(s: int, q: int, r: int, q': int, r': int)
    requires s > 0 && 0 <= r < s && 0 <= r' < s && s * q + r > s * q' + r'
    ensures q > q' || (q == q' && r > r')
  {
    if q < q' {
      MulMono(s, q + 1, q');
      MulSucc(s, q);
    }
  }
}
