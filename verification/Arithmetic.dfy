/** Division by positive numbers. */
module Arithmetic {
  lemma Multiple(base: int, x: int)
    requires base > 0
    ensures x >= 1 ==> base * x >= base
    ensures x <= -1 ==> base * x <= -base
  {
  }

  lemma DivMod(q: int, r: int, base: int)
    requires 0 <= r < base
    ensures (q * base + r) / base == q && (q * base + r) % base == r
  {
    var n := q * base + r;
    assert base * (n / base - q) == r - n % base;
    Multiple(base, n / base - q);
  }

  lemma CancelFactor(p: real, q: real, c: real)
    requires c > 0.0 && p * c <= q * c
    ensures p <= q
  {
  }
}
