/** Facts about quotients and remainders. */
module Division {
  /** A nonzero multiple of b is at least b away from zero. */
  lemma MultipleIsFar(d: int, b: int)
    requires b > 0
    ensures d >= 1 ==> d * b >= b
    ensures d <= -1 ==> d * b <= -b
    ensures d == 0 ==> d * b == 0
  {
    if d >= 1 {
      assert (d - 1) * b >= 0;
    } else if d <= -1 {
      assert (-d - 1) * b >= 0;
    }
  }

  lemma QuotientUnique(x: int, b: int, q: int, r: int)
    requires b > 0 && x == q * b + r && 0 <= r < b
    ensures x / b == q && x % b == r
  {
    var d := q - x / b;
    assert x == x / b * b + x % b;
    Distribute(q, x / b, b);
    MultipleIsFar(d, b);
  }

  lemma Distribute(p: int, q: int, b: int)
    ensures (p - q) * b == p * b - q * b
  {
  }

  /** Adding a multiple of n moves the quotient and keeps the remainder. */
  lemma AddMultiple(x: int, k: int, n: int)
    requires n > 0
    ensures (k * n + x) / n == k + x / n
    ensures (k * n + x) % n == x % n
  {
    assert x == x / n * n + x % n;
    assert k * n + x == (k + x / n) * n + x % n;
    QuotientUnique(k * n + x, n, k + x / n, x % n);
  }
}
