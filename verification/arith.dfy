/** Integer facts about multiples and remainders that the solver does not find on its own. */
module Arith {

  /** Scaling by a non-negative factor keeps the order. */
  lemma MulLe(a: int, b: int, k: int)
    requires 0 <= k && a <= b
    ensures a * k <= b * k
  {
    assert b * k - a * k == (b - a) * k;
  }

  /** A multiple of a positive step strictly between -step and step is 0. */
  lemma SmallMultipleIsZero(c: int, n: int)
    requires 0 < n && -n < c * n < n
    ensures c == 0
  {
    if c >= 1 {
      MulLe(1, c, n);
      assert false;
    } else if c <= -1 {
      MulLe(c, -1, n);
      assert false;
    }
  }

  /** An exact multiple of a positive step leaves no remainder. */
  lemma MultipleHasNoRemainder(x: int, c: int, n: int)
    requires 0 < n && x == c * n
    ensures x % n == 0
  {
    var q, m := x / n, x % n;
    assert x == q * n + m;
    assert m == (c - q) * n;
    SmallMultipleIsZero(c - q, n);
  }

  /** Below the modulus, the remainder is the number itself. */
  lemma SmallRemainder(i: int, n: int)
    requires 0 <= i < n
    ensures i % n == i
  {
    var q, m := i / n, i % n;
    assert i == q * n + m;
    assert q * n == i - m;
    SmallMultipleIsZero(q, n);
  }
}
