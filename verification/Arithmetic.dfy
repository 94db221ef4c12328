/** Minimum, maximum, remainders and quotients. */
module Arithmetic {

  function Min(x: int, y: int): int { if x <= y then x else y }

  function Max(x: int, y: int): int { if x <= y then y else x }

  lemma ModuloShift(i: nat, n: nat)
    requires 0 < n <= i
    ensures (i - n) % n == i % n
  {
    RemainderIs(i - n, n, i / n - 1, i % n);
  }

  lemma RemainderIs(x: int, n: int, q: int, r: int)
    requires 0 <= r < n && x == n * q + r
    ensures x % n == r
  {
    assert x == n * (x / n) + x % n;
    NextMultiple(n, x / n, q);
    NextMultiple(n, q, x / n);
  }

  lemma NextMultiple(n: int, a: int, b: int)
    requires n > 0
    ensures a < b ==> n * a + n <= n * b
  {
    if a < b {
      assert n * (a + 1) <= n * b;
    }
  }

  lemma QuotientNonnegative(a: real, b: real)
    requires a >= 0.0 && b > 0.0
    ensures a / b >= 0.0
  {
  }

  lemma QuotientTimes(a: real, b: real)
    requires b > 0.0
    ensures a / b * b == a
  {
  }

  lemma QuotientCompares(a: real, b: real, t: real)
    requires b > 0.0
    ensures a / b <= t <==> a <= t * b
    ensures a / b == t <==> a == t * b
  {
    var q := a / b;
    assert a == q * b;
    if q <= t {
      ScaleMonotone(q, t, b);
    } else {
      ScaleStrict(t, q, b);
    }
  }

  lemma ScaleMonotone(x: real, y: real, b: real)
    requires x <= y && b > 0.0
    ensures x * b <= y * b
  {
  }

  lemma ScaleStrict(x: real, y: real, b: real)
    requires x < y && b > 0.0
    ensures x * b < y * b
  {
  }

  lemma ScaleCompares(x: real, y: real, b: real)
    requires b > 0.0
    ensures x <= y <==> x * b <= y * b
  {
    if x <= y {
      ScaleMonotone(x, y, b);
    } else {
      ScaleStrict(y, x, b);
    }
  }

  lemma QuotientOne(x: real)
    requires x != 0.0
    ensures x / x == 1.0
  {
  }
}
