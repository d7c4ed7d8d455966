/** Facts about products and remainders that several components need. */
module Arithmetic {

  lemma {:induction false} SameMultiple(n: nat, a: int, b: int)
    requires n > 0
    ensures n * a == n * b <==> a == b
  {
    assert n * (a - b) == n * a - n * b;
    if a != b { BigMultiple(n, a - b); }
  }

  lemma {:induction false} TimesPositive(n: nat, d: nat)
    requires d >= 1
    ensures n * d >= n
  {
    if d > 1 {
      TimesPositive(n, d - 1);
      assert n * d == n * (d - 1) + n;
    }
  }

  lemma {:induction false} BigMultiple(n: nat, d: int)
    requires d != 0
    ensures n * d >= n || n * d <= 0 - n
  {
    if d >= 1 {
      TimesPositive(n, d);
    } else {
      TimesPositive(n, -d);
      assert n * -d == -(n * d);
    }
  }

  lemma {:induction false} RemainderIs(n: nat, q: nat, r: nat)
    requires r < n
    ensures (n * q + r) % n == r
  {
    var x := n * q + r;
    assert x == n * (x / n) + x % n;
    assert n * (x / n - q) == r - x % n;
    if x / n != q { BigMultiple(n, x / n - q); }
  }

  lemma {:induction false} Farther(a: nat, b: nat, len: nat)
    requires a < b
    ensures a * len + len <= b * len
    decreases b - a
  {
    assert (a + 1) * len == a * len + len;
    if a + 1 < b { Farther(a + 1, b, len); }
  }
}
