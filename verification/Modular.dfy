/** Counters modulo a ring size, as both rings of the system index by them. */
module Modular {

  lemma MultipleGap(n: int, d: int)
    requires n > 0
    ensures d > 0 ==> n * d >= n
    ensures d < 0 ==> n * d <= -n
  {
  }

  lemma Distribute(n: int, q: int)
    ensures n * (q + 1) == n * q + n
  {
  }

  lemma ModUnique(x: int, n: int, q: int, r: int)
    requires n > 0 && x == n * q + r && 0 <= r < n
    ensures x % n == r && x / n == q
  {
    var d := x / n - q;
    assert n * d == r - x % n by {
      assert x == n * (x / n) + x % n;
      assert n * d == n * (x / n) - n * q;
    }
    MultipleGap(n, d);
  }

  lemma ModSucc(x: int, n: int)
    requires n > 0
    ensures (x % n + 1) % n == (x + 1) % n
  {
    var q, r := x / n, x % n;
    if r + 1 == n {
      Distribute(n, q);
      ModUnique(x + 1, n, q + 1, 0);
      ModUnique(r + 1, n, 1, 0);
    } else {
      ModUnique(x + 1, n, q, r + 1);
      ModUnique(r + 1, n, 0, r + 1);
    }
  }

  /** Two counters less than a lap apart share a slot only when they are equal. */
  lemma SameSlot(a: int, b: int, n: int)
    requires n > 0 && a <= b < a + n && a % n == b % n
    ensures a == b
  {
    assert b == n * (b / n) + b % n && a == n * (a / n) + a % n;
    var d := b / n - a / n;
    assert b - a == n * d;
    MultipleGap(n, d);
  }
}
