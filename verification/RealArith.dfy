/** Small facts about products and quotients of reals that the solver needs one at a time. */
module RealArith {

  lemma MulStrict(a: real, b: real, c: real)
    requires c > 0.0 && a < b
    ensures a * c < b * c
  {
  }

  lemma MulMono(a: real, b: real, c: real)
    requires c >= 0.0 && a <= b
    ensures a * c <= b * c
  {
  }

  lemma Distribute(a: real, b: real, c: real)
    ensures (a + b) * c == a * c + b * c
    ensures (a - b) * c == a * c - b * c
  {
  }

  lemma DivMul(x: real, y: real, q: real)
    requires y > 0.0 && q == x / y
    ensures q * y == x
  {
  }

  lemma DivNonNegative(x: real, y: real)
    requires x >= 0.0 && y > 0.0
    ensures x / y >= 0.0
  {
  }

  lemma DivPositive(x: real, y: real)
    requires x > 0.0 && y > 0.0
    ensures x / y > 0.0
  {
    var q := x / y;
    DivMul(x, y, q);
  }

  lemma QuotientBetween(x: real, w: real, lo: real, hi: real)
    requires w > 0.0 && w * lo <= x <= w * hi
    ensures lo <= x / w <= hi
  {
    var q := x / w;
    DivMul(x, w, q);
    if q < lo {
      MulStrict(q, lo, w);
    }
    if hi < q {
      MulStrict(hi, q, w);
    }
  }

  lemma Above(q: real) returns (n: nat)
    ensures n as real > q
  {
    n := if q < 0.0 then 0 else q.Floor + 1;
  }

  lemma Exceeds(q: real, n: real, gap: real, p: real)
    requires q * gap == p && n > q && gap > 0.0
    ensures n * gap > p
  {
    MulStrict(q, n, gap);
  }

  lemma Archimedes(gap: real, bound: real) returns (n: nat)
    requires gap > 0.0
    ensures n as real * gap > bound
  {
    var q := bound / gap;
    n := Above(q);
    DivMul(bound, gap, q);
    Exceeds(q, n as real, gap, bound);
  }

  lemma IntMul(a: int, b: int)
    ensures (a * b) as real == a as real * b as real
  {
  }
}
