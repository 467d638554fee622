/**
 Vocabulary shared by the router and the order manager, and the two
 float-to-integer conversions the source uses: `std::round` (half away from
 zero) and a C++ integer cast (truncation), both over exact reals.
 */
module Types {

  datatype Option<+T> = None | Some(value: T)

  datatype Dir = Buy | Sell

  datatype OrderType = Maker | Taker

  datatype OrderState = New | PendingNew | PartiallyFilled | Filled | Canceled | Rejected

  /** `std::round` / `std::llround`: nearest integer, halves away from zero. */
  function Round(x: real): int {
    if x >= 0.0 then (x + 0.5).Floor else -((-x + 0.5).Floor)
  }

  /** A C++ cast from double to integer. */
  function Trunc(x: real): int {
    if x >= 0.0 then x.Floor else -((-x).Floor)
  }

  function Min(a: int, b: int): int {
    if a < b then a else b
  }

  function Abs(x: int): int {
    if x < 0 then -x else x
  }

  /** BUY pays, SELL receives: the sign that makes "lower is better" hold on both sides. */
  function Sign(dir: Dir): int {
    if dir == Buy then 1 else -1
  }

  /** No worse than the limit for this direction; a limit of 0 means no limit. */
  predicate WithinLimit(dir: Dir, price: int, limit: int) {
    limit == 0 || (dir == Buy && price <= limit) || (dir == Sell && price >= limit)
  }

  /** Store at `i` when `i` is in range, as every guarded table access of the source does. */
  function Put<T>(s: seq<T>, i: nat, x: T): (r: seq<T>)
    ensures |r| == |s|
    ensures forall j :: 0 <= j < |s| ==> r[j] == if j == i then x else s[j]
  {
    if i < |s| then s[i := x] else s
  }

  lemma RoundOfInt(n: int)
    ensures Round(n as real) == n
  {
    if n >= 0 {
      assert n as real <= n as real + 0.5 < (n + 1) as real;
    } else {
      assert (-n) as real == -(n as real);
      assert (-n) as real <= -(n as real) + 0.5 < (-n + 1) as real;
    }
  }

  /** `Round` is within a half of its argument. */
  lemma RoundBounds(x: real)
    ensures -0.5 <= Round(x) as real - x <= 0.5
  {
  }

  lemma RoundCong(x: real, y: real)
    requires x == y
    ensures Round(x) == Round(y)
  {
  }

  lemma RoundNonNegative(x: real)
    requires x >= 0.0
    ensures Round(x) >= 0
  {
  }

  /** Ticks times tick size, divided by the tick size again: the limit survives the round trip. */
  lemma TicksRoundTrip(ticks: int, tick: real)
    requires tick > 0.0
    ensures Round((ticks as real * tick) / tick) == ticks
  {
    assert (ticks as real * tick) / tick == ticks as real;
    RoundOfInt(ticks);
  }
}
