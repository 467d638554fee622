/**
 The audit trail of admitted orders: one account per order ever admitted, holding
 what it asked for, what became of its lots and every child ever sent for it. The
 source keeps these facts in its log; the counters it does keep are proved to be
 sums over these accounts.
 */
module Accounts {
  import opened Types

  /** One child sent for an order: where, on which side, how, and at what price and size. */
  datatype Sent = Sent(venue: nat, dir: Dir, kind: OrderType, price: int, lots: int)

  /** `holder` is the parent id while the order is open, `reserved` what its reservations net to. */
  datatype Account = Account(
    holder: Option<nat>, instr: nat, dir: Dir, strategy: nat, limit: nat, reduceOnly: bool,
    admitted: int, filled: int, value: real, shrunk: int,
    reserved: int, rerouted: bool, sent: seq<Sent>)

  const NO_ACCOUNT: Account := Account(None, 0, Buy, 0, 0, false, 0, 0, 0.0, 0, 0, false, [])

  function SumBy(orders: seq<Account>, f: Account -> int): int {
    if orders == [] then 0 else SumBy(orders[..|orders| - 1], f) + f(orders[|orders| - 1])
  }

  /** Bought minus sold on an instrument, as one account contributes it. */
  function NetPart(i: nat): Account -> int {
    (a: Account) => if a.instr == i then Sign(a.dir) * a.filled else 0
  }

  function OpenPart(i: nat, dir: Dir): Account -> int {
    (a: Account) => if a.instr == i && a.dir == dir then a.reserved else 0
  }

  function NetOf(orders: seq<Account>, i: nat): int {
    SumBy(orders, NetPart(i))
  }

  function OpenOf(orders: seq<Account>, i: nat, dir: Dir): int {
    SumBy(orders, OpenPart(i, dir))
  }

  lemma {:induction false} SumPut(orders: seq<Account>, s: nat, a: Account, f: Account -> int)
    requires s < |orders|
    ensures SumBy(Put(orders, s, a), f) == SumBy(orders, f) - f(orders[s]) + f(a)
  {
    var n := |orders| - 1;
    if s == n {
      assert Put(orders, s, a)[..n] == orders[..n];
    } else {
      assert Put(orders, s, a)[..n] == Put(orders[..n], s, a);
      SumPut(orders[..n], s, a, f);
    }
  }

  lemma SumSnoc(orders: seq<Account>, a: Account, f: Account -> int)
    ensures SumBy(orders + [a], f) == SumBy(orders, f) + f(a)
  {
    assert (orders + [a])[..|orders|] == orders;
  }

  lemma {:induction false} SumSplit(orders: seq<Account>, k: nat, f: Account -> int)
    requires k <= |orders|
    ensures SumBy(orders, f) == SumBy(orders[..k], f) + SumBy(orders[k..], f)
    decreases |orders|
  {
    if k == |orders| {
      assert orders[..k] == orders && orders[k..] == [];
    } else {
      var n := |orders| - 1;
      SumSplit(orders[..n], k, f);
      assert orders[..n][..k] == orders[..k] && orders[..n][k..] == orders[k..][..n - k];
    }
  }

  lemma {:induction false} SumAllNonNegative(orders: seq<Account>, f: Account -> int)
    requires forall t :: 0 <= t < |orders| ==> f(orders[t]) >= 0
    ensures 0 <= SumBy(orders, f)
  {
    if orders != [] {
      SumAllNonNegative(orders[..|orders| - 1], f);
    }
  }

  lemma {:induction false} SumEqual(a: seq<Account>, b: seq<Account>, f: Account -> int)
    requires |a| == |b| && forall t :: 0 <= t < |a| ==> f(a[t]) == f(b[t])
    ensures SumBy(a, f) == SumBy(b, f)
  {
    if a != [] {
      SumEqual(a[..|a| - 1], b[..|b| - 1], f);
    }
  }
}
