/**
 The one invariant of the execution core, and the proof that every step of the order
 lifecycle keeps it. A step works on a single parent; between its parts that parent
 may momentarily carry no live child, which `Mid` allows for it alone.
 */
module LifecycleInvariant {
  import opened Types
  import opened Books
  import opened Router
  import opened OrderPool
  import opened Positions
  import opened Accounts
  import opened Lifecycle
  import TW = TimerWheel
  import RA = RealArith

  // ----- The invariant -----

  /** Every child ever sent for an order is on the order's side and respects its limit. */
  ghost predicate SentOk(a: Account) {
    forall k :: 0 <= k < |a.sent| ==>
      a.sent[k].lots >= 1 && a.sent[k].dir == a.dir && WithinLimit(a.dir, a.sent[k].price, a.limit)
  }

  /** A closed order: each admitted lot was filled, cut by a reduce-only shrink, or reported back. */
  ghost predicate ClosedOk(a: Account, returned: int) {
    && a.admitted == a.filled + a.shrunk + returned
    && (!a.rerouted ==> a.reserved >= 0)
  }

  /** What a parent's running average says its fills were worth. */
  function Worth(par: Parent): real {
    par.avg * par.cum as real
  }

  /** An open order: the account agrees with the parent that holds it. */
  ghost predicate OpenOk(pool: Pool, a: Account, p: nat, s: nat) {
    var par := ParentAt(pool, p);
    && Held(pool, p) && par.serial == s
    && a.instr == par.instr && a.dir == par.dir && a.strategy == par.strategy && a.limit == par.limit && a.reduceOnly == par.reduceOnly
    && a.filled == par.cum && a.admitted == par.total + a.shrunk
    && a.value == Worth(par)
    && (!a.rerouted ==> a.shrunk == 0 && Load(pool, p) <= a.reserved)
  }

  ghost predicate AccountOk(core: Core, s: nat)
    requires s < |core.orders|
  {
    var a := core.orders[s];
    && a.instr < |core.pos| && 0 <= a.filled && 0 <= a.shrunk && 0 <= Returned(core.rejects, s) && SentOk(a)
    && (a.holder.None? ==> ClosedOk(a, Returned(core.rejects, s)))
    && (a.holder.Some? ==> Returned(core.rejects, s) == 0 && OpenOk(core.pool, a, a.holder.value, s))
  }

  ghost predicate AccountsOk(core: Core) {
    && (forall s: nat :: s < |core.orders| ==> AccountOk(core, s))
    && (forall p: nat :: Held(core.pool, p) ==>
          && ParentAt(core.pool, p).serial < |core.orders|
          && core.orders[ParentAt(core.pool, p).serial].holder == Some(p))
    && (forall s: nat :: s >= |core.orders| ==> Returned(core.rejects, s) == 0)
  }

  /** The counters the risk checks read are sums over the accounts. */
  ghost predicate LedgerOk(core: Core) {
    forall i: nat :: i < |core.pos| ==>
      && core.pos[i].net == NetOf(core.orders, i)
      && core.pos[i].openBuy == OpenOf(core.orders, i, Buy)
      && core.pos[i].openSell == OpenOf(core.orders, i, Sell)
  }

  /** Every active timer names an allocated live child without a fill, and no child has two. */
  ghost predicate TimersOk(core: Core) {
    TW.Unique(core.wheel)
    && forall c: nat :: c in TW.Armed(core.wheel) ==>
         Used(core.pool, c) && Live(ChildAt(core.pool, c)) && ChildAt(core.pool, c).cum == 0
  }

  ghost predicate Good(core: Core) {
    PoolSound(core.pool) && AccountsOk(core) && LedgerOk(core) && TimersOk(core)
  }

  /** Between events: additionally, every open parent has lots out at a venue. */
  ghost predicate Inv(core: Core) {
    Good(core) && forall p: nat :: Held(core.pool, p) ==> Load(core.pool, p) > 0
  }

  /** Inside a step on parent `p`. */
  ghost predicate Mid(core: Core, p: nat) {
    Good(core) && Held(core.pool, p) && forall q: nat :: Held(core.pool, q) && q != p ==> Load(core.pool, q) > 0
  }

  // ----- Frames -----

  /** Only the account of p's order changed, and only p among the parents. */
  lemma AccountsFrame(core: Core, core': Core, p: nat)
    requires AccountsOk(core) && Held(core.pool, p) && Elsewhere(core.pool, core'.pool, p)
    requires var s := ParentAt(core.pool, p).serial;
             && |core'.orders| == |core.orders| && |core'.pos| == |core.pos|
             && (forall t: nat :: t < |core.orders| && t != s ==> core'.orders[t] == core.orders[t])
             && (forall t: nat :: t != s ==> Returned(core'.rejects, t) == Returned(core.rejects, t))
             && AccountOk(core', s)
             && (Held(core'.pool, p) ==> ParentAt(core'.pool, p).serial == s && core'.orders[s].holder == Some(p))
    ensures AccountsOk(core')
  {
    var s := ParentAt(core.pool, p).serial;
    forall t: nat | t < |core'.orders|
      ensures AccountOk(core', t)
    {
      if t != s {
        assert AccountOk(core, t);
        var a := core.orders[t];
        if a.holder.Some? {
          assert OpenOk(core.pool, a, a.holder.value, t);
        }
      }
    }
    forall q: nat | Held(core'.pool, q)
      ensures ParentAt(core'.pool, q).serial < |core'.orders|
      ensures core'.orders[ParentAt(core'.pool, q).serial].holder == Some(q)
    {
      if q != p {
        assert Held(core.pool, q);
      }
    }
  }

  ghost predicate SameCounters(a: Position, b: Position) {
    a.net == b.net && a.openBuy == b.openBuy && a.openSell == b.openSell
  }

  /** A change to one account moves its instrument's counters by the same amounts. */
  lemma LedgerFrame(core: Core, core': Core, s: nat)
    requires LedgerOk(core) && s < |core.orders| && |core'.orders| == |core.orders| && |core'.pos| == |core.pos|
    requires core'.orders == Put(core.orders, s, core'.orders[s])
    requires var a, b := core.orders[s], core'.orders[s];
             && a.instr < |core.pos| && b.instr == a.instr && b.dir == a.dir
             && (forall j: nat :: j < |core.pos| && j != a.instr ==> SameCounters(core'.pos[j], core.pos[j]))
             && core'.pos[a.instr].net == core.pos[a.instr].net + Sign(a.dir) * b.filled - Sign(a.dir) * a.filled
             && (forall d: Dir :: Open(core'.pos[a.instr], d)
                  == Open(core.pos[a.instr], d) + if d == a.dir then b.reserved - a.reserved else 0)
    ensures LedgerOk(core')
  {
    var a, b := core.orders[s], core'.orders[s];
    forall i: nat | i < |core'.pos|
      ensures core'.pos[i].net == NetOf(core'.orders, i)
      ensures core'.pos[i].openBuy == OpenOf(core'.orders, i, Buy)
      ensures core'.pos[i].openSell == OpenOf(core'.orders, i, Sell)
    {
      SumPut(core.orders, s, b, NetPart(i));
      SumPut(core.orders, s, b, OpenPart(i, Buy));
      SumPut(core.orders, s, b, OpenPart(i, Sell));
      assert Open(core'.pos[i], Buy) == core'.pos[i].openBuy && Open(core'.pos[i], Sell) == core'.pos[i].openSell;
      assert Open(core.pos[i], Buy) == core.pos[i].openBuy && Open(core.pos[i], Sell) == core.pos[i].openSell;
      if i != a.instr {
        assert SameCounters(core'.pos[i], core.pos[i]);
      }
    }
  }

  /** Positions and filled and reserved amounts untouched. */
  lemma LedgerSame(core: Core, core': Core, s: nat)
    requires LedgerOk(core) && s < |core.orders| && core'.pos == core.pos && |core'.orders| == |core.orders|
    requires core'.orders == Put(core.orders, s, core'.orders[s])
    requires var a, b := core.orders[s], core'.orders[s];
             && a.instr < |core.pos| && b.instr == a.instr && b.dir == a.dir
             && b.filled == a.filled && b.reserved == a.reserved
    ensures LedgerOk(core')
  {
    LedgerFrame(core, core', s);
  }

  lemma TimersFrame(core: Core, core': Core)
    requires TimersOk(core) && TW.Unique(core'.wheel)
    requires forall c: nat :: c in TW.Armed(core'.wheel) ==>
               c in TW.Armed(core.wheel) && Used(core'.pool, c) && ChildAt(core'.pool, c) == ChildAt(core.pool, c)
    ensures TimersOk(core')
  {
  }

  lemma HolderAccount(core: Core, p: nat)
    requires AccountsOk(core) && Held(core.pool, p)
    ensures var s := ParentAt(core.pool, p).serial;
            && s < |core.orders| && AccountOk(core, s) && OpenOk(core.pool, core.orders[s], p, s)
            && AccountAt(core, s) == core.orders[s] && core.orders[s].instr < |core.pos|
  {
    assert AccountOk(core, ParentAt(core.pool, p).serial);
  }

  // ----- Releasing a reservation -----

  lemma ReleaseKeeps(core: Core, p: nat, lots: int)
    requires Mid(core, p)
    requires var a := AccountAt(core, ParentAt(core.pool, p).serial);
             !a.rerouted ==> Load(core.pool, p) <= a.reserved - lots
    ensures Mid(ReleaseFor(core, p, lots), p)
  {
    var core', s := ReleaseFor(core, p, lots), ParentAt(core.pool, p).serial;
    HolderAccount(core, p);
    AccountsFrame(core, core', p);
    LedgerFrame(core, core', s);
  }

  // ----- Execution reports -----

  lemma AverageIsExact(cum: nat, avg: real, lots: nat, price: real)
    requires lots > 0
    ensures RunningAverage(cum, avg, lots, price) * (cum + lots) as real == avg * cum as real + price * lots as real
  {
    var w := cum as real + lots as real;
    assert w == (cum + lots) as real;
    if cum > 0 {
      RA.DivMul(avg * cum as real + price * lots as real, w, Blend(avg, cum as real, price, lots as real));
    } else {
      assert avg * cum as real == 0.0;
    }
  }

  lemma TimersReport(core: Core, core': Core, c: nat)
    requires TimersOk(core) && core'.wheel == TW.Cancel(core.wheel, c)
    requires forall d: nat :: Used(core'.pool, d) <==> Used(core.pool, d)
    requires forall d: nat :: d != c ==> ChildAt(core'.pool, d) == ChildAt(core.pool, d)
    ensures TimersOk(core')
  {
    TW.CancelRemoves(core.wheel, c);
    TimersFrame(core, core');
  }

  /** The parent after a fill, as far as the pools are concerned. */
  ghost predicate FilledBy(par: Parent, par': Parent, lots: nat) {
    && par'.id == par.id && par'.slots == par.slots && par'.mask == par.mask && par'.count == par.count
    && par'.total == par.total && par'.cum == par.cum + lots && par'.leaves == par.leaves - lots
    && par'.serial == par.serial && par'.instr == par.instr && par'.dir == par.dir && par'.limit == par.limit
    && par'.reduceOnly == par.reduceOnly && par'.strategy == par.strategy
  }

  lemma FillPool(pool: Pool, c: nat, lots: nat, par': Parent)
    requires PoolSound(pool) && Used(pool, c) && Live(ChildAt(pool, c))
    requires 1 <= lots <= ChildAt(pool, c).leaves
    requires FilledBy(ParentAt(pool, ChildAt(pool, c).parentId), par', lots)
    ensures var ch := ChildAt(pool, c);
            var p, pool' := ch.parentId, SetParent(SetChild(pool, c, FilledChild(ch, lots)), ch.parentId, par');
            && Held(pool, p) && PoolSound(pool') && Held(pool', p) && Elsewhere(pool, pool', p)
            && Load(pool', p) == Load(pool, p) - lots && ParentAt(pool', p) == par'
            && (forall d: nat :: Used(pool', d) <==> Used(pool, d))
            && (forall d: nat :: d != c ==> ChildAt(pool', d) == ChildAt(pool, d))
  {
    var ch := ChildAt(pool, c);
    assert ChildOk(ch) && Held(pool, ch.parentId) && ParentOk(pool, ch.parentId);
    ReportKeepsPool(pool, c, FilledChild(ch, lots), par');
  }

  lemma FillAccount(core: Core, core': Core, p: nat, lots: nat, price: real)
    requires Good(core) && Held(core.pool, p) && Held(core'.pool, p) && lots > 0
    requires var par, par' := ParentAt(core.pool, p), ParentAt(core'.pool, p);
             && 0 <= par.cum && FilledBy(par, par', lots) && par'.avg == RunningAverage(par.cum, par.avg, lots, price)
             && Load(core'.pool, p) == Load(core.pool, p) - lots && |core'.pos| == |core.pos|
             && core'.rejects == core.rejects
             && (var a := AccountAt(core, par.serial);
                 core'.orders == Put(core.orders, par.serial, Credited(a, lots, price)))
    ensures var s := ParentAt(core.pool, p).serial;
            s < |core'.orders| && AccountOk(core', s) && core'.orders[s].holder == Some(p)
  {
    HolderAccount(core, p);
    var par := ParentAt(core.pool, p);
    AverageIsExact(par.cum, par.avg, lots, price);
  }

  /** One fill, described by its effect on each table. */
  lemma FillStep(core: Core, core': Core, c: nat, lots: nat, price: real, par': Parent)
    requires Inv(core) && Used(core.pool, c) && Live(ChildAt(core.pool, c))
    requires 1 <= lots <= ChildAt(core.pool, c).leaves
    requires var ch := ChildAt(core.pool, c);
             var par := ParentAt(core.pool, ch.parentId);
             var a := AccountAt(core, par.serial);
             && FilledBy(par, par', lots) && par'.avg == RunningAverage(par.cum, par.avg, lots, price)
             && core'.pool == SetParent(SetChild(core.pool, c, FilledChild(ch, lots)), ch.parentId, par')
             && core'.wheel == TW.Cancel(core.wheel, c) && core'.rejects == core.rejects
             && core'.orders == Put(core.orders, par.serial, Credited(a, lots, price))
             && core'.pos == Put(core.pos, par.instr, PosAt(core', par.instr))
             && (par.instr < |core.pos| ==>
                  && core'.pos[par.instr].net == core.pos[par.instr].net + Sign(par.dir) * lots
                  && (forall d: Dir :: Open(core'.pos[par.instr], d)
                        == Open(core.pos[par.instr], d) - if d == par.dir then lots else 0))
    ensures Mid(core', ChildAt(core.pool, c).parentId)
  {
    var p := ChildAt(core.pool, c).parentId;
    assert Held(core.pool, p) && ParentOk(core.pool, p);
    FillPool(core.pool, c, lots, par');
    FillAccount(core, core', p, lots, price);
    HolderAccount(core, p);
    AccountsFrame(core, core', p);
    LedgerFrame(core, core', par'.serial);
    TimersReport(core, core', c);
  }

  lemma FillKeeps(core: Core, c: nat, lots: nat, price: real)
    requires Inv(core) && Used(core.pool, c) && Live(ChildAt(core.pool, c))
    requires 1 <= lots <= ChildAt(core.pool, c).leaves
    ensures Mid(BookFill(core, c, lots, price), ChildAt(core.pool, c).parentId)
  {
    var p := ChildAt(core.pool, c).parentId;
    assert Held(core.pool, p) && ParentOk(core.pool, p);
    HolderAccount(core, p);
    var par := ParentAt(core.pool, p);
    var par' := FilledParent(par, lots, price);
    assert FilledBy(par, par', lots);
    FillStep(core, BookFill(core, c, lots, price), c, lots, price, par');
  }

  /** A child's own record changes without gaining lots; nothing else but its timer may. */
  lemma ChildEditKeeps(core: Core, core': Core, c: nat, ch': Child)
    requires Inv(core) && Used(core.pool, c) && core'.pool == SetChild(core.pool, c, ch')
    requires core'.pos == core.pos && core'.orders == core.orders && core'.rejects == core.rejects
    requires var ch := ChildAt(core.pool, c);
             ChildOk(ch') && ch'.parentId == ch.parentId && ch'.dir == ch.dir && ch'.leaves <= ch.leaves
    requires TW.Unique(core'.wheel) && TW.Armed(core'.wheel) <= TW.Armed(core.wheel)
    requires c in TW.Armed(core'.wheel) ==> Live(ch') && ch'.cum == 0
    ensures var p := ch'.parentId;
            && Held(core.pool, p) && Mid(core', p) && ParentAt(core'.pool, p) == ParentAt(core.pool, p)
            && Load(core'.pool, p) == Load(core.pool, p) - ChildAt(core.pool, c).leaves + ch'.leaves
  {
    var p := ch'.parentId;
    ChildEditPool(core.pool, c, ch');
    HolderAccount(core, p);
    assert AccountOk(core', ParentAt(core.pool, p).serial);
    AccountsFrame(core, core', p);
    forall d: nat | d in TW.Armed(core'.wheel)
      ensures Used(core'.pool, d) && Live(ChildAt(core'.pool, d)) && ChildAt(core'.pool, d).cum == 0
    {
      assert Used(core.pool, d) && Live(ChildAt(core.pool, d));
    }
  }

  lemma ChildEditPool(pool: Pool, c: nat, ch': Child)
    requires PoolSound(pool) && Used(pool, c) && ChildOk(ch')
    requires ch'.parentId == ChildAt(pool, c).parentId && ch'.dir == ChildAt(pool, c).dir
    requires ch'.leaves <= ChildAt(pool, c).leaves
    ensures var p, pool' := ch'.parentId, SetChild(pool, c, ch');
            && PoolSound(pool') && Held(pool, p) && Held(pool', p) && Elsewhere(pool, pool', p)
            && ParentAt(pool', p) == ParentAt(pool, p)
            && Load(pool', p) == Load(pool, p) - ChildAt(pool, c).leaves + ch'.leaves
            && (forall d: nat :: Used(pool', d) <==> Used(pool, d))
            && (forall d: nat :: d != c ==> ChildAt(pool', d) == ChildAt(pool, d))
            && ChildAt(pool', c) == ch'
  {
    var p := ch'.parentId;
    assert Held(pool, p) && ParentOk(pool, p);
    assert SetParent(SetChild(pool, c, ch'), p, ParentAt(pool, p)) == SetChild(pool, c, ch');
    ReportKeepsPool(pool, c, ch', ParentAt(pool, p));
  }

  lemma CancelKeeps(core: Core, c: nat, state: OrderState)
    requires Inv(core) && Used(core.pool, c) && Live(ChildAt(core.pool, c))
    requires state == OrderState.Canceled || state == OrderState.Rejected
    ensures var p := ChildAt(core.pool, c).parentId;
            Mid(BookCancel(core, c, state), p) && ParentAt(BookCancel(core, c, state).pool, p).leaves > 0
  {
    var ch := ChildAt(core.pool, c);
    var done := ch.(leaves := 0, state := state);
    assert ChildOk(ch);
    var half := core.(pool := SetChild(core.pool, c, done), wheel := TW.Cancel(core.wheel, c));
    TW.CancelRemoves(core.wheel, c);
    ChildEditKeeps(core, half, c, done);
    assert ParentOk(core.pool, ch.parentId);
    HolderAccount(core, ch.parentId);
    ReleaseKeeps(half, ch.parentId, ch.leaves);
  }

  lemma AckKeeps(core: Core, c: nat)
    requires Inv(core) && Used(core.pool, c) && Live(ChildAt(core.pool, c))
    ensures Inv(Acknowledge(core, c))
  {
    var ch := ChildAt(core.pool, c);
    assert ChildOk(ch);
    ChildEditKeeps(core, Acknowledge(core, c), c, ch.(state := PendingNew));
  }

  // ----- Closing -----

  lemma ReturnedSnoc(rejects: seq<Reject>, r: Reject, s: nat)
    ensures Returned(rejects + [r], s) == Returned(rejects, s) + if r.order == Some(s) then r.lots else 0
  {
    assert (rejects + [r])[..|rejects|] == rejects;
  }

  lemma KidsUnarmed(core: Core, p: nat)
    requires Good(core) && Held(core.pool, p) && Load(core.pool, p) == 0
    ensures forall c :: c in Kids(ParentAt(core.pool, p)) ==> c !in TW.Armed(core.wheel)
  {
    LoadZeroIffAllTerminal(core.pool, p);
  }

  /** A parent without live lots leaves the pool, and its account is settled. */
  lemma CloseKeeps(core: Core, core': Core, p: nat, done: Parent)
    requires Mid(core, p) && Load(core.pool, p) == 0 && core'.wheel == core.wheel && core'.pos == core.pos
    requires var par := ParentAt(core.pool, p);
             && done.id == par.id && done.dir == par.dir && done.slots == par.slots && done.mask == par.mask && done.count == par.count
             && done.total == par.total && done.cum == par.cum && done.leaves == par.leaves
             && core'.pool == FreeParent(SetParent(core.pool, p, done).(childFree := core.pool.childFree + Kids(par)), p)
             && core'.orders == Put(core.orders, par.serial, AccountAt(core', par.serial))
             && AccountAt(core', par.serial) == AccountAt(core, par.serial).(holder := None)
             && (forall t: nat :: Returned(core'.rejects, t)
                  == Returned(core.rejects, t) + if t == par.serial then par.leaves else 0)
    ensures Inv(core')
  {
    var par := ParentAt(core.pool, p);
    var edited := SetParent(core.pool, p, done);
    ParentEditKeepsPool(core.pool, p, done);
    CloseKeepsPool(edited, p);
    assert Kids(done) == Kids(par);
    KidsUnarmed(core, p);
    HolderAccount(core, p);
    assert Elsewhere(core.pool, core'.pool, p);
    AccountsFrame(core, core', p);
    LedgerSame(core, core', par.serial);
    TimersFrame(core, core');
  }

  lemma FilledKeeps(core: Core, p: nat)
    requires Mid(core, p) && ParentAt(core.pool, p).leaves == 0
    ensures Inv(CloseFilled(core, p))
  {
    var par := ParentAt(core.pool, p);
    var done := par.(state := OrderState.Filled);
    KidsNonNegative(core.pool, p);
    FreeAll(SetParent(core.pool, p, done), par, false);
    HolderAccount(core, p);
    CloseKeeps(core, CloseFilled(core, p), p, done);
  }

  lemma ReducedKeeps(core: Core, p: nat)
    requires Mid(core, p) && ParentAt(core.pool, p).leaves == 0 && ParentAt(core.pool, p).count == 0
    ensures Inv(CloseReduced(core, p))
  {
    var par := ParentAt(core.pool, p);
    KidsNonNegative(core.pool, p);
    HolderAccount(core, p);
    var done := par.(state := if par.cum > 0 then OrderState.Filled else OrderState.Rejected);
    assert core.pool.childFree + Kids(par) == core.pool.childFree;
    CloseKeeps(core, CloseReduced(core, p), p, done);
  }

  lemma AbandonKeeps(core: Core, p: nat, reason: Reason)
    requires Mid(core, p) && ParentAt(core.pool, p).count == 0
    ensures Inv(Abandon(core, p, reason))
  {
    var par := ParentAt(core.pool, p);
    HolderAccount(core, p);
    var done := par.(state := if par.cum > 0 then PartiallyFilled else OrderState.Rejected);
    assert core.pool.childFree + Kids(par) == core.pool.childFree;
    forall t: nat {
      ReturnedSnoc(core.rejects, Reject(par.instr, par.dir, par.strategy, par.leaves, reason, Some(par.serial)), t);
    }
    assert ParentOk(core.pool, p);
    CloseKeeps(core, Abandon(core, p, reason), p, done);
  }

  // ----- Dispatch -----

  /** What the dispatch loop keeps: what is out plus what is still to send fits the order. */
  ghost predicate Sending(core: Core, p: nat, legs: seq<Leg>, i: nat) {
    var par := ParentAt(core.pool, p);
    var a := AccountAt(core, par.serial);
    && Mid(core, p) && i <= |legs| && par.count == i
    && (i > 0 ==> Load(core.pool, p) > 0)
    && Load(core.pool, p) + SumLegs(legs[i..]) <= par.leaves
    && (!a.rerouted ==> Load(core.pool, p) + SumLegs(legs[i..]) <= a.reserved)
    && (forall k :: 0 <= k < |legs| ==> LegOk(par, legs[k]))
  }

  ghost predicate LegOk(par: Parent, leg: Leg) {
    leg.lots >= 1 && leg.slice.price > 0 && WithinLimit(par.dir, leg.slice.price, par.limit)
  }

  /** What a leg looks like once it is sent for an order on this side. */
  function SentAs(dir: Dir, leg: Leg): Sent {
    Sent(leg.slice.venue, dir, leg.kind, leg.slice.price, leg.lots)
  }

  lemma {:induction false} LegsNonNegative(legs: seq<Leg>)
    requires forall k :: 0 <= k < |legs| ==> legs[k].lots >= 1
    ensures SumLegs(legs) >= 0
  {
    if legs != [] {
      LegsNonNegative(legs[1..]);
    }
  }

  lemma SendPool(core: Core, cfg: Config, p: nat, legs: seq<Leg>, i: nat, now: nat)
    requires Sending(core, p, legs, i) && CanSend(core, p, legs, i)
    ensures var pool', c := SendChild(core, cfg, p, i, legs[i], now).pool, Top(core.pool.childFree);
            && PoolSound(pool') && Held(pool', p) && Elsewhere(core.pool, pool', p)
            && !Used(core.pool, c) && Used(pool', c) && Live(ChildAt(pool', c)) && ChildAt(pool', c).cum == 0
            && Load(pool', p) == Load(core.pool, p) + legs[i].lots
            && ParentAt(pool', p) == AddChild(ParentAt(core.pool, p), i, c)
            && (forall d: nat :: d != c ==> Used(pool', d) == Used(core.pool, d) && ChildAt(pool', d) == ChildAt(core.pool, d))
  {
    assert legs[i..][1..] == legs[i + 1..];
    LegsNonNegative(legs[i + 1..]);
    DispatchKeepsPool(core.pool, p, ChildFor(ParentAt(core.pool, p), legs[i], now));
  }

  lemma SendKeeps(core: Core, cfg: Config, p: nat, legs: seq<Leg>, i: nat, now: nat)
    requires Sending(core, p, legs, i) && CanSend(core, p, legs, i)
    ensures Sending(SendChild(core, cfg, p, i, legs[i], now), p, legs, i + 1)
  {
    var core' := SendChild(core, cfg, p, i, legs[i], now);
    var s, c := ParentAt(core.pool, p).serial, Top(core.pool.childFree);
    SendPool(core, cfg, p, legs, i, now);
    assert legs[i..][1..] == legs[i + 1..];
    LegsNonNegative(legs[i + 1..]);
    KidsNonNegative(core.pool, p);
    HolderAccount(core, p);
    SendAccount(core, core', p, legs[i], ParentAt(core'.pool, p));
    AccountsFrame(core, core', p);
    LedgerSame(core, core', s);
    SendTimers(core, core', cfg, c, now, TimeoutFor(cfg, legs[i]));
  }

  /** The order's account after one more child: terms unchanged, the new child within the limit. */
  lemma SendAccount(core: Core, core': Core, p: nat, leg: Leg, par': Parent)
    requires AccountsOk(core) && Held(core.pool, p) && Held(core'.pool, p) && par' == ParentAt(core'.pool, p)
    requires core'.rejects == core.rejects && |core'.pos| == |core.pos|
    requires Load(core'.pool, p) == Load(core.pool, p) + leg.lots
    requires var par := ParentAt(core.pool, p);
             var a := AccountAt(core, par.serial);
             && par'.serial == par.serial && par'.instr == par.instr && par'.dir == par.dir && par'.limit == par.limit
             && par'.strategy == par.strategy && par'.reduceOnly == par.reduceOnly && par'.total == par.total && par'.cum == par.cum && par'.avg == par.avg
             && LegOk(par, leg) && (!a.rerouted ==> Load(core.pool, p) + leg.lots <= a.reserved)
             && core'.orders == Put(core.orders, par.serial, a.(sent := a.sent + [SentAs(par.dir, leg)]))
    ensures var s := ParentAt(core.pool, p).serial;
            s < |core'.orders| && AccountOk(core', s) && core'.orders[s].holder == Some(p)
  {
    HolderAccount(core, p);
    var a := AccountAt(core, par'.serial);
    assert SentOk(a.(sent := a.sent + [SentAs(ParentAt(core.pool, p).dir, leg)]));
  }

  lemma SendTimers(core: Core, core': Core, cfg: Config, c: nat, now: nat, timeout: nat)
    requires TimersOk(core) && !Used(core.pool, c) && core'.wheel == TW.Insert(core.wheel, c, now, timeout)
    requires Used(core'.pool, c) && Live(ChildAt(core'.pool, c)) && ChildAt(core'.pool, c).cum == 0
    requires forall d: nat :: d != c ==> Used(core'.pool, d) == Used(core.pool, d) && ChildAt(core'.pool, d) == ChildAt(core.pool, d)
    ensures TimersOk(core')
  {
    TW.InsertArms(core.wheel, c, now, timeout);
  }

  lemma {:induction false} SendFromKeeps(core: Core, cfg: Config, p: nat, legs: seq<Leg>, i: nat, now: nat)
    requires Sending(core, p, legs, i)
    ensures var (core', sent) := SendFrom(core, cfg, p, legs, i, now); Sending(core', p, legs, sent)
    decreases |legs| - i
  {
    if CanSend(core, p, legs, i) {
      SendKeeps(core, cfg, p, legs, i, now);
      SendFromKeeps(SendChild(core, cfg, p, i, legs[i], now), cfg, p, legs, i + 1, now);
    }
  }

  lemma DispatchKeeps(core: Core, cfg: Config, p: nat, legs: seq<Leg>, now: nat)
    requires Sending(core, p, legs, 0) && legs != []
    ensures Inv(Dispatch(core, cfg, p, legs, now))
  {
    SendFromKeeps(core, cfg, p, legs, 0, now);
    var (out, sent) := SendFrom(core, cfg, p, legs, 0, now);
    FinishKeeps(out, p, legs, sent);
  }

  /** What was not sent is given back, and a parent that got nothing out is closed. */
  lemma FinishKeeps(out: Core, p: nat, legs: seq<Leg>, sent: nat)
    requires Sending(out, p, legs, sent)
    ensures Inv(FinishDispatch(out, p, legs, sent))
  {
    LegsNonNegative(legs[sent..]);
    var gap := if sent < |legs| then SumLegs(legs[sent..]) else 0;
    if gap > 0 {
      ReleaseKeeps(out, p, gap);
      if sent == 0 {
        AbandonKeeps(ReleaseFor(out, p, gap), p, ChildPoolExhausted);
      }
    } else if sent == 0 {
      AbandonKeeps(out, p, ChildPoolExhausted);
    }
  }

  // ----- Reroute -----

  lemma ClearKeeps(core: Core, p: nat)
    requires Mid(core, p) && Load(core.pool, p) == 0
    ensures var core' := ClearChildren(core, p);
            && Mid(core', p) && Load(core'.pool, p) == 0 && ParentAt(core'.pool, p).count == 0
            && ParentAt(core'.pool, p) == DropChildren(ParentAt(core.pool, p))
            && AccountAt(core', ParentAt(core.pool, p).serial).rerouted
  {
    var core', par := ClearChildren(core, p), ParentAt(core.pool, p);
    ClearPool(core, p);
    KidsUnarmed(core, p);
    HolderAccount(core, p);
    AccountsFrame(core, core', p);
    LedgerSame(core, core', par.serial);
    TimersFrame(core, core');
  }

  lemma ClearPool(core: Core, p: nat)
    requires PoolSound(core.pool) && Held(core.pool, p) && Load(core.pool, p) == 0
    ensures var par, pool' := ParentAt(core.pool, p), ClearChildren(core, p).pool;
            && PoolSound(pool') && Held(pool', p) && Elsewhere(core.pool, pool', p) && Load(pool', p) == 0
            && ParentAt(pool', p) == DropChildren(par) && pool'.children == core.pool.children
            && (forall c: nat :: Used(pool', c) <==> Used(core.pool, c) && c !in Kids(par))
  {
    LoadZeroIffAllTerminal(core.pool, p);
    FreeAll(core.pool, ParentAt(core.pool, p), true);
    ClearKeepsPool(core.pool, p);
  }

  lemma ShrinkKeeps(core: Core, p: nat)
    requires Mid(core, p) && Load(core.pool, p) == 0 && AccountAt(core, ParentAt(core.pool, p).serial).rerouted
    ensures var core' := Shrink(core, p);
            && Mid(core', p) && Load(core'.pool, p) == 0 && ParentAt(core'.pool, p).count == ParentAt(core.pool, p).count
            && ParentAt(core'.pool, p).serial == ParentAt(core.pool, p).serial
            && AccountAt(core', ParentAt(core.pool, p).serial).rerouted
            && (!ParentAt(core.pool, p).reduceOnly ==> core' == core)
  {
    KidsNonNegative(core.pool, p);
    assert ParentOk(core.pool, p);
    var cut, excess := ShrinkCuts(core, p);
    if cut {
      ShrinkByKeeps(core, p, excess);
    }
  }

  /** The re-clamp either changes nothing or releases and cuts some of the leaves. */
  lemma ShrinkCuts(core: Core, p: nat) returns (cut: bool, excess: nat)
    requires ParentAt(core.pool, p).leaves >= 0
    ensures excess <= ParentAt(core.pool, p).leaves && (cut ==> ParentAt(core.pool, p).reduceOnly)
    ensures Shrink(core, p) == if cut then CutLeaves(ReleaseFor(core, p, excess), p, excess) else core
  {
    var par := ParentAt(core.pool, p);
    var safe := ClampReduceOnly(PosAt(core, par.instr), par.dir, par.leaves, true);
    cut := par.reduceOnly && safe < par.leaves;
    excess := if cut then par.leaves - safe else 0;
  }

  lemma ShrinkByKeeps(core: Core, p: nat, excess: nat)
    requires Mid(core, p) && Load(core.pool, p) == 0 && AccountAt(core, ParentAt(core.pool, p).serial).rerouted
    requires excess <= ParentAt(core.pool, p).leaves
    ensures var core' := CutLeaves(ReleaseFor(core, p, excess), p, excess);
            && Mid(core', p) && Load(core'.pool, p) == 0
            && ParentAt(core'.pool, p).count == ParentAt(core.pool, p).count
            && ParentAt(core'.pool, p).serial == ParentAt(core.pool, p).serial
            && AccountAt(core', ParentAt(core.pool, p).serial).rerouted
  {
    ReleaseKeeps(core, p, excess);
    HolderAccount(core, p);
    CutKeeps(ReleaseFor(core, p, excess), p, excess);
  }

  lemma CutKeeps(cut: Core, p: nat, excess: nat)
    requires Mid(cut, p) && Load(cut.pool, p) == 0 && AccountAt(cut, ParentAt(cut.pool, p).serial).rerouted
    requires excess <= ParentAt(cut.pool, p).leaves
    ensures var core' := CutLeaves(cut, p, excess);
            && Mid(core', p) && Load(core'.pool, p) == 0
            && ParentAt(core'.pool, p).count == ParentAt(cut.pool, p).count
            && ParentAt(core'.pool, p).serial == ParentAt(cut.pool, p).serial
            && AccountAt(core', ParentAt(cut.pool, p).serial).rerouted
  {
    var par := ParentAt(cut.pool, p);
    assert ParentOk(cut.pool, p);
    CutAccount(cut, p, excess);
    HolderAccount(cut, p);
    EditKeeps(cut, CutLeaves(cut, p, excess), p, par.(total := par.total - excess, leaves := par.leaves - excess));
  }

  /** A parent's own fields and its account change; its children, the positions and the timers do not. */
  lemma EditKeeps(core: Core, core': Core, p: nat, par': Parent)
    requires Mid(core, p) && core'.pool == SetParent(core.pool, p, par')
    requires core'.wheel == core.wheel && core'.pos == core.pos && core'.rejects == core.rejects
    requires var par := ParentAt(core.pool, p);
             && par'.id == par.id && par'.dir == par.dir
             && par'.slots == par.slots && par'.mask == par.mask && par'.count == par.count
             && par'.leaves == par'.total - par'.cum && 0 <= par'.cum && Load(core.pool, p) <= par'.leaves
             && par'.serial == par.serial && par.serial < |core.orders|
             && core'.orders == Put(core.orders, par.serial, AccountAt(core', par.serial))
             && AccountOk(core', par.serial)
             && (var a, b := core.orders[par.serial], core'.orders[par.serial];
                 && b.holder == Some(p) && b.instr == a.instr && b.dir == a.dir
                 && b.filled == a.filled && b.reserved == a.reserved)
    ensures Mid(core', p) && Load(core'.pool, p) == Load(core.pool, p) && ParentAt(core'.pool, p) == par'
  {
    ParentEditKeepsPool(core.pool, p, par');
    HolderAccount(core, p);
    AccountsFrame(core, core', p);
    LedgerSame(core, core', par'.serial);
    TimersFrame(core, core');
  }

  lemma CutAccount(cut: Core, p: nat, excess: nat)
    requires AccountsOk(cut) && Held(cut.pool, p) && AccountAt(cut, ParentAt(cut.pool, p).serial).rerouted
    ensures var core', s := CutLeaves(cut, p, excess), ParentAt(cut.pool, p).serial;
            s < |core'.orders| && AccountOk(core', s) && core'.orders[s].holder == Some(p)
  {
    HolderAccount(cut, p);
  }

  lemma RoutesFit(cfg: Config, view: View, par: Parent, kind: OrderType)
    requires ViewOk(cfg, view) && par.leaves > 0
    ensures SplitOk(LegsFor(cfg, view, par, par.leaves, kind), par.dir, par.leaves, par.limit, |view.venues|)
  {
    var ctx := ContextFor(cfg, view, par, par.leaves);
    if kind == Maker {
      PlaceContract(ctx, cfg.tick, par.limit);
    } else {
      SplitContract(ctx, cfg.tick, par.limit);
    }
  }

  lemma RerouteKeeps(core: Core, cfg: Config, p: nat, view: View)
    requires ViewOk(cfg, view) && Mid(core, p) && Load(core.pool, p) == 0 && ParentAt(core.pool, p).leaves > 0
    ensures Inv(Reroute(core, cfg, p, view))
  {
    ClearKeeps(core, p);
    var cleared := ClearChildren(core, p);
    ShrinkKeeps(cleared, p);
    var cut := Shrink(cleared, p);
    var par := ParentAt(cut.pool, p);
    if par.reduceOnly && par.leaves == 0 {
      ReducedKeeps(cut, p);
    } else {
      KidsNonNegative(cut.pool, p);
      assert ParentOk(cut.pool, p);
      RerouteOn(cut, cfg, p, view);
    }
  }

  lemma RerouteOn(cut: Core, cfg: Config, p: nat, view: View)
    requires ViewOk(cfg, view) && Mid(cut, p) && Load(cut.pool, p) == 0
    requires ParentAt(cut.pool, p).count == 0 && ParentAt(cut.pool, p).leaves > 0
    requires AccountAt(cut, ParentAt(cut.pool, p).serial).rerouted
    ensures var legs := LegsFor(cfg, view, ParentAt(cut.pool, p), ParentAt(cut.pool, p).leaves, Taker);
            Inv(if legs == [] then Abandon(cut, p, NoLiquidity) else Dispatch(MarkPending(cut, p), cfg, p, legs, view.now))
  {
    var par := ParentAt(cut.pool, p);
    var legs := LegsFor(cfg, view, par, par.leaves, Taker);
    RoutesFit(cfg, view, par, Taker);
    if legs == [] {
      AbandonKeeps(cut, p, NoLiquidity);
    } else {
      MarkKeeps(cut, p);
      ReadyToSend(MarkPending(cut, p), p, legs, |view.venues|);
      DispatchKeeps(MarkPending(cut, p), cfg, p, legs, view.now);
    }
  }

  lemma MarkKeeps(cut: Core, p: nat)
    requires Mid(cut, p)
    ensures var core' := MarkPending(cut, p);
            && Mid(core', p) && Load(core'.pool, p) == Load(cut.pool, p)
            && ParentAt(core'.pool, p) == ParentAt(cut.pool, p).(state := PendingNew)
            && core'.orders == cut.orders
  {
    assert ParentOk(cut.pool, p);
    MarkAccount(cut, p);
    EditKeeps(cut, MarkPending(cut, p), p, ParentAt(cut.pool, p).(state := PendingNew));
  }

  lemma MarkAccount(cut: Core, p: nat)
    requires PoolSound(cut.pool) && AccountsOk(cut) && Held(cut.pool, p)
    ensures var core', s := MarkPending(cut, p), ParentAt(cut.pool, p).serial;
            && s < |core'.orders| && AccountOk(core', s) && core'.orders[s].holder == Some(p)
            && core'.orders == Put(cut.orders, s, AccountAt(core', s))
  {
    assert ParentOk(cut.pool, p);
    ParentEditKeepsPool(cut.pool, p, ParentAt(cut.pool, p).(state := PendingNew));
    HolderAccount(cut, p);
  }

  /** A childless parent and a split of its leaves are what the dispatch loop starts from. */
  lemma ReadyToSend(core: Core, p: nat, legs: seq<Leg>, venues: nat)
    requires Mid(core, p) && Load(core.pool, p) == 0 && ParentAt(core.pool, p).count == 0
    requires var par := ParentAt(core.pool, p);
             && SplitOk(legs, par.dir, par.leaves, par.limit, venues)
             && (var a := AccountAt(core, par.serial); !a.rerouted ==> par.leaves <= a.reserved)
    ensures Sending(core, p, legs, 0)
  {
    assert legs[0..] == legs;
  }
}
