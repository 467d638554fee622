/** What every run of the execution core guarantees, stated for a state reached from construction. */
module LifecycleTheorems {
  import opened Types
  import opened OrderPool
  import opened Positions
  import opened Accounts
  import opened Lifecycle
  import opened LifecycleInvariant
  import opened LifecycleSteps
  import opened LifecycleHistory
  import TW = TimerWheel

  ghost predicate Reached(start: Core, cfg: Config, events: seq<Event>, core: Core) {
    Initial(start) && IsRun(start, cfg, events, core)
  }

  lemma ReachedInv(start: Core, cfg: Config, events: seq<Event>, core: Core)
    requires Reached(start, cfg, events, core)
    ensures Inv(core)
  {
    InitialHolds(start);
    RunKeeps(start, cfg, events, core);
  }

  /** No parked orders: every open parent has lots left and a live child that can still report. */
  lemma NoParkedOrders(start: Core, cfg: Config, events: seq<Event>, core: Core, p: nat)
    requires Reached(start, cfg, events, core) && Held(core.pool, p)
    ensures ParentAt(core.pool, p).leaves > 0
    ensures exists s :: 0 <= s < MAX_KIDS && HasChild(ParentAt(core.pool, p), s)
              && Used(core.pool, ParentAt(core.pool, p).slots[s])
              && Live(ChildAt(core.pool, ParentAt(core.pool, p).slots[s]))
  {
    ReachedInv(start, cfg, events, core);
    assert ParentOk(core.pool, p);
    LoadZeroIffAllTerminal(core.pool, p);
    var par := ParentAt(core.pool, p);
    var s :| 0 <= s < MAX_KIDS && HasChild(par, s) && Live(ChildAt(core.pool, par.slots[s]));
    assert par.slots[s] == Kids(par)[s];
    assert par.slots[s] in Kids(par);
  }

  /** Slot `s` of allocated parent `p` records child `c`. */
  ghost predicate Records(pool: Pool, p: nat, s: nat, c: nat) {
    Held(pool, p) && HasChild(ParentAt(pool, p), s) && ParentAt(pool, p).slots[s] == c
  }

  /**
   Ownership: a child is allocated exactly when some allocated parent records it, it
   is recorded once, neither free list holds an id twice, and the id handed out next
   is not in use.
   */
  lemma OwnershipIsExact(start: Core, cfg: Config, events: seq<Event>, core: Core)
    requires Reached(start, cfg, events, core)
    ensures forall c: nat :: Used(core.pool, c) <==> exists p: nat, s: nat :: Records(core.pool, p, s, c)
    ensures forall c: nat, p: nat, s: nat, q: nat, t: nat ::
              Records(core.pool, p, s, c) && Records(core.pool, q, t, c) ==> p == q && s == t
    ensures Distinct(core.pool.parentFree) && Distinct(core.pool.childFree)
    ensures core.pool.childFree != [] ==> !Used(core.pool, Top(core.pool.childFree))
    ensures core.pool.parentFree != [] ==> !Held(core.pool, Top(core.pool.parentFree))
  {
    ReachedInv(start, cfg, events, core);
    var pool := core.pool;
    forall c: nat | Used(pool, c)
      ensures exists p: nat, s: nat :: Records(pool, p, s, c)
    {
      var p := ChildAt(pool, c).parentId;
      var kids := Kids(ParentAt(pool, p));
      var s :| 0 <= s < |kids| && kids[s] == c;
      assert Records(pool, p, s, c);
    }
    forall c: nat, p: nat, s: nat | Records(pool, p, s, c)
      ensures Used(pool, c) && ChildAt(pool, c).parentId == p
      ensures s < |Kids(ParentAt(pool, p))| && Kids(ParentAt(pool, p))[s] == c
    {
      RecordedKid(pool, p, s, c);
    }
    forall c: nat, p: nat, s: nat, q: nat, t: nat | Records(pool, p, s, c) && Records(pool, q, t, c)
      ensures p == q && s == t
    {
      assert Distinct(Kids(ParentAt(pool, p)));
    }
  }

  lemma RecordedKid(pool: Pool, p: nat, s: nat, c: nat)
    requires PoolSound(pool) && Records(pool, p, s, c)
    ensures Used(pool, c) && ChildAt(pool, c).parentId == p
    ensures s < |Kids(ParentAt(pool, p))| && Kids(ParentAt(pool, p))[s] == c
  {
    var par := ParentAt(pool, p);
    assert Compact(par);
    assert Kids(par)[s] == c;
    assert c in Kids(par);
  }

  /**
   No overfill: what a parent's children can still fill never exceeds what it has
   left, and nothing is ever filled beyond the size admitted.
   */
  lemma NoOverfill(start: Core, cfg: Config, events: seq<Event>, core: Core)
    requires Reached(start, cfg, events, core)
    ensures forall p: nat :: Held(core.pool, p) ==>
              var par := ParentAt(core.pool, p);
              0 < Load(core.pool, p) <= par.leaves && par.leaves == par.total - par.cum && 0 <= par.cum
    ensures forall s: nat :: s < |core.orders| ==> 0 <= core.orders[s].filled <= core.orders[s].admitted
  {
    ReachedInv(start, cfg, events, core);
    forall p: nat | Held(core.pool, p)
      ensures ParentOk(core.pool, p)
    {
    }
    forall s: nat | s < |core.orders|
      ensures 0 <= core.orders[s].filled <= core.orders[s].admitted
    {
      assert AccountOk(core, s);
      if core.orders[s].holder.Some? {
        assert ParentOk(core.pool, core.orders[s].holder.value);
        KidsNonNegative(core.pool, core.orders[s].holder.value);
      }
    }
  }

  /** When a fill completes a parent, every child it still records is finished, so none is freed live. */
  lemma NoLiveChildAtFill(start: Core, cfg: Config, events: seq<Event>, core: Core, c: nat, lots: nat, price: real)
    requires Reached(start, cfg, events, core) && Used(core.pool, c) && Live(ChildAt(core.pool, c))
    requires 1 <= lots <= ChildAt(core.pool, c).leaves
    ensures var p, booked := ChildAt(core.pool, c).parentId, BookFill(core, c, lots, price);
            && 0 <= ParentAt(booked.pool, p).leaves
            && (ParentAt(booked.pool, p).leaves == 0 ==>
                  forall d :: d in Kids(ParentAt(booked.pool, p)) ==> Terminal(ChildAt(booked.pool, d)))
  {
    ReachedInv(start, cfg, events, core);
    FillKeeps(core, c, lots, price);
    var p, booked := ChildAt(core.pool, c).parentId, BookFill(core, c, lots, price);
    assert ParentOk(booked.pool, p);
    KidsNonNegative(booked.pool, p);
    LoadZeroIffAllTerminal(booked.pool, p);
  }

  // ----- Conservation -----

  const ADMITTED: Account -> int := (a: Account) => a.admitted
  const FILLED: Account -> int := (a: Account) => a.filled
  const SHRUNK: Account -> int := (a: Account) => a.shrunk

  /** The leaves of the parent that holds an open order. */
  function OpenLeaves(core: Core, s: nat): int {
    match AccountAt(core, s).holder
    case Some(p) => ParentAt(core.pool, p).leaves
    case None => 0
  }

  function SumOpenLeaves(core: Core, n: nat): int {
    if n == 0 then 0 else SumOpenLeaves(core, n - 1) + OpenLeaves(core, n - 1)
  }

  function SumReturned(core: Core, n: nat): int {
    if n == 0 then 0 else SumReturned(core, n - 1) + Returned(core.rejects, n - 1)
  }

  /** One order: every admitted lot is filled, cut, still open or reported back, and only one of them. */
  lemma OrderConserved(core: Core, s: nat)
    requires Inv(core) && s < |core.orders|
    ensures var a := core.orders[s];
            && a.admitted == a.filled + a.shrunk + OpenLeaves(core, s) + Returned(core.rejects, s)
            && 0 <= a.filled && 0 <= a.shrunk && 0 <= OpenLeaves(core, s) && 0 <= Returned(core.rejects, s)
            && (OpenLeaves(core, s) > 0 ==> Returned(core.rejects, s) == 0)
  {
    assert AccountOk(core, s);
    if core.orders[s].holder.Some? {
      assert ParentOk(core.pool, core.orders[s].holder.value);
      KidsNonNegative(core.pool, core.orders[s].holder.value);
    }
  }

  lemma {:induction false} PrefixConserved(core: Core, n: nat)
    requires Inv(core) && n <= |core.orders|
    ensures SumBy(core.orders[..n], ADMITTED)
         == SumBy(core.orders[..n], FILLED) + SumBy(core.orders[..n], SHRUNK)
            + SumOpenLeaves(core, n) + SumReturned(core, n)
  {
    if n > 0 {
      PrefixConserved(core, n - 1);
      OrderConserved(core, n - 1);
      assert core.orders[..n][..n - 1] == core.orders[..n - 1];
    }
  }

  /**
   Lot conservation over whole runs: lots admitted across all orders are the lots
   filled, cut by reduce-only shrinking, still open, or reported on the reject queue;
   and open orders and allocated parents are the same things.
   */
  lemma LotsConserved(start: Core, cfg: Config, events: seq<Event>, core: Core)
    requires Reached(start, cfg, events, core)
    ensures SumBy(core.orders, ADMITTED)
         == SumBy(core.orders, FILLED) + SumBy(core.orders, SHRUNK)
            + SumOpenLeaves(core, |core.orders|) + SumReturned(core, |core.orders|)
    ensures forall p: nat :: Held(core.pool, p) ==> AccountAt(core, ParentAt(core.pool, p).serial).holder == Some(p)
    ensures forall s: nat :: s < |core.orders| && core.orders[s].holder.Some? ==>
              Held(core.pool, core.orders[s].holder.value) && ParentAt(core.pool, core.orders[s].holder.value).serial == s
  {
    ReachedInv(start, cfg, events, core);
    PrefixConserved(core, |core.orders|);
    assert core.orders[..|core.orders|] == core.orders;
    forall s: nat | s < |core.orders| && core.orders[s].holder.Some?
      ensures Held(core.pool, core.orders[s].holder.value) && ParentAt(core.pool, core.orders[s].holder.value).serial == s
    {
      assert AccountOk(core, s);
    }
  }

  // ----- Prices and positions -----

  /** Every child ever sent for an order, at any time of its life, is within the order's limit. */
  lemma LimitNeverCrossed(start: Core, cfg: Config, events: seq<Event>, core: Core, s: nat, k: nat)
    requires Reached(start, cfg, events, core) && s < |core.orders| && k < |core.orders[s].sent|
    requires core.orders[s].limit >= 1
    ensures core.orders[s].dir == Buy ==> core.orders[s].sent[k].price <= core.orders[s].limit
    ensures core.orders[s].dir == Sell ==> core.orders[s].sent[k].price >= core.orders[s].limit
  {
    ReachedInv(start, cfg, events, core);
    assert AccountOk(core, s);
  }

  /** A positive USD limit becomes the nearest tick; below half a tick that is 0, which means no limit. */
  lemma LimitTakesEffect(cfg: Config, sig: Signal)
    requires cfg.tick > 0.0 && sig.limitUsd > 0.0
    ensures LimitFor(cfg, sig) >= 1 <==> sig.limitUsd / cfg.tick >= 0.5
    ensures -0.5 <= LimitFor(cfg, sig) as real - sig.limitUsd / cfg.tick <= 0.5
  {
    assert sig.limitUsd / cfg.tick >= 0.0;
    RoundBounds(sig.limitUsd / cfg.tick);
  }

  /** Net lots are buys minus sells over the fills of all orders ever; averages are exact. */
  lemma PositionLedger(start: Core, cfg: Config, events: seq<Event>, core: Core)
    requires Reached(start, cfg, events, core)
    ensures forall i: nat :: i < |core.pos| ==> core.pos[i].net == NetOf(core.orders, i)
    ensures forall p: nat :: Held(core.pool, p) ==>
              var par := ParentAt(core.pool, p);
              && AccountAt(core, par.serial).filled == par.cum
              && AccountAt(core, par.serial).value == par.avg * par.cum as real
  {
    ReachedInv(start, cfg, events, core);
    forall p: nat | Held(core.pool, p)
      ensures AccountAt(core, ParentAt(core.pool, p).serial).filled == ParentAt(core.pool, p).cum
      ensures AccountAt(core, ParentAt(core.pool, p).serial).value == ParentAt(core.pool, p).avg * ParentAt(core.pool, p).cum as real
    {
      HolderAccount(core, p);
    }
  }

  /**
   Timers never outlive their orders: an active entry names a live child that has had no
   fill, and no child has two. So a child that was ever filled in part cannot time out.
   */
  lemma TimersNameLiveChildren(start: Core, cfg: Config, events: seq<Event>, core: Core)
    requires Reached(start, cfg, events, core)
    ensures forall s: nat, i: nat :: TW.ActiveAt(core.wheel, s, i) ==>
              && Used(core.pool, core.wheel.slots[s][i].cid) && Live(ChildAt(core.pool, core.wheel.slots[s][i].cid))
              && ChildAt(core.pool, core.wheel.slots[s][i].cid).cum == 0
    ensures TW.Unique(core.wheel)
  {
    ReachedInv(start, cfg, events, core);
    forall s: nat, i: nat | TW.ActiveAt(core.wheel, s, i)
      ensures Used(core.pool, core.wheel.slots[s][i].cid) && Live(ChildAt(core.pool, core.wheel.slots[s][i].cid))
      ensures ChildAt(core.pool, core.wheel.slots[s][i].cid).cum == 0
    {
      TW.ArmedAt(core.wheel, s, i);
    }
  }

  /** Terms are fixed at admission and outcomes only accumulate, from any point of a run to any later one. */
  lemma HistoryIsKept(start: Core, cfg: Config, before: seq<Event>, mid: Core, after: seq<Event>, end: Core, s: nat)
    requires Reached(start, cfg, before, mid) && IsRun(mid, cfg, after, end) && s < |mid.orders|
    ensures s < |end.orders| && Evolves(mid.orders[s], end.orders[s])
  {
    ReachedInv(start, cfg, before, mid);
    RunEvolves(mid, cfg, after, end);
  }
}
