/**
 One order at a time on a deep book: the states between the events of its life, and what
 each event does to them. Runs that show where the code falls short are built from these.
 */
module OneOrder {
  import opened Types
  import opened Router
  import opened OrderPool
  import opened Positions
  import opened Lifecycle
  import opened LifecycleSteps
  import opened DeepBook
  import TW = TimerWheel

  // ----- The states between events -----

  /** The ids in play: of `size` parents, `p` and those in `free` are unused, and `c` is the next child. */
  datatype Ids = Ids(free: seq<nat>, size: nat, p: nat, c: nat)

  /** The free parents are `free + [p]`, `c` is the next child id, and instrument 0 stands at `pos`. */
  ghost predicate Idle(core: Core, pos: Position, ids: Ids) {
    && InRange(core, pos, ids) && core.pool.parentFree == ids.free + [ids.p]
    && core.pool.childFree != [] && Top(core.pool.childFree) == ids.c
  }

  ghost predicate InRange(core: Core, pos: Position, ids: Ids) {
    && ids.p < |core.pool.parents| == ids.size && ids.c < |core.pool.children| && Distinct(core.pool.childFree)
    && 0 < |core.pos| && core.pos[0] == pos
  }

  ghost predicate IsOrder(par: Parent, p: nat, dir: Dir, lots: int, reduceOnly: bool) {
    && par.id == p && par.instr == 0 && par.dir == dir && par.total == lots && par.cum == 0 && par.leaves == lots
    && par.limit == 0 && par.reduceOnly == reduceOnly
  }

  ghost predicate HasOnlyChild(par: Parent, c: nat) {
    par.count == 1 && par.slots[0] == c && par.mask == NO_MASK[0 := true]
  }

  ghost predicate IsChild(ch: Child, p: nat, lots: int) {
    ch.parentId == p && ch.lots == lots && ch.cum == 0 && ch.leaves == lots && ch.state == PendingNew
  }

  /** One order, held by parent `p`, with one live child `c` carrying all of it. */
  ghost predicate Working(core: Core, pos: Position, ids: Ids, dir: Dir, lots: int, reduceOnly: bool) {
    && InRange(core, pos, ids) && Used(core.pool, ids.c) && core.pool.parentFree == ids.free
    && IsOrder(core.pool.parents[ids.p], ids.p, dir, lots, reduceOnly) && HasOnlyChild(core.pool.parents[ids.p], ids.c)
    && IsChild(core.pool.children[ids.c], ids.p, lots)
  }

  /** A childless order whose next child id is `c`. */
  ghost predicate Childless(core: Core, pos: Position, ids: Ids, dir: Dir, lots: int, reduceOnly: bool) {
    && InRange(core, pos, ids) && core.pool.childFree != [] && Top(core.pool.childFree) == ids.c
    && core.pool.parentFree == ids.free
    && IsOrder(core.pool.parents[ids.p], ids.p, dir, lots, reduceOnly)
    && core.pool.parents[ids.p].count == 0 && core.pool.parents[ids.p].mask == NO_MASK
  }

  /** The state after construction, with at least one of everything. */
  lemma StartsIdle(start: Core) returns (ids: Ids)
    requires Initial(start) && |start.pool.parents| >= 1 && |start.pool.children| >= 1 && |start.pos| >= 1
    ensures Idle(start, FLAT, ids) && start.pool.parentFree == ids.free + [ids.p] && ids.size == |start.pool.parents|
  {
    assert 0 in start.pool.parentFree && 0 in start.pool.childFree;
    var n := |start.pool.parentFree| - 1;
    ids := Ids(start.pool.parentFree[..n], |start.pool.parents|, start.pool.parentFree[n], Top(start.pool.childFree));
  }

  // ----- Submission -----

  /** A childless order whose lots the book can take goes out as one child, with its timer. */
  lemma DispatchOne(core: Core, cfg: Config, pos: Position, ids: Ids, dir: Dir, lots: int, reduceOnly: bool, leg: Leg, now: nat)
    requires Childless(core, pos, ids, dir, lots, reduceOnly) && leg.lots == lots
    ensures var core' := Dispatch(core, cfg, ids.p, [leg], now);
            && Working(core', pos, ids, dir, lots, reduceOnly)
            && core'.wheel == TW.Insert(core.wheel, ids.c, now, TimeoutFor(cfg, leg))
            && core'.pool.childFree == core.pool.childFree[..|core.pool.childFree| - 1]
  {
    var sent := SendChild(core, cfg, ids.p, 0, leg, now);
    assert ids.c !in core.pool.childFree[..|core.pool.childFree| - 1];
    assert Working(sent, pos, ids, dir, lots, reduceOnly);
    assert SendFrom(sent, cfg, ids.p, [leg], 1, now) == (sent, 1);
    assert SendFrom(core, cfg, ids.p, [leg], 0, now) == (sent, 1);
  }

  /** A taker order on instrument 0, without a limit. */
  function SignalFor(dir: Dir, lots: int, reduceOnly: bool): Signal {
    Signal(0, dir, lots, 0.0, Taker, reduceOnly, 0)
  }

  lemma Submit(core: Core, cfg: Config, pos: Position, ids: Ids, dir: Dir, lots: int, reduceOnly: bool,
               price: int, depth: int, now: nat)
    requires cfg.tick > 0.0 && price >= 1 && ViewOk(cfg, DeepView(cfg, 0, price, depth, now))
    requires Idle(core, pos, ids) && 1 <= lots <= depth && !pos.unwind && ClampReduceOnly(pos, dir, lots, reduceOnly) == lots
    ensures var core' := OnSignal(core, cfg, SignalFor(dir, lots, reduceOnly), true, true, DeepView(cfg, 0, price, depth, now));
            && Working(core', Reserve(pos, dir, lots), ids, dir, lots, reduceOnly)
            && core'.wheel == TW.Insert(core.wheel, ids.c, now, cfg.childTimeout)
            && core'.pool.childFree == core.pool.childFree[..|core.pool.childFree| - 1]
  {
    var par := NewParent(core, cfg, SignalFor(dir, lots, reduceOnly), ids.p);
    DeepLegsAt(cfg, par, Taker, price, depth, now);
    var legs := LegsFor(cfg, DeepView(cfg, 0, price, depth, now), par, lots, Taker);
    assert legs == [legs[0]];
    DispatchOne(Admit(core, par), cfg, Reserve(pos, dir, lots), ids, dir, lots, reduceOnly, legs[0], now);
  }

  // ----- Cancellation -----

  lemma OnlyKid(par: Parent, c: nat)
    requires HasOnlyChild(par, c)
    ensures Compact(par) && Kids(par) == [c]
  {
  }

  /** The only child is gone, its record still in place. */
  ghost predicate Finished(core: Core, pos: Position, ids: Ids, dir: Dir, lots: int, reduceOnly: bool) {
    && InRange(core, pos, ids) && Used(core.pool, ids.c) && core.pool.parentFree == ids.free
    && IsOrder(core.pool.parents[ids.p], ids.p, dir, lots, reduceOnly) && HasOnlyChild(core.pool.parents[ids.p], ids.c)
    && core.pool.children[ids.c].state == OrderState.Canceled
  }

  lemma CancelOne(core: Core, pos: Position, ids: Ids, dir: Dir, lots: nat, reduceOnly: bool)
    requires Working(core, pos, ids, dir, lots, reduceOnly)
    ensures var booked := BookCancel(core, ids.c, OrderState.Canceled);
            && Finished(booked, Release(pos, dir, lots), ids, dir, lots, reduceOnly)
            && AllTerminal(booked.pool, booked.pool.parents[ids.p])
            && booked.pool.childFree == core.pool.childFree
  {
  }

  lemma ClearOne(core: Core, pos: Position, ids: Ids, dir: Dir, lots: nat, reduceOnly: bool)
    requires Finished(core, pos, ids, dir, lots, reduceOnly) && (reduceOnly ==> ClampReduceOnly(pos, dir, lots, true) == lots)
    ensures Childless(ClearChildren(core, ids.p), pos, ids, dir, lots, reduceOnly)
    ensures Shrink(ClearChildren(core, ids.p), ids.p) == ClearChildren(core, ids.p)
    ensures ClearChildren(core, ids.p).pool.childFree == core.pool.childFree + [ids.c]
  {
    OnlyKid(core.pool.parents[ids.p], ids.c);
    FreeAll(core.pool, core.pool.parents[ids.p], true);
  }

  lemma SettlesByReroute(core: Core, cfg: Config, c: nat, p: nat, view: View)
    requires ViewOk(cfg, view) && ChildAt(core.pool, c).parentId == p
    requires var booked := BookCancel(core, c, OrderState.Canceled);
             ParentAt(booked.pool, p).leaves > 0 && AllTerminal(booked.pool, ParentAt(booked.pool, p))
    ensures HandleCancel(core, cfg, c, OrderState.Canceled, view)
         == Reroute(BookCancel(core, c, OrderState.Canceled), cfg, p, view)
  {
  }

  /** The last live child of an order with lots left is cancelled: the order is rerouted. */
  lemma CancelReroutes(core: Core, cfg: Config, c: nat, p: nat, view: View)
    requires ViewOk(cfg, view) && c < |core.pool.children| && core.pool.children[c].parentId == p < |core.pool.parents|
    requires var booked := BookCancel(core, c, OrderState.Canceled);
             ParentAt(booked.pool, p).leaves > 0 && AllTerminal(booked.pool, ParentAt(booked.pool, p))
    ensures OnReport(core, cfg, Report(c, Cancels), view)
         == Reroute(BookCancel(core, c, OrderState.Canceled), cfg, p, view)
  {
    SettlesByReroute(core, cfg, c, p, view);
  }
}
