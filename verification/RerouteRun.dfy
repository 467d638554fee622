/**
 A run on which reduce-only does not hold, for every size of the pools, the position
 table and the timer wheel: with a deep book, a long 10 is reduced by a reduce-only sell
 of 4 whose child is cancelled. The leftovers are sent again without a new reservation,
 their fill takes the open-lots counter to -4, and the next reduce-only sell is let
 through whole and flips the position.
 */
module RerouteRun {
  import opened Types
  import opened OrderPool
  import opened Positions
  import opened Lifecycle
  import opened LifecycleInvariant
  import opened LifecycleSteps
  import opened LifecycleTheorems
  import opened ReduceOnly
  import opened DeepBook
  import opened OneOrder

  const CFG: Config := Config(1.0, 2_000_000_000, 5_000_000_000, [1.0])
  const VIEW: View := DeepView(CFG, 0, 100, 1000, 0)

  lemma DeepMarket()
    ensures ViewOk(CFG, VIEW)
  {
    DeepViewOk(CFG, 0, 100, 1000, 0);
  }

  lemma FillAll(core: Core, pos: Position, ids: Ids, dir: Dir, lots: nat, reduceOnly: bool)
    requires ViewOk(CFG, VIEW) && Working(core, pos, ids, dir, lots, reduceOnly) && lots >= 1
    ensures Idle(OnReport(core, CFG, Report(ids.c, Fills(lots, 100)), VIEW), Settled(pos, dir, lots), ids)
  {
    var price := FillPrice(CFG, 100);
    var booked := BookFill(core, ids.c, lots, price);
    var par := booked.pool.parents[ids.p];
    assert par == FilledParent(core.pool.parents[ids.p], lots, price);
    OnlyKid(par, ids.c);
    FreeAll(SetParent(booked.pool, ids.p, par.(state := OrderState.Filled)), par, false);
  }

  /** The position a fill of everything on order leaves. */
  function Settled(pos: Position, dir: Dir, lots: nat): Position {
    Release(ApplyFill(pos, Fill(dir, lots, FillPrice(CFG, 100))), dir, lots)
  }

  lemma SendAgain(core: Core, pos: Position, ids: Ids, dir: Dir, lots: nat)
    requires ViewOk(CFG, VIEW) && Finished(core, pos, ids, dir, lots, true) && 1 <= lots <= 1000
    requires ClampReduceOnly(pos, dir, lots, true) == lots
    ensures Working(Reroute(core, CFG, ids.p, VIEW), pos, ids, dir, lots, true)
  {
    ClearOne(core, pos, ids, dir, lots, true);
    var cleared := ClearChildren(core, ids.p);
    DeepLegsAt(CFG, cleared.pool.parents[ids.p], Taker, 100, 1000, 0);
    var legs := LegsFor(CFG, VIEW, cleared.pool.parents[ids.p], lots, Taker);
    assert legs == [legs[0]];
    DispatchOne(MarkPending(cleared, ids.p), CFG, pos, ids, dir, lots, true, legs[0], 0);
  }

  /** Cancelling the only child of a reduce-only order sends all of it again, its reservation released. */
  lemma CancelAndReroute(core: Core, pos: Position, ids: Ids, dir: Dir, lots: nat)
    requires ViewOk(CFG, VIEW) && Working(core, pos, ids, dir, lots, true) && 1 <= lots <= 1000
    requires ClampReduceOnly(Release(pos, dir, lots), dir, lots, true) == lots
    ensures Working(OnReport(core, CFG, Report(ids.c, Cancels), VIEW), Release(pos, dir, lots), ids, dir, lots, true)
  {
    CancelOne(core, pos, ids, dir, lots, true);
    CancelReroutes(core, CFG, ids.c, ids.p, VIEW);
    SendAgain(BookCancel(core, ids.c, OrderState.Canceled), Release(pos, dir, lots), ids, dir, lots);
  }

  // ----- Runs -----

  function Order(dir: Dir, lots: int, reduceOnly: bool): Event {
    OrderEvent(SignalFor(dir, lots, reduceOnly), true, true, VIEW)
  }

  function Filled(c: nat, lots: int): Event {
    ReportEvent(Report(c, Fills(lots, 100)), VIEW)
  }

  function Cancelled(c: nat): Event {
    ReportEvent(Report(c, Cancels), VIEW)
  }

  lemma StepSubmit(core: Core, pos: Position, ids: Ids, dir: Dir, lots: int, reduceOnly: bool)
    requires ViewOk(CFG, VIEW) && Idle(core, pos, ids) && 1 <= lots <= 1000 && !pos.unwind
    requires ClampReduceOnly(pos, dir, lots, reduceOnly) == lots
    ensures EventOk(core, CFG, Order(dir, lots, reduceOnly))
    ensures Working(Step(core, CFG, Order(dir, lots, reduceOnly)), Reserve(pos, dir, lots), ids, dir, lots, reduceOnly)
  {
    Submit(core, CFG, pos, ids, dir, lots, reduceOnly, 100, 1000, 0);
  }

  lemma StepFill(core: Core, pos: Position, ids: Ids, dir: Dir, lots: nat, reduceOnly: bool)
    requires ViewOk(CFG, VIEW) && Working(core, pos, ids, dir, lots, reduceOnly) && lots >= 1
    ensures EventOk(core, CFG, Filled(ids.c, lots))
    ensures Idle(Step(core, CFG, Filled(ids.c, lots)), Settled(pos, dir, lots), ids)
  {
    FillAll(core, pos, ids, dir, lots, reduceOnly);
  }

  lemma StepCancel(core: Core, pos: Position, ids: Ids, dir: Dir, lots: nat)
    requires ViewOk(CFG, VIEW) && Working(core, pos, ids, dir, lots, true) && 1 <= lots <= 1000
    requires ClampReduceOnly(Release(pos, dir, lots), dir, lots, true) == lots
    ensures EventOk(core, CFG, Cancelled(ids.c))
    ensures Working(Step(core, CFG, Cancelled(ids.c)), Release(pos, dir, lots), ids, dir, lots, true)
  {
    CancelAndReroute(core, pos, ids, dir, lots);
  }

  /** A run whose admissions on instrument 0 are, if `closing`, all reduce-only. */
  ghost predicate Run(core: Core, events: seq<Event>, end: Core, closing: bool) {
    IsRun(core, CFG, events, end) && (closing ==> ClosingRun(core, CFG, events, 0))
  }

  lemma RunOne(core: Core, e: Event, closing: bool)
    requires EventOk(core, CFG, e) && (closing ==> ClosingEvent(core, e, 0))
    ensures Run(core, [e], Step(core, CFG, e), closing)
  {
    assert [e][1..] == [];
  }

  lemma {:induction false} RunJoin(a: Core, es: seq<Event>, b: Core, fs: seq<Event>, c: Core, closing: bool)
    requires Run(a, es, b, closing) && Run(b, fs, c, closing)
    ensures Run(a, es + fs, c, closing)
    decreases |es|
  {
    if es == [] {
      assert es + fs == fs;
    } else {
      var next := RunHead(a, es, b, closing);
      RunJoin(next, es[1..], b, fs, c, closing);
      assert (es + fs)[0] == es[0] && (es + fs)[1..] == es[1..] + fs;
      RunCons(a, es + fs, next, c, closing);
    }
  }

  lemma RunHead(a: Core, es: seq<Event>, c: Core, closing: bool) returns (next: Core)
    requires es != [] && Run(a, es, c, closing)
    ensures EventOk(a, CFG, es[0]) && (closing ==> ClosingEvent(a, es[0], 0))
    ensures next == Step(a, CFG, es[0]) && Run(next, es[1..], c, closing)
  {
    next := Step(a, CFG, es[0]);
  }

  lemma RunCons(a: Core, es: seq<Event>, next: Core, c: Core, closing: bool)
    requires es != [] && EventOk(a, CFG, es[0]) && (closing ==> ClosingEvent(a, es[0], 0))
    requires next == Step(a, CFG, es[0]) && Run(next, es[1..], c, closing)
    ensures Run(a, es, c, closing)
  {
  }

  /** An order the book fills at once. */
  lemma Trade(core: Core, pos: Position, ids: Ids, dir: Dir, lots: nat, reduceOnly: bool) returns (end: Core)
    requires Idle(core, pos, ids) && 1 <= lots <= 1000 && !pos.unwind
    requires ClampReduceOnly(pos, dir, lots, reduceOnly) == lots
    ensures Run(core, [Order(dir, lots, reduceOnly)] + [Filled(ids.c, lots)], end, reduceOnly)
    ensures Idle(end, Settled(Reserve(pos, dir, lots), dir, lots), ids)
  {
    DeepMarket();
    StepSubmit(core, pos, ids, dir, lots, reduceOnly);
    RunOne(core, Order(dir, lots, reduceOnly), reduceOnly);
    var working := Step(core, CFG, Order(dir, lots, reduceOnly));
    end := FinishTrade(working, Reserve(pos, dir, lots), ids, dir, lots, reduceOnly);
    RunJoin(core, [Order(dir, lots, reduceOnly)], working, [Filled(ids.c, lots)], end, reduceOnly);
  }

  lemma FinishTrade(core: Core, pos: Position, ids: Ids, dir: Dir, lots: nat, reduceOnly: bool) returns (end: Core)
    requires Working(core, pos, ids, dir, lots, reduceOnly) && lots >= 1
    ensures Run(core, [Filled(ids.c, lots)], end, reduceOnly) && Idle(end, Settled(pos, dir, lots), ids)
  {
    DeepMarket();
    StepFill(core, pos, ids, dir, lots, reduceOnly);
    RunOne(core, Filled(ids.c, lots), reduceOnly);
    end := Step(core, CFG, Filled(ids.c, lots));
  }

  /** A reduce-only order whose child is cancelled, sent again and then filled. */
  lemma ReroutedTrade(core: Core, pos: Position, ids: Ids, dir: Dir, lots: nat) returns (end: Core)
    requires Idle(core, pos, ids) && 1 <= lots <= 1000 && !pos.unwind
    requires ClampReduceOnly(pos, dir, lots, true) == lots
    ensures Run(core, [Order(dir, lots, true)] + [Cancelled(ids.c)] + [Filled(ids.c, lots)], end, true)
    ensures Idle(end, Settled(pos, dir, lots), ids)
  {
    DeepMarket();
    StepSubmit(core, pos, ids, dir, lots, true);
    RunOne(core, Order(dir, lots, true), true);
    var working := Step(core, CFG, Order(dir, lots, true));
    var again := CancelTrade(working, pos, ids, dir, lots);
    RunJoin(core, [Order(dir, lots, true)], working, [Cancelled(ids.c)], again, true);
    end := FinishTrade(again, pos, ids, dir, lots, true);
    RunJoin(core, [Order(dir, lots, true)] + [Cancelled(ids.c)], again, [Filled(ids.c, lots)], end, true);
  }

  lemma CancelTrade(core: Core, pos: Position, ids: Ids, dir: Dir, lots: nat) returns (again: Core)
    requires Working(core, Reserve(pos, dir, lots), ids, dir, lots, true) && 1 <= lots <= 1000
    requires ClampReduceOnly(pos, dir, lots, true) == lots
    ensures Run(core, [Cancelled(ids.c)], again, true) && Working(again, pos, ids, dir, lots, true)
  {
    DeepMarket();
    assert Release(Reserve(pos, dir, lots), dir, lots) == pos;
    StepCancel(core, Reserve(pos, dir, lots), ids, dir, lots);
    RunOne(core, Cancelled(ids.c), true);
    again := Step(core, CFG, Cancelled(ids.c));
  }

  lemma SettledCounters(pos: Position, dir: Dir, lots: nat)
    ensures var after := Settled(pos, dir, lots);
            && after.net == pos.net + Sign(dir) * lots && after.unwind == pos.unwind
            && Open(after, dir) == Open(pos, dir) - lots
            && after.openBuy + after.openSell == pos.openBuy + pos.openSell - lots
  {
    FillMovesNet(pos, Fill(dir, lots, FillPrice(CFG, 100)));
  }

  /**
   Reduce-only safety fails without its proviso, whatever the capacities. From
   construction to a quiet long 10, then only reduce-only admissions, one of them
   rerouted on the way; and the position ends short.
   */
  lemma ReduceOnlyFlipsAfterReroute(start: Core) returns (before: seq<Event>, mid: Core, after: seq<Event>, end: Core)
    requires Initial(start) && |start.pool.parents| >= 1 && |start.pool.children| >= 1 && |start.pos| >= 1
    ensures Reached(start, CFG, before, mid) && Quiet(mid, 0) && mid.pos[0].net == 10
    ensures IsRun(mid, CFG, after, end) && ClosingRun(mid, CFG, after, 0)
    ensures |end.pos| >= 1 && end.pos[0].net == -4
  {
    var ids := StartsIdle(start);
    before := [Order(Buy, 10, false)] + [Filled(ids.c, 10)];
    mid := Trade(start, FLAT, ids, Buy, 10, false);
    var long10 := Settled(Reserve(FLAT, Buy, 10), Buy, 10);
    SettledCounters(Reserve(FLAT, Buy, 10), Buy, 10);
    QuietAfterOne(start, before, mid, long10, ids);
    after, end := SellOut(mid, long10, ids);
  }

  /** Sell 4 of a long 10, rerouted on the way, and then 10 of the 6 that are left. */
  lemma SellOut(core: Core, pos: Position, ids: Ids) returns (events: seq<Event>, end: Core)
    requires Idle(core, pos, ids) && pos.net == 10 && pos.openSell == 0 && !pos.unwind
    ensures Run(core, events, end, true) && |end.pos| >= 1 && end.pos[0].net == -4
  {
    var reduced := ReroutedTrade(core, pos, ids, Sell, 4);
    var left := Settled(pos, Sell, 4);
    SettledCounters(pos, Sell, 4);
    end := Trade(reduced, left, ids, Sell, 10, true);
    SettledCounters(Reserve(left, Sell, 10), Sell, 10);
    var first, second := [Order(Sell, 4, true)] + [Cancelled(ids.c)] + [Filled(ids.c, 4)], [Order(Sell, 10, true)] + [Filled(ids.c, 10)];
    events := first + second;
    RunJoin(core, first, reduced, second, end, true);
  }

  /** After the first order was bought and filled nothing is open. */
  lemma QuietAfterOne(start: Core, before: seq<Event>, mid: Core, pos: Position, ids: Ids)
    requires Initial(start) && start.pool.parentFree == ids.free + [ids.p]
    requires Run(start, before, mid, false) && ids.size == |start.pool.parents|
    requires Idle(mid, pos, ids) && pos.openBuy == 0 && pos.openSell == 0
    ensures Reached(start, CFG, before, mid) && Quiet(mid, 0)
  {
    ReachedInv(start, CFG, before, mid);
    assert forall q: nat :: !Held(mid.pool, q);
    forall s: nat | s < |mid.orders|
      ensures mid.orders[s].holder == None
    {
      assert AccountOk(mid, s);
    }
  }
}
