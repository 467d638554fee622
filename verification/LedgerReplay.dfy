/**
 The positions of the execution core against the plain history of its fills: along
 any run, an instrument's net and average entry are what replaying that run's fills
 on it from flat gives, whatever was admitted, cancelled, timed out and rerouted in
 between.
 */
module LedgerReplay {
  import opened Types
  import opened Router
  import opened OrderPool
  import opened Positions
  import opened Lifecycle
  import opened LifecycleInvariant
  import opened LifecycleSteps
  import opened LifecycleTheorems
  import TW = TimerWheel

  /** A price reported in ticks. */
  function TradedAt(cfg: Config, ticks: int): real {
    ticks as real * cfg.tick
  }

  lemma BookedAtTraded(cfg: Config, ticks: int)
    ensures FillPrice(cfg, ticks) == TradedAt(cfg, ticks)
  {
  }

  /** The fill an event reports on an instrument, if it reports one. */
  ghost function FillOn(core: Core, cfg: Config, e: Event, i: nat): seq<Fill> {
    if e.ReportEvent? && e.rep.exec.Fills? && e.rep.exec.lots >= 0 && e.rep.cid < |core.pool.children| then
      var par := ParentAt(core.pool, ChildAt(core.pool, e.rep.cid).parentId);
      if par.instr == i then [Fill(par.dir, e.rep.exec.lots, TradedAt(cfg, e.rep.exec.ticks))] else []
    else []
  }

  /** The fills a run reports on an instrument, in order. */
  ghost function FillsOn(core: Core, cfg: Config, events: seq<Event>, i: nat): seq<Fill>
    decreases |events|
  {
    if events == [] || !EventOk(core, cfg, events[0]) then []
    else FillOn(core, cfg, events[0], i) + FillsOn(Step(core, cfg, events[0]), cfg, events[1..], i)
  }

  ghost predicate SameEntry(a: Position, b: Position) {
    a.net == b.net && a.avg == b.avg
  }

  /** Net and average entry untouched on every instrument. */
  ghost predicate SameEntries(a: Core, b: Core) {
    |b.pos| == |a.pos| && forall i: nat :: i < |a.pos| ==> SameEntry(a.pos[i], b.pos[i])
  }

  // ----- Only fills move a position -----

  lemma {:induction false} SendFromSame(core: Core, cfg: Config, p: nat, legs: seq<Leg>, i: nat, now: nat)
    ensures SendFrom(core, cfg, p, legs, i, now).0.pos == core.pos
    decreases |legs| - i
  {
    if CanSend(core, p, legs, i) {
      SendFromSame(SendChild(core, cfg, p, i, legs[i], now), cfg, p, legs, i + 1, now);
    }
  }

  lemma ReleaseSame(core: Core, p: nat, lots: int)
    ensures SameEntries(core, ReleaseFor(core, p, lots))
  {
  }

  lemma DispatchSame(core: Core, cfg: Config, p: nat, legs: seq<Leg>, now: nat)
    ensures SameEntries(core, Dispatch(core, cfg, p, legs, now))
  {
    SendFromSame(core, cfg, p, legs, 0, now);
    var (out, sent) := SendFrom(core, cfg, p, legs, 0, now);
    var gap := if sent < |legs| then SumLegs(legs[sent..]) else 0;
    ReleaseSame(out, p, gap);
  }

  lemma RerouteSame(core: Core, cfg: Config, p: nat, view: View)
    requires ViewOk(cfg, view)
    ensures SameEntries(core, Reroute(core, cfg, p, view))
  {
    var cleared := ClearChildren(core, p);
    var cut := Shrink(cleared, p);
    ShrinkSame(cleared, p);
    var par := ParentAt(cut.pool, p);
    DispatchSame(MarkPending(cut, p), cfg, p, LegsFor(cfg, view, par, par.leaves, Taker), view.now);
  }

  lemma ShrinkSame(core: Core, p: nat)
    ensures SameEntries(core, Shrink(core, p))
  {
    var par := ParentAt(core.pool, p);
    ReleaseSame(core, p, par.leaves - ClampReduceOnly(PosAt(core, par.instr), par.dir, par.leaves, true));
  }

  lemma CancelSame(core: Core, cfg: Config, c: nat, state: OrderState, view: View)
    requires ViewOk(cfg, view)
    ensures SameEntries(core, HandleCancel(core, cfg, c, state, view))
  {
    var booked, ch := BookCancel(core, c, state), ChildAt(core.pool, c);
    ReleaseSame(core.(pool := SetChild(core.pool, c, ch.(leaves := 0, state := state)),
                      wheel := TW.Cancel(core.wheel, c)), ch.parentId, ch.leaves);
    RerouteSame(booked, cfg, ch.parentId, view);
  }

  lemma SignalSame(core: Core, cfg: Config, sig: Signal, gateOk: bool, riskOk: bool, view: View)
    requires ViewOk(cfg, view)
    ensures SameEntries(core, OnSignal(core, cfg, sig, gateOk, riskOk, view))
  {
    if core.pool.parentFree != [] {
      var par := NewParent(core, cfg, sig, Top(core.pool.parentFree));
      var admitted := Admit(core, par);
      assert SameEntries(core, admitted);
      DispatchSame(admitted, cfg, par.id, LegsFor(cfg, view, par, par.leaves, sig.kind), view.now);
    }
  }

  lemma {:induction false} CheckSlotSame(core: Core, cfg: Config, s: nat, i: nat, depth: nat, views: nat -> View)
    requires forall j :: ViewOk(cfg, views(j))
    ensures SameEntries(core, CheckSlot(core, cfg, s, i, depth, views))
    decreases depth - i
  {
    if i < depth {
      CheckEntrySame(core, cfg, s, i, views(i));
      CheckSlotSame(CheckEntry(core, cfg, s, i, views(i)), cfg, s, i + 1, depth, views);
    }
  }

  lemma CheckEntrySame(core: Core, cfg: Config, s: nat, i: nat, view: View)
    requires ViewOk(cfg, view)
    ensures SameEntries(core, CheckEntry(core, cfg, s, i, view))
  {
    if TW.ActiveAt(core.wheel, s, i) {
      CancelSame(core.(wheel := TW.Disarm(core.wheel, s, i)), cfg, core.wheel.slots[s][i].cid, OrderState.Canceled, view);
    }
  }

  lemma {:induction false} TickSame(core: Core, cfg: Config, steps: nat, views: (nat, nat) -> View)
    requires forall k, j :: ViewOk(cfg, views(k, j))
    ensures SameEntries(core, Tick(core, cfg, steps, views))
  {
    if steps > 0 {
      TickSame(core, cfg, steps - 1, views);
      var prev := Tick(core, cfg, steps - 1, views);
      var w: TW.Wheel := prev.wheel.(now := prev.wheel.now + prev.wheel.tick);
      CheckSlotSame(prev.(wheel := w), cfg, TW.Current(w), 0, w.depth, (j: nat) => views(steps, j));
    }
  }

  // ----- A fill moves exactly one position -----

  /** The position after the fills an event reports on it. */
  ghost function AfterFills(pos: Position, fills: seq<Fill>): Position {
    if |fills| == 1 then ApplyFill(pos, fills[0]) else pos
  }

  lemma FillMoves(core: Core, cfg: Config, c: nat, lots: nat, price: real, view: View, i: nat)
    requires ViewOk(cfg, view) && i < |core.pos|
    ensures |HandleFill(core, cfg, c, lots, price, view).pos| == |core.pos|
    ensures var par := ParentAt(core.pool, ChildAt(core.pool, c).parentId);
            SameEntry(if par.instr == i then ApplyFill(core.pos[i], Fill(par.dir, lots, price)) else core.pos[i],
                      HandleFill(core, cfg, c, lots, price, view).pos[i])
  {
    SettledSame(core, cfg, c, lots, price, view);
    BookedEntry(core, c, lots, price, i);
  }

  /** Whatever follows the bookkeeping of a fill leaves the positions' entries alone. */
  lemma SettledSame(core: Core, cfg: Config, c: nat, lots: nat, price: real, view: View)
    requires ViewOk(cfg, view)
    ensures SameEntries(BookFill(core, c, lots, price), HandleFill(core, cfg, c, lots, price, view))
  {
    var p, booked := ChildAt(core.pool, c).parentId, BookFill(core, c, lots, price);
    SettleSame(booked, cfg, p, view);
  }

  lemma SettleSame(booked: Core, cfg: Config, p: nat, view: View)
    requires ViewOk(cfg, view)
    ensures SameEntries(booked, CloseFilled(booked, p)) && SameEntries(booked, Reroute(booked, cfg, p, view))
    ensures SameEntries(booked, booked)
  {
    RerouteSame(booked, cfg, p, view);
  }

  lemma BookedEntry(core: Core, c: nat, lots: nat, price: real, i: nat)
    requires i < |core.pos|
    ensures |BookFill(core, c, lots, price).pos| == |core.pos|
    ensures var par := ParentAt(core.pool, ChildAt(core.pool, c).parentId);
            SameEntry(BookFill(core, c, lots, price).pos[i],
                      if par.instr == i then ApplyFill(core.pos[i], Fill(par.dir, lots, price)) else core.pos[i])
  {
  }

  lemma StepMoves(core: Core, cfg: Config, e: Event, i: nat)
    requires Inv(core) && EventOk(core, cfg, e) && i < |core.pos|
    ensures |Step(core, cfg, e).pos| == |core.pos|
    ensures SameEntry(AfterFills(core.pos[i], FillOn(core, cfg, e, i)), Step(core, cfg, e).pos[i])
    ensures |FillOn(core, cfg, e, i)| <= 1
    ensures forall f :: f in FillOn(core, cfg, e, i) ==> f.lots > 0
  {
    match e
    case OrderEvent(sig, gateOk, riskOk, view) => SignalSame(core, cfg, sig, gateOk, riskOk, view);
    case TickEvent(steps, views) => TickSame(core, cfg, steps, views);
    case UnwindEvent(_, _) =>
    case ReportEvent(rep, view) =>
      if rep.cid < |core.pool.children| {
        assert Held(core.pool, ChildAt(core.pool, rep.cid).parentId);
        ReportMoves(core, cfg, rep, view, i);
      }
  }

  lemma ReportMoves(core: Core, cfg: Config, rep: Report, view: View, i: nat)
    requires ViewOk(cfg, view) && rep.cid < |core.pool.children| && i < |core.pos|
    requires ChildAt(core.pool, rep.cid).parentId < |core.pool.parents|
    ensures |OnReport(core, cfg, rep, view).pos| == |core.pos|
    ensures SameEntry(AfterFills(core.pos[i], FillOn(core, cfg, ReportEvent(rep, view), i)),
                      OnReport(core, cfg, rep, view).pos[i])
  {
    match rep.exec
    case Fills(lots, ticks) =>
      BookedAtTraded(cfg, ticks);
      if lots >= 0 {
        FillMoves(core, cfg, rep.cid, lots, FillPrice(cfg, ticks), view, i);
      }
    case Cancels => CancelSame(core, cfg, rep.cid, OrderState.Canceled, view);
    case Rejects => CancelSame(core, cfg, rep.cid, OrderState.Rejected, view);
    case Ack =>
    case Replaces =>
  }

  // ----- Whole runs -----

  lemma EntryCongruence(a: Position, b: Position, fills: seq<Fill>)
    requires SameEntry(a, b)
    ensures SameEntry(AfterFills(a, fills), AfterFills(b, fills))
  {
  }

  lemma ReplaySnoc(past: seq<Fill>, fills: seq<Fill>)
    requires |fills| <= 1
    ensures Replay(past + fills) == AfterFills(Replay(past), fills)
  {
    if fills == [] {
      assert past + fills == past;
    } else {
      assert (past + fills)[..|past|] == past;
    }
  }

  lemma StepReplays(core: Core, cfg: Config, e: Event, i: nat, past: seq<Fill>)
    requires Inv(core) && EventOk(core, cfg, e) && i < |core.pos|
    requires SameEntry(core.pos[i], Replay(past)) && forall f :: f in past ==> f.lots > 0
    ensures i < |Step(core, cfg, e).pos|
    ensures SameEntry(Step(core, cfg, e).pos[i], Replay(past + FillOn(core, cfg, e, i)))
    ensures forall f :: f in past + FillOn(core, cfg, e, i) ==> f.lots > 0
  {
    var fills := FillOn(core, cfg, e, i);
    StepMoves(core, cfg, e, i);
    EntryCongruence(core.pos[i], Replay(past), fills);
    ReplaySnoc(past, fills);
  }

  lemma {:induction false} RunReplays(core: Core, cfg: Config, events: seq<Event>, end: Core, i: nat, past: seq<Fill>)
    requires Inv(core) && IsRun(core, cfg, events, end) && i < |core.pos|
    requires SameEntry(core.pos[i], Replay(past)) && forall f :: f in past ==> f.lots > 0
    ensures i < |end.pos| && SameEntry(end.pos[i], Replay(past + FillsOn(core, cfg, events, i)))
    ensures forall f :: f in past + FillsOn(core, cfg, events, i) ==> f.lots > 0
    decreases |events|
  {
    if events == [] {
      assert past + [] == past;
    } else {
      var e, next := events[0], Step(core, cfg, events[0]);
      var fills := FillOn(core, cfg, e, i);
      StepKeeps(core, cfg, e);
      StepReplays(core, cfg, e, i, past);
      RunReplays(next, cfg, events[1..], end, i, past + fills);
      FillsUnfold(core, cfg, events, i, past);
    }
  }

  lemma FillsUnfold(core: Core, cfg: Config, events: seq<Event>, i: nat, past: seq<Fill>)
    requires events != [] && EventOk(core, cfg, events[0])
    ensures past + FillsOn(core, cfg, events, i)
         == past + FillOn(core, cfg, events[0], i) + FillsOn(Step(core, cfg, events[0]), cfg, events[1..], i)
  {
  }

  /**
   The position ledger over whole runs: net is buys minus sells of the fills reported,
   and while a position is open its average entry lies between the lowest and highest
   price filled since it was last flat or flipped.
   */
  lemma PositionsReplayFills(start: Core, cfg: Config, events: seq<Event>, core: Core, i: nat)
    requires Reached(start, cfg, events, core) && i < |start.pos|
    ensures i < |core.pos|
    ensures var fills := FillsOn(start, cfg, events, i);
            && core.pos[i].net == Replay(fills).net && core.pos[i].avg == Replay(fills).avg
            && core.pos[i].net == Bought(fills, Buy) - Bought(fills, Sell)
            && (forall lo: real, hi: real :: core.pos[i].net != 0 && PricesWithin(Basis(fills), lo, hi) ==>
                  lo <= core.pos[i].avg <= hi)
  {
    InitialHolds(start);
    var fills := FillsOn(start, cfg, events, i);
    RunReplays(start, cfg, events, core, i, []);
    assert [] + fills == fills;
    NetIsBuysMinusSells(fills);
    forall lo: real, hi: real | core.pos[i].net != 0 && PricesWithin(Basis(fills), lo, hi)
      ensures lo <= core.pos[i].avg <= hi
    {
      AverageWithinBasis(fills, lo, hi);
    }
  }
}
