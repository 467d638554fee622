/**
 Where children go. Every child ever sent for an order, on the first dispatch or any
 reroute, is on the order's side and at a venue that, in a book the core was shown by one
 of the run's events, quoted the child's price: a taker at a level of the opposite side, a
 maker at the touch of its own.
 */
module Quotes {
  import opened Types
  import opened Books
  import opened Router
  import opened OrderPool
  import opened Accounts
  import opened Lifecycle
  import opened LifecycleInvariant
  import opened LifecycleSteps
  import opened LifecycleTheorems
  import opened LiveExposure
  import TW = TimerWheel

  predicate HasPrice(levels: seq<Level>, price: int) {
    exists l :: 0 <= l < |levels| && levels[l].price == price
  }

  /** The child's venue is up and quotes its price on the side the child trades against, or joins. */
  predicate Quoted(view: View, s: Sent) {
    && s.venue < |view.venues| && view.venues[s.venue].enabled && view.venues[s.venue].valid
    && (var v := view.venues[s.venue];
        match s.kind
        case Taker => HasPrice(if s.dir == Buy then v.asks else v.bids, s.price)
        case Maker =>
          var touch := if s.dir == Buy then v.bids else v.asks;
          touch != [] && touch[0].price == s.price)
  }

  lemma SplitQuoted(ctx: Context, view: View, i: nat)
    requires ContextOk(ctx) && ctx.venues == view.venues && ctx.target > 0 && i < |Split(ctx)|
    ensures Quoted(view, SentAs(ctx.dir, Split(ctx)[i]))
  {
    MergeCorrect(ctx);
    SlicesWellFormed(ctx);
    GreedyShape(Slices(ctx), ctx.target, Mins(ctx));
    var s := Split(ctx)[i].slice;
    assert s in Slices(ctx) && s in Eligible(ctx, s.venue);
    EffectiveIsCost(ctx, s.venue, s);
    assert TakerSide(ctx.venues[s.venue], ctx.dir)[s.level].price == s.price;
  }

  lemma PlaceQuoted(ctx: Context, view: View, i: nat)
    requires ContextOk(ctx) && ctx.venues == view.venues && i < |Place(ctx)|
    ensures Quoted(view, SentAs(ctx.dir, Place(ctx)[i]))
  {
    PlaceIsBest(ctx);
  }

  /** Whatever the router answers is quoted in the book it was asked about. */
  lemma LegsQuoted(cfg: Config, view: View, par: Parent, kind: OrderType)
    requires ViewOk(cfg, view) && par.leaves > 0
    ensures var legs := LegsFor(cfg, view, par, par.leaves, kind);
            forall i :: 0 <= i < |legs| ==> Quoted(view, SentAs(par.dir, legs[i]))
  {
    var ctx, legs := ContextFor(cfg, view, par, par.leaves), LegsFor(cfg, view, par, par.leaves, kind);
    forall i | 0 <= i < |legs|
      ensures Quoted(view, SentAs(par.dir, legs[i]))
    {
      if kind == Maker {
        PlaceQuoted(ctx, view, i);
      } else {
        SplitQuoted(ctx, view, i);
      }
    }
  }

  // ----- What a step adds to what was sent -----

  ghost predicate OldOrNew(a: seq<Account>, b: seq<Account>, seen: Sent -> bool, s: nat, k: nat)
    requires s < |b| && k < |b[s].sent|
  {
    (s < |a| && k < |a[s].sent| && b[s].sent[k] == a[s].sent[k]) || seen(b[s].sent[k])
  }

  /** Everything sent so far was sent before, or has been seen. */
  ghost predicate AddsSeen(a: seq<Account>, b: seq<Account>, seen: Sent -> bool) {
    forall s: nat, k: nat :: s < |b| && k < |b[s].sent| ==> OldOrNew(a, b, seen, s, k)
  }

  lemma AddsTrans(a: seq<Account>, b: seq<Account>, c: seq<Account>, seen: Sent -> bool)
    requires AddsSeen(a, b, seen) && AddsSeen(b, c, seen)
    ensures AddsSeen(a, c, seen)
  {
    forall s: nat, k: nat | s < |c| && k < |c[s].sent|
      ensures OldOrNew(a, c, seen, s, k)
    {
      assert OldOrNew(b, c, seen, s, k);
      if s < |b| && k < |b[s].sent| {
        assert OldOrNew(a, b, seen, s, k);
      }
    }
  }

  /** The accounts' lists of children sent are as they were. */
  ghost predicate SameSent(a: seq<Account>, b: seq<Account>) {
    |b| == |a| && forall s: nat :: s < |a| ==> b[s].sent == a[s].sent
  }

  lemma SameAdds(a: seq<Account>, b: seq<Account>, seen: Sent -> bool)
    requires SameSent(a, b)
    ensures AddsSeen(a, b, seen)
  {
  }

  /** Every leg is to be sent at a quoted price, which counts as seen. */
  ghost predicate LegsSeen(par: Parent, legs: seq<Leg>, seen: Sent -> bool) {
    forall i :: 0 <= i < |legs| ==> legs[i].slice.price > 0 && seen(SentAs(par.dir, legs[i]))
  }

  lemma SendAdds(core: Core, next: Core, cfg: Config, p: nat, legs: seq<Leg>, i: nat, now: nat, seen: Sent -> bool)
    requires p < |core.pool.parents| && LegsSeen(core.pool.parents[p], legs, seen)
    requires CanSend(core, p, legs, i) && next == SendChild(core, cfg, p, i, legs[i], now)
    ensures AddsSeen(core.orders, next.orders, seen)
    ensures p < |next.pool.parents| && LegsSeen(next.pool.parents[p], legs, seen)
  {
    assert seen(SentAs(core.pool.parents[p].dir, legs[i]));
    forall s: nat, k: nat | s < |next.orders| && k < |next.orders[s].sent|
      ensures OldOrNew(core.orders, next.orders, seen, s, k)
    {
    }
  }

  lemma {:induction false} SendFromAdds(core: Core, cfg: Config, p: nat, legs: seq<Leg>, i: nat, now: nat, seen: Sent -> bool)
    requires p < |core.pool.parents| && LegsSeen(core.pool.parents[p], legs, seen)
    ensures AddsSeen(core.orders, SendFrom(core, cfg, p, legs, i, now).0.orders, seen)
    decreases |legs| - i
  {
    if CanSend(core, p, legs, i) {
      var next := SendChild(core, cfg, p, i, legs[i], now);
      SendAdds(core, next, cfg, p, legs, i, now, seen);
      SendFromAdds(next, cfg, p, legs, i + 1, now, seen);
      AddsTrans(core.orders, next.orders, SendFrom(core, cfg, p, legs, i, now).0.orders, seen);
    }
  }

  lemma DispatchAdds(core: Core, cfg: Config, p: nat, legs: seq<Leg>, now: nat, seen: Sent -> bool)
    requires p < |core.pool.parents| && LegsSeen(core.pool.parents[p], legs, seen)
    ensures AddsSeen(core.orders, Dispatch(core, cfg, p, legs, now).orders, seen)
  {
    var (out, sent) := SendFrom(core, cfg, p, legs, 0, now);
    SendFromAdds(core, cfg, p, legs, 0, now, seen);
    SameAdds(out.orders, FinishDispatch(out, p, legs, sent).orders, seen);
    AddsTrans(core.orders, out.orders, FinishDispatch(out, p, legs, sent).orders, seen);
  }

  /** What the book shows counts as seen. */
  ghost predicate ShowsBook(view: View, seen: Sent -> bool) {
    forall s: Sent :: Quoted(view, s) ==> seen(s)
  }

  lemma RoutedLegsSeen(cfg: Config, view: View, par: Parent, kind: OrderType, seen: Sent -> bool)
    requires ViewOk(cfg, view) && par.leaves > 0 && ShowsBook(view, seen)
    ensures LegsSeen(par, LegsFor(cfg, view, par, par.leaves, kind), seen)
  {
    LegsQuoted(cfg, view, par, kind);
    RoutesFit(cfg, view, par, kind);
  }

  lemma SweepAdds(cut: Core, cfg: Config, p: nat, view: View, seen: Sent -> bool)
    requires ViewOk(cfg, view) && ReadyToSweep(cut, p) && ShowsBook(view, seen)
    ensures AddsSeen(cut.orders, Sweep(cut, cfg, p, view).orders, seen)
  {
    var par := ParentAt(cut.pool, p);
    SameAdds(cut.orders, CloseReduced(cut, p).orders, seen);
    SameAdds(cut.orders, Abandon(cut, p, NoLiquidity).orders, seen);
    if par.leaves > 0 {
      RoutedLegsSeen(cfg, view, par, Taker, seen);
      DispatchAdds(MarkPending(cut, p), cfg, p, LegsFor(cfg, view, par, par.leaves, Taker), view.now, seen);
    }
  }

  lemma CutSame(core: Core, p: nat)
    ensures SameSent(core.orders, Shrink(ClearChildren(core, p), p).orders)
  {
  }

  lemma RerouteAdds(core: Core, cfg: Config, p: nat, view: View, seen: Sent -> bool)
    requires ViewOk(cfg, view) && ShowsBook(view, seen) && Mid(core, p) && Load(core.pool, p) == 0
    requires ParentAt(core.pool, p).leaves > 0
    ensures AddsSeen(core.orders, Reroute(core, cfg, p, view).orders, seen)
  {
    var cut := Shrink(ClearChildren(core, p), p);
    CutDown(core, p);
    CutSame(core, p);
    SameAdds(core.orders, cut.orders, seen);
    SweepAdds(cut, cfg, p, view, seen);
    AddsTrans(core.orders, cut.orders, Sweep(cut, cfg, p, view).orders, seen);
  }

  // ----- Events -----

  lemma SettleAdds(booked: Core, cfg: Config, p: nat, view: View, seen: Sent -> bool)
    requires ViewOk(cfg, view) && ShowsBook(view, seen) && Mid(booked, p)
    ensures AddsSeen(booked.orders, CloseFilled(booked, p).orders, seen) && AddsSeen(booked.orders, booked.orders, seen)
    ensures var par := ParentAt(booked.pool, p);
            par.leaves > 0 && AllTerminal(booked.pool, par) ==>
              AddsSeen(booked.orders, Reroute(booked, cfg, p, view).orders, seen)
  {
    SameAdds(booked.orders, CloseFilled(booked, p).orders, seen);
    LoadZeroIffAllTerminal(booked.pool, p);
    if ParentAt(booked.pool, p).leaves > 0 && AllTerminal(booked.pool, ParentAt(booked.pool, p)) {
      RerouteAdds(booked, cfg, p, view, seen);
    }
  }

  lemma FillAdds(core: Core, cfg: Config, c: nat, lots: nat, price: real, view: View, seen: Sent -> bool)
    requires Inv(core) && ViewOk(cfg, view) && ShowsBook(view, seen) && Used(core.pool, c) && Live(ChildAt(core.pool, c))
    requires 1 <= lots <= ChildAt(core.pool, c).leaves
    ensures AddsSeen(core.orders, HandleFill(core, cfg, c, lots, price, view).orders, seen)
  {
    var p, booked := ChildAt(core.pool, c).parentId, BookFill(core, c, lots, price);
    FillKeeps(core, c, lots, price);
    SettleKeeps(booked, cfg, p, view);
    SameAdds(core.orders, booked.orders, seen);
    SettleAdds(booked, cfg, p, view, seen);
    AddsTrans(core.orders, booked.orders, HandleFill(core, cfg, c, lots, price, view).orders, seen);
  }

  lemma CancelAdds(core: Core, cfg: Config, c: nat, state: OrderState, view: View, seen: Sent -> bool)
    requires Inv(core) && ViewOk(cfg, view) && ShowsBook(view, seen) && Used(core.pool, c) && Live(ChildAt(core.pool, c))
    requires state == OrderState.Canceled || state == OrderState.Rejected
    ensures AddsSeen(core.orders, HandleCancel(core, cfg, c, state, view).orders, seen)
  {
    var p, booked := ChildAt(core.pool, c).parentId, BookCancel(core, c, state);
    CancelKeeps(core, c, state);
    SameAdds(core.orders, booked.orders, seen);
    SettleAdds(booked, cfg, p, view, seen);
    AddsTrans(core.orders, booked.orders, HandleCancel(core, cfg, c, state, view).orders, seen);
  }

  lemma ReportAdds(core: Core, cfg: Config, rep: Report, view: View, seen: Sent -> bool)
    requires Inv(core) && EventOk(core, cfg, ReportEvent(rep, view)) && ShowsBook(view, seen)
    ensures AddsSeen(core.orders, OnReport(core, cfg, rep, view).orders, seen)
  {
    SameAdds(core.orders, core.orders, seen);
    if rep.cid < |core.pool.children| && ChildAt(core.pool, rep.cid).parentId < |core.pool.parents| {
      match rep.exec
      case Fills(lots, ticks) => FillAdds(core, cfg, rep.cid, lots, FillPrice(cfg, ticks), view, seen);
      case Cancels => CancelAdds(core, cfg, rep.cid, OrderState.Canceled, view, seen);
      case Rejects => CancelAdds(core, cfg, rep.cid, OrderState.Rejected, view, seen);
      case Ack =>
      case Replaces =>
    }
  }

  lemma SignalAdds(core: Core, cfg: Config, sig: Signal, gateOk: bool, riskOk: bool, view: View, seen: Sent -> bool)
    requires Inv(core) && ViewOk(cfg, view) && ShowsBook(view, seen) && sig.lots >= 0
    ensures AddsSeen(core.orders, OnSignal(core, cfg, sig, gateOk, riskOk, view).orders, seen)
  {
    SameAdds(core.orders, core.orders, seen);
    if gateOk && core.pool.parentFree != [] {
      var par := NewParent(core, cfg, sig, Top(core.pool.parentFree));
      EffectiveNonNegative(core, sig);
      if sig.instr < |core.pos| && par.leaves != 0 {
        RoutedLegsSeen(cfg, view, par, sig.kind, seen);
        AdmittedAdds(core, cfg, par, LegsFor(cfg, view, par, par.leaves, sig.kind), view.now, seen);
      }
    }
  }

  lemma AdmittedAdds(core: Core, cfg: Config, par: Parent, legs: seq<Leg>, now: nat, seen: Sent -> bool)
    requires core.pool.parentFree != [] && par.id == Top(core.pool.parentFree) && par.id < |core.pool.parents|
    requires LegsSeen(par, legs, seen)
    ensures AddsSeen(core.orders, Dispatch(Admit(core, par), cfg, par.id, legs, now).orders, seen)
  {
    var admitted := Admit(core, par);
    assert AddsSeen(core.orders, admitted.orders, seen);
    assert LegsSeen(admitted.pool.parents[par.id], legs, seen);
    DispatchAdds(admitted, cfg, par.id, legs, now, seen);
    AddsTrans(core.orders, admitted.orders, Dispatch(admitted, cfg, par.id, legs, now).orders, seen);
  }

  lemma CheckEntryAdds(core: Core, cfg: Config, s: nat, i: nat, view: View, seen: Sent -> bool)
    requires Inv(core) && ViewOk(cfg, view) && ShowsBook(view, seen)
    ensures AddsSeen(core.orders, CheckEntry(core, cfg, s, i, view).orders, seen)
  {
    SameAdds(core.orders, core.orders, seen);
    if TW.ActiveAt(core.wheel, s, i) {
      var c, off := core.wheel.slots[s][i].cid, core.(wheel := TW.Disarm(core.wheel, s, i));
      TW.ArmedAt(core.wheel, s, i);
      TW.DisarmRemoves(core.wheel, s, i);
      WheelOnlyKeeps(core, off);
      ReportAdds(off, cfg, Report(c, Cancels), view, seen);
    }
  }

  lemma {:induction false} CheckSlotAdds(core: Core, cfg: Config, s: nat, i: nat, depth: nat, views: nat -> View, seen: Sent -> bool)
    requires Inv(core) && (forall j :: ViewOk(cfg, views(j))) && (forall j :: ShowsBook(views(j), seen))
    ensures AddsSeen(core.orders, CheckSlot(core, cfg, s, i, depth, views).orders, seen)
    decreases depth - i
  {
    SameAdds(core.orders, core.orders, seen);
    if i < depth {
      var next := CheckEntry(core, cfg, s, i, views(i));
      CheckEntryKeeps(core, cfg, s, i, views(i));
      CheckEntryAdds(core, cfg, s, i, views(i), seen);
      CheckSlotAdds(next, cfg, s, i + 1, depth, views, seen);
      AddsTrans(core.orders, next.orders, CheckSlot(core, cfg, s, i, depth, views).orders, seen);
    }
  }

  lemma AdvanceAdds(core: Core, cfg: Config, views: nat -> View, seen: Sent -> bool)
    requires Inv(core) && (forall j :: ViewOk(cfg, views(j))) && (forall j :: ShowsBook(views(j), seen))
    ensures AddsSeen(core.orders, AdvanceWheel(core, cfg, views).orders, seen)
  {
    var w: TW.Wheel := core.wheel.(now := core.wheel.now + core.wheel.tick);
    ClockOnly(core.wheel, w);
    WheelOnlyKeeps(core, core.(wheel := w));
    CheckSlotAdds(core.(wheel := w), cfg, TW.Current(w), 0, w.depth, views, seen);
  }

  lemma {:induction false} TickAdds(core: Core, cfg: Config, steps: nat, views: (nat, nat) -> View, seen: Sent -> bool)
    requires Inv(core) && (forall k, j :: ViewOk(cfg, views(k, j))) && (forall k, j :: ShowsBook(views(k, j), seen))
    ensures AddsSeen(core.orders, Tick(core, cfg, steps, views).orders, seen)
  {
    SameAdds(core.orders, core.orders, seen);
    if steps > 0 {
      var prev := Tick(core, cfg, steps - 1, views);
      TickAdds(core, cfg, steps - 1, views, seen);
      TickKeeps(core, cfg, steps - 1, views);
      AdvanceAdds(prev, cfg, (j: nat) => views(steps, j), seen);
      AddsTrans(core.orders, prev.orders, Tick(core, cfg, steps, views).orders, seen);
    }
  }

  /** A book the event shows the core quotes the child. */
  ghost predicate Shows(e: Event, s: Sent) {
    match e
    case OrderEvent(_, _, _, view) => Quoted(view, s)
    case ReportEvent(_, view) => Quoted(view, s)
    case TickEvent(_, views) => exists k, j :: Quoted(views(k, j), s)
    case UnwindEvent(_, _) => false
  }

  lemma StepAdds(core: Core, cfg: Config, e: Event, seen: Sent -> bool)
    requires Inv(core) && EventOk(core, cfg, e) && forall s: Sent :: Shows(e, s) ==> seen(s)
    ensures AddsSeen(core.orders, Step(core, cfg, e).orders, seen)
  {
    match e
    case OrderEvent(sig, gateOk, riskOk, view) =>
      assert forall s: Sent :: Quoted(view, s) ==> Shows(e, s);
      SignalAdds(core, cfg, sig, gateOk, riskOk, view, seen);
    case ReportEvent(rep, view) =>
      assert forall s: Sent :: Quoted(view, s) ==> Shows(e, s);
      ReportAdds(core, cfg, rep, view, seen);
    case TickEvent(steps, views) =>
      assert forall s: Sent, k, j :: Quoted(views(k, j), s) ==> Shows(e, s);
      TickAdds(core, cfg, steps, views, seen);
    case UnwindEvent(instr, enabled) => SameAdds(core.orders, core.orders, seen);
  }

  lemma {:induction false} RunAdds(core: Core, cfg: Config, events: seq<Event>, end: Core, seen: Sent -> bool)
    requires Inv(core) && IsRun(core, cfg, events, end)
    requires forall n, s: Sent :: 0 <= n < |events| && Shows(events[n], s) ==> seen(s)
    ensures AddsSeen(core.orders, end.orders, seen)
    decreases |events|
  {
    if events == [] {
      SameAdds(core.orders, core.orders, seen);
    } else {
      var next := Step(core, cfg, events[0]);
      StepKeeps(core, cfg, events[0]);
      StepAdds(core, cfg, events[0], seen);
      forall n, s: Sent | 0 <= n < |events[1..]| && Shows(events[1..][n], s)
        ensures seen(s)
      {
        assert events[1..][n] == events[n + 1];
      }
      RunAdds(next, cfg, events[1..], end, seen);
      AddsTrans(core.orders, next.orders, end.orders, seen);
    }
  }

  /**
   Every child ever sent, over whole runs: it is on its order's side, and its venue quoted
   its price in a book some event of the run showed the core.
   */
  lemma EveryChildWasQuoted(start: Core, cfg: Config, events: seq<Event>, core: Core, s: nat, k: nat)
    requires Reached(start, cfg, events, core) && s < |core.orders| && k < |core.orders[s].sent|
    ensures core.orders[s].sent[k].dir == core.orders[s].dir && core.orders[s].sent[k].lots >= 1
    ensures exists n :: 0 <= n < |events| && Shows(events[n], core.orders[s].sent[k])
  {
    ReachedInv(start, cfg, events, core);
    assert AccountOk(core, s);
    InitialHolds(start);
    var seen := (x: Sent) => exists n :: 0 <= n < |events| && Shows(events[n], x);
    RunAdds(start, cfg, events, core, seen);
    assert OldOrNew(start.orders, core.orders, seen, s, k);
  }

  /** In every reachable state an allocated child works on the side of its parent, which is its order's. */
  lemma ChildrenOnTheirSide(start: Core, cfg: Config, events: seq<Event>, core: Core, c: nat)
    requires Reached(start, cfg, events, core) && Used(core.pool, c)
    ensures var par := ParentAt(core.pool, ChildAt(core.pool, c).parentId);
            && Held(core.pool, ChildAt(core.pool, c).parentId) && par.serial < |core.orders|
            && ChildAt(core.pool, c).dir == par.dir == core.orders[par.serial].dir
  {
    ReachedInv(start, cfg, events, core);
    HolderAccount(core, ChildAt(core.pool, c).parentId);
  }
}
