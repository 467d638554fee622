/**
 Order timeouts over whole runs of the execution core. Every dispatch that puts its timer
 at least one bucket ahead of the wheel keeps every timer ahead of the wheel's clock, so
 no child with a timer outlives its timeout by a tick; and if dispatches stay less than a
 lap ahead, every timer fires in the bucket of its deadline.
 */
module TimeoutRuns {
  import opened Types
  import opened Router
  import opened OrderPool
  import opened Lifecycle
  import opened LifecycleTheorems
  import opened LifecycleTies
  import opened Modular
  import TW = TimerWheel

  // ----- What the handlers do to the wheel -----

  /** A timer a dispatch at this clock reading may set. */
  predicate SetAt(cfg: Config, at: nat, deadline: nat) {
    deadline == at + cfg.childTimeout || deadline == at + cfg.makerTimeout
  }

  ghost predicate KeptOrSet(w: TW.Wheel, w': TW.Wheel, cfg: Config, at: nat, s: nat, j: nat)
    requires TW.ActiveAt(w', s, j)
  {
    || (TW.ActiveAt(w, s, j) && w'.slots[s][j] == w.slots[s][j])
    || (SetAt(cfg, at, w'.slots[s][j].deadline) && s == TW.SlotFor(w', w'.slots[s][j].deadline))
  }

  /** The clock stands still, and every active timer was there before or was set at `at`. */
  ghost predicate Rearmed(w: TW.Wheel, w': TW.Wheel, cfg: Config, at: nat) {
    && w'.now == w.now && w'.tick == w.tick && w'.depth == w.depth && |w'.slots| == |w.slots|
    && forall s: nat, j: nat :: TW.ActiveAt(w', s, j) ==> KeptOrSet(w, w', cfg, at, s, j)
  }

  lemma RearmedTrans(a: TW.Wheel, b: TW.Wheel, c: TW.Wheel, cfg: Config, at: nat)
    requires Rearmed(a, b, cfg, at) && Rearmed(b, c, cfg, at)
    ensures Rearmed(a, c, cfg, at)
  {
    forall s: nat, j: nat | TW.ActiveAt(c, s, j)
      ensures KeptOrSet(a, c, cfg, at, s, j)
    {
      assert KeptOrSet(b, c, cfg, at, s, j);
      if TW.ActiveAt(b, s, j) {
        assert KeptOrSet(a, b, cfg, at, s, j);
      }
    }
  }

  lemma InsertRearms(w: TW.Wheel, c: nat, cfg: Config, at: nat, timeout: nat)
    requires timeout == cfg.childTimeout || timeout == cfg.makerTimeout
    ensures Rearmed(w, TW.Insert(w, c, at, timeout), cfg, at)
  {
  }

  lemma CancelRearms(w: TW.Wheel, c: nat, cfg: Config, at: nat)
    ensures Rearmed(w, TW.Cancel(w, c), cfg, at)
  {
  }

  lemma {:induction false} SendFromRearms(core: Core, cfg: Config, p: nat, legs: seq<Leg>, i: nat, now: nat)
    ensures Rearmed(core.wheel, SendFrom(core, cfg, p, legs, i, now).0.wheel, cfg, now)
    decreases |legs| - i
  {
    if CanSend(core, p, legs, i) {
      var next := SendChild(core, cfg, p, i, legs[i], now);
      InsertRearms(core.wheel, Top(core.pool.childFree), cfg, now, TimeoutFor(cfg, legs[i]));
      SendFromRearms(next, cfg, p, legs, i + 1, now);
      RearmedTrans(core.wheel, next.wheel, SendFrom(core, cfg, p, legs, i, now).0.wheel, cfg, now);
    }
  }

  lemma DispatchRearms(core: Core, cfg: Config, p: nat, legs: seq<Leg>, now: nat)
    ensures Rearmed(core.wheel, Dispatch(core, cfg, p, legs, now).wheel, cfg, now)
  {
    SendFromRearms(core, cfg, p, legs, 0, now);
    var (out, sent) := SendFrom(core, cfg, p, legs, 0, now);
    assert FinishDispatch(out, p, legs, sent).wheel == out.wheel;
  }

  lemma RerouteRearms(core: Core, cfg: Config, p: nat, view: View)
    requires ViewOk(cfg, view)
    ensures Rearmed(core.wheel, Reroute(core, cfg, p, view).wheel, cfg, view.now)
  {
    var cut := Shrink(ClearChildren(core, p), p);
    assert cut.wheel == core.wheel;
    var par := ParentAt(cut.pool, p);
    DispatchRearms(MarkPending(cut, p), cfg, p, LegsFor(cfg, view, par, par.leaves, Taker), view.now);
  }

  lemma SettleRearms(booked: Core, cfg: Config, p: nat, view: View)
    requires ViewOk(cfg, view)
    ensures Rearmed(booked.wheel, CloseFilled(booked, p).wheel, cfg, view.now)
    ensures Rearmed(booked.wheel, booked.wheel, cfg, view.now)
    ensures Rearmed(booked.wheel, Reroute(booked, cfg, p, view).wheel, cfg, view.now)
  {
    RerouteRearms(booked, cfg, p, view);
  }

  lemma HandleFillRearms(core: Core, cfg: Config, c: nat, lots: nat, price: real, view: View)
    requires ViewOk(cfg, view)
    ensures Rearmed(core.wheel, HandleFill(core, cfg, c, lots, price, view).wheel, cfg, view.now)
  {
    var booked := BookFill(core, c, lots, price);
    CancelRearms(core.wheel, c, cfg, view.now);
    SettleRearms(booked, cfg, ChildAt(core.pool, c).parentId, view);
    RearmedTrans(core.wheel, booked.wheel, HandleFill(core, cfg, c, lots, price, view).wheel, cfg, view.now);
  }

  lemma HandleCancelRearms(core: Core, cfg: Config, c: nat, state: OrderState, view: View)
    requires ViewOk(cfg, view)
    ensures Rearmed(core.wheel, HandleCancel(core, cfg, c, state, view).wheel, cfg, view.now)
  {
    var booked := BookCancel(core, c, state);
    CancelRearms(core.wheel, c, cfg, view.now);
    SettleRearms(booked, cfg, ChildAt(core.pool, c).parentId, view);
    RearmedTrans(core.wheel, booked.wheel, HandleCancel(core, cfg, c, state, view).wheel, cfg, view.now);
  }

  lemma ReportRearms(core: Core, cfg: Config, rep: Report, view: View)
    requires ViewOk(cfg, view)
    ensures Rearmed(core.wheel, OnReport(core, cfg, rep, view).wheel, cfg, view.now)
  {
    if rep.cid < |core.pool.children| && ChildAt(core.pool, rep.cid).parentId < |core.pool.parents| {
      match rep.exec
      case Fills(lots, ticks) =>
        if lots >= 0 {
          HandleFillRearms(core, cfg, rep.cid, lots, FillPrice(cfg, ticks), view);
        }
      case Cancels => HandleCancelRearms(core, cfg, rep.cid, OrderState.Canceled, view);
      case Rejects => HandleCancelRearms(core, cfg, rep.cid, OrderState.Rejected, view);
      case Ack =>
      case Replaces =>
    }
  }

  lemma SignalRearms(core: Core, cfg: Config, sig: Signal, gateOk: bool, riskOk: bool, view: View)
    requires ViewOk(cfg, view)
    ensures Rearmed(core.wheel, OnSignal(core, cfg, sig, gateOk, riskOk, view).wheel, cfg, view.now)
  {
    if core.pool.parentFree != [] {
      var par := NewParent(core, cfg, sig, Top(core.pool.parentFree));
      DispatchRearms(Admit(core, par), cfg, par.id, LegsFor(cfg, view, par, par.leaves, sig.kind), view.now);
    }
  }

  // ----- Timers ahead of the clock -----

  /** Between 1 and `m` buckets ahead of the clock. */
  predicate InFront(tick: nat, clock: nat, deadline: nat, m: nat)
    requires tick > 0
  {
    clock / tick < deadline / tick <= clock / tick + m
  }

  /** An entry the scan of the current slot, which stands at index `from`, will still reach in time. */
  predicate EntryInFront(w: TW.Wheel, s: nat, j: nat, m: nat, from: nat)
    requires TW.ActiveAt(w, s, j)
  {
    var deadline := w.slots[s][j].deadline;
    && s == TW.SlotFor(w, deadline)
    && (InFront(w.tick, w.now, deadline, m)
        || (TW.Bucket(w, deadline) == TW.Bucket(w, w.now) && s == TW.Current(w) && j >= from))
  }

  ghost predicate AllInFront(w: TW.Wheel, m: nat, from: nat) {
    forall s: nat, j: nat :: TW.ActiveAt(w, s, j) ==> EntryInFront(w, s, j, m, from)
  }

  /** A dispatch at this clock reading puts its timer 1 to `m` buckets ahead, whichever its kind. */
  predicate DispatchesInFront(tick: nat, clock: nat, cfg: Config, at: nat, m: nat)
    requires tick > 0
  {
    InFront(tick, clock, at + cfg.childTimeout, m) && InFront(tick, clock, at + cfg.makerTimeout, m)
  }

  lemma RearmedInFront(w: TW.Wheel, w': TW.Wheel, cfg: Config, at: nat, m: nat, from: nat)
    requires AllInFront(w, m, from) && Rearmed(w, w', cfg, at) && DispatchesInFront(w.tick, w.now, cfg, at, m)
    ensures AllInFront(w', m, from)
  {
    forall s: nat, j: nat | TW.ActiveAt(w', s, j)
      ensures EntryInFront(w', s, j, m, from)
    {
      assert KeptOrSet(w, w', cfg, at, s, j);
      if TW.ActiveAt(w, s, j) {
        assert EntryInFront(w, s, j, m, from);
      }
    }
  }

  /** One entry of the current slot is dealt with. */
  lemma DisarmInFront(w: TW.Wheel, m: nat, i: nat)
    requires AllInFront(w, m, i) && i < w.depth
    ensures TW.ActiveAt(w, TW.Current(w), i) ==> AllInFront(TW.Disarm(w, TW.Current(w), i), m, i + 1)
    ensures !TW.ActiveAt(w, TW.Current(w), i) ==> AllInFront(w, m, i + 1)
  {
    if TW.ActiveAt(w, TW.Current(w), i) {
      var w' := TW.Disarm(w, TW.Current(w), i);
      forall s: nat, j: nat | TW.ActiveAt(w', s, j)
        ensures EntryInFront(w', s, j, m, i + 1)
      {
        assert TW.ActiveAt(w, s, j) && EntryInFront(w, s, j, m, i);
      }
    } else {
      forall s: nat, j: nat | TW.ActiveAt(w, s, j)
        ensures EntryInFront(w, s, j, m, i + 1)
      {
        assert EntryInFront(w, s, j, m, i);
      }
    }
  }

  lemma CheckEntryInFront(core: Core, cfg: Config, i: nat, view: View, m: nat)
    requires ViewOk(cfg, view) && AllInFront(core.wheel, m, i) && i < core.wheel.depth
    requires DispatchesInFront(core.wheel.tick, core.wheel.now, cfg, view.now, m)
    ensures var w, w' := core.wheel, CheckEntry(core, cfg, TW.Current(core.wheel), i, view).wheel;
            AllInFront(w', m, i + 1) && w'.now == w.now && w'.tick == w.tick && w'.depth == w.depth && |w'.slots| == |w.slots|
  {
    var s := TW.Current(core.wheel);
    DisarmInFront(core.wheel, m, i);
    if TW.ActiveAt(core.wheel, s, i) {
      var off := core.(wheel := TW.Disarm(core.wheel, s, i));
      ReportRearms(off, cfg, Report(core.wheel.slots[s][i].cid, Cancels), view);
      RearmedInFront(off.wheel, CheckEntry(core, cfg, s, i, view).wheel, cfg, view.now, m, i + 1);
    }
  }

  lemma {:induction false} CheckSlotInFront(core: Core, cfg: Config, i: nat, n: nat, views: nat -> View, m: nat)
    requires forall j :: ViewOk(cfg, views(j))
    requires forall j :: DispatchesInFront(core.wheel.tick, core.wheel.now, cfg, views(j).now, m)
    requires AllInFront(core.wheel, m, i) && i <= n <= core.wheel.depth
    ensures var w, w' := core.wheel, CheckSlot(core, cfg, TW.Current(core.wheel), i, n, views).wheel;
            AllInFront(w', m, n) && w'.now == w.now && w'.tick == w.tick && w'.depth == w.depth && |w'.slots| == |w.slots|
    decreases n - i
  {
    if i < n {
      CheckEntryInFront(core, cfg, i, views(i), m);
      CheckSlotInFront(CheckEntry(core, cfg, TW.Current(core.wheel), i, views(i)), cfg, i + 1, n, views, m);
    }
  }

  /** The wheel's clock `k` steps on. */
  function ClockAt(w: TW.Wheel, k: nat): nat {
    w.now + k * w.tick
  }

  /** One clock step turns "in front" into "in front or due in the slot about to be scanned". */
  lemma StepInFront(w: TW.Wheel, w': TW.Wheel, m: nat)
    requires AllInFront(w, m, w.depth) && w' == w.(now := w.now + w.tick)
    ensures AllInFront(w', m, 0)
  {
    TW.NextBucket(w);
    forall s: nat, j: nat | TW.ActiveAt(w', s, j)
      ensures EntryInFront(w', s, j, m, 0)
    {
      assert TW.ActiveAt(w, s, j) && EntryInFront(w, s, j, m, w.depth);
    }
  }

  lemma AdvanceInFront(core: Core, cfg: Config, views: nat -> View, m: nat)
    requires forall j :: ViewOk(cfg, views(j))
    requires forall j :: DispatchesInFront(core.wheel.tick, core.wheel.now + core.wheel.tick, cfg, views(j).now, m)
    requires AllInFront(core.wheel, m, core.wheel.depth)
    ensures var w, w' := core.wheel, AdvanceWheel(core, cfg, views).wheel;
            && AllInFront(w', m, w'.depth) && w'.now == w.now + w.tick && w'.tick == w.tick && w'.depth == w.depth
            && |w'.slots| == |w.slots|
  {
    var w: TW.Wheel := core.wheel.(now := core.wheel.now + core.wheel.tick);
    StepInFront(core.wheel, w, m);
    CheckSlotInFront(core.(wheel := w), cfg, 0, w.depth, views, m);
  }

  /** At each of the tick's clock steps, and at each entry of the slot then scanned. */
  ghost predicate TickInFront(w: TW.Wheel, cfg: Config, steps: nat, views: (nat, nat) -> View, m: nat) {
    forall k: nat, j: nat | 1 <= k <= steps :: DispatchesInFront(w.tick, ClockAt(w, k), cfg, views(k, j).now, m)
  }

  lemma ClockStep(w: TW.Wheel, k: nat)
    ensures ClockAt(w, k) + w.tick == ClockAt(w, k + 1) && ClockAt(w, 0) == w.now
  {
    assert (k + 1) * w.tick == k * w.tick + w.tick;
  }

  lemma {:induction false} TickAllInFront(core: Core, cfg: Config, steps: nat, views: (nat, nat) -> View, m: nat)
    requires forall k, j :: ViewOk(cfg, views(k, j))
    requires TickInFront(core.wheel, cfg, steps, views, m) && AllInFront(core.wheel, m, core.wheel.depth)
    ensures var w, w' := core.wheel, Tick(core, cfg, steps, views).wheel;
            && AllInFront(w', m, w'.depth) && w'.now == ClockAt(w, steps) && w'.tick == w.tick
            && w'.depth == w.depth && |w'.slots| == |w.slots|
  {
    if steps == 0 {
      ClockStep(core.wheel, 0);
    } else {
      TickAllInFront(core, cfg, steps - 1, views, m);
      var prev := Tick(core, cfg, steps - 1, views);
      ClockStep(core.wheel, steps - 1);
      forall j: nat
        ensures DispatchesInFront(prev.wheel.tick, prev.wheel.now + prev.wheel.tick, cfg, views(steps, j).now, m)
      {
        assert DispatchesInFront(core.wheel.tick, ClockAt(core.wheel, steps), cfg, views(steps, j).now, m);
      }
      AdvanceInFront(prev, cfg, (j: nat) => views(steps, j), m);
    }
  }

  // ----- Runs -----

  /** Whatever the event dispatches is timed 1 to `m` buckets ahead of the wheel. */
  ghost predicate EventInFront(core: Core, cfg: Config, e: Event, m: nat) {
    match e
    case OrderEvent(_, _, _, view) => DispatchesInFront(core.wheel.tick, core.wheel.now, cfg, view.now, m)
    case ReportEvent(_, view) => DispatchesInFront(core.wheel.tick, core.wheel.now, cfg, view.now, m)
    case TickEvent(steps, views) => TickInFront(core.wheel, cfg, steps, views, m)
    case UnwindEvent(_, _) => true
  }

  ghost predicate RunInFront(core: Core, cfg: Config, events: seq<Event>, m: nat)
    decreases |events|
  {
    events == [] || !EventOk(core, cfg, events[0]) ||
    (EventInFront(core, cfg, events[0], m) && RunInFront(Step(core, cfg, events[0]), cfg, events[1..], m))
  }

  lemma StepAllInFront(core: Core, cfg: Config, e: Event, m: nat)
    requires EventOk(core, cfg, e) && EventInFront(core, cfg, e, m) && AllInFront(core.wheel, m, core.wheel.depth)
    ensures var w := Step(core, cfg, e).wheel; AllInFront(w, m, w.depth) && w.tick == core.wheel.tick
  {
    match e
    case OrderEvent(sig, gateOk, riskOk, view) =>
      SignalRearms(core, cfg, sig, gateOk, riskOk, view);
      RearmedInFront(core.wheel, Step(core, cfg, e).wheel, cfg, view.now, m, core.wheel.depth);
    case ReportEvent(rep, view) =>
      ReportRearms(core, cfg, rep, view);
      RearmedInFront(core.wheel, Step(core, cfg, e).wheel, cfg, view.now, m, core.wheel.depth);
    case TickEvent(steps, views) => TickAllInFront(core, cfg, steps, views, m);
    case UnwindEvent(_, _) =>
  }

  lemma {:induction false} RunAllInFront(core: Core, cfg: Config, events: seq<Event>, end: Core, m: nat)
    requires IsRun(core, cfg, events, end) && RunInFront(core, cfg, events, m)
    requires AllInFront(core.wheel, m, core.wheel.depth)
    ensures AllInFront(end.wheel, m, end.wheel.depth)
    decreases |events|
  {
    if events != [] {
      StepAllInFront(core, cfg, events[0], m);
      RunAllInFront(Step(core, cfg, events[0]), cfg, events[1..], end, m);
    }
  }

  lemma ReachedInFront(start: Core, cfg: Config, events: seq<Event>, core: Core, m: nat)
    requires Reached(start, cfg, events, core) && RunInFront(start, cfg, events, m)
    ensures AllInFront(core.wheel, m, core.wheel.depth)
  {
    forall s: nat, j: nat | TW.ActiveAt(start.wheel, s, j)
      ensures false
    {
      TW.ArmedAt(start.wheel, s, j);
    }
    RunAllInFront(start, cfg, events, core, m);
  }

  /**
   No timeout is outlived. In every state of a run whose dispatches are timed at least one
   bucket ahead of the wheel, every active timer belongs to a live child, stands in the
   slot of that child's own due time, and is still ahead of the wheel: once the wheel has
   caught up with the caller's clock, no child with a timer is a tick past its timeout.
   */
  lemma NoTimeoutOutlived(start: Core, cfg: Config, events: seq<Event>, core: Core, m: nat, s: nat, j: nat, caller: nat)
    requires Reached(start, cfg, events, core) && RunInFront(start, cfg, events, m) && TW.ActiveAt(core.wheel, s, j)
    ensures var c := core.wheel.slots[s][j].cid;
            var due := DueAt(cfg, ChildAt(core.pool, c));
            && Used(core.pool, c) && Live(ChildAt(core.pool, c))
            && core.wheel.slots[s][j].deadline == due && s == TW.SlotFor(core.wheel, due)
            && TW.Bucket(core.wheel, core.wheel.now) < TW.Bucket(core.wheel, due)
            && core.wheel.now < due
            && (caller < core.wheel.now + core.wheel.tick ==> caller < due + core.wheel.tick)
  {
    ReachedInFront(start, cfg, events, core, m);
    ReachedInv(start, cfg, events, core);
    ReachedTied(start, cfg, events, core);
    TW.ArmedAt(core.wheel, s, j);
    assert EntryDated(core, cfg, s, core.wheel.slots[s][j]);
    assert EntryInFront(core.wheel, s, j, m, core.wheel.depth);
    if core.wheel.slots[s][j].deadline <= core.wheel.now {
      TW.BucketMonotone(core.wheel, core.wheel.slots[s][j].deadline, core.wheel.now);
    }
  }

  /** The state of the core when the scan of the next clock step stands at entry `i`. */
  ghost function ScanSlot(prev: Core, cfg: Config, i: nat, views: nat -> View): Core
    requires forall j :: ViewOk(cfg, views(j))
  {
    var w: TW.Wheel := prev.wheel.(now := prev.wheel.now + prev.wheel.tick);
    CheckSlot(prev.(wheel := w), cfg, TW.Current(w), 0, i, views)
  }

  /** What the callbacks of a tick's clock step `k` read. */
  function Row(views: (nat, nat) -> View, k: nat): nat -> View {
    (j: nat) => views(k, j)
  }

  /** The state of the core when the scan of a tick's clock step `k` stands at entry `i`. */
  ghost function ScanAt(core: Core, cfg: Config, k: nat, i: nat, views: (nat, nat) -> View): Core
    requires k >= 1 && forall a, b :: ViewOk(cfg, views(a, b))
  {
    ScanSlot(Tick(core, cfg, k - 1, views), cfg, i, Row(views, k))
  }

  /**
   On time. Every timer a tick fires, at any clock step and any entry, in a run whose
   dispatches are less than a lap ahead, is in its deadline's bucket, within a tick of the
   child's own due time. At exactly a lap it may instead be a whole lap early.
   */
  lemma FiresInItsBucket(start: Core, cfg: Config, events: seq<Event>, core: Core, m: nat,
                         steps: nat, views: (nat, nat) -> View, k: nat, i: nat)
    requires Reached(start, cfg, events, core) && RunInFront(start, cfg, events, m) && m <= |core.wheel.slots|
    requires (forall a, b :: ViewOk(cfg, views(a, b))) && TickInFront(core.wheel, cfg, steps, views, m)
    requires 1 <= k <= steps && i < core.wheel.depth
    ensures var w := ScanAt(core, cfg, k, i, views).wheel;
            TW.ActiveAt(w, TW.Current(w), i) ==>
              var due := w.slots[TW.Current(w)][i].deadline;
              && (m < |w.slots| ==> TW.Bucket(w, due) == TW.Bucket(w, w.now) && due < w.now + w.tick && w.now < due + w.tick)
              && (TW.Bucket(w, due) == TW.Bucket(w, w.now) || TW.Bucket(w, due) == TW.Bucket(w, w.now) + |w.slots|)
  {
    ReachedInFront(start, cfg, events, core, m);
    ScanInFront(core, cfg, m, steps, views, k, i);
    var w := ScanAt(core, cfg, k, i, views).wheel;
    if TW.ActiveAt(w, TW.Current(w), i) {
      var due := w.slots[TW.Current(w)][i].deadline;
      assert EntryInFront(w, TW.Current(w), i, m, i);
      if TW.Bucket(w, due) < TW.Bucket(w, w.now) + |w.slots| {
        SameSlot(TW.Bucket(w, w.now), TW.Bucket(w, due), |w.slots|);
        TW.SameBucket(w, due, w.now);
      }
    }
  }

  lemma ScanInFront(core: Core, cfg: Config, m: nat, steps: nat, views: (nat, nat) -> View, k: nat, i: nat)
    requires (forall a, b :: ViewOk(cfg, views(a, b))) && TickInFront(core.wheel, cfg, steps, views, m)
    requires AllInFront(core.wheel, m, core.wheel.depth) && 1 <= k <= steps && i < core.wheel.depth
    ensures var w := ScanAt(core, cfg, k, i, views).wheel;
            AllInFront(w, m, i) && |w.slots| == |core.wheel.slots| && w.depth == core.wheel.depth
  {
    RowInFront(core, cfg, m, steps, views, k);
    ScanFrom(Tick(core, cfg, k - 1, views), cfg, m, Row(views, k), i);
  }

  lemma RowInFront(core: Core, cfg: Config, m: nat, steps: nat, views: (nat, nat) -> View, k: nat)
    requires (forall a, b :: ViewOk(cfg, views(a, b))) && TickInFront(core.wheel, cfg, steps, views, m)
    requires AllInFront(core.wheel, m, core.wheel.depth) && 1 <= k <= steps
    ensures var w := Tick(core, cfg, k - 1, views).wheel;
            && AllInFront(w, m, w.depth) && w.depth == core.wheel.depth && |w.slots| == |core.wheel.slots|
            && forall j :: DispatchesInFront(w.tick, w.now + w.tick, cfg, Row(views, k)(j).now, m)
  {
    TickAllInFront(core, cfg, k - 1, views, m);
    RowViews(core.wheel, Tick(core, cfg, k - 1, views).wheel, cfg, m, steps, views, k);
  }

  lemma RowViews(w: TW.Wheel, w': TW.Wheel, cfg: Config, m: nat, steps: nat, views: (nat, nat) -> View, k: nat)
    requires TickInFront(w, cfg, steps, views, m) && 1 <= k <= steps && w'.tick == w.tick && w'.now == ClockAt(w, k - 1)
    ensures forall j :: DispatchesInFront(w'.tick, w'.now + w'.tick, cfg, Row(views, k)(j).now, m)
  {
    ClockStep(w, k - 1);
    forall j: nat
      ensures DispatchesInFront(w'.tick, w'.now + w'.tick, cfg, Row(views, k)(j).now, m)
    {
      assert DispatchesInFront(w.tick, ClockAt(w, k), cfg, views(k, j).now, m);
    }
  }

  lemma ScanFrom(prev: Core, cfg: Config, m: nat, views: nat -> View, i: nat)
    requires forall j :: ViewOk(cfg, views(j))
    requires forall j :: DispatchesInFront(prev.wheel.tick, prev.wheel.now + prev.wheel.tick, cfg, views(j).now, m)
    requires AllInFront(prev.wheel, m, prev.wheel.depth) && i < prev.wheel.depth
    ensures var w' := ScanSlot(prev, cfg, i, views).wheel;
            AllInFront(w', m, i) && |w'.slots| == |prev.wheel.slots| && w'.depth == prev.wheel.depth
  {
    var w: TW.Wheel := prev.wheel.(now := prev.wheel.now + prev.wheel.tick);
    StepInFront(prev.wheel, w, m);
    CheckSlotInFront(prev.(wheel := w), cfg, 0, i, views, m);
  }

  /**
   The condition from the configuration: timeouts of at least one tick and a caller's
   clock that is not behind the wheel and at most `m` ticks ahead of it less the timeout.
   */
  lemma TimeoutsInFront(w: TW.Wheel, cfg: Config, at: nat, m: nat)
    requires w.tick <= cfg.childTimeout && w.tick <= cfg.makerTimeout && w.now <= at
    requires at + cfg.childTimeout <= w.now + m * w.tick && at + cfg.makerTimeout <= w.now + m * w.tick
    ensures DispatchesInFront(w.tick, w.now, cfg, at, m)
  {
    TimeoutInFront(w, at + cfg.childTimeout, m);
    TimeoutInFront(w, at + cfg.makerTimeout, m);
  }

  lemma TimeoutInFront(w: TW.Wheel, deadline: nat, m: nat)
    requires w.now + w.tick <= deadline <= w.now + m * w.tick
    ensures InFront(w.tick, w.now, deadline, m)
  {
    TW.NextBucket(w);
    TW.BucketMonotone(w, w.now + w.tick, deadline);
    BucketsOn(w, m);
    TW.BucketMonotone(w, deadline, w.now + m * w.tick);
  }

  lemma BucketsOn(w: TW.Wheel, m: nat)
    ensures TW.Bucket(w, w.now + m * w.tick) == TW.Bucket(w, w.now) + m
  {
    var q, r := w.now / w.tick, w.now % w.tick;
    assert w.now + m * w.tick == w.tick * (q + m) + r by {
      TW.DistributeSum(w.tick, q, m);
    }
    ModUnique(w.now + m * w.tick, w.tick, q + m, r);
  }
}
