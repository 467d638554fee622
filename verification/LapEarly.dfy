/**
 A run on which a timer fires a whole lap early, for every ring of at least two entries a
 slot and every child timeout the ring can hold. An order is sent on time, the execution
 thread then stalls for one lap, and in the tick call that catches up the order's timeout
 reroutes it in two legs. Both new timers belong in the slot being scanned: the first
 takes the entry just cleared, the second the entry the scan reaches next.
 */
module LapEarly {
  import opened Types
  import opened Router
  import opened OrderPool
  import opened Positions
  import opened Lifecycle
  import opened LifecycleSteps
  import opened LifecycleTheorems
  import opened TimeoutRuns
  import opened DeepBook
  import opened OneOrder
  import opened Modular
  import TW = TimerWheel

  // ----- The wheel -----

  ghost predicate Blank(w: TW.Wheel) {
    forall s: nat, j: nat :: !TW.ActiveAt(w, s, j)
  }

  /** One active entry: the first of its slot, for child `c`. */
  ghost predicate OnlyTimer(w: TW.Wheel, s: nat, c: nat) {
    && TW.ActiveAt(w, s, 0) && w.slots[s][0].cid == c
    && forall t: nat, j: nat :: TW.ActiveAt(w, t, j) ==> t == s && j == 0
  }

  lemma InsertFirst(w: TW.Wheel, c: nat, at: nat, timeout: nat)
    requires Blank(w) && w.depth >= 1
    ensures OnlyTimer(TW.Insert(w, c, at, timeout), TW.SlotFor(w, at + timeout), c)
    ensures TW.Insert(w, c, at, timeout).slots[TW.SlotFor(w, at + timeout)][0].deadline == at + timeout
  {
    var w', s := TW.Insert(w, c, at, timeout), TW.SlotFor(w, at + timeout);
    assert !TW.ActiveAt(w, s, 0);
    forall t: nat, j: nat | TW.ActiveAt(w', t, j)
      ensures t == s && j == 0
    {
      assert !TW.ActiveAt(w, t, j);
    }
  }

  lemma InsertSecond(w: TW.Wheel, a: nat, b: nat, at: nat, timeout: nat)
    requires Blank(w) && w.depth >= 2
    ensures var w', s := TW.Insert(TW.Insert(w, a, at, timeout), b, at, timeout), TW.SlotFor(w, at + timeout);
            && TW.ActiveAt(w', s, 1) && w'.slots[s][1] == TW.Entry(b, at + timeout, true)
            && w'.now == w.now && w'.tick == w.tick && |w'.slots| == |w.slots|
  {
    var s, once := TW.SlotFor(w, at + timeout), TW.Insert(w, a, at, timeout);
    assert !TW.ActiveAt(w, s, 0) && !TW.ActiveAt(w, s, 1);
    assert once.slots[s][0].active && !once.slots[s][1].active;
    assert TW.FreeIndex(once.slots[s], 1) == 1;
  }

  /** The last timer is cleared, and the cancel that follows finds nothing more to clear. */
  lemma ClearLast(w: TW.Wheel, s: nat, c: nat)
    requires OnlyTimer(w, s, c)
    ensures var off := TW.Disarm(w, s, 0); Blank(off) && TW.Cancel(off, c) == off
  {
    var off := TW.Disarm(w, s, 0);
    forall t: nat, j: nat
      ensures !TW.ActiveAt(off, t, j)
    {
      assert TW.ActiveAt(off, t, j) ==> TW.ActiveAt(w, t, j);
    }
    var r := TW.MatchSlot(off, c, 0);
    if r < |off.slots| {
      assert TW.ActiveAt(off, r, TW.MatchIndex(off.slots[r], c, 0));
      assert false;
    }
  }

  // ----- Clock steps that fire nothing -----

  lemma {:induction false} QuietSlot(core: Core, cfg: Config, s: nat, i: nat, n: nat, views: nat -> View)
    requires forall j :: ViewOk(cfg, views(j))
    requires forall j: nat :: !TW.ActiveAt(core.wheel, s, j)
    ensures CheckSlot(core, cfg, s, i, n, views) == core
    decreases n - i
  {
    if i < n {
      QuietSlot(core, cfg, s, i + 1, n, views);
    }
  }

  /** The same core with its clock at `clock`. */
  function Clocked(core: Core, clock: nat): Core {
    core.(wheel := core.wheel.(now := clock))
  }

  /** One clock step on to `adv`, whose current slot is empty. */
  lemma QuietStep(core: Core, adv: Core, cfg: Config, views: nat -> View)
    requires (forall j :: ViewOk(cfg, views(j))) && adv == Clocked(core, core.wheel.now + core.wheel.tick)
    requires forall j: nat :: !TW.ActiveAt(adv.wheel, TW.Current(adv.wheel), j)
    ensures AdvanceWheel(core, cfg, views) == adv
  {
    QuietSlot(adv, cfg, TW.Current(adv.wheel), 0, adv.wheel.depth, views);
  }

  /** Until the wheel is `k` buckets on, it is not back at slot `s`. */
  lemma NotYet(w: TW.Wheel, c: nat, deadline: nat, k: nat, steps: nat)
    requires OnlyTimer(w, TW.SlotFor(w, deadline), c)
    requires TW.Bucket(w, deadline) == TW.Bucket(w, w.now) + k && 1 <= steps < k <= |w.slots|
    ensures var w': TW.Wheel := w.(now := ClockAt(w, steps)); forall j: nat :: !TW.ActiveAt(w', TW.Current(w'), j)
  {
    var w': TW.Wheel := w.(now := ClockAt(w, steps));
    BucketsOn(w, steps);
    if TW.Current(w') == TW.SlotFor(w, deadline) {
      SameSlot(TW.Bucket(w, ClockAt(w, steps)), TW.Bucket(w, deadline), |w.slots|);
    }
    forall j: nat
      ensures !TW.ActiveAt(w', TW.Current(w'), j)
    {
      assert TW.ActiveAt(w', TW.Current(w'), j) ==> TW.ActiveAt(w, TW.Current(w'), j);
    }
  }

  lemma {:induction false} QuietTicks(core: Core, cfg: Config, steps: nat, views: (nat, nat) -> View, c: nat, deadline: nat, k: nat)
    requires (forall a, b :: ViewOk(cfg, views(a, b))) && OnlyTimer(core.wheel, TW.SlotFor(core.wheel, deadline), c)
    requires TW.Bucket(core.wheel, deadline) == TW.Bucket(core.wheel, core.wheel.now) + k && steps < k <= |core.wheel.slots|
    ensures Tick(core, cfg, steps, views) == Clocked(core, ClockAt(core.wheel, steps))
  {
    if steps == 0 {
      ClockStep(core.wheel, 0);
    } else {
      QuietTicks(core, cfg, steps - 1, views, c, deadline, k);
      ClockStep(core.wheel, steps - 1);
      NotYet(core.wheel, c, deadline, k, steps);
      QuietStep(Clocked(core, ClockAt(core.wheel, steps - 1)), Clocked(core, ClockAt(core.wheel, steps)), cfg,
                (j: nat) => views(steps, j));
    }
  }

  lemma StillOnly(w: TW.Wheel, clock: nat, s: nat, c: nat)
    requires OnlyTimer(w, s, c)
    ensures OnlyTimer(w.(now := clock), s, c)
  {
    var w': TW.Wheel := w.(now := clock);
    forall t: nat, j: nat | TW.ActiveAt(w', t, j)
      ensures t == s && j == 0
    {
      assert TW.ActiveAt(w, t, j);
    }
  }

  // ----- The timeout that reroutes in two legs -----

  lemma TwoSent(core: Core, cfg: Config, p: nat, legs: seq<Leg>, now: nat)
    requires p < |core.pool.parents| && core.pool.parents[p].count == 0 && |core.pool.childFree| >= 2
    requires TwoTakers(legs)
    ensures exists a: nat, b: nat :: Dispatch(core, cfg, p, legs, now).wheel
              == TW.Insert(TW.Insert(core.wheel, a, now, cfg.childTimeout), b, now, cfg.childTimeout)
  {
    var once := SendChild(core, cfg, p, 0, legs[0], now);
    var twice := SendChild(once, cfg, p, 1, legs[1], now);
    assert SendFrom(twice, cfg, p, legs, 2, now) == (twice, 2);
    assert SendFrom(once, cfg, p, legs, 1, now) == (twice, 2);
    assert SendFrom(core, cfg, p, legs, 0, now) == (twice, 2);
    assert FinishDispatch(twice, p, legs, 2).wheel == twice.wheel;
  }

  /** A book, read at time `at`, on which an order for two lots of instrument 0 goes out in two legs. */
  ghost predicate SplitsInTwo(cfg: Config, view: View, at: nat) {
    && ViewOk(cfg, view) && view.now == at
    && forall par: Parent :: par.leaves == 2 && par.limit == 0 && par.instr == 0 ==>
         TwoTakers(LegsFor(cfg, view, par, 2, Taker))
  }

  predicate TwoTakers(legs: seq<Leg>) {
    |legs| == 2 && legs[0].kind == Taker && legs[1].kind == Taker
  }

  lemma PairSplits(cfg: Config, at: nat)
    requires cfg.tick > 0.0
    ensures SplitsInTwo(cfg, PairView(cfg, 0, at), at)
  {
    PairViewOk(cfg, 0, at);
    forall par: Parent | par.leaves == 2 && par.limit == 0 && par.instr == 0
      ensures TwoTakers(LegsFor(cfg, PairView(cfg, 0, at), par, 2, Taker))
    {
      PairLegs(cfg, par, at);
    }
  }

  /** A reroute of two lots on such a book arms two timers. */
  lemma TwoLegs(booked: Core, cfg: Config, pos: Position, ids: Ids, dir: Dir, view: View, at: nat)
    requires SplitsInTwo(cfg, view, at) && Finished(booked, pos, ids, dir, 2, false)
    requires |booked.pool.childFree| >= 1
    ensures exists a: nat, b: nat :: Reroute(booked, cfg, ids.p, view).wheel
              == TW.Insert(TW.Insert(booked.wheel, a, at, cfg.childTimeout), b, at, cfg.childTimeout)
  {
    var cleared := ClearChildren(booked, ids.p);
    ClearOne(booked, pos, ids, dir, 2, false);
    TwoSent(MarkPending(cleared, ids.p), cfg, ids.p, LegsFor(cfg, view, cleared.pool.parents[ids.p], 2, Taker), at);
  }

  /** What an expired entry leads to: the child is cancelled and its order rerouted. */
  lemma ExpiryReroutes(core: Core, off: Core, cfg: Config, pos: Position, ids: Ids, dir: Dir, s: nat, view: View)
    requires ViewOk(cfg, view) && Working(core, pos, ids, dir, 2, false) && OnlyTimer(core.wheel, s, ids.c)
    requires off == core.(wheel := TW.Disarm(core.wheel, s, 0))
    ensures CheckEntry(core, cfg, s, 0, view) == OnReport(off, cfg, Report(ids.c, Cancels), view)
    ensures Working(off, pos, ids, dir, 2, false) && off.pool == core.pool
  {
  }

  lemma CancelledWheel(off: Core, c: nat)
    ensures BookCancel(off, c, OrderState.Canceled).wheel == TW.Cancel(off.wheel, c)
  {
  }

  /** The wheel with the first entry of slot `s` cleared and two timers set at `at`. */
  function TwoTimers(w: TW.Wheel, s: nat, a: nat, b: nat, at: nat, timeout: nat): TW.Wheel
    requires s < |w.slots| && 0 < w.depth
  {
    TW.Insert(TW.Insert(TW.Disarm(w, s, 0), a, at, timeout), b, at, timeout)
  }

  /** The callback of an order's only timer, on a book that splits in two: two timers take its place. */
  lemma TimeoutRearms(core: Core, cfg: Config, pos: Position, ids: Ids, dir: Dir, s: nat, view: View, at: nat)
    returns (w: TW.Wheel, a: nat, b: nat)
    requires SplitsInTwo(cfg, view, at) && Working(core, pos, ids, dir, 2, false)
    requires |core.pool.childFree| >= 1 && OnlyTimer(core.wheel, s, ids.c)
    ensures w == CheckEntry(core, cfg, s, 0, view).wheel
    ensures w == TwoTimers(core.wheel, s, a, b, at, cfg.childTimeout)
  {
    var off := core.(wheel := TW.Disarm(core.wheel, s, 0));
    ExpiryReroutes(core, off, cfg, pos, ids, dir, s, view);
    ClearLast(core.wheel, s, ids.c);
    a, b := CancelledAgain(off, cfg, pos, ids, dir, view, at);
    w := TwoTimers(core.wheel, s, a, b, at, cfg.childTimeout);
  }

  /** Cancelling the child of an order without other timers arms two. */
  lemma CancelledAgain(off: Core, cfg: Config, pos: Position, ids: Ids, dir: Dir, view: View, at: nat) returns (a: nat, b: nat)
    requires SplitsInTwo(cfg, view, at) && Working(off, pos, ids, dir, 2, false)
    requires |off.pool.childFree| >= 1 && TW.Cancel(off.wheel, ids.c) == off.wheel
    ensures OnReport(off, cfg, Report(ids.c, Cancels), view).wheel
         == TW.Insert(TW.Insert(off.wheel, a, at, cfg.childTimeout), b, at, cfg.childTimeout)
  {
    CancelOne(off, pos, ids, dir, 2, false);
    CancelledWheel(off, ids.c);
    CancelReroutes(off, cfg, ids.c, ids.p, view);
    var booked := BookCancel(off, ids.c, OrderState.Canceled);
    TwoLegs(booked, cfg, Release(pos, dir, 2), ids, dir, view, at);
    a, b :| Reroute(booked, cfg, ids.p, view).wheel
      == TW.Insert(TW.Insert(off.wheel, a, at, cfg.childTimeout), b, at, cfg.childTimeout);
  }

  // ----- The run -----

  /** What the callbacks of the catching-up tick read. */
  function LateViews(view: View): (nat, nat) -> View {
    (a: nat, b: nat) => view
  }

  /** How many buckets ahead of the clock the timer in entry `i` of the current slot is due, if there is one. */
  function BucketsAhead(w: TW.Wheel, i: nat): Option<int> {
    if TW.ActiveAt(w, TW.Current(w), i)
    then Some(TW.Bucket(w, w.slots[TW.Current(w)][i].deadline) - TW.Bucket(w, w.now)) else None
  }

  /** The state in which clock step `k` of a tick starts to scan its slot. */
  ghost predicate Stepped(core: Core, cfg: Config, k: nat, views: (nat, nat) -> View, adv: Core)
    requires k >= 1 && forall a, b :: ViewOk(cfg, views(a, b))
  {
    var prev := Tick(core, cfg, k - 1, views);
    adv == Clocked(prev, prev.wheel.now + prev.wheel.tick)
  }

  /** A lap later is the same slot. */
  lemma LapOn(w: TW.Wheel, deadline: nat)
    ensures var late := deadline + |w.slots| * w.tick;
            TW.Bucket(w, late) == TW.Bucket(w, deadline) + |w.slots| && TW.SlotFor(w, late) == TW.SlotFor(w, deadline)
  {
    var b, n := TW.Bucket(w, deadline), |w.slots|;
    BucketsOn(w.(now := deadline), n);
    Distribute(n, b / n);
    ModUnique(b + n, n, b / n + 1, b % n);
  }

  /** A time a whole lap ahead of the wheel, and so of the slot it stands at. */
  predicate LapOut(w: TW.Wheel, late: nat) {
    TW.SlotFor(w, late) == TW.Current(w) && TW.Bucket(w, late) == TW.Bucket(w, w.now) + |w.slots|
  }

  /** On the wheel: two timers a lap later take the slot of the due one. */
  lemma SlotReused(w: TW.Wheel, c: nat, at: nat, timeout: nat)
    requires OnlyTimer(w, TW.Current(w), c) && w.depth >= 2 && LapOut(w, at + timeout)
    ensures forall a: nat, b: nat :: BucketsAhead(TwoTimers(w, TW.Current(w), a, b, at, timeout), 1) == Some(|w.slots|)
  {
    forall a: nat, b: nat
      ensures BucketsAhead(TwoTimers(w, TW.Current(w), a, b, at, timeout), 1) == Some(|w.slots|)
    {
      ClearLast(w, TW.Current(w), c);
      InsertSecond(TW.Disarm(w, TW.Current(w), 0), a, b, at, timeout);
    }
  }

  lemma EntryReused(adv: Core, cfg: Config, pos: Position, ids: Ids, dir: Dir, view: View, at: nat) returns (w: TW.Wheel)
    requires SplitsInTwo(cfg, view, at) && Working(adv, pos, ids, dir, 2, false)
    requires |adv.pool.childFree| >= 1 && PoisedAt(adv.wheel, ids.c, at + cfg.childTimeout)
    ensures w == CheckEntry(adv, cfg, TW.Current(adv.wheel), 0, view).wheel
    ensures BucketsAhead(w, 1) == Some(|adv.wheel.slots|)
  {
    SlotReused(adv.wheel, ids.c, at, cfg.childTimeout);
    var a, b;
    w, a, b := TimeoutRearms(adv, cfg, pos, ids, dir, TW.Current(adv.wheel), view, at);
  }

  /** One order with one timer out, due in `k` buckets; `late` is a lap after that. */
  ghost predicate Poised(w: TW.Wheel, c: nat, deadline: nat, k: nat, late: nat) {
    && w.depth >= 2 && 1 <= k <= |w.slots| && OnlyTimer(w, TW.SlotFor(w, deadline), c)
    && TW.Bucket(w, deadline) == TW.Bucket(w, w.now) + k
    && PoisedAt(w.(now := ClockAt(w, k)), c, late)
  }

  /** The clock has reached the deadline's bucket. */
  ghost predicate PoisedAt(w: TW.Wheel, c: nat, late: nat) {
    w.depth >= 2 && OnlyTimer(w, TW.Current(w), c) && LapOut(w, late)
  }

  /** A timer set on a blank wheel at its own clock, and the wheel on its way to it. */
  lemma Poises(w: TW.Wheel, w': TW.Wheel, c: nat, timeout: nat, k: nat)
    requires Blank(w) && w.depth >= 2 && w' == TW.Insert(w, c, w.now, timeout)
    requires TW.Bucket(w, w.now + timeout) == TW.Bucket(w, w.now) + k && 1 <= k <= |w.slots|
    ensures Poised(w', c, w.now + timeout, k, ClockAt(w, |w.slots|) + timeout)
  {
    var deadline := w.now + timeout;
    InsertFirst(w, c, w.now, timeout);
    BucketsOn(w', k);
    LapOn(w', deadline);
    StillOnly(w', ClockAt(w', k), TW.SlotFor(w', deadline), c);
  }

  lemma Reaches(core: Core, adv: Core, cfg: Config, ids: Ids, deadline: nat, k: nat, view: View, late: nat)
    requires ViewOk(cfg, view) && Poised(core.wheel, ids.c, deadline, k, late) && adv == Clocked(core, ClockAt(core.wheel, k))
    ensures Stepped(core, cfg, k, LateViews(view), adv)
  {
    ClockStep(core.wheel, k - 1);
    QuietTicks(core, cfg, k - 1, LateViews(view), ids.c, deadline, k);
  }

  /** From the order on: the scan that finds the due timer arms one a lap ahead. */
  lemma CatchUp(core: Core, cfg: Config, pos: Position, ids: Ids, dir: Dir, deadline: nat, k: nat, view: View, at: nat)
    returns (adv: Core, fired: TW.Wheel)
    requires SplitsInTwo(cfg, view, at) && Working(core, pos, ids, dir, 2, false) && |core.pool.childFree| >= 1
    requires Poised(core.wheel, ids.c, deadline, k, at + cfg.childTimeout)
    ensures Stepped(core, cfg, k, LateViews(view), adv)
    ensures fired == CheckEntry(adv, cfg, TW.Current(adv.wheel), 0, view).wheel
    ensures BucketsAhead(fired, 1) == Some(|core.wheel.slots|)
  {
    adv := Clocked(core, ClockAt(core.wheel, k));
    fired := EntryReused(adv, cfg, pos, ids, dir, view, at);
    Reaches(core, adv, cfg, ids, deadline, k, view, at + cfg.childTimeout);
  }

  lemma StartsBlank(start: Core)
    requires Initial(start)
    ensures Blank(start.wheel)
    ensures |start.pool.children| >= 2 ==> |start.pool.childFree| >= 2
  {
    forall s: nat, j: nat
      ensures !TW.ActiveAt(start.wheel, s, j)
    {
      if TW.ActiveAt(start.wheel, s, j) {
        TW.ArmedAt(start.wheel, s, j);
      }
    }
    if |start.pool.children| >= 2 {
      assert 0 in start.pool.childFree && 1 in start.pool.childFree;
    }
  }

  function FirstOrder(cfg: Config, now: nat): Event {
    OrderEvent(SignalFor(Buy, 2, false), true, true, DeepView(cfg, 0, 1, 2, now))
  }

  /** The order is sent at the wheel's own clock. */
  lemma OrderSent(start: Core, cfg: Config, ids: Ids) returns (core: Core)
    requires Initial(start) && Idle(start, FLAT, ids) && |start.pool.childFree| >= 2 && cfg.tick > 0.0
    ensures Reached(start, cfg, [FirstOrder(cfg, start.wheel.now)], core)
    ensures Working(core, Reserve(FLAT, Buy, 2), ids, Buy, 2, false) && |core.pool.childFree| >= 1
    ensures core.wheel == TW.Insert(start.wheel, ids.c, start.wheel.now, cfg.childTimeout)
  {
    var e := FirstOrder(cfg, start.wheel.now);
    DeepViewOk(cfg, 0, 1, 2, start.wheel.now);
    Submit(start, cfg, FLAT, ids, Buy, 2, false, 1, 2, start.wheel.now);
    core := Step(start, cfg, e);
    assert [e][1..] == [];
  }

  /** The clock step in whose bucket the order's timer is due. */
  lemma DueStep(start: Core, cfg: Config) returns (ids: Ids, k: nat)
    requires Initial(start) && |start.pool.parents| >= 1 && |start.pool.children| >= 2 && |start.pos| >= 1
    requires start.wheel.depth >= 2 && start.wheel.tick <= cfg.childTimeout <= |start.wheel.slots| * start.wheel.tick
    ensures Idle(start, FLAT, ids) && |start.pool.childFree| >= 2 && 1 <= k <= |start.wheel.slots|
    ensures Poised(TW.Insert(start.wheel, ids.c, start.wheel.now, cfg.childTimeout), ids.c,
                   start.wheel.now + cfg.childTimeout, k, ClockAt(start.wheel, |start.wheel.slots|) + cfg.childTimeout)
  {
    var w, deadline := start.wheel, start.wheel.now + cfg.childTimeout;
    ids := StartsIdle(start);
    StartsBlank(start);
    TimeoutInFront(w, deadline, |w.slots|);
    k := TW.Bucket(w, deadline) - TW.Bucket(w, w.now);
    Poises(w, TW.Insert(w, ids.c, w.now, cfg.childTimeout), ids.c, cfg.childTimeout, k);
  }

  lemma LateRun(start: Core, cfg: Config, ids: Ids, deadline: nat, k: nat, view: View, at: nat)
    returns (core: Core, adv: Core, fired: TW.Wheel)
    requires Initial(start) && Idle(start, FLAT, ids) && |start.pool.childFree| >= 2 && cfg.tick > 0.0
    requires SplitsInTwo(cfg, view, at)
    requires Poised(TW.Insert(start.wheel, ids.c, start.wheel.now, cfg.childTimeout), ids.c, deadline, k, at + cfg.childTimeout)
    ensures Reached(start, cfg, [FirstOrder(cfg, start.wheel.now)], core)
    ensures core.wheel.now == start.wheel.now && |core.wheel.slots| == |start.wheel.slots|
    ensures Stepped(core, cfg, k, LateViews(view), adv)
    ensures fired == CheckEntry(adv, cfg, TW.Current(adv.wheel), 0, view).wheel
    ensures BucketsAhead(fired, 1) == Some(|core.wheel.slots|)
  {
    core := OrderSent(start, cfg, ids);
    adv, fired := CatchUp(core, cfg, Reserve(FLAT, Buy, 2), ids, Buy, deadline, k, view, at);
  }

  /**
   A timer fires a lap early, whatever the capacities. One order sent on time, a stall of
   one lap of the ring, and one tick call: at some clock step `k` of it, once the first
   entry of the slot has been dealt with, the scan finds in the entry it checks next a
   child just sent whose deadline is a whole lap of the ring ahead, and fires it.
   */
  lemma FiresLapEarly(start: Core, cfg: Config)
    returns (events: seq<Event>, core: Core, views: (nat, nat) -> View, k: nat, adv: Core, fired: TW.Wheel)
    requires Initial(start) && |start.pool.parents| >= 1 && |start.pool.children| >= 2 && |start.pos| >= 1
    requires cfg.tick > 0.0 && start.wheel.depth >= 2
    requires start.wheel.tick <= cfg.childTimeout <= |start.wheel.slots| * start.wheel.tick
    ensures Reached(start, cfg, events, core) && core.wheel.now == start.wheel.now && |core.wheel.slots| == |start.wheel.slots|
    ensures forall a, b :: ViewOk(cfg, views(a, b)) && views(a, b).now == ClockAt(start.wheel, |start.wheel.slots|)
    ensures 1 <= k <= |core.wheel.slots| && Stepped(core, cfg, k, views, adv)
    ensures fired == CheckEntry(adv, cfg, TW.Current(adv.wheel), 0, views(k, 0)).wheel
    ensures BucketsAhead(fired, 1) == Some(|core.wheel.slots|)
  {
    var at := ClockAt(start.wheel, |start.wheel.slots|);
    var ids;
    ids, k := DueStep(start, cfg);
    PairSplits(cfg, at);
    views := LateViews(PairView(cfg, 0, at));
    events := [FirstOrder(cfg, start.wheel.now)];
    core, adv, fired := LateRun(start, cfg, ids, start.wheel.now + cfg.childTimeout, k, PairView(cfg, 0, at), at);
  }
}
