/**
 When reduce-only holds. One clamp call, at admission or on a reroute, keeps what a side
 has at venues inside the position on every book exactly when the open-lots counter
 covers the side's live lots or the order would fit uncut; and over every run in which
 each clamp call meets that condition the position only shrinks and never changes sign.
 */
module ReduceOnlySafety {
  import opened Types
  import opened Router
  import opened OrderPool
  import opened Positions
  import opened Lifecycle
  import opened LifecycleInvariant
  import opened LifecycleSteps
  import opened LifecycleHistory
  import opened LiveExposure
  import opened LedgerReplay
  import opened ReduceOnly
  import opened DeepBook
  import TW = TimerWheel

  /** What a side has at venues can be filled without the position changing sign. */
  predicate SideFits(core: Core, i: nat, d: Dir) {
    Exposure(core, i, d) <= Abs(PosAt(core, i).net)
  }

  /** The counter the clamp reads covers the side's live lots, or the order would fit uncut. */
  predicate ClampFits(core: Core, i: nat, d: Dir, lots: int) {
    || Exposure(core, i, d) <= Open(PosAt(core, i), d)
    || Exposure(core, i, d) + lots <= Abs(PosAt(core, i).net)
  }

  /** Up to and including the first reroute on a side, every clamp call on it fits. */
  lemma FirstRerouteFits(core: Core, i: nat, d: Dir, lots: int)
    requires Good(core) && i < |core.pos|
    requires forall s: nat :: s < |core.orders| && core.orders[s].instr == i && core.orders[s].dir == d ==>
               !core.orders[s].rerouted
    ensures ClampFits(core, i, d, lots)
  {
    CounterCoversExposure(core, i, d);
  }

  // ----- One leg, sent whole -----

  lemma SentWhole(core: Core, cfg: Config, p: nat, legs: seq<Leg>, now: nat)
    requires Sending(core, p, legs, 0) && |legs| == 1 && core.pool.childFree != []
    ensures var pool' := Dispatch(core, cfg, p, legs, now).pool;
            && Held(pool', p) && Load(pool', p) == Load(core.pool, p) + legs[0].lots
            && ParentAt(pool', p).serial == ParentAt(core.pool, p).serial
  {
    var sent := SendChild(core, cfg, p, 0, legs[0], now);
    SendPool(core, cfg, p, legs, 0, now);
    assert SendFrom(sent, cfg, p, legs, 1, now) == (sent, 1);
    assert SendFrom(core, cfg, p, legs, 0, now) == (sent, 1);
  }

  /** The order a parent holds has at venues what the parent's children carry. */
  lemma HeldLots(core: Core, p: nat)
    requires AccountsOk(core) && Held(core.pool, p)
    ensures var par := ParentAt(core.pool, p);
            LiveLots(core, par.serial, par.instr, par.dir) == Load(core.pool, p)
  {
    HolderAccount(core, p);
  }

  // ----- Admission -----

  /** Every book: a clamp that fits keeps the side inside the position. */
  lemma AdmissionFits(core: Core, cfg: Config, sig: Signal, view: View)
    requires Inv(core) && ViewOk(cfg, view) && Constrained(core, sig) && sig.lots >= 0
    requires Reduces(core.pos[sig.instr].net, sig.dir) && SideFits(core, sig.instr, sig.dir)
    requires ClampFits(core, sig.instr, sig.dir, sig.lots)
    ensures SideFits(OnSignal(core, cfg, sig, true, true, view), sig.instr, sig.dir)
  {
    SignalExposure(core, cfg, sig, true, true, view, sig.instr, sig.dir);
    SignalSame(core, cfg, sig, true, true, view);
    ExposureNonNegative(core, sig.instr, sig.dir, |core.orders|);
    ClampSafeIff(core.pos[sig.instr], sig.dir, sig.lots, Exposure(core, sig.instr, sig.dir));
  }

  /** A deep book for the order a signal becomes. */
  function BookFor(core: Core, cfg: Config, sig: Signal): View
    requires cfg.tick > 0.0
  {
    DeepView(cfg, sig.instr, FairPrice(sig.dir, LimitFor(cfg, sig)), EffectiveLots(core, sig), 0)
  }

  /** On it all of the clamped size goes out. */
  lemma AdmittedWhole(core: Core, cfg: Config, sig: Signal)
    requires Inv(core) && cfg.tick > 0.0 && sig.instr < |core.pos| && sig.lots >= 0 && EffectiveLots(core, sig) > 0
    requires core.pool.parentFree != [] && core.pool.childFree != []
    ensures ViewOk(cfg, BookFor(core, cfg, sig))
    ensures Exposure(OnSignal(core, cfg, sig, true, true, BookFor(core, cfg, sig)), sig.instr, sig.dir)
         == Exposure(core, sig.instr, sig.dir) + EffectiveLots(core, sig)
  {
    var p, view := Top(core.pool.parentFree), BookFor(core, cfg, sig);
    var par := NewParent(core, cfg, sig, p);
    DeepLegs(cfg, par, sig.kind, par.leaves, 0);
    var legs := LegsFor(cfg, view, par, par.leaves, sig.kind);
    RoutesFit(cfg, view, par, sig.kind);
    var core' := Dispatch(Admit(core, par), cfg, p, legs, 0);
    AdmittedLoad(core, cfg, par, legs, |view.venues|, 0);
    SignalExposure(core, cfg, sig, true, true, view, sig.instr, sig.dir);
    HeldLots(core', p);
    HolderAccount(core', p);
  }

  lemma AdmittedLoad(core: Core, cfg: Config, par: Parent, legs: seq<Leg>, venues: nat, now: nat)
    requires Inv(core) && core.pool.parentFree != [] && core.pool.childFree != [] && par.id == Top(core.pool.parentFree)
    requires par.count == 0 && par.mask == NO_MASK && par.cum == 0 && par.total == par.leaves && par.leaves > 0
    requires par.instr < |core.pos| && par.serial == |core.orders| && par.avg == 0.0
    requires SplitOk(legs, par.dir, par.leaves, par.limit, venues) && |legs| == 1
    ensures var pool' := Dispatch(Admit(core, par), cfg, par.id, legs, now).pool;
            Held(pool', par.id) && Load(pool', par.id) == legs[0].lots && ParentAt(pool', par.id).serial == par.serial
  {
    AdmitKeeps(core, par);
    ReadyToSend(Admit(core, par), par.id, legs, venues);
    SentWhole(Admit(core, par), cfg, par.id, legs, now);
  }

  /**
   Admission, one size: with a parent and a child to hand out, a reduce-only or
   unwind-forced order keeps its side inside the position on every book if and only if
   the counter covers the side's live lots or the order would fit uncut.
   */
  lemma AdmissionSafeIff(core: Core, cfg: Config, sig: Signal)
    requires Inv(core) && cfg.tick > 0.0 && Constrained(core, sig) && sig.lots >= 0
    requires Reduces(core.pos[sig.instr].net, sig.dir) && SideFits(core, sig.instr, sig.dir)
    requires core.pool.parentFree != [] && core.pool.childFree != []
    ensures (forall view | ViewOk(cfg, view) ::
               SideFits(OnSignal(core, cfg, sig, true, true, view), sig.instr, sig.dir))
       <==> ClampFits(core, sig.instr, sig.dir, sig.lots)
  {
    var i, d := sig.instr, sig.dir;
    if ClampFits(core, i, d, sig.lots) {
      forall view | ViewOk(cfg, view)
        ensures SideFits(OnSignal(core, cfg, sig, true, true, view), i, d)
      {
        AdmissionFits(core, cfg, sig, view);
      }
    } else {
      AdmissionOverruns(core, cfg, sig);
    }
  }

  lemma AdmissionOverruns(core: Core, cfg: Config, sig: Signal)
    requires Inv(core) && cfg.tick > 0.0 && Constrained(core, sig) && sig.lots >= 0
    requires Reduces(core.pos[sig.instr].net, sig.dir) && SideFits(core, sig.instr, sig.dir)
    requires core.pool.parentFree != [] && core.pool.childFree != []
    requires !ClampFits(core, sig.instr, sig.dir, sig.lots)
    ensures ViewOk(cfg, BookFor(core, cfg, sig))
    ensures !SideFits(OnSignal(core, cfg, sig, true, true, BookFor(core, cfg, sig)), sig.instr, sig.dir)
  {
    var i, d := sig.instr, sig.dir;
    ExposureNonNegative(core, i, d, |core.orders|);
    ClampSafeIff(core.pos[i], d, sig.lots, Exposure(core, i, d));
    AdmittedWhole(core, cfg, sig);
    SignalSame(core, cfg, sig, true, true, BookFor(core, cfg, sig));
  }

  /** A reduce-only signal on this side of this instrument. */
  predicate Closes(sig: Signal, i: nat, d: Dir) {
    sig.instr == i && sig.dir == d && sig.reduceOnly && sig.lots >= 0
  }

  /** Admission, every size: safe if and only if the counter covers the side's live lots. */
  lemma AdmissionsSafeIffCovered(core: Core, cfg: Config, i: nat, d: Dir)
    requires Inv(core) && cfg.tick > 0.0 && i < |core.pos|
    requires Reduces(core.pos[i].net, d) && SideFits(core, i, d)
    requires core.pool.parentFree != [] && core.pool.childFree != []
    ensures (forall sig, view | Closes(sig, i, d) && ViewOk(cfg, view) ::
               SideFits(OnSignal(core, cfg, sig, true, true, view), i, d))
       <==> Exposure(core, i, d) <= Open(core.pos[i], d)
  {
    if Exposure(core, i, d) <= Open(core.pos[i], d) {
      forall sig, view | Closes(sig, i, d) && ViewOk(cfg, view)
        ensures SideFits(OnSignal(core, cfg, sig, true, true, view), i, d)
      {
        AdmissionFits(core, cfg, sig, view);
      }
    } else {
      var sig := Signal(i, d, Abs(core.pos[i].net) - Exposure(core, i, d) + 1, 0.0, Taker, true, 0);
      AdmissionOverruns(core, cfg, sig);
      assert Closes(sig, i, d);
    }
  }

  // ----- Reroute -----

  lemma RerouteFitsSide(core: Core, cfg: Config, p: nat, view: View)
    requires ViewOk(cfg, view) && Mid(core, p) && Load(core.pool, p) == 0
    requires ParentAt(core.pool, p).leaves > 0 && ParentAt(core.pool, p).reduceOnly
    requires var par := ParentAt(core.pool, p);
             && Reduces(PosAt(core, par.instr).net, par.dir) && SideFits(core, par.instr, par.dir)
             && ClampFits(core, par.instr, par.dir, par.leaves)
    ensures var par := ParentAt(core.pool, p); SideFits(Reroute(core, cfg, p, view), par.instr, par.dir)
  {
    var par := ParentAt(core.pool, p);
    HolderAccount(core, p);
    RerouteAddsUnreserved(core, cfg, p, view, par.instr, par.dir);
    RerouteSame(core, cfg, p, view);
    ExposureNonNegative(core, par.instr, par.dir, |core.orders|);
    ClampSafeIff(core.pos[par.instr], par.dir, par.leaves, Exposure(core, par.instr, par.dir));
  }

  function BookAgain(core: Core, cfg: Config, p: nat): View {
    var par := ParentAt(core.pool, p);
    DeepView(cfg, par.instr, FairPrice(par.dir, par.limit), Allowed(core, p), 0)
  }

  /** On a deep book a rerouted order goes out for all it is allowed. */
  lemma ReroutedWhole(core: Core, cfg: Config, p: nat)
    requires cfg.tick > 0.0 && Mid(core, p) && Load(core.pool, p) == 0
    requires ParentAt(core.pool, p).leaves > 0 && Allowed(core, p) > 0
    requires core.pool.childFree + Kids(ParentAt(core.pool, p)) != []
    ensures ViewOk(cfg, BookAgain(core, cfg, p))
    ensures var par := ParentAt(core.pool, p);
            Exposure(Reroute(core, cfg, p, BookAgain(core, cfg, p)), par.instr, par.dir)
              == Exposure(core, par.instr, par.dir) + Allowed(core, p)
  {
    var cut := Shrink(ClearChildren(core, p), p);
    var par, view := ParentAt(core.pool, p), BookAgain(core, cfg, p);
    CutDown(core, p);
    DeepLegs(cfg, ParentAt(cut.pool, p), Taker, Allowed(core, p), 0);
    SweptWhole(cut, cfg, p, view);
    var core' := Reroute(core, cfg, p, view);
    assert core' == Sweep(cut, cfg, p, view);
    RerouteAddsUnreserved(core, cfg, p, view, par.instr, par.dir);
    RerouteEvolves(core, cfg, p, view);
    HolderAccount(core, p);
    HolderAccount(core', p);
    assert Evolves(core.orders[par.serial], core'.orders[par.serial]);
    HeldLots(core', p);
  }

  lemma SweptWhole(cut: Core, cfg: Config, p: nat, view: View)
    requires ViewOk(cfg, view) && ReadyToSweep(cut, p) && cut.pool.childFree != []
    requires var par := ParentAt(cut.pool, p);
             var legs := LegsFor(cfg, view, par, par.leaves, Taker);
             par.leaves > 0 && |legs| == 1 && legs[0].lots == par.leaves
    ensures var pool' := Sweep(cut, cfg, p, view).pool;
            && Held(pool', p) && Load(pool', p) == ParentAt(cut.pool, p).leaves
            && ParentAt(pool', p).serial == ParentAt(cut.pool, p).serial
  {
    var par, marked := ParentAt(cut.pool, p), MarkPending(cut, p);
    var legs := LegsFor(cfg, view, par, par.leaves, Taker);
    RoutesFit(cfg, view, par, Taker);
    MarkKeeps(cut, p);
    ReadyToSend(marked, p, legs, |view.venues|);
    SentWhole(marked, cfg, p, legs, view.now);
  }

  /**
   The re-clamp: a reduce-only order about to be rerouted, with a child id to hand out,
   keeps its side inside the position on every book if and only if the counter covers the
   side's live lots or all its leaves would fit.
   */
  lemma RerouteSafeIff(core: Core, cfg: Config, p: nat)
    requires cfg.tick > 0.0 && Mid(core, p) && Load(core.pool, p) == 0
    requires ParentAt(core.pool, p).leaves > 0 && ParentAt(core.pool, p).reduceOnly
    requires core.pool.childFree + Kids(ParentAt(core.pool, p)) != []
    requires var par := ParentAt(core.pool, p);
             Reduces(PosAt(core, par.instr).net, par.dir) && SideFits(core, par.instr, par.dir)
    ensures var par := ParentAt(core.pool, p);
            (forall view | ViewOk(cfg, view) :: SideFits(Reroute(core, cfg, p, view), par.instr, par.dir))
              <==> ClampFits(core, par.instr, par.dir, par.leaves)
  {
    var par := ParentAt(core.pool, p);
    if ClampFits(core, par.instr, par.dir, par.leaves) {
      forall view | ViewOk(cfg, view)
        ensures SideFits(Reroute(core, cfg, p, view), par.instr, par.dir)
      {
        RerouteFitsSide(core, cfg, p, view);
      }
    } else {
      RerouteOverruns(core, cfg, p);
    }
  }

  lemma RerouteOverruns(core: Core, cfg: Config, p: nat)
    requires cfg.tick > 0.0 && Mid(core, p) && Load(core.pool, p) == 0
    requires ParentAt(core.pool, p).leaves > 0 && ParentAt(core.pool, p).reduceOnly
    requires core.pool.childFree + Kids(ParentAt(core.pool, p)) != []
    requires var par := ParentAt(core.pool, p);
             && Reduces(PosAt(core, par.instr).net, par.dir) && SideFits(core, par.instr, par.dir)
             && !ClampFits(core, par.instr, par.dir, par.leaves)
    ensures ViewOk(cfg, BookAgain(core, cfg, p))
    ensures var par := ParentAt(core.pool, p);
            !SideFits(Reroute(core, cfg, p, BookAgain(core, cfg, p)), par.instr, par.dir)
  {
    var par := ParentAt(core.pool, p);
    HolderAccount(core, p);
    ExposureNonNegative(core, par.instr, par.dir, |core.orders|);
    ClampSafeIff(core.pos[par.instr], par.dir, par.leaves, Exposure(core, par.instr, par.dir));
    ReroutedWhole(core, cfg, p);
    RerouteSame(core, cfg, p, BookAgain(core, cfg, p));
  }

  // ----- Runs whose every clamp call fits -----

  /** The reroute a report may end in. */
  ghost predicate RerouteFits(booked: Core, p: nat, i: nat, d: Dir) {
    var par := ParentAt(booked.pool, p);
    par.instr == i && par.leaves > 0 && AllTerminal(booked.pool, par) ==> ClampFits(booked, i, d, par.leaves)
  }

  ghost predicate ReportFits(core: Core, cfg: Config, rep: Report, i: nat, d: Dir) {
    rep.cid < |core.pool.children| ==>
      var p := ChildAt(core.pool, rep.cid).parentId;
      match rep.exec
      case Fills(lots, ticks) => lots >= 0 ==> RerouteFits(BookFill(core, rep.cid, lots, FillPrice(cfg, ticks)), p, i, d)
      case Cancels => RerouteFits(BookCancel(core, rep.cid, OrderState.Canceled), p, i, d)
      case Rejects => RerouteFits(BookCancel(core, rep.cid, OrderState.Rejected), p, i, d)
      case Ack => true
      case Replaces => true
  }

  ghost predicate EntryFits(core: Core, cfg: Config, s: nat, j: nat, i: nat, d: Dir) {
    TW.ActiveAt(core.wheel, s, j) ==>
      ReportFits(core.(wheel := TW.Disarm(core.wheel, s, j)), cfg, Report(core.wheel.slots[s][j].cid, Cancels), i, d)
  }

  ghost predicate SlotFits(core: Core, cfg: Config, s: nat, j: nat, depth: nat, views: nat -> View, i: nat, d: Dir)
    requires forall k :: ViewOk(cfg, views(k))
    decreases depth - j
  {
    j < depth ==>
      EntryFits(core, cfg, s, j, i, d) && SlotFits(CheckEntry(core, cfg, s, j, views(j)), cfg, s, j + 1, depth, views, i, d)
  }

  ghost predicate AdvanceFits(core: Core, cfg: Config, views: nat -> View, i: nat, d: Dir)
    requires forall k :: ViewOk(cfg, views(k))
  {
    var w: TW.Wheel := core.wheel.(now := core.wheel.now + core.wheel.tick);
    SlotFits(core.(wheel := w), cfg, TW.Current(w), 0, w.depth, views, i, d)
  }

  ghost predicate TickFits(core: Core, cfg: Config, steps: nat, views: (nat, nat) -> View, i: nat, d: Dir)
    requires forall k, j :: ViewOk(cfg, views(k, j))
  {
    steps > 0 ==>
      && TickFits(core, cfg, steps - 1, views, i, d)
      && AdvanceFits(Tick(core, cfg, steps - 1, views), cfg, (j: nat) => views(steps, j), i, d)
  }

  /** Each clamp call of the event on instrument `i` is made with enough on the counter. */
  ghost predicate EventFits(core: Core, cfg: Config, e: Event, i: nat, d: Dir)
    requires EventOk(core, cfg, e)
  {
    match e
    case OrderEvent(sig, gateOk, _, _) =>
      gateOk && core.pool.parentFree != [] && sig.instr == i && sig.dir == d ==> ClampFits(core, i, d, sig.lots)
    case ReportEvent(rep, _) => ReportFits(core, cfg, rep, i, d)
    case TickEvent(steps, views) => TickFits(core, cfg, steps, views, i, d)
    case UnwindEvent(_, _) => true
  }

  ghost predicate FittingRun(core: Core, cfg: Config, events: seq<Event>, i: nat, d: Dir)
    decreases |events|
  {
    events == [] || !EventOk(core, cfg, events[0]) ||
    (EventFits(core, cfg, events[0], i, d) && FittingRun(Step(core, cfg, events[0]), cfg, events[1..], i, d))
  }

  /** Every order open on the instrument is reduce-only and on the closing side. */
  ghost predicate OnlyReducing(core: Core, i: nat, d: Dir) {
    forall s: nat :: s < |core.orders| && core.orders[s].instr == i && core.orders[s].holder.Some? ==>
      core.orders[s].dir == d && core.orders[s].reduceOnly
  }

  /** The invariant: what the closing side has at venues fits inside the position. */
  ghost predicate Bounded(core: Core, i: nat, d: Dir) {
    i < |core.pos| && OnlyReducing(core, i, d) && Exposure(core, i, d) <= Closable(core.pos[i], d)
  }

  /** Still bounded, and the position has not grown. */
  ghost predicate Shrinks(core: Core, core': Core, i: nat, d: Dir) {
    Bounded(core, i, d) && Bounded(core', i, d) && Closable(core'.pos[i], d) <= Closable(core.pos[i], d)
  }

  lemma EvolutionReduces(core: Core, core': Core, i: nat, d: Dir)
    requires OnlyReducing(core, i, d) && Evolved(core, core')
    ensures OnlyReducing(core', i, d)
  {
    forall s: nat | s < |core'.orders| && core'.orders[s].instr == i && core'.orders[s].holder.Some?
      ensures core'.orders[s].dir == d && core'.orders[s].reduceOnly
    {
      assert Evolves(core.orders[s], core'.orders[s]);
    }
  }

  /** The parent being worked on, if on this instrument, is reduce-only and on the closing side. */
  lemma ParentReduces(core: Core, p: nat, i: nat, d: Dir)
    requires AccountsOk(core) && Held(core.pool, p) && OnlyReducing(core, i, d)
    ensures ParentAt(core.pool, p).instr == i ==> ParentAt(core.pool, p).dir == d && ParentAt(core.pool, p).reduceOnly
  {
    HolderAccount(core, p);
  }

  lemma RerouteBounded(booked: Core, cfg: Config, p: nat, view: View, i: nat, d: Dir)
    requires ViewOk(cfg, view) && Mid(booked, p) && Load(booked.pool, p) == 0 && ParentAt(booked.pool, p).leaves > 0
    requires Bounded(booked, i, d) && RerouteFits(booked, p, i, d)
    ensures Shrinks(booked, Reroute(booked, cfg, p, view), i, d)
  {
    var par := ParentAt(booked.pool, p);
    RerouteAddsUnreserved(booked, cfg, p, view, i, d);
    RerouteEvolves(booked, cfg, p, view);
    EvolutionReduces(booked, Reroute(booked, cfg, p, view), i, d);
    RerouteSame(booked, cfg, p, view);
    ExposureNonNegative(booked, i, d, |booked.orders|);
    LoadZeroIffAllTerminal(booked.pool, p);
    ParentReduces(booked, p, i, d);
    if par.instr == i && Reduces(booked.pos[i].net, d) {
      ClampSafeIff(booked.pos[i], d, par.leaves, Exposure(booked, i, d));
    }
  }

  lemma SettleBounded(booked: Core, cfg: Config, p: nat, view: View, i: nat, d: Dir)
    requires ViewOk(cfg, view) && Mid(booked, p) && Bounded(booked, i, d) && RerouteFits(booked, p, i, d)
    ensures var par := ParentAt(booked.pool, p);
            && par.leaves >= 0
            && (par.leaves == 0 ==> Shrinks(booked, CloseFilled(booked, p), i, d))
            && (par.leaves > 0 && AllTerminal(booked.pool, par) ==> Shrinks(booked, Reroute(booked, cfg, p, view), i, d))
  {
    var par := ParentAt(booked.pool, p);
    KidsNonNegative(booked.pool, p);
    assert ParentOk(booked.pool, p);
    LoadZeroIffAllTerminal(booked.pool, p);
    if par.leaves == 0 {
      CloseExposure(booked, p, i, d);
      EvolutionReduces(booked, CloseFilled(booked, p), i, d);
    } else if AllTerminal(booked.pool, par) {
      RerouteBounded(booked, cfg, p, view, i, d);
    }
  }

  /** A fill lowers the exposure and the position alike. */
  lemma FillBooked(core: Core, c: nat, lots: nat, price: real, i: nat, d: Dir)
    requires Inv(core) && Used(core.pool, c) && Live(ChildAt(core.pool, c))
    requires 1 <= lots <= ChildAt(core.pool, c).leaves && Bounded(core, i, d)
    ensures var booked := BookFill(core, c, lots, price);
            Mid(booked, ChildAt(core.pool, c).parentId) && Shrinks(core, booked, i, d)
  {
    assert Held(core.pool, ChildAt(core.pool, c).parentId);
    ParentReduces(core, ChildAt(core.pool, c).parentId, i, d);
    FillExposure(core, c, lots, price, i, d);
    var hit := ParentAt(core.pool, ChildAt(core.pool, c).parentId).instr == i;
    LowersBoth(core, BookFill(core, c, lots, price), if hit then lots else 0, i, d);
  }

  lemma LowersBoth(core: Core, core': Core, lots: nat, i: nat, d: Dir)
    requires Bounded(core, i, d) && Evolved(core, core') && Exposure(core', i, d) == Exposure(core, i, d) - lots
    requires core'.pos[i].net == core.pos[i].net + Sign(d) * lots
    ensures Shrinks(core, core', i, d)
  {
    EvolutionReduces(core, core', i, d);
  }

  lemma FillBounded(core: Core, cfg: Config, c: nat, lots: nat, price: real, view: View, i: nat, d: Dir)
    requires Inv(core) && ViewOk(cfg, view) && Used(core.pool, c) && Live(ChildAt(core.pool, c))
    requires 1 <= lots <= ChildAt(core.pool, c).leaves && Bounded(core, i, d)
    requires RerouteFits(BookFill(core, c, lots, price), ChildAt(core.pool, c).parentId, i, d)
    ensures Shrinks(core, HandleFill(core, cfg, c, lots, price, view), i, d)
  {
    FillBooked(core, c, lots, price, i, d);
    SettleBounded(BookFill(core, c, lots, price), cfg, ChildAt(core.pool, c).parentId, view, i, d);
  }

  lemma CancelBounded(core: Core, cfg: Config, c: nat, state: OrderState, view: View, i: nat, d: Dir)
    requires Inv(core) && ViewOk(cfg, view) && Used(core.pool, c) && Live(ChildAt(core.pool, c))
    requires state == OrderState.Canceled || state == OrderState.Rejected
    requires Bounded(core, i, d) && RerouteFits(BookCancel(core, c, state), ChildAt(core.pool, c).parentId, i, d)
    ensures Shrinks(core, HandleCancel(core, cfg, c, state, view), i, d)
  {
    var p, booked := ChildAt(core.pool, c).parentId, BookCancel(core, c, state);
    CancelExposure(core, c, state, i, d);
    EvolutionReduces(core, booked, i, d);
    assert Shrinks(core, booked, i, d);
    SettleBounded(booked, cfg, p, view, i, d);
  }

  lemma ReportBounded(core: Core, cfg: Config, rep: Report, view: View, i: nat, d: Dir)
    requires Inv(core) && EventOk(core, cfg, ReportEvent(rep, view)) && Bounded(core, i, d)
    requires ReportFits(core, cfg, rep, i, d)
    ensures Shrinks(core, OnReport(core, cfg, rep, view), i, d)
  {
    if rep.cid < |core.pool.children| && ChildAt(core.pool, rep.cid).parentId < |core.pool.parents| {
      match rep.exec
      case Fills(lots, ticks) => FillBounded(core, cfg, rep.cid, lots, FillPrice(cfg, ticks), view, i, d);
      case Cancels => CancelBounded(core, cfg, rep.cid, OrderState.Canceled, view, i, d);
      case Rejects => CancelBounded(core, cfg, rep.cid, OrderState.Rejected, view, i, d);
      case Ack => AckBounded(core, rep.cid, i, d);
      case Replaces =>
    }
  }

  lemma AckBounded(core: Core, c: nat, i: nat, d: Dir)
    requires Inv(core) && Used(core.pool, c) && Live(ChildAt(core.pool, c)) && Bounded(core, i, d)
    ensures Shrinks(core, Acknowledge(core, c), i, d)
  {
    SameLeaves(core, Acknowledge(core, c), i, d, |core.orders|);
  }

  /** Orders, parents and every child's leaves unchanged. */
  lemma {:induction false} SameLeaves(core: Core, core': Core, i: nat, d: Dir, n: nat)
    requires core'.orders == core.orders && core'.pool.parents == core.pool.parents
    requires forall c: nat :: ChildAt(core'.pool, c).leaves == ChildAt(core.pool, c).leaves
    ensures ExposureOf(core', i, d, n) == ExposureOf(core, i, d, n)
  {
    if n > 0 {
      SameLeaves(core, core', i, d, n - 1);
      var a := AccountAt(core, n - 1);
      if a.holder.Some? {
        SumFrame(core.pool, core'.pool, Kids(ParentAt(core.pool, a.holder.value)));
      }
    }
  }

  lemma WheelBounded(core: Core, core': Core, i: nat, d: Dir)
    requires Bounded(core, i, d) && core' == core.(wheel := core'.wheel)
    ensures Shrinks(core, core', i, d)
  {
    SameLeaves(core, core', i, d, |core.orders|);
  }

  lemma CheckEntryBounded(core: Core, cfg: Config, s: nat, j: nat, view: View, i: nat, d: Dir)
    requires Inv(core) && ViewOk(cfg, view) && Bounded(core, i, d) && EntryFits(core, cfg, s, j, i, d)
    ensures Shrinks(core, CheckEntry(core, cfg, s, j, view), i, d)
  {
    if TW.ActiveAt(core.wheel, s, j) {
      var c := core.wheel.slots[s][j].cid;
      TW.ArmedAt(core.wheel, s, j);
      TW.DisarmRemoves(core.wheel, s, j);
      var core' := core.(wheel := TW.Disarm(core.wheel, s, j));
      WheelOnlyKeeps(core, core');
      WheelBounded(core, core', i, d);
      ReportBounded(core', cfg, Report(c, Cancels), view, i, d);
    }
  }

  lemma {:induction false} CheckSlotBounded(core: Core, cfg: Config, s: nat, j: nat, depth: nat, views: nat -> View, i: nat, d: Dir)
    requires Inv(core) && (forall k :: ViewOk(cfg, views(k))) && Bounded(core, i, d)
    requires SlotFits(core, cfg, s, j, depth, views, i, d)
    ensures Shrinks(core, CheckSlot(core, cfg, s, j, depth, views), i, d)
    decreases depth - j
  {
    if j < depth {
      CheckEntryKeeps(core, cfg, s, j, views(j));
      CheckEntryBounded(core, cfg, s, j, views(j), i, d);
      CheckSlotBounded(CheckEntry(core, cfg, s, j, views(j)), cfg, s, j + 1, depth, views, i, d);
    }
  }

  lemma AdvanceBounded(core: Core, cfg: Config, views: nat -> View, i: nat, d: Dir)
    requires Inv(core) && (forall k :: ViewOk(cfg, views(k))) && Bounded(core, i, d)
    requires AdvanceFits(core, cfg, views, i, d)
    ensures Shrinks(core, AdvanceWheel(core, cfg, views), i, d)
  {
    var w: TW.Wheel := core.wheel.(now := core.wheel.now + core.wheel.tick);
    ClockOnly(core.wheel, w);
    WheelOnlyKeeps(core, core.(wheel := w));
    WheelBounded(core, core.(wheel := w), i, d);
    CheckSlotBounded(core.(wheel := w), cfg, TW.Current(w), 0, w.depth, views, i, d);
  }

  lemma {:induction false} TickBounded(core: Core, cfg: Config, steps: nat, views: (nat, nat) -> View, i: nat, d: Dir)
    requires Inv(core) && (forall k, j :: ViewOk(cfg, views(k, j))) && Bounded(core, i, d)
    requires TickFits(core, cfg, steps, views, i, d)
    ensures Shrinks(core, Tick(core, cfg, steps, views), i, d)
  {
    if steps > 0 {
      TickBounded(core, cfg, steps - 1, views, i, d);
      TickKeeps(core, cfg, steps - 1, views);
      AdvanceBounded(Tick(core, cfg, steps - 1, views), cfg, (j: nat) => views(steps, j), i, d);
    }
  }

  lemma SignalBounded(core: Core, cfg: Config, sig: Signal, gateOk: bool, riskOk: bool, view: View, i: nat, d: Dir)
    requires Inv(core) && ViewOk(cfg, view) && sig.lots >= 0 && Bounded(core, i, d)
    requires sig.instr == i ==> Constrained(core, sig)
    requires gateOk && core.pool.parentFree != [] && sig.instr == i && sig.dir == d ==> ClampFits(core, i, d, sig.lots)
    ensures Shrinks(core, OnSignal(core, cfg, sig, gateOk, riskOk, view), i, d)
  {
    if gateOk && core.pool.parentFree != [] {
      SignalExposure(core, cfg, sig, gateOk, riskOk, view, i, d);
      SignalSame(core, cfg, sig, gateOk, riskOk, view);
      ExposureNonNegative(core, i, d, |core.orders|);
      AdmissionBounded(core, OnSignal(core, cfg, sig, gateOk, riskOk, view), sig, i, d);
    } else {
      SameLeaves(core, OnSignal(core, cfg, sig, gateOk, riskOk, view), i, d, |core.orders|);
    }
  }

  lemma AdmissionBounded(core: Core, core': Core, sig: Signal, i: nat, d: Dir)
    requires Bounded(core, i, d) && sig.lots >= 0 && Exposure(core, i, d) >= 0
    requires sig.instr == i ==> Constrained(core, sig)
    requires sig.instr == i && sig.dir == d ==> ClampFits(core, i, d, sig.lots)
    requires AdmitsAtMostOne(core, sig, core') && SameEntries(core, core')
    requires Exposure(core', i, d) <= Exposure(core, i, d)
               + (if sig.instr == i && sig.dir == d then EffectiveLots(core, sig) else 0)
    ensures Shrinks(core, core', i, d)
  {
    if sig.instr == i {
      ClampIsTight(core.pos[i], sig.dir, sig.lots, sig.reduceOnly);
    }
    assert SameEntry(core.pos[i], core'.pos[i]);
    forall s: nat | s < |core'.orders| && core'.orders[s].instr == i && core'.orders[s].holder.Some?
      ensures core'.orders[s].dir == d && core'.orders[s].reduceOnly
    {
      assert s < |core.orders| ==> core'.orders[s] == core.orders[s];
    }
  }

  lemma StepBounded(core: Core, cfg: Config, e: Event, i: nat, d: Dir)
    requires Inv(core) && EventOk(core, cfg, e) && Bounded(core, i, d)
    requires ClosingEvent(core, e, i) && EventFits(core, cfg, e, i, d)
    ensures Shrinks(core, Step(core, cfg, e), i, d)
  {
    match e
    case OrderEvent(sig, gateOk, riskOk, view) => SignalBounded(core, cfg, sig, gateOk, riskOk, view, i, d);
    case ReportEvent(rep, view) => ReportBounded(core, cfg, rep, view, i, d);
    case TickEvent(steps, views) => TickBounded(core, cfg, steps, views, i, d);
    case UnwindEvent(instr, enabled) => SameLeaves(core, SetUnwind(core, instr, enabled), i, d, |core.orders|);
  }

  lemma {:induction false} RunBounded(core: Core, cfg: Config, events: seq<Event>, end: Core, i: nat, d: Dir)
    requires Inv(core) && IsRun(core, cfg, events, end) && Bounded(core, i, d)
    requires ClosingRun(core, cfg, events, i) && FittingRun(core, cfg, events, i, d)
    ensures Shrinks(core, end, i, d) && Inv(end)
    decreases |events|
  {
    if events != [] {
      var next := Step(core, cfg, events[0]);
      StepKeeps(core, cfg, events[0]);
      StepBounded(core, cfg, events[0], i, d);
      RunBounded(next, cfg, events[1..], end, i, d);
    }
  }

  /**
   Reduce-only safety, reroutes included. From a state with no open order on instrument
   `i`, over every run whose admissions on it are reduce-only or unwind-forced and whose
   clamp calls on it, at admission or on a reroute, all fit: what the closing side has at
   venues stays inside the position, which keeps its sign and never grows.
   */
  lemma PositionOnlyShrinks(core: Core, cfg: Config, events: seq<Event>, end: Core, i: nat)
    requires Inv(core) && IsRun(core, cfg, events, end) && ClosingRun(core, cfg, events, i) && i < |core.pos|
    requires forall s: nat :: s < |core.orders| && core.orders[s].instr == i ==> core.orders[s].holder == None
    requires FittingRun(core, cfg, events, i, ClosingSide(core.pos[i]))
    ensures |end.pos| == |core.pos|
    ensures var d := ClosingSide(core.pos[i]);
            && 0 <= Exposure(end, i, d) <= Abs(end.pos[i].net)
            && (core.pos[i].net >= 0 ==> 0 <= end.pos[i].net <= core.pos[i].net)
            && (core.pos[i].net <= 0 ==> core.pos[i].net <= end.pos[i].net <= 0)
  {
    var d := ClosingSide(core.pos[i]);
    NothingLive(core, i, d, |core.orders|);
    RunBounded(core, cfg, events, end, i, d);
    RunEvolves(core, cfg, events, end);
    ExposureNonNegative(end, i, d, |end.orders|);
  }

  lemma {:induction false} NothingLive(core: Core, i: nat, d: Dir, n: nat)
    requires n <= |core.orders|
    requires forall s: nat :: s < |core.orders| && core.orders[s].instr == i ==> core.orders[s].holder == None
    ensures ExposureOf(core, i, d, n) == 0
  {
    if n > 0 {
      NothingLive(core, i, d, n - 1);
    }
  }
}
