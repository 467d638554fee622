/** Every public call of the execution core keeps the invariant, and so does every run of them. */
module LifecycleSteps {
  import opened Types
  import opened Router
  import opened OrderPool
  import opened Positions
  import opened Accounts
  import opened Lifecycle
  import opened LifecycleInvariant
  import TW = TimerWheel

  // ----- Admission -----

  lemma NotifyKeeps(core: Core, sig: Signal, reason: Reason)
    requires Inv(core)
    ensures Inv(NotifyReject(core, sig, reason))
  {
    SignalReject(core, sig, reason);
    SamePartsKeep(core, NotifyReject(core, sig, reason));
  }

  /** Rejecting a signal that never became an order returns no lots of any order. */
  lemma SignalReject(core: Core, sig: Signal, reason: Reason)
    ensures forall s: nat :: Returned(NotifyReject(core, sig, reason).rejects, s) == Returned(core.rejects, s)
  {
    forall s: nat {
      ReturnedSnoc(core.rejects, Reject(sig.instr, sig.dir, sig.strategy, sig.lots, reason, None), s);
    }
  }

  lemma SamePartsKeep(core: Core, core': Core)
    requires Inv(core) && core'.pool == core.pool && core'.orders == core.orders && core'.wheel == core.wheel
    requires |core'.pos| == |core.pos|
    requires forall s: nat :: Returned(core'.rejects, s) == Returned(core.rejects, s)
    requires forall i: nat :: i < |core.pos| ==> SameCounters(core'.pos[i], core.pos[i])
    ensures Inv(core')
  {
    forall s: nat | s < |core'.orders|
      ensures AccountOk(core', s)
    {
      assert AccountOk(core, s);
    }
    forall i: nat | i < |core'.pos|
      ensures && core'.pos[i].net == NetOf(core'.orders, i)
              && core'.pos[i].openBuy == OpenOf(core'.orders, i, Buy)
              && core'.pos[i].openSell == OpenOf(core'.orders, i, Sell)
    {
      assert SameCounters(core'.pos[i], core.pos[i]);
    }
  }

  /** A refused signal leaves nothing behind but a stale record of a free parent. */
  lemma RefuseKeeps(core: Core, par: Parent, sig: Signal, reason: Reason)
    requires Inv(core) && core.pool.parentFree != [] && par.id == Top(core.pool.parentFree) && Compact(par)
    ensures var core' := Refuse(core, par, sig, reason);
            && Inv(core')
            && core'.pool.parentFree == core.pool.parentFree && core'.pool.childFree == core.pool.childFree
            && core'.pool.children == core.pool.children && Elsewhere(core.pool, core'.pool, par.id)
            && !Held(core.pool, par.id) && core'.orders == core.orders && core'.pos == core.pos
            && core'.wheel == core.wheel
            && (forall s: nat :: Returned(core'.rejects, s) == Returned(core.rejects, s))
  {
    var p, core' := par.id, Refuse(core, par, sig, reason);
    var done := par.(state := OrderState.Rejected);
    AllocFreeRestores(core.pool, done);
    assert !Held(core.pool, p);
    FreeRecordKeepsPool(core.pool, p, done);
    SignalReject(core, sig, reason);
    StaleRecordKeeps(core, core', p);
  }

  lemma RefusalKeeps(core: Core, par: Parent, sig: Signal, reason: Reason)
    requires Inv(core) && core.pool.parentFree != [] && par.id == Top(core.pool.parentFree) && Compact(par)
    ensures Inv(Refuse(core, par, sig, reason))
  {
    RefuseKeeps(core, par, sig, reason);
  }

  lemma StaleRecordKeeps(core: Core, core': Core, p: nat)
    requires Inv(core) && PoolSound(core'.pool) && !Held(core.pool, p) && !Held(core'.pool, p)
    requires Elsewhere(core.pool, core'.pool, p)
    requires core'.pool.children == core.pool.children && core'.pool.childFree == core.pool.childFree
    requires core'.pos == core.pos && core'.wheel == core.wheel && core'.orders == core.orders
    requires forall s: nat :: Returned(core'.rejects, s) == Returned(core.rejects, s)
    ensures Inv(core')
  {
    forall s: nat | s < |core'.orders|
      ensures AccountOk(core', s)
    {
      assert AccountOk(core, s);
      var a := core.orders[s];
      if a.holder.Some? {
        assert OpenOk(core.pool, a, a.holder.value, s);
      }
    }
    TimersFrame(core, core');
  }

  lemma AdmitKeeps(core: Core, par: Parent)
    requires Inv(core) && core.pool.parentFree != [] && par.id == Top(core.pool.parentFree)
    requires par.count == 0 && par.mask == NO_MASK && par.cum == 0 && par.total == par.leaves && par.leaves > 0
    requires par.instr < |core.pos| && par.serial == |core.orders| && par.avg == 0.0
    ensures var core' := Admit(core, par);
            && Mid(core', par.id) && Load(core'.pool, par.id) == 0
            && ParentAt(core'.pool, par.id) == par.(state := PendingNew)
            && AccountAt(core', par.serial).reserved == par.leaves && !AccountAt(core', par.serial).rerouted
            && |core'.orders| == |core.orders| + 1 && core'.orders[..|core.orders|] == core.orders
            && !Held(core.pool, par.id) && Elsewhere(core.pool, core'.pool, par.id)
  {
    var p, core' := par.id, Admit(core, par);
    var live := par.(state := PendingNew);
    OpenKeepsPool(core.pool, live);
    AdmitAccounts(core, core', p);
    AdmitLedger(core, core', par);
    TimersFrame(core, core');
  }

  lemma AdmitAccounts(core: Core, core': Core, p: nat)
    requires Inv(core) && !Held(core.pool, p) && Held(core'.pool, p) && Elsewhere(core.pool, core'.pool, p)
    requires |core'.pos| == |core.pos| && |core'.orders| == |core.orders| + 1
    requires core'.orders[..|core.orders|] == core.orders && ParentAt(core'.pool, p).serial == |core.orders|
    requires core'.orders[|core.orders|].holder == Some(p) && AccountOk(core', |core.orders|)
    requires core'.rejects == core.rejects
    ensures AccountsOk(core')
  {
    forall t: nat | t < |core'.orders|
      ensures AccountOk(core', t)
    {
      if t < |core.orders| {
        assert core'.orders[t] == core.orders[t];
        assert AccountOk(core, t);
        var a := core.orders[t];
        if a.holder.Some? {
          assert OpenOk(core.pool, a, a.holder.value, t);
        }
      }
    }
    forall q: nat | Held(core'.pool, q)
      ensures ParentAt(core'.pool, q).serial < |core'.orders|
      ensures core'.orders[ParentAt(core'.pool, q).serial].holder == Some(q)
    {
      if q != p {
        assert Held(core.pool, q);
        assert core'.orders[ParentAt(core.pool, q).serial] == core.orders[ParentAt(core.pool, q).serial];
      }
    }
  }

  lemma AdmitLedger(core: Core, core': Core, par: Parent)
    requires LedgerOk(core) && par.instr < |core.pos|
    requires |core'.orders| == |core.orders| + 1 && core'.orders == core.orders + [core'.orders[|core.orders|]]
    requires var a := core'.orders[|core.orders|];
             a.instr == par.instr && a.dir == par.dir && a.filled == 0 && a.reserved == par.leaves
    requires core'.pos == Put(core.pos, par.instr, Reserve(core.pos[par.instr], par.dir, par.leaves))
    ensures LedgerOk(core')
  {
    var a := core'.orders[|core.orders|];
    forall i: nat | i < |core'.pos|
      ensures && core'.pos[i].net == NetOf(core'.orders, i)
              && core'.pos[i].openBuy == OpenOf(core'.orders, i, Buy)
              && core'.pos[i].openSell == OpenOf(core'.orders, i, Sell)
    {
      SumSnoc(core.orders, a, NetPart(i));
      SumSnoc(core.orders, a, OpenPart(i, Buy));
      SumSnoc(core.orders, a, OpenPart(i, Sell));
    }
  }

  lemma EffectiveNonNegative(core: Core, sig: Signal)
    requires sig.lots >= 0
    ensures 0 <= EffectiveLots(core, sig) <= sig.lots
  {
  }

  lemma SignalKeeps(core: Core, cfg: Config, sig: Signal, gateOk: bool, riskOk: bool, view: View)
    requires Inv(core) && ViewOk(cfg, view) && sig.lots >= 0
    ensures Inv(OnSignal(core, cfg, sig, gateOk, riskOk, view))
  {
    if !gateOk {
      NotifyKeeps(core, sig, GateBlock);
    } else if core.pool.parentFree == [] {
      NotifyKeeps(core, sig, ParentPoolExhausted);
    } else {
      var par := NewParent(core, cfg, sig, Top(core.pool.parentFree));
      EffectiveNonNegative(core, sig);
      if sig.instr < |core.pos| && par.leaves == 0 {
        RefusalKeeps(core, par, sig, ReduceOnlyViolation);
      } else if sig.instr >= |core.pos| || !riskOk {
        RefusalKeeps(core, par, sig, RiskReject);
      } else {
        OrderKeeps(core, cfg, sig, par, view);
      }
    }
  }

  /** The routed part of `on_strategy_order`: the router is asked for a positive target. */
  lemma OrderKeeps(core: Core, cfg: Config, sig: Signal, par: Parent, view: View)
    requires Inv(core) && ViewOk(cfg, view) && core.pool.parentFree != []
    requires par == NewParent(core, cfg, sig, Top(core.pool.parentFree)) && par.leaves > 0 && sig.instr < |core.pos|
    ensures var legs := LegsFor(cfg, view, par, par.leaves, sig.kind);
            Inv(if legs == [] then Refuse(core, par, sig, NoLiquidity)
                else Dispatch(Admit(core, par), cfg, par.id, legs, view.now))
  {
    var legs := LegsFor(cfg, view, par, par.leaves, sig.kind);
    RoutesFit(cfg, view, par, sig.kind);
    if legs == [] {
      RefusalKeeps(core, par, sig, NoLiquidity);
    } else {
      AdmittedKeeps(core, cfg, par, legs, |view.venues|, view.now);
    }
  }

  lemma AdmittedKeeps(core: Core, cfg: Config, par: Parent, legs: seq<Leg>, venues: nat, now: nat)
    requires Inv(core) && core.pool.parentFree != [] && par.id == Top(core.pool.parentFree)
    requires par.count == 0 && par.mask == NO_MASK && par.cum == 0 && par.total == par.leaves && par.leaves > 0
    requires par.instr < |core.pos| && par.serial == |core.orders| && par.avg == 0.0
    requires legs != [] && SplitOk(legs, par.dir, par.leaves, par.limit, venues)
    ensures Inv(Dispatch(Admit(core, par), cfg, par.id, legs, now))
  {
    AdmitKeeps(core, par);
    ReadyToSend(Admit(core, par), par.id, legs, venues);
    DispatchKeeps(Admit(core, par), cfg, par.id, legs, now);
  }

  // ----- Reports -----

  lemma HandleFillKeeps(core: Core, cfg: Config, c: nat, lots: nat, price: real, view: View)
    requires Inv(core) && ViewOk(cfg, view) && Used(core.pool, c) && Live(ChildAt(core.pool, c))
    requires 1 <= lots <= ChildAt(core.pool, c).leaves
    ensures Inv(HandleFill(core, cfg, c, lots, price, view))
  {
    var p := ChildAt(core.pool, c).parentId;
    FillKeeps(core, c, lots, price);
    SettleKeeps(BookFill(core, c, lots, price), cfg, p, view);
  }

  /** What both report handlers do once the books are straight. */
  lemma SettleKeeps(booked: Core, cfg: Config, p: nat, view: View)
    requires ViewOk(cfg, view) && Mid(booked, p)
    ensures var par := ParentAt(booked.pool, p);
            && par.leaves >= 0
            && (par.leaves == 0 ==> Inv(CloseFilled(booked, p)))
            && (par.leaves > 0 && AllTerminal(booked.pool, par) ==> Inv(Reroute(booked, cfg, p, view)))
            && (par.leaves > 0 && !AllTerminal(booked.pool, par) ==> Inv(booked))
  {
    var par := ParentAt(booked.pool, p);
    KidsNonNegative(booked.pool, p);
    assert ParentOk(booked.pool, p);
    LoadZeroIffAllTerminal(booked.pool, p);
    if par.leaves == 0 {
      FilledKeeps(booked, p);
    } else if AllTerminal(booked.pool, par) {
      RerouteKeeps(booked, cfg, p, view);
    }
  }

  lemma HandleCancelKeeps(core: Core, cfg: Config, c: nat, state: OrderState, view: View)
    requires Inv(core) && ViewOk(cfg, view) && Used(core.pool, c) && Live(ChildAt(core.pool, c))
    requires state == OrderState.Canceled || state == OrderState.Rejected
    ensures Inv(HandleCancel(core, cfg, c, state, view))
  {
    CancelKeeps(core, c, state);
    SettleKeeps(BookCancel(core, c, state), cfg, ChildAt(core.pool, c).parentId, view);
  }

  lemma ReportKeeps(core: Core, cfg: Config, rep: Report, view: View)
    requires Inv(core) && EventOk(core, cfg, ReportEvent(rep, view))
    ensures Inv(OnReport(core, cfg, rep, view))
  {
    if rep.cid < |core.pool.children| && ChildAt(core.pool, rep.cid).parentId < |core.pool.parents| {
      match rep.exec
      case Fills(lots, ticks) => HandleFillKeeps(core, cfg, rep.cid, lots, FillPrice(cfg, ticks), view);
      case Cancels => HandleCancelKeeps(core, cfg, rep.cid, OrderState.Canceled, view);
      case Rejects => HandleCancelKeeps(core, cfg, rep.cid, OrderState.Rejected, view);
      case Ack => AckKeeps(core, rep.cid);
      case Replaces =>
    }
  }

  // ----- Timers -----

  /** An expired timer always finds its child live, so the callback's own guard never fails. */
  lemma CheckEntryKeeps(core: Core, cfg: Config, s: nat, i: nat, view: View)
    requires Inv(core) && ViewOk(cfg, view)
    ensures Inv(CheckEntry(core, cfg, s, i, view))
    ensures TW.ActiveAt(core.wheel, s, i) ==>
              Used(core.pool, core.wheel.slots[s][i].cid) && Live(ChildAt(core.pool, core.wheel.slots[s][i].cid))
  {
    if TW.ActiveAt(core.wheel, s, i) {
      var c := core.wheel.slots[s][i].cid;
      TW.ArmedAt(core.wheel, s, i);
      TW.DisarmRemoves(core.wheel, s, i);
      var core' := core.(wheel := TW.Disarm(core.wheel, s, i));
      WheelOnlyKeeps(core, core');
      ReportKeeps(core', cfg, Report(c, Cancels), view);
    }
  }

  lemma WheelOnlyKeeps(core: Core, core': Core)
    requires Inv(core) && core' == core.(wheel := core'.wheel) && TW.Unique(core'.wheel)
    requires TW.Armed(core'.wheel) <= TW.Armed(core.wheel)
    ensures Inv(core')
  {
    forall s: nat | s < |core'.orders|
      ensures AccountOk(core', s)
    {
      assert AccountOk(core, s);
    }
    TimersFrame(core, core');
  }

  lemma {:induction false} CheckSlotKeeps(core: Core, cfg: Config, s: nat, i: nat, depth: nat, views: nat -> View)
    requires Inv(core) && forall j :: ViewOk(cfg, views(j))
    ensures Inv(CheckSlot(core, cfg, s, i, depth, views))
    decreases depth - i
  {
    if i < depth {
      CheckEntryKeeps(core, cfg, s, i, views(i));
      CheckSlotKeeps(CheckEntry(core, cfg, s, i, views(i)), cfg, s, i + 1, depth, views);
    }
  }

  lemma AdvanceKeeps(core: Core, cfg: Config, views: nat -> View)
    requires Inv(core) && forall j :: ViewOk(cfg, views(j))
    ensures Inv(AdvanceWheel(core, cfg, views))
  {
    var w: TW.Wheel := core.wheel.(now := core.wheel.now + core.wheel.tick);
    ClockOnly(core.wheel, w);
    WheelOnlyKeeps(core, core.(wheel := w));
    CheckSlotKeeps(core.(wheel := w), cfg, TW.Current(w), 0, w.depth, views);
  }

  lemma ClockOnly(w: TW.Wheel, w': TW.Wheel)
    requires TW.Unique(w) && w' == w.(now := w'.now)
    ensures TW.Unique(w') && TW.Armed(w') == TW.Armed(w)
  {
    assert forall s: nat, i: nat :: TW.ActiveAt(w', s, i) <==> TW.ActiveAt(w, s, i);
  }

  lemma {:induction false} TickKeeps(core: Core, cfg: Config, steps: nat, views: (nat, nat) -> View)
    requires Inv(core) && forall k, j :: ViewOk(cfg, views(k, j))
    ensures Inv(Tick(core, cfg, steps, views))
  {
    if steps > 0 {
      TickKeeps(core, cfg, steps - 1, views);
      AdvanceKeeps(Tick(core, cfg, steps - 1, views), cfg, (j: nat) => views(steps, j));
    }
  }

  lemma UnwindKeeps(core: Core, i: nat, enabled: bool)
    requires Inv(core)
    ensures Inv(SetUnwind(core, i, enabled))
  {
    SamePartsKeep(core, SetUnwind(core, i, enabled));
  }

  // ----- Runs -----

  lemma StepKeeps(core: Core, cfg: Config, e: Event)
    requires Inv(core) && EventOk(core, cfg, e)
    ensures Inv(Step(core, cfg, e))
  {
    match e
    case OrderEvent(sig, gateOk, riskOk, view) => SignalKeeps(core, cfg, sig, gateOk, riskOk, view);
    case ReportEvent(rep, view) => ReportKeeps(core, cfg, rep, view);
    case TickEvent(steps, views) => TickKeeps(core, cfg, steps, views);
    case UnwindEvent(instr, enabled) => UnwindKeeps(core, instr, enabled);
  }

  lemma {:induction false} RunKeeps(core: Core, cfg: Config, events: seq<Event>, end: Core)
    requires Inv(core) && IsRun(core, cfg, events, end)
    ensures Inv(end)
    decreases |events|
  {
    if events != [] {
      StepKeeps(core, cfg, events[0]);
      RunKeeps(Step(core, cfg, events[0]), cfg, events[1..], end);
    }
  }

  /** The state after construction: everything free, flat and quiet. */
  ghost predicate Initial(core: Core) {
    && FreeListOk(core.pool.parentFree, |core.pool.parents|) && FreeListOk(core.pool.childFree, |core.pool.children|)
    && (forall p: nat :: p < |core.pool.parents| ==> p in core.pool.parentFree && Compact(core.pool.parents[p]))
    && (forall c: nat :: c < |core.pool.children| ==> c in core.pool.childFree)
    && (forall i: nat :: i < |core.pos| ==> core.pos[i] == FLAT)
    && TW.Armed(core.wheel) == {} && core.orders == [] && core.rejects == []
  }

  lemma InitialHolds(core: Core)
    requires Initial(core)
    ensures Inv(core)
  {
    forall s: nat, i: nat | TW.ActiveAt(core.wheel, s, i)
      ensures false
    {
      TW.ArmedAt(core.wheel, s, i);
    }
  }
}
