/**
 What ties the timer wheel and the reject queue to the orders they speak of: every
 active timer is due exactly its child's timeout after the child was sent and sits in
 the slot of that deadline, and every reject that closes an order names the order's own
 instrument and side.
 */
module LifecycleTies {
  import opened Types
  import opened Router
  import opened OrderPool
  import opened Accounts
  import opened Lifecycle
  import opened LifecycleInvariant
  import opened LifecycleSteps
  import opened LifecycleHistory
  import opened LifecycleTheorems
  import TW = TimerWheel

  /** When a child's timer is due: makers wait longer than takers. */
  function DueAt(cfg: Config, ch: Child): nat {
    ch.sentNs + if ch.kind == Maker then cfg.makerTimeout else cfg.childTimeout
  }

  ghost predicate EntryDated(core: Core, cfg: Config, s: nat, e: TW.Entry) {
    && e.cid < |core.pool.children| && e.deadline == DueAt(cfg, core.pool.children[e.cid])
    && s == TW.SlotFor(core.wheel, e.deadline)
  }

  ghost predicate TimersDated(core: Core, cfg: Config) {
    forall s: nat, i: nat :: TW.ActiveAt(core.wheel, s, i) ==> EntryDated(core, cfg, s, core.wheel.slots[s][i])
  }

  ghost predicate NamesOrder(orders: seq<Account>, r: Reject) {
    r.order.Some? ==>
      && r.order.value < |orders| && r.instr == orders[r.order.value].instr && r.dir == orders[r.order.value].dir
      && r.strategy == orders[r.order.value].strategy
      && (r.reason == NoLiquidity || r.reason == ChildPoolExhausted)
  }

  ghost predicate RejectsNamed(core: Core) {
    forall k :: 0 <= k < |core.rejects| ==> NamesOrder(core.orders, core.rejects[k])
  }

  ghost predicate Tied(core: Core, cfg: Config) {
    TimersDated(core, cfg) && RejectsNamed(core)
  }

  // ----- Frames -----

  /** Orders are only added, and keep their instrument and side. */
  ghost predicate SameTerms(a: seq<Account>, b: seq<Account>) {
    |a| <= |b| && forall s: nat :: s < |a| ==> b[s].instr == a[s].instr && b[s].dir == a[s].dir && b[s].strategy == a[s].strategy
  }

  /** The children that matter to a timer keep their dates. */
  ghost predicate SameDates(a: seq<Child>, b: seq<Child>) {
    |a| == |b| && forall c: nat :: c < |a| ==> b[c].sentNs == a[c].sentNs && b[c].kind == a[c].kind
  }

  /** No new timers. */
  ghost predicate FewerTimers(w: TW.Wheel, w': TW.Wheel) {
    && w'.tick == w.tick && |w'.slots| == |w.slots|
    && forall s: nat, i: nat :: TW.ActiveAt(w', s, i) ==> TW.ActiveAt(w, s, i) && w'.slots[s][i] == w.slots[s][i]
  }

  lemma TiesFrame(core: Core, core': Core, cfg: Config)
    requires Tied(core, cfg) && SameTerms(core.orders, core'.orders) && core'.rejects == core.rejects
    requires SameDates(core.pool.children, core'.pool.children) && FewerTimers(core.wheel, core'.wheel)
    ensures Tied(core', cfg)
  {
    forall s: nat, i: nat | TW.ActiveAt(core'.wheel, s, i)
      ensures EntryDated(core', cfg, s, core'.wheel.slots[s][i])
    {
      assert EntryDated(core, cfg, s, core.wheel.slots[s][i]);
    }
    forall k | 0 <= k < |core'.rejects|
      ensures NamesOrder(core'.orders, core'.rejects[k])
    {
      assert NamesOrder(core.orders, core.rejects[k]);
    }
  }

  lemma CancelIsFewer(w: TW.Wheel, c: nat)
    ensures FewerTimers(w, TW.Cancel(w, c))
  {
  }

  lemma {:induction false} FreeSlotsSame(pool: Pool, par: Parent, s: nat, onlyTerminal: bool)
    ensures FreeSlots(pool, par, s, onlyTerminal).children == pool.children
    decreases MAX_KIDS - s
  {
    if s < MAX_KIDS {
      if HasChild(par, s) && (onlyTerminal ==> Terminal(ChildAt(pool, par.slots[s]))) {
        FreeSlotsSame(FreeChild(pool, par.slots[s]), par, s + 1, onlyTerminal);
      } else {
        FreeSlotsSame(pool, par, s + 1, onlyTerminal);
      }
    }
  }

  // ----- Steps -----

  lemma ReleaseTied(core: Core, cfg: Config, p: nat, lots: int)
    requires Tied(core, cfg)
    ensures Tied(ReleaseFor(core, p, lots), cfg)
  {
    TiesFrame(core, ReleaseFor(core, p, lots), cfg);
  }

  lemma AbandonTied(core: Core, cfg: Config, p: nat, reason: Reason)
    requires Tied(core, cfg) && AccountsOk(core) && Held(core.pool, p)
    requires reason == NoLiquidity || reason == ChildPoolExhausted
    ensures Tied(Abandon(core, p, reason), cfg)
  {
    var core' := Abandon(core, p, reason);
    HolderAccount(core, p);
    TiesFrame(core, core'.(rejects := core.rejects), cfg);
    forall k | 0 <= k < |core'.rejects|
      ensures NamesOrder(core'.orders, core'.rejects[k])
    {
      if k < |core.rejects| {
        assert NamesOrder(core'.orders, core'.(rejects := core.rejects).rejects[k]);
      }
    }
    forall s: nat, i: nat | TW.ActiveAt(core'.wheel, s, i)
      ensures EntryDated(core', cfg, s, core'.wheel.slots[s][i])
    {
      assert EntryDated(core'.(rejects := core.rejects), cfg, s, core'.wheel.slots[s][i]);
    }
  }

  /** The id handed out has no timer, so rewriting its record dates no other entry anew. */
  lemma SendTied(core: Core, cfg: Config, p: nat, legs: seq<Leg>, i: nat, now: nat)
    requires Tied(core, cfg) && Sending(core, p, legs, i) && CanSend(core, p, legs, i)
    ensures Tied(SendChild(core, cfg, p, i, legs[i], now), cfg)
  {
    var core', c := SendChild(core, cfg, p, i, legs[i], now), Top(core.pool.childFree);
    SendPool(core, cfg, p, legs, i, now);
    InsertDated(core, core', cfg, c, now, TimeoutFor(cfg, legs[i]));
    forall k | 0 <= k < |core'.rejects|
      ensures NamesOrder(core'.orders, core'.rejects[k])
    {
      assert NamesOrder(core.orders, core.rejects[k]);
    }
  }

  lemma InsertDated(core: Core, core': Core, cfg: Config, c: nat, now: nat, timeout: nat)
    requires TimersDated(core, cfg) && TimersOk(core) && !Used(core.pool, c)
    requires |core'.pool.children| == |core.pool.children| && c < |core.pool.children|
    requires forall d: nat :: d < |core.pool.children| && d != c ==> core'.pool.children[d] == core.pool.children[d]
    requires DueAt(cfg, core'.pool.children[c]) == now + timeout
    requires core'.wheel == TW.Insert(core.wheel, c, now, timeout)
    ensures TimersDated(core', cfg)
  {
    forall s: nat, i: nat | TW.ActiveAt(core'.wheel, s, i)
      ensures EntryDated(core', cfg, s, core'.wheel.slots[s][i])
    {
      if TW.ActiveAt(core.wheel, s, i) && core'.wheel.slots[s][i] == core.wheel.slots[s][i] {
        TW.ArmedAt(core.wheel, s, i);
        assert EntryDated(core, cfg, s, core.wheel.slots[s][i]);
      }
    }
  }

  lemma {:induction false} SendFromTied(core: Core, cfg: Config, p: nat, legs: seq<Leg>, i: nat, now: nat)
    requires Tied(core, cfg) && Sending(core, p, legs, i)
    ensures Tied(SendFrom(core, cfg, p, legs, i, now).0, cfg)
    decreases |legs| - i
  {
    if CanSend(core, p, legs, i) {
      SendTied(core, cfg, p, legs, i, now);
      SendKeeps(core, cfg, p, legs, i, now);
      SendFromTied(SendChild(core, cfg, p, i, legs[i], now), cfg, p, legs, i + 1, now);
    }
  }

  lemma FinishTied(out: Core, cfg: Config, p: nat, legs: seq<Leg>, sent: nat)
    requires Tied(out, cfg) && Sending(out, p, legs, sent)
    ensures Tied(FinishDispatch(out, p, legs, sent), cfg)
  {
    LegsNonNegative(legs[sent..]);
    var gap := if sent < |legs| then SumLegs(legs[sent..]) else 0;
    var kept := if gap > 0 then ReleaseFor(out, p, gap) else out;
    if gap > 0 {
      ReleaseTied(out, cfg, p, gap);
      ReleaseKeeps(out, p, gap);
    }
    assert Mid(kept, p);
    AbandonTied(kept, cfg, p, ChildPoolExhausted);
  }

  lemma DispatchTied(core: Core, cfg: Config, p: nat, legs: seq<Leg>, now: nat)
    requires Tied(core, cfg) && Sending(core, p, legs, 0)
    ensures Tied(Dispatch(core, cfg, p, legs, now), cfg)
  {
    SendFromTied(core, cfg, p, legs, 0, now);
    SendFromKeeps(core, cfg, p, legs, 0, now);
    var (out, sent) := SendFrom(core, cfg, p, legs, 0, now);
    FinishTied(out, cfg, p, legs, sent);
  }

  lemma ClearTied(core: Core, cfg: Config, p: nat)
    requires Tied(core, cfg)
    ensures Tied(ClearChildren(core, p), cfg)
  {
    FreeSlotsSame(core.pool, ParentAt(core.pool, p), 0, true);
    TiesFrame(core, ClearChildren(core, p), cfg);
  }

  lemma ShrinkTied(core: Core, cfg: Config, p: nat)
    requires Tied(core, cfg) && ParentAt(core.pool, p).leaves >= 0
    ensures Tied(Shrink(core, p), cfg)
  {
    var cut, excess := ShrinkCuts(core, p);
    if cut {
      var released := ReleaseFor(core, p, excess);
      ReleaseTied(core, cfg, p, excess);
      TiesFrame(released, CutLeaves(released, p, excess), cfg);
    }
  }

  lemma CloseTied(core: Core, cfg: Config, p: nat)
    requires Tied(core, cfg)
    ensures Tied(CloseFilled(core, p), cfg) && Tied(CloseReduced(core, p), cfg) && Tied(MarkPending(core, p), cfg)
  {
    var par := ParentAt(core.pool, p);
    FreeSlotsSame(SetParent(core.pool, p, par.(state := OrderState.Filled)), par, 0, false);
    TiesFrame(core, CloseFilled(core, p), cfg);
    TiesFrame(core, CloseReduced(core, p), cfg);
    TiesFrame(core, MarkPending(core, p), cfg);
  }

  lemma RerouteTied(core: Core, cfg: Config, p: nat, view: View)
    requires Tied(core, cfg) && ViewOk(cfg, view) && Mid(core, p)
    requires Load(core.pool, p) == 0 && ParentAt(core.pool, p).leaves > 0
    ensures Tied(Reroute(core, cfg, p, view), cfg)
  {
    var cleared := ClearChildren(core, p);
    ClearKeeps(core, p);
    ClearTied(core, cfg, p);
    ShrinkKeeps(cleared, p);
    ShrinkTied(cleared, cfg, p);
    var cut := Shrink(cleared, p);
    KidsNonNegative(cut.pool, p);
    assert ParentOk(cut.pool, p);
    CloseTied(cut, cfg, p);
    if ParentAt(cut.pool, p).leaves > 0 {
      SweepTied(cut, cfg, p, view);
    }
  }

  lemma SweepTied(cut: Core, cfg: Config, p: nat, view: View)
    requires Tied(cut, cfg) && ViewOk(cfg, view) && Mid(cut, p) && Load(cut.pool, p) == 0
    requires ParentAt(cut.pool, p).count == 0 && ParentAt(cut.pool, p).leaves > 0
    requires AccountAt(cut, ParentAt(cut.pool, p).serial).rerouted
    ensures var legs := LegsFor(cfg, view, ParentAt(cut.pool, p), ParentAt(cut.pool, p).leaves, Taker);
            Tied(if legs == [] then Abandon(cut, p, NoLiquidity)
                 else Dispatch(MarkPending(cut, p), cfg, p, legs, view.now), cfg)
  {
    var par := ParentAt(cut.pool, p);
    var legs := LegsFor(cfg, view, par, par.leaves, Taker);
    RoutesFit(cfg, view, par, Taker);
    if legs == [] {
      AbandonTied(cut, cfg, p, NoLiquidity);
    } else {
      MarkKeeps(cut, p);
      CloseTied(cut, cfg, p);
      ReadyToSend(MarkPending(cut, p), p, legs, |view.venues|);
      DispatchTied(MarkPending(cut, p), cfg, p, legs, view.now);
    }
  }

  lemma SettleTied(booked: Core, cfg: Config, p: nat, view: View)
    requires Tied(booked, cfg) && ViewOk(cfg, view) && Mid(booked, p)
    ensures Tied(CloseFilled(booked, p), cfg)
    ensures var par := ParentAt(booked.pool, p);
            par.leaves > 0 && AllTerminal(booked.pool, par) ==> Tied(Reroute(booked, cfg, p, view), cfg)
  {
    CloseTied(booked, cfg, p);
    LoadZeroIffAllTerminal(booked.pool, p);
    if ParentAt(booked.pool, p).leaves > 0 && AllTerminal(booked.pool, ParentAt(booked.pool, p)) {
      RerouteTied(booked, cfg, p, view);
    }
  }

  lemma FillTied(core: Core, cfg: Config, c: nat, lots: nat, price: real, view: View)
    requires Tied(core, cfg) && Inv(core) && ViewOk(cfg, view) && Used(core.pool, c) && Live(ChildAt(core.pool, c))
    requires 1 <= lots <= ChildAt(core.pool, c).leaves
    ensures Tied(HandleFill(core, cfg, c, lots, price, view), cfg)
  {
    var p, booked := ChildAt(core.pool, c).parentId, BookFill(core, c, lots, price);
    FillKeeps(core, c, lots, price);
    SettleKeeps(booked, cfg, p, view);
    CancelIsFewer(core.wheel, c);
    TiesFrame(core, booked, cfg);
    SettleTied(booked, cfg, p, view);
  }

  lemma CancelTied(core: Core, cfg: Config, c: nat, state: OrderState, view: View)
    requires Tied(core, cfg) && Inv(core) && ViewOk(cfg, view) && Used(core.pool, c) && Live(ChildAt(core.pool, c))
    requires state == OrderState.Canceled || state == OrderState.Rejected
    ensures Tied(HandleCancel(core, cfg, c, state, view), cfg)
  {
    var p, booked := ChildAt(core.pool, c).parentId, BookCancel(core, c, state);
    CancelKeeps(core, c, state);
    CancelIsFewer(core.wheel, c);
    TiesFrame(core, booked, cfg);
    SettleTied(booked, cfg, p, view);
  }

  lemma ReportTied(core: Core, cfg: Config, rep: Report, view: View)
    requires Tied(core, cfg) && Inv(core) && EventOk(core, cfg, ReportEvent(rep, view))
    ensures Tied(OnReport(core, cfg, rep, view), cfg)
  {
    if rep.cid < |core.pool.children| && ChildAt(core.pool, rep.cid).parentId < |core.pool.parents| {
      match rep.exec
      case Fills(lots, ticks) => FillTied(core, cfg, rep.cid, lots, FillPrice(cfg, ticks), view);
      case Cancels => CancelTied(core, cfg, rep.cid, OrderState.Canceled, view);
      case Rejects => CancelTied(core, cfg, rep.cid, OrderState.Rejected, view);
      case Ack => TiesFrame(core, Acknowledge(core, rep.cid), cfg);
      case Replaces =>
    }
  }

  lemma CheckEntryTied(core: Core, cfg: Config, s: nat, i: nat, view: View)
    requires Tied(core, cfg) && Inv(core) && ViewOk(cfg, view)
    ensures Tied(CheckEntry(core, cfg, s, i, view), cfg)
  {
    if TW.ActiveAt(core.wheel, s, i) {
      var c, core' := core.wheel.slots[s][i].cid, core.(wheel := TW.Disarm(core.wheel, s, i));
      TW.ArmedAt(core.wheel, s, i);
      TW.DisarmRemoves(core.wheel, s, i);
      WheelOnlyKeeps(core, core');
      TiesFrame(core, core', cfg);
      ReportTied(core', cfg, Report(c, Cancels), view);
    }
  }

  lemma {:induction false} CheckSlotTied(core: Core, cfg: Config, s: nat, i: nat, depth: nat, views: nat -> View)
    requires Tied(core, cfg) && Inv(core) && forall j :: ViewOk(cfg, views(j))
    ensures Tied(CheckSlot(core, cfg, s, i, depth, views), cfg)
    decreases depth - i
  {
    if i < depth {
      CheckEntryKeeps(core, cfg, s, i, views(i));
      CheckEntryTied(core, cfg, s, i, views(i));
      CheckSlotTied(CheckEntry(core, cfg, s, i, views(i)), cfg, s, i + 1, depth, views);
    }
  }

  lemma AdvanceTied(core: Core, cfg: Config, views: nat -> View)
    requires Tied(core, cfg) && Inv(core) && forall j :: ViewOk(cfg, views(j))
    ensures Tied(AdvanceWheel(core, cfg, views), cfg)
  {
    var w: TW.Wheel := core.wheel.(now := core.wheel.now + core.wheel.tick);
    ClockOnly(core.wheel, w);
    WheelOnlyKeeps(core, core.(wheel := w));
    TiesFrame(core, core.(wheel := w), cfg);
    CheckSlotTied(core.(wheel := w), cfg, TW.Current(w), 0, w.depth, views);
  }

  lemma {:induction false} TickTied(core: Core, cfg: Config, steps: nat, views: (nat, nat) -> View)
    requires Tied(core, cfg) && Inv(core) && forall k, j :: ViewOk(cfg, views(k, j))
    ensures Tied(Tick(core, cfg, steps, views), cfg)
  {
    if steps > 0 {
      TickTied(core, cfg, steps - 1, views);
      TickKeeps(core, cfg, steps - 1, views);
      AdvanceTied(Tick(core, cfg, steps - 1, views), cfg, (j: nat) => views(steps, j));
    }
  }

  lemma NotifyTied(core: Core, core': Core, cfg: Config, sig: Signal, reason: Reason)
    requires Tied(core, cfg) && core'.rejects == NotifyReject(core, sig, reason).rejects && core'.orders == core.orders
    requires core'.pool.children == core.pool.children && core'.wheel == core.wheel
    ensures Tied(core', cfg)
  {
    TiesFrame(core, core'.(rejects := core.rejects), cfg);
    forall k | 0 <= k < |core'.rejects|
      ensures NamesOrder(core'.orders, core'.rejects[k])
    {
      if k < |core.rejects| {
        assert NamesOrder(core.orders, core.rejects[k]);
      }
    }
    forall s: nat, i: nat | TW.ActiveAt(core'.wheel, s, i)
      ensures EntryDated(core', cfg, s, core'.wheel.slots[s][i])
    {
      assert EntryDated(core, cfg, s, core.wheel.slots[s][i]);
    }
  }

  lemma SignalTied(core: Core, cfg: Config, sig: Signal, gateOk: bool, riskOk: bool, view: View)
    requires Tied(core, cfg) && Inv(core) && ViewOk(cfg, view) && sig.lots >= 0
    ensures Tied(OnSignal(core, cfg, sig, gateOk, riskOk, view), cfg)
  {
    var core' := OnSignal(core, cfg, sig, gateOk, riskOk, view);
    if !gateOk {
      NotifyTied(core, core', cfg, sig, GateBlock);
    } else if core.pool.parentFree == [] {
      NotifyTied(core, core', cfg, sig, ParentPoolExhausted);
    } else {
      var par := NewParent(core, cfg, sig, Top(core.pool.parentFree));
      EffectiveNonNegative(core, sig);
      if sig.instr < |core.pos| && par.leaves == 0 {
        NotifyTied(core, core', cfg, sig, ReduceOnlyViolation);
      } else if sig.instr >= |core.pos| || !riskOk {
        NotifyTied(core, core', cfg, sig, RiskReject);
      } else {
        OrderTied(core, cfg, sig, par, view);
      }
    }
  }

  lemma OrderTied(core: Core, cfg: Config, sig: Signal, par: Parent, view: View)
    requires Tied(core, cfg) && Inv(core) && ViewOk(cfg, view) && core.pool.parentFree != []
    requires par == NewParent(core, cfg, sig, Top(core.pool.parentFree)) && par.leaves > 0 && sig.instr < |core.pos|
    ensures var legs := LegsFor(cfg, view, par, par.leaves, sig.kind);
            Tied(if legs == [] then Refuse(core, par, sig, NoLiquidity)
                 else Dispatch(Admit(core, par), cfg, par.id, legs, view.now), cfg)
  {
    var legs := LegsFor(cfg, view, par, par.leaves, sig.kind);
    RoutesFit(cfg, view, par, sig.kind);
    if legs == [] {
      NotifyTied(core, Refuse(core, par, sig, NoLiquidity), cfg, sig, NoLiquidity);
    } else {
      AdmittedTied(core, cfg, par, legs, |view.venues|, view.now);
    }
  }

  lemma AdmittedTied(core: Core, cfg: Config, par: Parent, legs: seq<Leg>, venues: nat, now: nat)
    requires Tied(core, cfg) && Inv(core) && core.pool.parentFree != [] && par.id == Top(core.pool.parentFree)
    requires par.count == 0 && par.mask == NO_MASK && par.cum == 0 && par.total == par.leaves && par.leaves > 0
    requires par.instr < |core.pos| && par.serial == |core.orders| && par.avg == 0.0
    requires SplitOk(legs, par.dir, par.leaves, par.limit, venues)
    ensures Tied(Dispatch(Admit(core, par), cfg, par.id, legs, now), cfg)
  {
    AdmitKeeps(core, par);
    TiesFrame(core, Admit(core, par), cfg);
    ReadyToSend(Admit(core, par), par.id, legs, venues);
    DispatchTied(Admit(core, par), cfg, par.id, legs, now);
  }

  lemma StepTied(core: Core, cfg: Config, e: Event)
    requires Tied(core, cfg) && Inv(core) && EventOk(core, cfg, e)
    ensures Tied(Step(core, cfg, e), cfg)
  {
    match e
    case OrderEvent(sig, gateOk, riskOk, view) => SignalTied(core, cfg, sig, gateOk, riskOk, view);
    case ReportEvent(rep, view) => ReportTied(core, cfg, rep, view);
    case TickEvent(steps, views) => TickTied(core, cfg, steps, views);
    case UnwindEvent(instr, enabled) => TiesFrame(core, SetUnwind(core, instr, enabled), cfg);
  }

  lemma {:induction false} RunTied(core: Core, cfg: Config, events: seq<Event>, end: Core)
    requires Tied(core, cfg) && Inv(core) && IsRun(core, cfg, events, end)
    ensures Tied(end, cfg)
    decreases |events|
  {
    if events != [] {
      StepKeeps(core, cfg, events[0]);
      StepTied(core, cfg, events[0]);
      RunTied(Step(core, cfg, events[0]), cfg, events[1..], end);
    }
  }

  lemma ReachedTied(start: Core, cfg: Config, events: seq<Event>, core: Core)
    requires Reached(start, cfg, events, core)
    ensures Tied(core, cfg)
  {
    InitialHolds(start);
    forall s: nat, i: nat | TW.ActiveAt(start.wheel, s, i)
      ensures false
    {
      TW.ArmedAt(start.wheel, s, i);
    }
    RunTied(start, cfg, events, core);
  }

  // ----- Every signal is answered -----

  /** At most one reject was added, and if so it closes order `s`. */
  ghost predicate ClosesOnly(before: seq<Reject>, after: seq<Reject>, s: nat) {
    after == before ||
    (|after| == |before| + 1 && after[..|before|] == before && after[|before|].order == Some(s))
  }

  lemma {:induction false} SendFromRejects(core: Core, cfg: Config, p: nat, legs: seq<Leg>, i: nat, now: nat)
    ensures SendFrom(core, cfg, p, legs, i, now).0.rejects == core.rejects
    decreases |legs| - i
  {
    if CanSend(core, p, legs, i) {
      SendFromRejects(SendChild(core, cfg, p, i, legs[i], now), cfg, p, legs, i + 1, now);
    }
  }

  lemma DispatchRejects(core: Core, cfg: Config, p: nat, legs: seq<Leg>, now: nat)
    requires Sending(core, p, legs, 0)
    ensures ClosesOnly(core.rejects, Dispatch(core, cfg, p, legs, now).rejects, ParentAt(core.pool, p).serial)
  {
    SendFromRejects(core, cfg, p, legs, 0, now);
    SendFromTouchesOne(core, cfg, p, legs, 0, now);
  }

  /** The signal was turned down: one reject echoing it, and nothing else a later event could see. */
  ghost predicate TurnedDown(core: Core, sig: Signal, core': Core) {
    && |core'.rejects| == |core.rejects| + 1 && core'.rejects[..|core.rejects|] == core.rejects
    && (var r := core'.rejects[|core.rejects|];
        && r.instr == sig.instr && r.dir == sig.dir && r.strategy == sig.strategy && r.lots == sig.lots
        && r.order == None)
    && core'.orders == core.orders && core'.pos == core.pos && core'.wheel == core.wheel
    && core'.pool.parentFree == core.pool.parentFree && core'.pool.childFree == core.pool.childFree
    && core'.pool.children == core.pool.children
    && (forall p: nat :: Held(core.pool, p) ==> ParentAt(core'.pool, p) == ParentAt(core.pool, p))
  }

  lemma RefuseTurnsDown(core: Core, par: Parent, sig: Signal, reason: Reason)
    requires ListsOk(core.pool) && core.pool.parentFree != [] && par.id == Top(core.pool.parentFree)
    ensures TurnedDown(core, sig, Refuse(core, par, sig, reason))
  {
    AllocFreeRestores(core.pool, par.(state := OrderState.Rejected));
  }

  /**
   No signal is dropped silently: it is admitted, or turned down with exactly one reject
   that echoes what was asked for. An admission takes over the signal's limit in ticks and
   adds a reject only for its own order, when nothing of it could be sent.
   */
  lemma SignalAnswered(core: Core, cfg: Config, sig: Signal, gateOk: bool, riskOk: bool, view: View)
    requires Inv(core) && ViewOk(cfg, view) && sig.lots >= 0
    ensures var core' := OnSignal(core, cfg, sig, gateOk, riskOk, view);
            if |core'.orders| == |core.orders| then TurnedDown(core, sig, core')
            else
              && |core'.orders| == |core.orders| + 1 && ClosesOnly(core.rejects, core'.rejects, |core.orders|)
              && core'.orders[|core.orders|].limit == LimitFor(cfg, sig)
  {
    if gateOk && core.pool.parentFree != [] {
      var par := NewParent(core, cfg, sig, Top(core.pool.parentFree));
      EffectiveNonNegative(core, sig);
      RefuseTurnsDown(core, par, sig, ReduceOnlyViolation);
      RefuseTurnsDown(core, par, sig, RiskReject);
      RefuseTurnsDown(core, par, sig, NoLiquidity);
      if sig.instr < |core.pos| && par.leaves != 0 && riskOk {
        RoutedAnswered(core, cfg, sig, par, view);
      }
    }
  }

  lemma RoutedAnswered(core: Core, cfg: Config, sig: Signal, par: Parent, view: View)
    requires Inv(core) && ViewOk(cfg, view) && core.pool.parentFree != []
    requires par == NewParent(core, cfg, sig, Top(core.pool.parentFree)) && par.leaves > 0 && sig.instr < |core.pos|
    ensures var legs := LegsFor(cfg, view, par, par.leaves, sig.kind);
            var core' := Dispatch(Admit(core, par), cfg, par.id, legs, view.now);
            legs != [] ==>
              && |core'.orders| == |core.orders| + 1 && ClosesOnly(core.rejects, core'.rejects, |core.orders|)
              && core'.orders[|core.orders|].limit == LimitFor(cfg, sig)
  {
    var legs := LegsFor(cfg, view, par, par.leaves, sig.kind);
    RoutesFit(cfg, view, par, sig.kind);
    if legs != [] {
      AdmitKeeps(core, par);
      ReadyToSend(Admit(core, par), par.id, legs, |view.venues|);
      DispatchRejects(Admit(core, par), cfg, par.id, legs, view.now);
      DispatchEvolves(Admit(core, par), cfg, par.id, legs, view.now);
      DispatchTouchesOne(Admit(core, par), cfg, par.id, legs, view.now);
    }
  }

  // ----- What every run guarantees -----

  /** Every reject that closes an admitted order names that order's instrument and side, and says why. */
  lemma RejectsNameTheirOrder(start: Core, cfg: Config, events: seq<Event>, core: Core, k: nat)
    requires Reached(start, cfg, events, core) && k < |core.rejects| && core.rejects[k].order.Some?
    ensures var r := core.rejects[k];
            && r.order.value < |core.orders|
            && r.instr == core.orders[r.order.value].instr && r.dir == core.orders[r.order.value].dir
            && r.strategy == core.orders[r.order.value].strategy
            && (r.reason == NoLiquidity || r.reason == ChildPoolExhausted)
  {
    ReachedTied(start, cfg, events, core);
    assert NamesOrder(core.orders, core.rejects[k]);
  }

  /**
   Order timeouts on the wheel, from any reachable state: a live child's timer is due
   its own timeout after it was sent, and if in reach and not cancelled it fires within
   a tick of that, whatever timers come and go around it.
   */
  lemma TimeoutsFireOnTime(start: Core, cfg: Config, events: seq<Event>, core: Core,
                           s: nat, i: nat, steps: seq<TW.Step>, clock: nat, caller: nat)
    requires Reached(start, cfg, events, core) && TW.ActiveAt(core.wheel, s, i) && core.wheel.now <= clock
    requires TW.NeverDropped(steps, core.wheel.slots[s][i].cid)
    ensures var c := core.wheel.slots[s][i].cid;
            && Used(core.pool, c) && Live(ChildAt(core.pool, c))
            && core.wheel.slots[s][i].deadline == DueAt(cfg, ChildAt(core.pool, c))
    ensures var sc := TW.Scan(core.wheel, core.wheel.depth, clock);
            var due, tick := DueAt(cfg, ChildAt(core.pool, core.wheel.slots[s][i].cid)), core.wheel.tick;
            TW.InReach(sc, i, due) ==>
              && (match TW.Fired(sc, steps, s, i)
                  case Some((now, at)) => due < now + tick && now < due + tick && due < at + tick
                  case None => TW.ActiveAt(TW.Run(sc, steps).wheel, s, i))
              && (TW.CaughtUp(TW.Run(sc, steps), caller) && due + tick <= caller ==> TW.Fired(sc, steps, s, i).Some?)
  {
    ReachedInv(start, cfg, events, core);
    ReachedTied(start, cfg, events, core);
    TW.ArmedAt(core.wheel, s, i);
    assert EntryDated(core, cfg, s, core.wheel.slots[s][i]);
    var sc := TW.Scan(core.wheel, core.wheel.depth, clock);
    if TW.InReach(sc, i, core.wheel.slots[s][i].deadline) {
      TW.FiresOnTime(sc, steps, s, i, caller);
    }
  }
}
