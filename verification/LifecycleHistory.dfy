/**
 What no step can undo. The terms of an admitted order never change, its lots only
 move from leaves to one of the three outcomes, what was sent stays sent, a closed
 order stays exactly as it closed, and its reservation is never topped up.
 */
module LifecycleHistory {
  import opened Types
  import opened Router
  import opened OrderPool
  import opened Positions
  import opened Accounts
  import opened Lifecycle
  import opened LifecycleInvariant
  import opened LifecycleSteps
  import TW = TimerWheel

  ghost predicate Evolves(a: Account, b: Account) {
    && b.instr == a.instr && b.dir == a.dir && b.strategy == a.strategy && b.limit == a.limit && b.reduceOnly == a.reduceOnly
    && b.admitted == a.admitted && a.filled <= b.filled && a.shrunk <= b.shrunk
    && a.sent <= b.sent && (a.rerouted ==> b.rerouted)
    && b.filled + b.reserved <= a.filled + a.reserved
    && (b.holder == a.holder || b.holder == None)
    && (a.holder == None ==> b == a)
  }

  /** The same orders, each evolved. */
  ghost predicate Evolved(core: Core, core': Core) {
    && |core'.orders| == |core.orders| && |core'.pos| == |core.pos|
    && forall s: nat :: s < |core.orders| ==> Evolves(core.orders[s], core'.orders[s])
  }

  lemma EvolvedTrans(a: Core, b: Core, c: Core)
    requires Evolved(a, b) && Evolved(b, c)
    ensures Evolved(a, c)
  {
    forall s: nat | s < |a.orders|
      ensures Evolves(a.orders[s], c.orders[s])
    {
      assert Evolves(a.orders[s], b.orders[s]) && Evolves(b.orders[s], c.orders[s]);
    }
  }

  lemma OneEvolved(core: Core, core': Core, s: nat)
    requires |core'.pos| == |core.pos| && s < |core.orders|
    requires core'.orders == Put(core.orders, s, AccountAt(core', s)) && Evolves(core.orders[s], AccountAt(core', s))
    ensures Evolved(core, core')
  {
  }

  lemma ReleaseEvolves(core: Core, p: nat, lots: nat)
    requires AccountsOk(core) && Held(core.pool, p)
    ensures Evolved(core, ReleaseFor(core, p, lots))
  {
    HolderAccount(core, p);
    OneEvolved(core, ReleaseFor(core, p, lots), ParentAt(core.pool, p).serial);
  }

  lemma AbandonEvolves(core: Core, p: nat, reason: Reason)
    requires AccountsOk(core) && Held(core.pool, p) && ParentAt(core.pool, p).leaves >= 0
    ensures Evolved(core, Abandon(core, p, reason))
  {
    HolderAccount(core, p);
    OneEvolved(core, Abandon(core, p, reason), ParentAt(core.pool, p).serial);
  }

  lemma {:induction false} SendFromEvolves(core: Core, cfg: Config, p: nat, legs: seq<Leg>, i: nat, now: nat)
    requires Sending(core, p, legs, i)
    ensures Evolved(core, SendFrom(core, cfg, p, legs, i, now).0)
    decreases |legs| - i
  {
    if CanSend(core, p, legs, i) {
      var next := SendChild(core, cfg, p, i, legs[i], now);
      HolderAccount(core, p);
      OneEvolved(core, next, ParentAt(core.pool, p).serial);
      SendKeeps(core, cfg, p, legs, i, now);
      SendFromEvolves(next, cfg, p, legs, i + 1, now);
      EvolvedTrans(core, next, SendFrom(core, cfg, p, legs, i, now).0);
    }
  }

  lemma DispatchEvolves(core: Core, cfg: Config, p: nat, legs: seq<Leg>, now: nat)
    requires Sending(core, p, legs, 0)
    ensures Evolved(core, Dispatch(core, cfg, p, legs, now))
  {
    SendFromEvolves(core, cfg, p, legs, 0, now);
    SendFromKeeps(core, cfg, p, legs, 0, now);
    var (out, sent) := SendFrom(core, cfg, p, legs, 0, now);
    FinishEvolves(out, p, legs, sent);
    EvolvedTrans(core, out, FinishDispatch(out, p, legs, sent));
  }

  lemma FinishEvolves(out: Core, p: nat, legs: seq<Leg>, sent: nat)
    requires Sending(out, p, legs, sent)
    ensures Evolved(out, FinishDispatch(out, p, legs, sent))
  {
    LegsNonNegative(legs[sent..]);
    KidsNonNegative(out.pool, p);
    assert ParentOk(out.pool, p);
    var gap := if sent < |legs| then SumLegs(legs[sent..]) else 0;
    var kept := if gap > 0 then ReleaseFor(out, p, gap) else out;
    if gap > 0 {
      ReleaseEvolves(out, p, gap);
      ReleaseKeeps(out, p, gap);
    }
    assert kept.pool == out.pool && Mid(kept, p);
    AbandonEvolves(kept, p, ChildPoolExhausted);
    EvolvedTrans(out, kept, Abandon(kept, p, ChildPoolExhausted));
  }

  lemma RerouteEvolves(core: Core, cfg: Config, p: nat, view: View)
    requires ViewOk(cfg, view) && Mid(core, p) && Load(core.pool, p) == 0 && ParentAt(core.pool, p).leaves > 0
    ensures Evolved(core, Reroute(core, cfg, p, view))
  {
    var cleared := ClearChildren(core, p);
    var cut := Shrink(cleared, p);
    ClearKeeps(core, p);
    ShrinkKeeps(cleared, p);
    HolderAccount(core, p);
    OneEvolved(core, cleared, ParentAt(core.pool, p).serial);
    ShrinkEvolves(cleared, p);
    EvolvedTrans(core, cleared, cut);
    var par := ParentAt(cut.pool, p);
    assert ParentOk(cut.pool, p);
    HolderAccount(cut, p);
    OneEvolved(cut, CloseReduced(cut, p), par.serial);
    if par.leaves > 0 {
      RerouteOnEvolves(cut, cfg, p, view);
    }
    EvolvedTrans(core, cut, Reroute(core, cfg, p, view));
  }

  lemma ShrinkEvolves(core: Core, p: nat)
    requires Mid(core, p) && Load(core.pool, p) == 0 && AccountAt(core, ParentAt(core.pool, p).serial).rerouted
    ensures Evolved(core, Shrink(core, p))
  {
    var par := ParentAt(core.pool, p);
    var safe := ClampReduceOnly(PosAt(core, par.instr), par.dir, par.leaves, true);
    if par.reduceOnly && safe < par.leaves {
      CutEvolves(core, p, par.leaves - safe);
    }
  }

  lemma CutEvolves(core: Core, p: nat, excess: nat)
    requires Mid(core, p) && AccountAt(core, ParentAt(core.pool, p).serial).rerouted
    ensures Evolved(core, CutLeaves(ReleaseFor(core, p, excess), p, excess))
  {
    var cut := ReleaseFor(core, p, excess);
    ReleaseEvolves(core, p, excess);
    ReleaseKeeps(core, p, excess);
    HolderAccount(cut, p);
    OneEvolved(cut, CutLeaves(cut, p, excess), ParentAt(cut.pool, p).serial);
    EvolvedTrans(core, cut, CutLeaves(cut, p, excess));
  }

  lemma RerouteOnEvolves(cut: Core, cfg: Config, p: nat, view: View)
    requires ViewOk(cfg, view) && Mid(cut, p) && Load(cut.pool, p) == 0
    requires ParentAt(cut.pool, p).count == 0 && ParentAt(cut.pool, p).leaves > 0
    requires AccountAt(cut, ParentAt(cut.pool, p).serial).rerouted
    ensures var legs := LegsFor(cfg, view, ParentAt(cut.pool, p), ParentAt(cut.pool, p).leaves, Taker);
            Evolved(cut, if legs == [] then Abandon(cut, p, NoLiquidity)
                         else Dispatch(MarkPending(cut, p), cfg, p, legs, view.now))
  {
    var par := ParentAt(cut.pool, p);
    var legs := LegsFor(cfg, view, par, par.leaves, Taker);
    RoutesFit(cfg, view, par, Taker);
    if legs == [] {
      AbandonEvolves(cut, p, NoLiquidity);
    } else {
      MarkKeeps(cut, p);
      ReadyToSend(MarkPending(cut, p), p, legs, |view.venues|);
      DispatchEvolves(MarkPending(cut, p), cfg, p, legs, view.now);
    }
  }

  lemma SettleEvolves(booked: Core, cfg: Config, p: nat, view: View)
    requires ViewOk(cfg, view) && Mid(booked, p)
    ensures Evolved(booked, CloseFilled(booked, p)) && Evolved(booked, booked)
    ensures var par := ParentAt(booked.pool, p);
            par.leaves > 0 && AllTerminal(booked.pool, par) ==> Evolved(booked, Reroute(booked, cfg, p, view))
  {
    HolderAccount(booked, p);
    OneEvolved(booked, CloseFilled(booked, p), ParentAt(booked.pool, p).serial);
    LoadZeroIffAllTerminal(booked.pool, p);
    if ParentAt(booked.pool, p).leaves > 0 && AllTerminal(booked.pool, ParentAt(booked.pool, p)) {
      RerouteEvolves(booked, cfg, p, view);
    }
  }

  lemma FillEvolves(core: Core, cfg: Config, c: nat, lots: nat, price: real, view: View)
    requires Inv(core) && ViewOk(cfg, view) && Used(core.pool, c) && Live(ChildAt(core.pool, c))
    requires 1 <= lots <= ChildAt(core.pool, c).leaves
    ensures Evolved(core, HandleFill(core, cfg, c, lots, price, view))
  {
    var p, booked := ChildAt(core.pool, c).parentId, BookFill(core, c, lots, price);
    FillKeeps(core, c, lots, price);
    assert Held(core.pool, p);
    HolderAccount(core, p);
    OneEvolved(core, booked, ParentAt(core.pool, p).serial);
    SettleKeeps(booked, cfg, p, view);
    SettleEvolves(booked, cfg, p, view);
    EvolvedTrans(core, booked, HandleFill(core, cfg, c, lots, price, view));
  }

  lemma CancelEvolves(core: Core, cfg: Config, c: nat, state: OrderState, view: View)
    requires Inv(core) && ViewOk(cfg, view) && Used(core.pool, c) && Live(ChildAt(core.pool, c))
    requires state == OrderState.Canceled || state == OrderState.Rejected
    ensures Evolved(core, HandleCancel(core, cfg, c, state, view))
  {
    var p, booked := ChildAt(core.pool, c).parentId, BookCancel(core, c, state);
    CancelKeeps(core, c, state);
    assert Held(core.pool, p) && ChildOk(ChildAt(core.pool, c));
    HolderAccount(core, p);
    OneEvolved(core, booked, ParentAt(core.pool, p).serial);
    SettleEvolves(booked, cfg, p, view);
    EvolvedTrans(core, booked, HandleCancel(core, cfg, c, state, view));
  }

  lemma ReportEvolves(core: Core, cfg: Config, rep: Report, view: View)
    requires Inv(core) && EventOk(core, cfg, ReportEvent(rep, view))
    ensures Evolved(core, OnReport(core, cfg, rep, view))
  {
    if rep.cid < |core.pool.children| && ChildAt(core.pool, rep.cid).parentId < |core.pool.parents| {
      match rep.exec
      case Fills(lots, ticks) => FillEvolves(core, cfg, rep.cid, lots, FillPrice(cfg, ticks), view);
      case Cancels => CancelEvolves(core, cfg, rep.cid, OrderState.Canceled, view);
      case Rejects => CancelEvolves(core, cfg, rep.cid, OrderState.Rejected, view);
      case Ack =>
      case Replaces =>
    }
  }

  lemma {:induction false} CheckSlotEvolves(core: Core, cfg: Config, s: nat, i: nat, depth: nat, views: nat -> View)
    requires Inv(core) && forall j :: ViewOk(cfg, views(j))
    ensures Evolved(core, CheckSlot(core, cfg, s, i, depth, views))
    decreases depth - i
  {
    if i < depth {
      var next := CheckEntry(core, cfg, s, i, views(i));
      CheckEntryKeeps(core, cfg, s, i, views(i));
      CheckEntryEvolves(core, cfg, s, i, views(i));
      CheckSlotEvolves(next, cfg, s, i + 1, depth, views);
      EvolvedTrans(core, next, CheckSlot(core, cfg, s, i, depth, views));
    }
  }

  lemma CheckEntryEvolves(core: Core, cfg: Config, s: nat, i: nat, view: View)
    requires Inv(core) && ViewOk(cfg, view)
    ensures Evolved(core, CheckEntry(core, cfg, s, i, view))
  {
    if TW.ActiveAt(core.wheel, s, i) {
      var c := core.wheel.slots[s][i].cid;
      TW.ArmedAt(core.wheel, s, i);
      TW.DisarmRemoves(core.wheel, s, i);
      var core' := core.(wheel := TW.Disarm(core.wheel, s, i));
      WheelOnlyKeeps(core, core');
      ReportEvolves(core', cfg, Report(c, Cancels), view);
    }
  }

  lemma AdvanceEvolves(core: Core, cfg: Config, views: nat -> View)
    requires Inv(core) && forall j :: ViewOk(cfg, views(j))
    ensures Evolved(core, AdvanceWheel(core, cfg, views))
  {
    var w: TW.Wheel := core.wheel.(now := core.wheel.now + core.wheel.tick);
    ClockOnly(core.wheel, w);
    WheelOnlyKeeps(core, core.(wheel := w));
    CheckSlotEvolves(core.(wheel := w), cfg, TW.Current(w), 0, w.depth, views);
  }

  lemma {:induction false} TickEvolves(core: Core, cfg: Config, steps: nat, views: (nat, nat) -> View)
    requires Inv(core) && forall k, j :: ViewOk(cfg, views(k, j))
    ensures Evolved(core, Tick(core, cfg, steps, views))
  {
    if steps > 0 {
      var prev := Tick(core, cfg, steps - 1, views);
      TickEvolves(core, cfg, steps - 1, views);
      TickKeeps(core, cfg, steps - 1, views);
      AdvanceEvolves(prev, cfg, (j: nat) => views(steps, j));
      EvolvedTrans(core, prev, Tick(core, cfg, steps, views));
    }
  }

  /** A signal admits at most one order, on its own instrument and side, for at most its clamped size. */
  ghost predicate AdmitsAtMostOne(core: Core, sig: Signal, core': Core) {
    && |core.orders| <= |core'.orders| <= |core.orders| + 1 && |core'.pos| == |core.pos|
    && (forall s: nat :: s < |core.orders| ==> core'.orders[s] == core.orders[s])
    && (|core'.orders| > |core.orders| ==>
          var a := core'.orders[|core.orders|];
          && sig.instr < |core.pos| && a.instr == sig.instr && a.dir == sig.dir && a.strategy == sig.strategy
          && a.reduceOnly == Constrained(core, sig)
          && a.admitted == EffectiveLots(core, sig) && a.admitted > 0 && a.filled == 0 && !a.rerouted
          && a.filled + a.reserved <= a.admitted)
  }

  lemma SignalAdmits(core: Core, cfg: Config, sig: Signal, gateOk: bool, riskOk: bool, view: View)
    requires Inv(core) && ViewOk(cfg, view) && sig.lots >= 0
    ensures AdmitsAtMostOne(core, sig, OnSignal(core, cfg, sig, gateOk, riskOk, view))
  {
    if gateOk && core.pool.parentFree != [] {
      var par := NewParent(core, cfg, sig, Top(core.pool.parentFree));
      EffectiveNonNegative(core, sig);
      if sig.instr < |core.pos| && par.leaves != 0 && riskOk {
        var legs := LegsFor(cfg, view, par, par.leaves, sig.kind);
        RoutesFit(cfg, view, par, sig.kind);
        if legs != [] {
          OrderAdmits(core, cfg, sig, par, legs, view);
        }
      }
    }
  }

  lemma OrderAdmits(core: Core, cfg: Config, sig: Signal, par: Parent, legs: seq<Leg>, view: View)
    requires Inv(core) && cfg.tick > 0.0 && core.pool.parentFree != [] && sig.instr < |core.pos|
    requires par == NewParent(core, cfg, sig, Top(core.pool.parentFree)) && par.leaves > 0
    requires SplitOk(legs, par.dir, par.leaves, par.limit, |view.venues|)
    ensures AdmitsAtMostOne(core, sig, Dispatch(Admit(core, par), cfg, par.id, legs, view.now))
  {
    var admitted := Admit(core, par);
    AdmitKeeps(core, par);
    ReadyToSend(admitted, par.id, legs, |view.venues|);
    DispatchEvolves(admitted, cfg, par.id, legs, view.now);
    DispatchTouchesOne(admitted, cfg, par.id, legs, view.now);
  }

  /** Dispatch writes to the account of its own order only, fills nothing and reroutes nothing. */
  ghost predicate SendsOnly(core: Core, core': Core, s: nat) {
    && |core'.orders| == |core.orders| && s < |core.orders|
    && (forall t: nat :: t < |core.orders| && t != s ==> core'.orders[t] == core.orders[t])
    && core'.orders[s].filled == core.orders[s].filled && core'.orders[s].rerouted == core.orders[s].rerouted
  }

  lemma {:induction false} SendFromTouchesOne(core: Core, cfg: Config, p: nat, legs: seq<Leg>, i: nat, now: nat)
    requires Sending(core, p, legs, i)
    ensures SendsOnly(core, SendFrom(core, cfg, p, legs, i, now).0, ParentAt(core.pool, p).serial)
    ensures ParentAt(SendFrom(core, cfg, p, legs, i, now).0.pool, p).serial == ParentAt(core.pool, p).serial
    decreases |legs| - i
  {
    HolderAccount(core, p);
    if CanSend(core, p, legs, i) {
      SendKeeps(core, cfg, p, legs, i, now);
      SendPool(core, cfg, p, legs, i, now);
      SendFromTouchesOne(SendChild(core, cfg, p, i, legs[i], now), cfg, p, legs, i + 1, now);
    }
  }

  lemma DispatchTouchesOne(core: Core, cfg: Config, p: nat, legs: seq<Leg>, now: nat)
    requires Sending(core, p, legs, 0)
    ensures SendsOnly(core, Dispatch(core, cfg, p, legs, now), ParentAt(core.pool, p).serial)
  {
    SendFromTouchesOne(core, cfg, p, legs, 0, now);
    var (out, sent) := SendFrom(core, cfg, p, legs, 0, now);
    FinishTouchesOne(out, p, legs, sent);
  }

  lemma FinishTouchesOne(out: Core, p: nat, legs: seq<Leg>, sent: nat)
    requires ParentAt(out.pool, p).serial < |out.orders|
    ensures SendsOnly(out, FinishDispatch(out, p, legs, sent), ParentAt(out.pool, p).serial)
  {
  }

  /** One event, any event: old orders evolve, and only an admission adds one. */
  lemma StepEvolves(core: Core, cfg: Config, e: Event)
    requires Inv(core) && EventOk(core, cfg, e)
    ensures var core' := Step(core, cfg, e);
            && |core.orders| <= |core'.orders| && |core'.pos| == |core.pos|
            && (forall s: nat :: s < |core.orders| ==> Evolves(core.orders[s], core'.orders[s]))
  {
    match e
    case OrderEvent(sig, gateOk, riskOk, view) => SignalAdmits(core, cfg, sig, gateOk, riskOk, view);
    case ReportEvent(rep, view) => ReportEvolves(core, cfg, rep, view);
    case TickEvent(steps, views) => TickEvolves(core, cfg, steps, views);
    case UnwindEvent(instr, enabled) =>
  }

  lemma {:induction false} RunEvolves(core: Core, cfg: Config, events: seq<Event>, end: Core)
    requires Inv(core) && IsRun(core, cfg, events, end)
    ensures |core.orders| <= |end.orders| && |end.pos| == |core.pos|
    ensures forall s: nat :: s < |core.orders| ==> Evolves(core.orders[s], end.orders[s])
    decreases |events|
  {
    if events != [] {
      var mid := Step(core, cfg, events[0]);
      StepKeeps(core, cfg, events[0]);
      StepEvolves(core, cfg, events[0]);
      RunEvolves(mid, cfg, events[1..], end);
      forall s: nat | s < |core.orders|
        ensures Evolves(core.orders[s], end.orders[s])
      {
        assert Evolves(core.orders[s], mid.orders[s]) && Evolves(mid.orders[s], end.orders[s]);
      }
    }
  }
}
