/**
 The order lifecycle of oms/execution_core.cpp as functions on the state of the
 execution core: what each public call does to the pools, the positions, the timers
 and the reject queue. Class `ExecutionCore.Manager` runs the same steps in place.
 */
module Lifecycle {
  import opened Types
  import opened Books
  import opened Router
  import opened OrderPool
  import opened Positions
  import opened Accounts
  import TW = TimerWheel

  datatype Reason =
    | GateBlock | ParentPoolExhausted | ReduceOnlyViolation | RiskReject | NoLiquidity | ChildPoolExhausted

  /** An entry of the reject queue; `order` names the admitted order it closes, if it closes one. */
  datatype Reject = Reject(instr: nat, dir: Dir, strategy: nat, lots: int, reason: Reason, order: Option<nat>)

  /** The lots an admitted order was closed with, as the reject queue reports them. */
  function Returned(rejects: seq<Reject>, s: nat): int {
    if rejects == [] then 0
    else
      var last := rejects[|rejects| - 1];
      Returned(rejects[..|rejects| - 1], s) + if last.order == Some(s) then last.lots else 0
  }

  /** Everything the execution thread owns, plus the audit trail. */
  datatype Core = Core(
    pool: Pool, pos: seq<Position>, wheel: TW.Wheel, rejects: seq<Reject>, orders: seq<Account>)

  datatype Config = Config(tick: real, childTimeout: nat, makerTimeout: nat, lotSizes: seq<real>)

  /** What a call reads from the outside: the books and the clock at that moment. */
  datatype View = View(venues: seq<Venue>, now: nat)

  datatype Signal = Signal(
    instr: nat, dir: Dir, lots: int, limitUsd: real, kind: OrderType, reduceOnly: bool, strategy: nat)

  datatype ExecType = Ack | Fills(lots: int, ticks: int) | Cancels | Rejects | Replaces

  datatype Report = Report(cid: nat, exec: ExecType)

  /** All venues quote in the configured tick and their books are well formed. */
  predicate ViewOk(cfg: Config, view: View) {
    && cfg.tick > 0.0 && MarketOk(view.venues)
    && forall k :: 0 <= k < |view.venues| ==> view.venues[k].tick == cfg.tick
  }

  // ----- Small accessors -----

  function PosAt(core: Core, i: nat): Position {
    if i < |core.pos| then core.pos[i] else FLAT
  }

  function SetPos(core: Core, i: nat, pos: Position): Core {
    core.(pos := Put(core.pos, i, pos))
  }

  function AccountAt(core: Core, s: nat): Account {
    if s < |core.orders| then core.orders[s] else NO_ACCOUNT
  }

  function SetAccount(core: Core, s: nat, a: Account): Core {
    core.(orders := Put(core.orders, s, a))
  }

  function LotSize(cfg: Config, instr: nat): real {
    if instr < |cfg.lotSizes| && cfg.lotSizes[instr] > 0.0 then cfg.lotSizes[instr] else 0.001
  }

  /** `build_routing_context`. */
  function ContextFor(cfg: Config, view: View, par: Parent, target: int): Context {
    Context(view.venues, par.dir, target,
            if par.limit > 0 then par.limit as real * cfg.tick else 0.0, LotSize(cfg, par.instr))
  }

  /** Return part of the margin reservation made for a parent's order. */
  function ReleaseFor(core: Core, p: nat, lots: int): Core {
    var par := ParentAt(core.pool, p);
    var a := AccountAt(core, par.serial);
    SetAccount(SetPos(core, par.instr, Release(PosAt(core, par.instr), par.dir, lots)),
               par.serial, a.(reserved := a.reserved - lots))
  }

  // ----- Dispatch -----

  function ChildFor(par: Parent, leg: Leg, now: nat): Child {
    Child(par.id, if leg.slice.price > 0 then leg.slice.price else 0, leg.lots, 0, leg.lots,
          leg.slice.venue, leg.kind, par.dir, PendingNew, now)
  }

  function TimeoutFor(cfg: Config, leg: Leg): nat {
    if leg.kind == Maker then cfg.makerTimeout else cfg.childTimeout
  }

  /** One iteration of the dispatch loop: allocate a child, record it in slot `i`, arm its timer, send it. */
  function SendChild(core: Core, cfg: Config, p: nat, i: nat, leg: Leg, now: nat): (r: Core)
    requires core.pool.childFree != []
  {
    var par, c := ParentAt(core.pool, p), Top(core.pool.childFree);
    var ch := ChildFor(par, leg, now);
    var a := AccountAt(core, par.serial);
    SetAccount(core, par.serial, a.(sent := a.sent + [Sent(ch.venue, ch.dir, ch.kind, ch.price, ch.lots)]))
      .(pool := SetParent(SetChild(AllocChild(core.pool), c, ch), p, AddChild(par, i, c)),
        wheel := TW.Insert(core.wheel, c, now, TimeoutFor(cfg, leg)))
  }

  predicate CanSend(core: Core, p: nat, legs: seq<Leg>, i: nat) {
    i < |legs| && ParentAt(core.pool, p).count < MAX_KIDS && core.pool.childFree != []
  }

  function SendFrom(core: Core, cfg: Config, p: nat, legs: seq<Leg>, i: nat, now: nat): (Core, nat)
    decreases |legs| - i
  {
    if CanSend(core, p, legs, i)
    then SendFrom(SendChild(core, cfg, p, i, legs[i], now), cfg, p, legs, i + 1, now)
    else (core, i)
  }

  /** Close a parent that has no children: its unfilled lots go to the reject queue. */
  function Abandon(core: Core, p: nat, reason: Reason): Core {
    var par := ParentAt(core.pool, p);
    var a := AccountAt(core, par.serial);
    var done := par.(state := if par.cum > 0 then PartiallyFilled else OrderState.Rejected);
    SetAccount(core, par.serial, a.(holder := None))
      .(pool := FreeParent(SetParent(core.pool, p, done), p),
        rejects := core.rejects + [Reject(par.instr, par.dir, par.strategy, par.leaves, reason, Some(par.serial))])
  }

  /** After the loop: give back what could not be sent, and close the parent if nothing was. */
  function FinishDispatch(core: Core, p: nat, legs: seq<Leg>, sent: nat): Core {
    var gap := if sent < |legs| then SumLegs(legs[sent..]) else 0;
    var kept := if gap > 0 then ReleaseFor(core, p, gap) else core;
    if ParentAt(kept.pool, p).count == 0 then Abandon(kept, p, ChildPoolExhausted) else kept
  }

  /** `dispatch_child_orders`. */
  function Dispatch(core: Core, cfg: Config, p: nat, legs: seq<Leg>, now: nat): Core {
    var (out, sent) := SendFrom(core, cfg, p, legs, 0, now);
    FinishDispatch(out, p, legs, sent)
  }

  // ----- Admission -----

  /** Close a signal that never became an order: its parent goes straight back to the pool. */
  function Refuse(core: Core, par: Parent, sig: Signal, reason: Reason): Core
    requires core.pool.parentFree != []
  {
    var p := Top(core.pool.parentFree);
    NotifyReject(core, sig, reason)
      .(pool := FreeParent(SetParent(AllocParent(core.pool), p, par.(state := OrderState.Rejected)), p))
  }

  function NotifyReject(core: Core, sig: Signal, reason: Reason): Core {
    core.(rejects := core.rejects + [Reject(sig.instr, sig.dir, sig.strategy, sig.lots, reason, None)])
  }

  /** The reduce-only clamp on a signal; an instrument out of range is left to the risk check. */
  function EffectiveLots(core: Core, sig: Signal): int {
    if sig.instr < |core.pos| then ClampReduceOnly(core.pos[sig.instr], sig.dir, sig.lots, sig.reduceOnly) else sig.lots
  }

  predicate Constrained(core: Core, sig: Signal) {
    sig.instr < |core.pos| && (sig.reduceOnly || core.pos[sig.instr].unwind)
  }

  function LimitFor(cfg: Config, sig: Signal): nat
    requires cfg.tick > 0.0
  {
    if sig.limitUsd > 0.0 then
      assert sig.limitUsd / cfg.tick >= 0.0;
      Round(sig.limitUsd / cfg.tick)
    else 0
  }

  function NewParent(core: Core, cfg: Config, sig: Signal, id: nat): Parent
    requires cfg.tick > 0.0
  {
    var lots := EffectiveLots(core, sig);
    ParentRecord(id, sig.instr, sig.dir, New, sig.kind, Constrained(core, sig), sig.strategy,
                 lots, 0, lots, LimitFor(cfg, sig), 0.0, NO_SLOTS, NO_MASK, 0, |core.orders|)
  }

  function LegsFor(cfg: Config, view: View, par: Parent, target: int, kind: OrderType): seq<Leg>
    requires ViewOk(cfg, view)
  {
    var ctx := ContextFor(cfg, view, par, target);
    if kind == Maker then Place(ctx) else Split(ctx)
  }

  /** The point of admission: the parent goes live, its size is reserved, its account is opened. */
  function Admit(core: Core, par: Parent): Core
    requires core.pool.parentFree != []
  {
    var acct := Account(Some(par.id), par.instr, par.dir, par.strategy, par.limit, par.reduceOnly,
                          par.leaves, 0, 0.0, 0, par.leaves, false, []);
    SetPos(core, par.instr, Reserve(PosAt(core, par.instr), par.dir, par.leaves))
      .(pool := SetParent(AllocParent(core.pool), par.id, par.(state := PendingNew)),
        orders := core.orders + [acct])
  }

  /** `on_strategy_order`, with the notional gate's and the risk checks' verdicts as inputs. */
  function OnSignal(core: Core, cfg: Config, sig: Signal, gateOk: bool, riskOk: bool, view: View): Core
    requires ViewOk(cfg, view)
  {
    if !gateOk then NotifyReject(core, sig, GateBlock)
    else if core.pool.parentFree == [] then NotifyReject(core, sig, ParentPoolExhausted)
    else
      var par := NewParent(core, cfg, sig, Top(core.pool.parentFree));
      if sig.instr < |core.pos| && par.leaves == 0 then Refuse(core, par, sig, ReduceOnlyViolation)
      else if sig.instr >= |core.pos| || !riskOk then Refuse(core, par, sig, RiskReject)
      else
        var legs := LegsFor(cfg, view, par, par.leaves, sig.kind);
        if legs == [] then Refuse(core, par, sig, NoLiquidity)
        else Dispatch(Admit(core, par), cfg, par.id, legs, view.now)
  }

  // ----- Reroute -----

  /** Free the finished children and forget them. */
  function ClearChildren(core: Core, p: nat): Core {
    var par := ParentAt(core.pool, p);
    var a := AccountAt(core, par.serial);
    SetAccount(core, par.serial, a.(rerouted := true))
      .(pool := SetParent(FreeSlots(core.pool, par, 0, true), p, DropChildren(par)))
  }

  /** Re-clamp a reduce-only parent against the current position. */
  function Shrink(core: Core, p: nat): Core {
    var par := ParentAt(core.pool, p);
    var safe := ClampReduceOnly(PosAt(core, par.instr), par.dir, par.leaves, true);
    if !par.reduceOnly || safe >= par.leaves then core
    else CutLeaves(ReleaseFor(core, p, par.leaves - safe), p, par.leaves - safe)
  }

  function CutLeaves(core: Core, p: nat, excess: int): Core {
    var par := ParentAt(core.pool, p);
    var a := AccountAt(core, par.serial);
    SetAccount(core, par.serial, a.(shrunk := a.shrunk + excess))
      .(pool := SetParent(core.pool, p, par.(total := par.total - excess, leaves := par.leaves - excess)))
  }

  /** Nothing is left to reduce: the parent is done. */
  function CloseReduced(core: Core, p: nat): Core {
    var par := ParentAt(core.pool, p);
    var a := AccountAt(core, par.serial);
    var done := par.(state := if par.cum > 0 then OrderState.Filled else OrderState.Rejected);
    SetAccount(core, par.serial, a.(holder := None))
      .(pool := FreeParent(SetParent(core.pool, p, done), p))
  }

  function MarkPending(core: Core, p: nat): Core {
    core.(pool := SetParent(core.pool, p, ParentAt(core.pool, p).(state := PendingNew)))
  }

  /** `reroute_leaves`. */
  function Reroute(core: Core, cfg: Config, p: nat, view: View): Core
    requires ViewOk(cfg, view)
  {
    var cut := Shrink(ClearChildren(core, p), p);
    var par := ParentAt(cut.pool, p);
    if par.reduceOnly && par.leaves == 0 then CloseReduced(cut, p)
    else
      var legs := LegsFor(cfg, view, par, par.leaves, Taker);
      if legs == [] then Abandon(cut, p, NoLiquidity)
      else Dispatch(MarkPending(cut, p), cfg, p, legs, view.now)
  }

  // ----- Execution reports -----

  /** All lots are filled: free every child and the parent. */
  function CloseFilled(core: Core, p: nat): Core {
    var par := ParentAt(core.pool, p);
    var a := AccountAt(core, par.serial);
    SetAccount(core, par.serial, a.(holder := None))
      .(pool := FreeParent(FreeSlots(SetParent(core.pool, p, par.(state := OrderState.Filled)), par, 0, false), p))
  }

  function FilledChild(ch: Child, lots: int): Child {
    var leaves := ch.lots - (ch.cum + lots);
    ch.(cum := ch.cum + lots, leaves := leaves, state := if leaves == 0 then OrderState.Filled else PartiallyFilled)
  }

  /** The running volume-weighted average of a parent's fills. */
  function RunningAverage(cum: int, avg: real, lots: int, price: real): real {
    if cum > 0 && lots >= 0 then Blend(avg, cum as real, price, lots as real) else price
  }

  function FilledParent(par: Parent, lots: int, price: real): Parent {
    var cum := par.cum + lots;
    par.(cum := cum, leaves := par.total - cum, avg := RunningAverage(par.cum, par.avg, lots, price),
         state := if par.total == cum then OrderState.Filled else PartiallyFilled)
  }

  /** An account after a fill, which also uses up that much of its reservation. */
  function Credited(a: Account, lots: nat, price: real): Account {
    a.(filled := a.filled + lots, value := a.value + price * lots as real, reserved := a.reserved - lots)
  }

  /** The bookkeeping of one fill: child, timer, parent, position, reservation. */
  function BookFill(core: Core, c: nat, lots: nat, price: real): Core {
    var ch := ChildAt(core.pool, c);
    var par := ParentAt(core.pool, ch.parentId);
    var pos := Release(ApplyFill(PosAt(core, par.instr), Fill(par.dir, lots, price)), par.dir, lots);
    var a := AccountAt(core, par.serial);
    SetAccount(SetPos(core, par.instr, pos), par.serial, Credited(a, lots, price))
      .(pool := SetParent(SetChild(core.pool, c, FilledChild(ch, lots)), ch.parentId, FilledParent(par, lots, price)),
        wheel := TW.Cancel(core.wheel, c))
  }

  /** `handle_fill`. */
  function HandleFill(core: Core, cfg: Config, c: nat, lots: nat, price: real, view: View): Core
    requires ViewOk(cfg, view)
  {
    var p := ChildAt(core.pool, c).parentId;
    var booked := BookFill(core, c, lots, price);
    var par := ParentAt(booked.pool, p);
    if par.leaves == 0 then CloseFilled(booked, p)
    else if AllTerminal(booked.pool, par) then Reroute(booked, cfg, p, view)
    else booked
  }

  /** The bookkeeping of a cancel or reject: child, timer, reservation. */
  function BookCancel(core: Core, c: nat, state: OrderState): Core {
    var ch := ChildAt(core.pool, c);
    ReleaseFor(core.(pool := SetChild(core.pool, c, ch.(leaves := 0, state := state)),
                     wheel := TW.Cancel(core.wheel, c)),
               ch.parentId, ch.leaves)
  }

  /** `handle_cancel_reject`. */
  function HandleCancel(core: Core, cfg: Config, c: nat, state: OrderState, view: View): Core
    requires ViewOk(cfg, view)
  {
    var p := ChildAt(core.pool, c).parentId;
    var booked := BookCancel(core, c, state);
    var par := ParentAt(booked.pool, p);
    if par.leaves > 0 then
      if AllTerminal(booked.pool, par) then Reroute(booked, cfg, p, view) else booked
    else CloseFilled(booked, p)
  }

  function Acknowledge(core: Core, c: nat): Core {
    core.(pool := SetChild(core.pool, c, ChildAt(core.pool, c).(state := PendingNew)))
  }

  function FillPrice(cfg: Config, ticks: int): real {
    ticks as real * cfg.tick
  }

  /** `on_execution_report`. */
  function OnReport(core: Core, cfg: Config, rep: Report, view: View): Core
    requires ViewOk(cfg, view)
  {
    if rep.cid >= |core.pool.children| then core
    else if ChildAt(core.pool, rep.cid).parentId >= |core.pool.parents| then core
    else
      match rep.exec
      case Fills(lots, ticks) => if lots < 0 then core else HandleFill(core, cfg, rep.cid, lots, FillPrice(cfg, ticks), view)
      case Cancels => HandleCancel(core, cfg, rep.cid, OrderState.Canceled, view)
      case Rejects => HandleCancel(core, cfg, rep.cid, OrderState.Rejected, view)
      case Ack => Acknowledge(core, rep.cid)
      case Replaces => core
  }

  // ----- Timers -----

  /** The wheel's callback: a child that is still live is cancelled through the normal path. */
  function OnTimeout(core: Core, cfg: Config, c: nat, view: View): Core
    requires ViewOk(cfg, view)
  {
    if c >= |core.pool.children| || !Live(ChildAt(core.pool, c)) then core
    else OnReport(core, cfg, Report(c, Cancels), view)
  }

  /** One iteration of `check_slot`. */
  function CheckEntry(core: Core, cfg: Config, s: nat, i: nat, view: View): Core
    requires ViewOk(cfg, view)
  {
    if !TW.ActiveAt(core.wheel, s, i) then core
    else OnTimeout(core.(wheel := TW.Disarm(core.wheel, s, i)), cfg, core.wheel.slots[s][i].cid, view)
  }

  /** `check_slot` from entry `i` on; `views(i)` is the outside world at the i-th callback. */
  function CheckSlot(core: Core, cfg: Config, s: nat, i: nat, depth: nat, views: nat -> View): Core
    requires forall j :: ViewOk(cfg, views(j))
    decreases depth - i
  {
    if i >= depth then core
    else CheckSlot(CheckEntry(core, cfg, s, i, views(i)), cfg, s, i + 1, depth, views)
  }

  /** One step of the wheel's clock. */
  function AdvanceWheel(core: Core, cfg: Config, views: nat -> View): Core
    requires forall j :: ViewOk(cfg, views(j))
  {
    var w: TW.Wheel := core.wheel.(now := core.wheel.now + core.wheel.tick);
    CheckSlot(core.(wheel := w), cfg, TW.Current(w), 0, w.depth, views)
  }

  /** `tick`, as the number of clock steps it takes. */
  function Tick(core: Core, cfg: Config, steps: nat, views: (nat, nat) -> View): Core
    requires forall k, j :: ViewOk(cfg, views(k, j))
  {
    if steps == 0 then core
    else AdvanceWheel(Tick(core, cfg, steps - 1, views), cfg, (j: nat) => views(steps, j))
  }

  function SetUnwind(core: Core, i: nat, enabled: bool): Core {
    SetPos(core, i, PosAt(core, i).(unwind := enabled))
  }

  // ----- Runs -----

  datatype Event =
    | OrderEvent(sig: Signal, gateOk: bool, riskOk: bool, view: View)
    | ReportEvent(rep: Report, view: View)
    | TickEvent(steps: nat, views: (nat, nat) -> View)
    | UnwindEvent(instr: nat, enabled: bool)

  /** The environment's side of the bargain for one event in one state. */
  ghost predicate EventOk(core: Core, cfg: Config, e: Event) {
    match e
    case OrderEvent(sig, _, _, view) => ViewOk(cfg, view) && sig.lots >= 0
    case ReportEvent(rep, view) =>
      && ViewOk(cfg, view)
      && (rep.cid < |core.pool.children| ==> Used(core.pool, rep.cid) && Live(ChildAt(core.pool, rep.cid)))
      && (rep.cid < |core.pool.children| && rep.exec.Fills? ==>
            1 <= rep.exec.lots <= ChildAt(core.pool, rep.cid).leaves)
    case TickEvent(_, views) => forall k, j :: ViewOk(cfg, views(k, j))
    case UnwindEvent(_, _) => true
  }

  ghost function Step(core: Core, cfg: Config, e: Event): Core
    requires EventOk(core, cfg, e)
  {
    match e
    case OrderEvent(sig, gateOk, riskOk, view) => OnSignal(core, cfg, sig, gateOk, riskOk, view)
    case ReportEvent(rep, view) => OnReport(core, cfg, rep, view)
    case TickEvent(steps, views) => Tick(core, cfg, steps, views)
    case UnwindEvent(instr, enabled) => SetUnwind(core, instr, enabled)
  }

  /** A run: each event meets the environment's conditions in the state it arrives in. */
  ghost predicate IsRun(core: Core, cfg: Config, events: seq<Event>, end: Core)
    decreases |events|
  {
    if events == [] then end == core
    else EventOk(core, cfg, events[0]) && IsRun(Step(core, cfg, events[0]), cfg, events[1..], end)
  }
}
