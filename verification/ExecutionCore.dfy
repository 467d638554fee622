/**
 The execution core as the source runs it: event handlers that update the pools, the
 position table, the timer wheel and the child buffer in place, with the source's
 loops. Each handler is held to the function of the same step in `Lifecycle`, so all
 that is proved of those functions holds of the object.
 */
module ExecutionCore {
  import opened Types
  import opened Router
  import opened RoutingEngine
  import opened OrderPool
  import opened OrderPoolObject
  import opened Positions
  import opened Accounts
  import opened Lifecycle
  import opened LifecycleInvariant
  import opened LifecycleSteps
  import TW = TimerWheel
  import TimerWheelObject

  class Manager {
    const cfg: Config
    const pool: Pools
    const table: PositionTable
    const timers: TimerWheelObject.Ring
    const sor: Engine
    const buffer: ChildOrderBuffer
    var rejects: seq<Reject>
    var orders: seq<Account>

    /** Everything a handler may write; only `Tick` moves the wheel's clock. */
    ghost function Work(): set<object> {
      {this, pool, pool.parents, pool.children, pool.parentFree, pool.childFree, table.instruments, timers.slots,
       sor, sor.workspace, buffer, buffer.orders}
    }

    ghost predicate Valid()
      reads Work(), timers
    {
      pool.Valid() && timers.Valid() && sor.Valid() && buffer.Valid() && timers !in Work()
    }

    ghost function State(): Core
      reads Work(), timers
      requires Valid()
    {
      Core(pool.Value(), table.instruments[..], timers.Value(), rejects, orders)
    }

    constructor (cfg: Config, maxParents: nat, maxChildren: nat, instruments: nat,
                 slots: nat, depth: nat, tick: nat, now: nat)
      requires slots > 0 && tick > 0
      ensures Valid() && Initial(State()) && this.cfg == cfg
    {
      this.cfg := cfg;
      pool := new Pools(maxParents, maxChildren);
      table := new PositionTable(instruments);
      timers := new TimerWheelObject.Ring(slots, depth, tick, now);
      sor := new Engine();
      buffer := new ChildOrderBuffer();
      rejects := [];
      orders := [];
      new;
      forall s: nat, i: nat
        ensures !TW.ActiveAt(timers.Value(), s, i)
      {
      }
      forall p: nat | p < |State().pool.parents|
        ensures Compact(State().pool.parents[p])
      {
        assert State().pool.parents[p] == BLANK_PARENT;
      }
    }

    /** The audit record of an admitted order. */
    function AccountOf(s: nat): Account
      reads this
    {
      if s < |orders| then orders[s] else NO_ACCOUNT
    }

    // ----- Single writes, seen as changes of the whole state -----

    method PutChild(c: nat, ch: Child)
      requires Valid() && c < pool.children.Length
      modifies pool.children
      ensures Valid() && State() == old(State()).(pool := SetChild(old(State()).pool, c, ch))
    {
      pool.WriteChild(c, ch);
    }

    method PutParent(p: nat, par: Parent)
      requires Valid() && p < pool.parents.Length
      modifies pool.parents
      ensures Valid() && State() == old(State()).(pool := SetParent(old(State()).pool, p, par))
    {
      pool.WriteParent(p, par);
    }

    method PutAccount(s: nat, a: Account)
      requires Valid()
      modifies this`orders
      ensures Valid() && State() == SetAccount(old(State()), s, a)
    {
      orders := Put(orders, s, a);
    }

    method ArmTimer(c: nat, now: nat, timeout: nat)
      requires Valid()
      modifies timers.slots
      ensures Valid() && State() == old(State()).(wheel := TW.Insert(old(State()).wheel, c, now, timeout))
    {
      var armed := timers.Insert(c, now, timeout);
    }

    method DropTimer(c: nat)
      requires Valid()
      modifies timers.slots
      ensures Valid() && State() == old(State()).(wheel := TW.Cancel(old(State()).wheel, c))
    {
      timers.Cancel(c);
    }

    method ReturnId(p: nat)
      requires Valid() && pool.parentTop < pool.parentFree.Length
      modifies pool`parentTop, pool.parentFree
      ensures Valid() && State() == old(State()).(pool := FreeParent(old(State()).pool, p))
    {
      pool.ReturnParent(p);
    }

    method ReturnKids(par: Parent, onlyTerminal: bool)
      requires Valid() && Compact(par)
      requires |FreeSlots(pool.Value(), par, 0, onlyTerminal).childFree| <= pool.children.Length
      requires forall s :: 0 <= s < MAX_KIDS && HasChild(par, s) ==> par.slots[s] < pool.children.Length
      modifies pool`childTop, pool.childFree
      ensures Valid() && State() == old(State()).(pool := FreeSlots(old(State()).pool, par, 0, onlyTerminal))
    {
      pool.ReturnSlots(par, onlyTerminal);
    }

    /** Put a parent's last record in place and return it to the pool. */
    method CloseParent(p: nat, done: Parent)
      requires Valid() && p < pool.parents.Length && pool.parentTop < pool.parentFree.Length
      modifies this`orders, pool`parentTop, pool.parents, pool.parentFree
      ensures Valid()
      ensures var core := old(State());
              State() == SetAccount(core, done.serial, AccountAt(core, done.serial).(holder := None))
                           .(pool := FreeParent(SetParent(core.pool, p, done), p))
    {
      PutParent(p, done);
      ReturnId(p);
      PutAccount(done.serial, AccountOf(done.serial).(holder := None));
    }

    // ----- Dispatch -----

    method ReleaseOpen(p: nat, lots: int)
      requires Valid() && p < pool.parents.Length && pool.parents[p].instr < table.instruments.Length
      modifies this`orders, table.instruments
      ensures Valid() && State() == ReleaseFor(old(State()), p, lots)
    {
      var par := pool.parents[p];
      var a := AccountOf(par.serial);
      table.ReleaseOpen(par.instr, par.dir, lots);
      orders := Put(orders, par.serial, a.(reserved := a.reserved - lots));
    }

    /** One iteration of the dispatch loop; false when the parent is full or the child pool is empty. */
    method SendNext(p: nat, i: nat, now: nat) returns (ok: bool)
      requires Valid() && i < buffer.count && p < pool.parents.Length && ListsOk(pool.Value())
      modifies this`orders, pool`childTop, pool.children, pool.parents, timers.slots
      ensures Valid() && buffer.Legs() == old(buffer.Legs())
      ensures ok == CanSend(old(State()), p, buffer.Legs(), i)
      ensures State() == if ok then SendChild(old(State()), cfg, p, i, buffer.Legs()[i], now) else old(State())
    {
      var par := pool.parents[p];
      if par.count >= MAX_KIDS {
        return false;
      }
      var leg := buffer.orders[i];
      var id := pool.TakeChild();
      if id == None {
        return false;
      }
      SendLeg(p, par, i, id.value, leg, now);
      return true;
    }

    /** Record the child in its slot, arm its timer, send it. */
    method SendLeg(p: nat, par: Parent, i: nat, c: nat, leg: Leg, now: nat)
      requires Valid() && p < pool.parents.Length && c < pool.children.Length
      modifies this`orders, pool.children, pool.parents, timers.slots
      ensures Valid()
      ensures var core, ch := old(State()), ChildFor(par, leg, now);
              var a := AccountAt(core, par.serial);
              State() == SetAccount(core, par.serial, a.(sent := a.sent + [Sent(ch.venue, ch.dir, ch.kind, ch.price, ch.lots)]))
                           .(pool := SetParent(SetChild(core.pool, c, ch), p, AddChild(par, i, c)),
                             wheel := TW.Insert(core.wheel, c, now, TimeoutFor(cfg, leg)))
    {
      var ch := ChildFor(par, leg, now);
      var a := AccountOf(par.serial);
      PutChild(c, ch);
      PutParent(p, AddChild(par, i, c));
      ArmTimer(c, now, TimeoutFor(cfg, leg));
      PutAccount(par.serial, a.(sent := a.sent + [Sent(ch.venue, ch.dir, ch.kind, ch.price, ch.lots)]));
    }

    /** Report an admitted but childless parent's unfilled lots and release it. */
    method AbandonParent(p: nat, reason: Reason)
      requires Valid() && p < pool.parents.Length && pool.parentTop < pool.parentFree.Length
      modifies this`orders, this`rejects, pool`parentTop, pool.parents, pool.parentFree
      ensures Valid() && State() == Abandon(old(State()), p, reason)
    {
      var par := pool.parents[p];
      rejects := rejects + [Reject(par.instr, par.dir, par.strategy, par.leaves, reason, Some(par.serial))];
      CloseParent(p, par.(state := if par.cum > 0 then PartiallyFilled else OrderState.Rejected));
    }

    /** One iteration inside the loop: what is out plus what is still to send keeps fitting the order. */
    method TrySend(p: nat, i: nat, now: nat) returns (ok: bool, next: nat)
      requires Valid() && i < buffer.count && Sending(State(), p, buffer.Legs(), i)
      modifies this`orders, pool`childTop, pool.children, pool.parents, timers.slots
      ensures Valid() && buffer.Legs() == old(buffer.Legs())
      ensures next == (if ok then i + 1 else i) && Sending(State(), p, buffer.Legs(), next)
      ensures SendFrom(State(), cfg, p, buffer.Legs(), next, now) == SendFrom(old(State()), cfg, p, buffer.Legs(), i, now)
      ensures !ok ==> !CanSend(State(), p, buffer.Legs(), i)
    {
      ghost var before := State();
      assert ListsOk(before.pool);
      ok := SendNext(p, i, now);
      next := if ok then i + 1 else i;
      if ok {
        SendKeeps(before, cfg, p, buffer.Legs(), i, now);
      }
    }

    /** The dispatch loop: stops early when the parent is full or the child pool is empty. */
    method SendAll(p: nat, now: nat) returns (i: nat)
      requires Valid() && Sending(State(), p, buffer.Legs(), 0)
      modifies this`orders, pool`childTop, pool.children, pool.parents, timers.slots
      ensures Valid() && buffer.Legs() == old(buffer.Legs())
      ensures (State(), i) == SendFrom(old(State()), cfg, p, buffer.Legs(), 0, now)
    {
      ghost var legs, start := buffer.Legs(), State();
      i := 0;
      var more := true;
      while more && i < buffer.count
        invariant Valid() && buffer.Legs() == legs && 0 <= i <= buffer.count && Sending(State(), p, legs, i)
        invariant SendFrom(State(), cfg, p, legs, i, now) == SendFrom(start, cfg, p, legs, 0, now)
        invariant !more ==> !CanSend(State(), p, legs, i)
        decreases more, buffer.count - i
      {
        more, i := TrySend(p, i, now);
      }
    }

    /** `dispatch_child_orders`. */
    method DispatchChildOrders(p: nat, now: nat)
      requires Valid() && Sending(State(), p, buffer.Legs(), 0)
      modifies Work()
      ensures Valid() && State() == Dispatch(old(State()), cfg, p, old(buffer.Legs()), now)
    {
      SendFromKeeps(State(), cfg, p, buffer.Legs(), 0, now);
      var sent := SendAll(p, now);
      FinishSending(p, sent);
    }

    method FinishSending(p: nat, sent: nat)
      requires Valid() && sent <= buffer.count && Sending(State(), p, buffer.Legs(), sent)
      modifies Work()
      ensures Valid() && State() == FinishDispatch(old(State()), p, old(buffer.Legs()), sent)
    {
      ReleaseGapKeeps(State(), p, buffer.Legs(), sent);
      var gap := UnsentLots(sent);
      if gap > 0 {
        ReleaseOpen(p, gap);
      }
      if pool.parents[p].count == 0 {
        AbandonParent(p, ChildPoolExhausted);
      }
    }

    /** The lots of the legs that never made it out. */
    method UnsentLots(sent: nat) returns (gap: int)
      requires buffer.Valid() && sent <= buffer.count
      ensures gap == if sent < buffer.count then SumLegs(buffer.Legs()[sent..]) else 0
    {
      ghost var legs := buffer.Legs();
      gap := 0;
      var j := sent;
      assert sent == |legs| ==> legs[sent..] == [];
      while j < buffer.count
        invariant sent <= j <= buffer.count && gap + SumLegs(legs[j..]) == SumLegs(legs[sent..])
      {
        assert legs[j..][1..] == legs[j + 1..] && legs[j..][0] == buffer.orders[j];
        gap := gap + buffer.orders[j].lots;
        j := j + 1;
      }
    }

    // ----- Admission -----

    method Notify(sig: Signal, reason: Reason)
      requires Valid()
      modifies this`rejects
      ensures Valid() && State() == NotifyReject(old(State()), sig, reason)
    {
      rejects := rejects + [Reject(sig.instr, sig.dir, sig.strategy, sig.lots, reason, None)];
    }

    /** Release the parent just allocated for a signal that is not admitted. */
    method RefuseSignal(p: nat, par: Parent, sig: Signal, reason: Reason, ghost before: Core)
      requires Valid() && p < pool.parents.Length && pool.parentTop < pool.parentFree.Length
      requires before.pool.parentFree != [] && p == Top(before.pool.parentFree)
      requires State() == before.(pool := AllocParent(before.pool))
      modifies this`rejects, pool`parentTop, pool.parents, pool.parentFree
      ensures Valid() && State() == Refuse(before, par, sig, reason)
    {
      pool.WriteParent(p, par.(state := OrderState.Rejected));
      pool.ReturnParent(p);
      Notify(sig, reason);
    }

    /** `on_strategy_order`, with the verdicts of the notional gate and of the risk checks given. */
    method OnStrategyOrder(sig: Signal, gateOk: bool, riskOk: bool, view: View)
      requires Valid() && Inv(State()) && ViewOk(cfg, view) && sig.lots >= 0
      modifies Work()
      ensures Valid() && State() == OnSignal(old(State()), cfg, sig, gateOk, riskOk, view) && Inv(State())
    {
      ghost var before := State();
      SignalKeeps(before, cfg, sig, gateOk, riskOk, view);
      if !gateOk {
        Notify(sig, GateBlock);
        return;
      }
      var id := pool.TakeParent();
      if id == None {
        Notify(sig, ParentPoolExhausted);
        return;
      }
      var p := id.value;
      var instrOk := sig.instr < table.instruments.Length;
      var lots := sig.lots;
      var constrained := false;
      if instrOk {
        lots := ClampReduceOnly(table.instruments[sig.instr], sig.dir, sig.lots, sig.reduceOnly);
        constrained := sig.reduceOnly || table.instruments[sig.instr].unwind;
      }
      var par: Parent := ParentRecord(p, sig.instr, sig.dir, New, sig.kind, constrained, sig.strategy,
                                      lots, 0, lots, LimitFor(cfg, sig), 0.0, NO_SLOTS, NO_MASK, 0, |orders|);
      EffectiveNonNegative(before, sig);
      if instrOk && lots == 0 {
        RefuseSignal(p, par, sig, ReduceOnlyViolation, before);
      } else if !instrOk || !riskOk {
        RefuseSignal(p, par, sig, RiskReject, before);
      } else {
        RouteOrder(p, par, sig, view, before);
      }
    }

    /** The routed part of `on_strategy_order`. */
    method RouteOrder(p: nat, par: Parent, sig: Signal, view: View, ghost before: Core)
      requires Valid() && Inv(before) && ViewOk(cfg, view) && before.pool.parentFree != []
      requires p == Top(before.pool.parentFree) && State() == before.(pool := AllocParent(before.pool))
      requires par == NewParent(before, cfg, sig, p) && par.leaves > 0 && sig.instr < table.instruments.Length
      requires pool.parentTop < pool.parentFree.Length
      modifies Work()
      ensures Valid()
      ensures var legs := LegsFor(cfg, view, par, par.leaves, sig.kind);
              State() == if legs == [] then Refuse(before, par, sig, NoLiquidity)
                         else Dispatch(Admit(before, par), cfg, p, legs, view.now)
    {
      FindLegs(par, sig.kind, view);
      RoutesFit(cfg, view, par, sig.kind);
      if buffer.count == 0 {
        RefuseSignal(p, par, sig, NoLiquidity, before);
      } else {
        AdmitParent(p, par, before);
        AdmitKeeps(before, par);
        ReadyToSend(State(), p, buffer.Legs(), |view.venues|);
        DispatchChildOrders(p, view.now);
      }
    }

    /** Ask the router for a positive number of lots; the answer is left in the child buffer. */
    method FindLegs(par: Parent, kind: OrderType, view: View)
      requires Valid() && ViewOk(cfg, view) && par.leaves > 0
      modifies sor, sor.workspace, buffer, buffer.orders
      ensures Valid() && State() == old(State())
      ensures buffer.Legs() == LegsFor(cfg, view, par, par.leaves, kind)
    {
      var ctx := ContextFor(cfg, view, par, par.leaves);
      buffer.Reset();
      if kind == Maker {
        sor.CalculateMakerPlacement(ctx, buffer);
      } else {
        var unfilled := sor.CalculateOptimalSplit(ctx, buffer);
      }
    }

    /** The parent goes live and its size is reserved. */
    method AdmitParent(p: nat, par: Parent, ghost before: Core)
      requires Valid() && p < pool.parents.Length && p == par.id && par.instr < table.instruments.Length
      requires before.pool.parentFree != [] && State() == before.(pool := AllocParent(before.pool))
      modifies this`orders, pool.parents, table.instruments
      ensures Valid() && State() == Admit(before, par) && buffer.Legs() == old(buffer.Legs())
    {
      pool.WriteParent(p, par.(state := PendingNew));
      table.ReserveOpen(par.instr, par.dir, par.leaves);
      orders := orders + [Account(Some(p), par.instr, par.dir, par.strategy, par.limit, par.reduceOnly,
                                  par.leaves, 0, 0.0, 0, par.leaves, false, [])];
    }

    // ----- Reroute -----

    /** Return the finished children to the pool and forget them. */
    method ClearFinished(p: nat)
      requires Valid() && Mid(State(), p) && Load(State().pool, p) == 0
      modifies this`orders, pool`childTop, pool.childFree, pool.parents
      ensures Valid() && State() == ClearChildren(old(State()), p)
    {
      RoomForKids(State().pool, p);
      LoadZeroIffAllTerminal(State().pool, p);
      FreeAll(State().pool, ParentAt(State().pool, p), true);
      var par := pool.parents[p];
      ReturnKids(par, true);
      PutParent(p, DropChildren(par));
      PutAccount(par.serial, AccountOf(par.serial).(rerouted := true));
    }

    /** Re-clamp a reduce-only parent against the position as it is now. */
    method ShrinkToPosition(p: nat)
      requires Valid() && Mid(State(), p)
      modifies this`orders, table.instruments, pool.parents
      ensures Valid() && State() == Shrink(old(State()), p)
    {
      HolderAccount(State(), p);
      var par := pool.parents[p];
      if par.reduceOnly {
        var safe := ClampReduceOnly(table.instruments[par.instr], par.dir, par.leaves, true);
        if safe < par.leaves {
          ReleaseOpen(p, par.leaves - safe);
          CutParent(p, par.leaves - safe);
        }
      }
    }

    /** Take lots off a parent's size and leaves. */
    method CutParent(p: nat, excess: int)
      requires Valid() && p < pool.parents.Length
      modifies this`orders, pool.parents
      ensures Valid() && State() == CutLeaves(old(State()), p, excess)
    {
      var par := pool.parents[p];
      pool.WriteParent(p, par.(total := par.total - excess, leaves := par.leaves - excess));
      var a := AccountOf(par.serial);
      orders := Put(orders, par.serial, a.(shrunk := a.shrunk + excess));
    }

    /** `reroute_leaves`. */
    method RerouteLeaves(p: nat, view: View)
      requires Valid() && ViewOk(cfg, view) && Mid(State(), p)
      requires Load(State().pool, p) == 0 && ParentAt(State().pool, p).leaves > 0
      modifies Work()
      ensures Valid() && State() == Reroute(old(State()), cfg, p, view)
    {
      ghost var before := State();
      ClearKeeps(before, p);
      ClearFinished(p);
      ShrinkKeeps(State(), p);
      ShrinkToPosition(p);
      ghost var cut := State();
      assert cut == Shrink(ClearChildren(before, p), p);
      KidsNonNegative(cut.pool, p);
      assert ParentOk(cut.pool, p);
      RoomForParent(cut.pool, p);
      var par := pool.parents[p];
      if par.reduceOnly && par.leaves == 0 {
        RetireReduced(p);
      } else {
        SweepLeaves(p, par, view);
      }
    }

    /** Nothing is left to reduce. */
    method RetireReduced(p: nat)
      requires Valid() && p < pool.parents.Length && pool.parentTop < pool.parentFree.Length
      modifies this`orders, pool`parentTop, pool.parents, pool.parentFree
      ensures Valid() && State() == CloseReduced(old(State()), p)
    {
      var par := pool.parents[p];
      CloseParent(p, par.(state := if par.cum > 0 then OrderState.Filled else OrderState.Rejected));
    }

    /** Route what is left as a taker, or close the parent when there is no liquidity. */
    method SweepLeaves(p: nat, par: Parent, view: View)
      requires Valid() && ViewOk(cfg, view) && Mid(State(), p) && Load(State().pool, p) == 0
      requires par == ParentAt(State().pool, p) && par.count == 0 && par.leaves > 0
      requires AccountAt(State(), par.serial).rerouted
      modifies Work()
      ensures Valid()
      ensures var legs := LegsFor(cfg, view, par, par.leaves, Taker);
              State() == if legs == [] then Abandon(old(State()), p, NoLiquidity)
                         else Dispatch(MarkPending(old(State()), p), cfg, p, legs, view.now)
    {
      ghost var cut := State();
      RoomForParent(cut.pool, p);
      FindLegs(par, Taker, view);
      RoutesFit(cfg, view, par, Taker);
      if buffer.count == 0 {
        AbandonParent(p, NoLiquidity);
      } else {
        pool.WriteParent(p, par.(state := PendingNew));
        MarkKeeps(cut, p);
        ReadyToSend(State(), p, buffer.Legs(), |view.venues|);
        DispatchChildOrders(p, view.now);
      }
    }

    // ----- Execution reports -----

    /** The child, its timer, the parent's counters and average, the position and the reservation. */
    method RecordFill(c: nat, lots: nat, price: real)
      requires Valid() && c < pool.children.Length && pool.children[c].parentId < pool.parents.Length
      requires pool.parents[pool.children[c].parentId].instr < table.instruments.Length
      modifies this`orders, pool.children, pool.parents, table.instruments, timers.slots
      ensures Valid() && State() == BookFill(old(State()), c, lots, price)
    {
      ghost var before := State();
      var ch := pool.children[c];
      var par := pool.parents[ch.parentId];
      FillRecords(c, ch, par, lots, price);
      MovePosition(par.instr, par.dir, lots, price);
      CreditAccount(par.serial, lots, price);
      FillAssembled(before, State(), c, ch, par, lots, price);
    }

    /** The child, its timer and the parent. */
    method FillRecords(c: nat, ch: Child, par: Parent, lots: nat, price: real)
      requires Valid() && c < pool.children.Length && ch.parentId < pool.parents.Length
      modifies pool.children, pool.parents, timers.slots
      ensures Valid()
      ensures var core := old(State());
              State() == core.(pool := SetParent(SetChild(core.pool, c, FilledChild(ch, lots)), ch.parentId,
                                                 FilledParent(par, lots, price)),
                               wheel := TW.Cancel(core.wheel, c))
    {
      var childLeaves := ch.lots - (ch.cum + lots);
      PutChild(c, ch.(cum := ch.cum + lots, leaves := childLeaves,
                      state := if childLeaves == 0 then OrderState.Filled else PartiallyFilled));
      DropTimer(c);
      var cum := par.cum + lots;
      PutParent(ch.parentId,
        par.(cum := cum, leaves := par.total - cum, avg := RunningAverage(par.cum, par.avg, lots, price),
             state := if par.total == cum then OrderState.Filled else PartiallyFilled));
    }

    /** The order's account takes the fill. */
    method CreditAccount(s: nat, lots: nat, price: real)
      requires Valid()
      modifies this`orders
      ensures Valid() && State() == SetAccount(old(State()), s, Credited(AccountAt(old(State()), s), lots, price))
    {
      PutAccount(s, Credited(AccountOf(s), lots, price));
    }

    /** The position takes the fill and the reservation made for it is released. */
    method MovePosition(i: nat, dir: Dir, lots: nat, price: real)
      requires Valid() && i < table.instruments.Length
      modifies table.instruments
      ensures Valid()
      ensures var core := old(State());
              State() == SetPos(core, i, Release(ApplyFill(core.pos[i], Fill(dir, lots, price)), dir, lots))
    {
      table.OnFill(i, dir, lots, price);
      table.ReleaseOpen(i, dir, lots);
    }

    /** `handle_fill`. */
    method HandleFillReport(c: nat, lots: nat, price: real, view: View)
      requires Valid() && Inv(State()) && ViewOk(cfg, view) && Used(State().pool, c)
      requires Live(ChildAt(State().pool, c)) && 1 <= lots <= ChildAt(State().pool, c).leaves
      modifies Work()
      ensures Valid() && State() == HandleFill(old(State()), cfg, c, lots, price, view)
    {
      var p := pool.children[c].parentId;
      FillKeeps(State(), c, lots, price);
      assert Held(State().pool, p);
      HolderAccount(State(), p);
      RecordFill(c, lots, price);
      Settle(p, view);
    }

    /** The child, its timer and the reservation. */
    method RecordCancel(c: nat, state: OrderState)
      requires Valid() && Inv(State()) && Used(State().pool, c)
      modifies this`orders, pool.children, table.instruments, timers.slots
      ensures Valid() && State() == BookCancel(old(State()), c, state)
    {
      var ch := pool.children[c];
      assert Held(State().pool, ch.parentId);
      HolderAccount(State(), ch.parentId);
      pool.WriteChild(c, ch.(leaves := 0, state := state));
      timers.Cancel(c);
      ReleaseOpen(ch.parentId, ch.leaves);
    }

    /** `handle_cancel_reject`. */
    method HandleCancelReject(c: nat, state: OrderState, view: View)
      requires Valid() && Inv(State()) && ViewOk(cfg, view) && Used(State().pool, c)
      requires Live(ChildAt(State().pool, c))
      requires state == OrderState.Canceled || state == OrderState.Rejected
      modifies Work()
      ensures Valid() && State() == HandleCancel(old(State()), cfg, c, state, view)
    {
      var p := pool.children[c].parentId;
      CancelKeeps(State(), c, state);
      RecordCancel(c, state);
      Settle(p, view);
    }

    /** How both handlers end: close a filled parent, pick up the leftovers of a finished one, or wait. */
    method Settle(p: nat, view: View)
      requires Valid() && ViewOk(cfg, view) && Mid(State(), p)
      modifies Work()
      ensures Valid()
      ensures var booked := old(State());
              var par := ParentAt(booked.pool, p);
              && par.leaves >= 0
              && State() == if par.leaves == 0 then CloseFilled(booked, p)
                            else if AllTerminal(booked.pool, par) then Reroute(booked, cfg, p, view)
                            else booked
    {
      ghost var booked := State();
      KidsNonNegative(booked.pool, p);
      assert ParentOk(booked.pool, p);
      LoadZeroIffAllTerminal(booked.pool, p);
      RoomForKids(booked.pool, p);
      RoomForParent(booked.pool, p);
      var par := pool.parents[p];
      if par.leaves == 0 {
        RetireFilled(p);
      } else {
        var finished := pool.AreAllTerminal(par);
        if finished {
          RerouteLeaves(p, view);
        }
      }
    }

    /** Every lot is filled: return all children and the parent. */
    method RetireFilled(p: nat)
      requires Valid() && p < pool.parents.Length && Compact(pool.parents[p])
      requires pool.parentTop < pool.parentFree.Length
      requires pool.childTop + |Kids(pool.parents[p])| <= pool.children.Length
      requires forall s :: 0 <= s < MAX_KIDS && HasChild(pool.parents[p], s) ==>
                 pool.parents[p].slots[s] < pool.children.Length
      modifies this`orders, pool`childTop, pool`parentTop, pool.childFree, pool.parents, pool.parentFree
      ensures Valid() && State() == CloseFilled(old(State()), p)
    {
      var par := pool.parents[p];
      FreeAll(SetParent(State().pool, p, par.(state := OrderState.Filled)), par, false);
      PutParent(p, par.(state := OrderState.Filled));
      ReturnKids(par, false);
      ReturnId(p);
      PutAccount(par.serial, AccountOf(par.serial).(holder := None));
    }

    /** `on_execution_report`. */
    method OnExecutionReport(rep: Report, view: View)
      requires Valid() && Inv(State()) && EventOk(State(), cfg, ReportEvent(rep, view))
      modifies Work()
      ensures Valid() && State() == OnReport(old(State()), cfg, rep, view) && Inv(State())
    {
      ReportKeeps(State(), cfg, rep, view);
      if rep.cid >= pool.children.Length {
        return;
      }
      assert Held(State().pool, pool.children[rep.cid].parentId);
      match rep.exec
      case Fills(lots, ticks) => HandleFillReport(rep.cid, lots, FillPrice(cfg, ticks), view);
      case Cancels => HandleCancelReject(rep.cid, OrderState.Canceled, view);
      case Rejects => HandleCancelReject(rep.cid, OrderState.Rejected, view);
      case Ack => pool.WriteChild(rep.cid, pool.children[rep.cid].(state := PendingNew));
      case Replaces =>
    }

    // ----- Timers -----

    /** The wheel's callback: cancel the child through the normal path if it is still live. */
    method OnChildTimeout(c: nat, view: View)
      requires Valid() && Inv(State()) && ViewOk(cfg, view)
      requires c < pool.children.Length && Live(pool.children[c]) ==> Used(State().pool, c)
      modifies Work()
      ensures Valid() && State() == OnTimeout(old(State()), cfg, c, view) && Inv(State())
    {
      if c < pool.children.Length && Live(pool.children[c]) {
        OnExecutionReport(Report(c, Cancels), view);
      }
    }

    /** `check_slot`: the callback may insert and cancel timers of the very slot being scanned. */
    method CheckSlotEntries(s: nat, views: nat -> View)
      requires Valid() && Inv(State()) && s < timers.slots.Length && forall j :: ViewOk(cfg, views(j))
      modifies Work()
      ensures Valid()
      ensures State() == CheckSlot(old(State()), cfg, s, 0, timers.depth, views)
    {
      ghost var start := State();
      for i := 0 to timers.depth
        invariant Valid() && Inv(State())
        invariant CheckSlot(State(), cfg, s, i, timers.depth, views) == CheckSlot(start, cfg, s, 0, timers.depth, views)
      {
        CheckDue(s, i, views(i));
      }
    }

    method CheckDue(s: nat, i: nat, view: View)
      requires Valid() && Inv(State()) && s < timers.slots.Length && i < timers.depth && ViewOk(cfg, view)
      modifies Work()
      ensures Valid() && Inv(State()) && State() == CheckEntry(old(State()), cfg, s, i, view)
    {
      ghost var before := State();
      CheckEntryKeeps(before, cfg, s, i, view);
      var due := timers.TakeDue(s, i);
      if due.Some? {
        TW.DisarmRemoves(before.wheel, s, i);
        WheelOnlyKeeps(before, State());
        OnChildTimeout(due.value, view);
      }
    }

    method MoveClock()
      requires Valid() && Inv(State())
      modifies timers`now
      ensures Valid() && Inv(State()) && timers.now == old(timers.now) + timers.tick
      ensures State() == (var core := old(State());
                          var w: TW.Wheel := core.wheel.(now := core.wheel.now + core.wheel.tick);
                          core.(wheel := w))
    {
      ghost var before := State();
      timers.AdvanceClock();
      ClockOnly(before.wheel, State().wheel);
      WheelOnlyKeeps(before, State());
    }

    /** One iteration of the wheel's clock loop. */
    method StepClock(views: nat -> View)
      requires Valid() && Inv(State()) && forall j :: ViewOk(cfg, views(j))
      modifies Work(), timers`now
      ensures Valid() && timers.now == old(timers.now) + timers.tick
      ensures State() == AdvanceWheel(old(State()), cfg, views)
    {
      ghost var before := State();
      MoveClock();
      AdvanceIsCheck(before, State(), cfg, views);
      var s := timers.CurrentSlot();
      CheckSlotEntries(s, views);
    }

    /** `tick` of the wheel: whole steps until less than one separates its clock from the caller's. */
    method OnTick(caller: nat, views: (nat, nat) -> View) returns (steps: nat)
      requires Valid() && Inv(State()) && forall k, j :: ViewOk(cfg, views(k, j))
      modifies Work(), timers`now
      ensures Valid() && Inv(State()) && State() == Tick(old(State()), cfg, steps, views)
      ensures caller < timers.now + timers.tick
      ensures steps > 0 ==> timers.now <= caller
    {
      ghost var start := State();
      steps := 0;
      while timers.now + timers.tick <= caller
        invariant Valid() && State() == Tick(start, cfg, steps, views)
        invariant steps > 0 ==> timers.now <= caller
        decreases caller - timers.now
      {
        TickKeeps(start, cfg, steps, views);
        steps := steps + 1;
        StepClock((j: nat) => views(steps, j));
      }
      TickKeeps(start, cfg, steps, views);
    }

    /** `set_unwind_mode`. */
    method SetUnwindMode(i: nat, enabled: bool)
      requires Valid() && Inv(State())
      modifies table.instruments
      ensures Valid() && State() == SetUnwind(old(State()), i, enabled) && Inv(State())
    {
      UnwindKeeps(State(), i, enabled);
      if i < table.instruments.Length {
        table.SetUnwind(i, enabled);
      }
    }
  }

  /** Giving back what was not sent is possible, and so is closing the parent after it. */
  lemma ReleaseGapKeeps(core: Core, p: nat, legs: seq<Leg>, sent: nat)
    requires Sending(core, p, legs, sent)
    ensures var gap := if sent < |legs| then SumLegs(legs[sent..]) else 0;
            var kept := if gap > 0 then ReleaseFor(core, p, gap) else core;
            && |kept.pool.parentFree| < |kept.pool.parents|
            && p < |core.pool.parents| && ParentAt(core.pool, p).instr < |core.pos|
  {
    var gap := if sent < |legs| then SumLegs(legs[sent..]) else 0;
    HolderAccount(core, p);
    RoomForParent(core.pool, p);
  }

  /** The tables written one by one make up the step. */
  lemma FillAssembled(core: Core, core': Core, c: nat, ch: Child, par: Parent, lots: nat, price: real)
    requires ch == ChildAt(core.pool, c) && par == ParentAt(core.pool, ch.parentId) && par.instr < |core.pos|
    requires core' == SetAccount(
               SetPos(core.(pool := SetParent(SetChild(core.pool, c, FilledChild(ch, lots)), ch.parentId,
                                              FilledParent(par, lots, price)),
                            wheel := TW.Cancel(core.wheel, c)),
                      par.instr,
                      Release(ApplyFill(core.pos[par.instr], Fill(par.dir, lots, price)), par.dir, lots)),
               par.serial, Credited(AccountAt(core, par.serial), lots, price))
    ensures core' == BookFill(core, c, lots, price)
  {
  }

  lemma AdvanceIsCheck(core: Core, moved: Core, cfg: Config, views: nat -> View)
    requires forall j :: ViewOk(cfg, views(j))
    requires moved.wheel == core.wheel.(now := core.wheel.now + core.wheel.tick) && moved == core.(wheel := moved.wheel)
    ensures AdvanceWheel(core, cfg, views) == CheckSlot(moved, cfg, TW.Current(moved.wheel), 0, moved.wheel.depth, views)
  {
  }

  /** Every recorded child id indexes the child table. */
  lemma KidsInRange(pool: Pool, p: nat)
    requires PoolSound(pool) && Held(pool, p)
    ensures var par := ParentAt(pool, p);
            forall s :: 0 <= s < MAX_KIDS && HasChild(par, s) ==> par.slots[s] < |pool.children|
  {
    var par := ParentAt(pool, p);
    forall s | 0 <= s < MAX_KIDS && HasChild(par, s)
      ensures par.slots[s] < |pool.children|
    {
      assert par.slots[s] == Kids(par)[s];
      assert Used(pool, par.slots[s]);
    }
  }

  /** The free list has room for a parent's children. */
  lemma RoomForKids(pool: Pool, p: nat)
    requires PoolSound(pool) && Held(pool, p)
    ensures |pool.childFree + Kids(ParentAt(pool, p))| <= |pool.children|
    ensures var par := ParentAt(pool, p);
            forall s :: 0 <= s < MAX_KIDS && HasChild(par, s) ==> par.slots[s] < |pool.children|
  {
    KidsInRange(pool, p);
    ClearLists(pool, p);
    DistinctFits(pool.childFree + Kids(ParentAt(pool, p)), |pool.children|);
  }

  lemma RoomForParent(pool: Pool, p: nat)
    requires ListsOk(pool) && Held(pool, p)
    ensures |pool.parentFree| < |pool.parents|
  {
    DistinctFits(pool.parentFree + [p], |pool.parents|);
  }
}
