/**
 What an execution report and a timeout do to the tables, from the state before them: what
 a fill and a cancel book, when they close the order, reroute it or wait, and that an
 expired timer cancels its child.
 */
module Reports {
  import opened Types
  import opened OrderPool
  import opened Positions
  import opened Lifecycle
  import opened LifecycleInvariant
  import opened LifecycleSteps
  import TW = TimerWheel

  /** A fill is booked on the child, its timer, its parent, the order's account and the position alike. */
  lemma FillBooks(core: Core, c: nat, lots: nat, price: real)
    requires Inv(core) && Used(core.pool, c) && Live(ChildAt(core.pool, c)) && 1 <= lots <= ChildAt(core.pool, c).leaves
    ensures var booked, ch := BookFill(core, c, lots, price), ChildAt(core.pool, c);
            var ch', par, par' := ChildAt(booked.pool, c), ParentAt(core.pool, ch.parentId), ParentAt(booked.pool, ch.parentId);
            && ch'.cum == ch.cum + lots && ch'.leaves == ch.leaves - lots && (Live(ch') <==> lots < ch.leaves)
            && par'.cum == par.cum + lots && par'.leaves == par.leaves - lots && par'.total == par.total
            && TW.Armed(booked.wheel) == TW.Armed(core.wheel) - {c}
            && Load(booked.pool, ch.parentId) == Load(core.pool, ch.parentId) - lots
  {
    var p := ChildAt(core.pool, c).parentId;
    var par := ParentAt(core.pool, p);
    assert ChildOk(ChildAt(core.pool, c)) && Held(core.pool, p) && ParentOk(core.pool, p);
    FillPool(core.pool, c, lots, FilledParent(par, lots, price));
    TW.CancelRemoves(core.wheel, c);
  }

  /** The parent's average price stays the exact value of its fills over their lots. */
  lemma FillAverages(par: Parent, lots: nat, price: real)
    requires par.cum >= 0 && lots >= 1
    ensures var par' := FilledParent(par, lots, price);
            par'.avg * par'.cum as real == par.avg * par.cum as real + price * lots as real
  {
    AverageIsExact(par.cum, par.avg, lots, price);
  }

  /** And on the counters: net moves by the lots on the order's side, its open lots shrink by as many. */
  lemma FillCounts(core: Core, c: nat, lots: nat, price: real)
    requires Inv(core) && Used(core.pool, c) && Live(ChildAt(core.pool, c)) && 1 <= lots <= ChildAt(core.pool, c).leaves
    ensures var booked, par := BookFill(core, c, lots, price), ParentAt(core.pool, ChildAt(core.pool, c).parentId);
            && par.instr < |core.pos| == |booked.pos|
            && booked.pos[par.instr].net == core.pos[par.instr].net + Sign(par.dir) * lots
            && Open(booked.pos[par.instr], par.dir) == Open(core.pos[par.instr], par.dir) - lots
            && (forall i: nat :: i < |core.pos| && i != par.instr ==> booked.pos[i] == core.pos[i])
            && AccountAt(booked, par.serial).filled == AccountAt(core, par.serial).filled + lots
            && AccountAt(booked, par.serial).value == AccountAt(core, par.serial).value + price * lots as real
            && AccountAt(booked, par.serial).reserved == AccountAt(core, par.serial).reserved - lots
  {
    assert Held(core.pool, ChildAt(core.pool, c).parentId);
    HolderAccount(core, ChildAt(core.pool, c).parentId);
  }

  /**
   What follows a fill: the order closes if and only if it is complete, is rerouted if and
   only if it is not and nothing else of it is out, and otherwise waits for the rest.
   */
  lemma FillSettles(core: Core, cfg: Config, c: nat, lots: nat, price: real, view: View)
    requires Inv(core) && ViewOk(cfg, view) && Used(core.pool, c) && Live(ChildAt(core.pool, c))
    requires 1 <= lots <= ChildAt(core.pool, c).leaves
    ensures var p, booked := ChildAt(core.pool, c).parentId, BookFill(core, c, lots, price);
            var leaves, live := ParentAt(core.pool, p).leaves, Load(core.pool, p);
            && lots <= live <= leaves
            && HandleFill(core, cfg, c, lots, price, view)
                 == if lots == leaves then CloseFilled(booked, p)
                    else if lots == live then Reroute(booked, cfg, p, view) else booked
  {
    var p, booked := ChildAt(core.pool, c).parentId, BookFill(core, c, lots, price);
    FillKeeps(core, c, lots, price);
    FillBooks(core, c, lots, price);
    assert ParentOk(core.pool, p) && c in Kids(ParentAt(core.pool, p));
    KidsNonNegative(core.pool, p);
    LoadZeroIffAllTerminal(booked.pool, p);
  }

  /**
   A fill in part leaves its child live and without a timer, whatever the state: from then
   on only its venue can end it.
   */
  lemma PartialFillDisarms(core: Core, cfg: Config, c: nat, lots: nat, price: real, view: View)
    requires Inv(core) && ViewOk(cfg, view) && Used(core.pool, c) && Live(ChildAt(core.pool, c))
    requires 1 <= lots < ChildAt(core.pool, c).leaves
    ensures var core' := HandleFill(core, cfg, c, lots, price, view);
            Used(core'.pool, c) && Live(ChildAt(core'.pool, c)) && c !in TW.Armed(core'.wheel)
  {
    var p := ChildAt(core.pool, c).parentId;
    FillSettles(core, cfg, c, lots, price, view);
    FillBooks(core, c, lots, price);
    assert Held(core.pool, p) && c in Kids(ParentAt(core.pool, p));
    KidsNonNegative(core.pool, p);
  }

  /** A cancel or reject ends the child, drops its timer and releases what it had left, and nothing else. */
  lemma CancelBooks(core: Core, c: nat, state: OrderState)
    requires Inv(core) && Used(core.pool, c) && Live(ChildAt(core.pool, c))
    requires state == OrderState.Canceled || state == OrderState.Rejected
    ensures var booked, ch := BookCancel(core, c, state), ChildAt(core.pool, c);
            var par := ParentAt(core.pool, ch.parentId);
            && ChildAt(booked.pool, c) == ch.(leaves := 0, state := state) && ParentAt(booked.pool, ch.parentId) == par
            && TW.Armed(booked.wheel) == TW.Armed(core.wheel) - {c}
            && Load(booked.pool, ch.parentId) == Load(core.pool, ch.parentId) - ch.leaves
            && par.instr < |core.pos| == |booked.pos| && booked.pos[par.instr].net == core.pos[par.instr].net
            && Open(booked.pos[par.instr], par.dir) == Open(core.pos[par.instr], par.dir) - ch.leaves
            && AccountAt(booked, par.serial)
                 == AccountAt(core, par.serial).(reserved := AccountAt(core, par.serial).reserved - ch.leaves)
  {
    var ch := ChildAt(core.pool, c);
    assert ChildOk(ch) && Held(core.pool, ch.parentId);
    HolderAccount(core, ch.parentId);
    ChildEditPool(core.pool, c, ch.(leaves := 0, state := state));
    TW.CancelRemoves(core.wheel, c);
  }

  /** What follows: the order is rerouted if and only if nothing else of it is out. It never closes here. */
  lemma CancelSettles(core: Core, cfg: Config, c: nat, state: OrderState, view: View)
    requires Inv(core) && ViewOk(cfg, view) && Used(core.pool, c) && Live(ChildAt(core.pool, c))
    requires state == OrderState.Canceled || state == OrderState.Rejected
    ensures var p, booked := ChildAt(core.pool, c).parentId, BookCancel(core, c, state);
            HandleCancel(core, cfg, c, state, view)
              == if ChildAt(core.pool, c).leaves == Load(core.pool, p) then Reroute(booked, cfg, p, view) else booked
  {
    var p, booked := ChildAt(core.pool, c).parentId, BookCancel(core, c, state);
    CancelKeeps(core, c, state);
    CancelBooks(core, c, state);
    LoadZeroIffAllTerminal(booked.pool, p);
  }

  /** A timer that is due cancels its child, through the same path as a cancel from the venue; others do nothing. */
  lemma TimeoutCancels(core: Core, cfg: Config, s: nat, i: nat, view: View)
    requires Inv(core) && ViewOk(cfg, view)
    ensures !TW.ActiveAt(core.wheel, s, i) ==> CheckEntry(core, cfg, s, i, view) == core
    ensures TW.ActiveAt(core.wheel, s, i) ==>
              var c, off := core.wheel.slots[s][i].cid, core.(wheel := TW.Disarm(core.wheel, s, i));
              && Inv(off) && Used(off.pool, c) && Live(ChildAt(off.pool, c))
              && CheckEntry(core, cfg, s, i, view) == HandleCancel(off, cfg, c, OrderState.Canceled, view)
  {
    if TW.ActiveAt(core.wheel, s, i) {
      TW.ArmedAt(core.wheel, s, i);
      TW.DisarmRemoves(core.wheel, s, i);
      var off := core.(wheel := TW.Disarm(core.wheel, s, i));
      WheelOnlyKeeps(core, off);
      assert Held(core.pool, ChildAt(core.pool, core.wheel.slots[s][i].cid).parentId);
    }
  }

  /** An acknowledgement makes the child pending again, even after a fill in part, and touches nothing else. */
  lemma AckBooks(core: Core, cfg: Config, c: nat, view: View)
    requires Inv(core) && ViewOk(cfg, view) && Used(core.pool, c) && Live(ChildAt(core.pool, c))
    ensures var core', ch := OnReport(core, cfg, Report(c, Ack), view), ChildAt(core.pool, c);
            && ChildAt(core'.pool, c) == ch.(state := PendingNew)
            && (forall d: nat :: d != c ==> ChildAt(core'.pool, d) == ChildAt(core.pool, d))
            && core'.pool.parents == core.pool.parents && core'.pool.parentFree == core.pool.parentFree
            && core'.pool.childFree == core.pool.childFree && core'.wheel == core.wheel
            && core'.pos == core.pos && core'.orders == core.orders && core'.rejects == core.rejects
  {
    assert Held(core.pool, ChildAt(core.pool, c).parentId);
  }

  /** The unwind switch forces every signal on its instrument, and only there, to reduce while it is on. */
  lemma UnwindForces(core: Core, i: nat, enabled: bool, sig: Signal)
    requires sig.instr < |core.pos|
    ensures Constrained(SetUnwind(core, i, enabled), sig)
       <==> sig.reduceOnly || (if sig.instr == i then enabled else core.pos[sig.instr].unwind)
  {
  }
}
