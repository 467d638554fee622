/**
 What a signal and a reroute come to. A signal is admitted exactly when nothing stands in
 its way, and otherwise turned down for the first thing that does; an admitted or rerouted
 order goes out as the router split it, for the lots the reduce-only clamp allows.
 */
module Admission {
  import opened Types
  import opened Books
  import opened Router
  import opened OrderPool
  import opened Accounts
  import opened Lifecycle
  import opened LifecycleInvariant
  import opened LifecycleSteps
  import opened LifecycleTies
  import opened LiveExposure
  import opened Dispatching

  /**
   What the router is asked: these lots of an instrument, on this side, at this limit in
   ticks (0 for none), counted in the instrument's configured lot or a thousandth.
   */
  function Asked(cfg: Config, view: View, instr: nat, dir: Dir, lots: int, limit: nat): Context {
    Context(view.venues, dir, lots, if limit == 0 then 0.0 else limit as real * cfg.tick,
            if instr < |cfg.lotSizes| && cfg.lotSizes[instr] > 0.0 then cfg.lotSizes[instr] else 0.001)
  }

  /** Its answer: one resting order for a maker, the cheapest split for a taker. */
  function Answer(cfg: Config, view: View, instr: nat, dir: Dir, lots: int, limit: nat, kind: OrderType): seq<Leg>
    requires ViewOk(cfg, view)
  {
    match kind
    case Maker => Place(Asked(cfg, view, instr, dir, lots, limit))
    case Taker => Split(Asked(cfg, view, instr, dir, lots, limit))
  }

  function SignalLegs(core: Core, cfg: Config, sig: Signal, view: View): seq<Leg>
    requires ViewOk(cfg, view)
  {
    Answer(cfg, view, sig.instr, sig.dir, EffectiveLots(core, sig), LimitFor(cfg, sig), sig.kind)
  }

  /** Nothing stands in the signal's way. */
  ghost predicate Clear(core: Core, cfg: Config, sig: Signal, gateOk: bool, riskOk: bool, view: View)
    requires ViewOk(cfg, view)
  {
    && gateOk && riskOk && core.pool.parentFree != [] && sig.instr < |core.pos|
    && EffectiveLots(core, sig) > 0 && SignalLegs(core, cfg, sig, view) != []
  }

  /** The first thing that does, in the order of the checks. */
  function Obstacle(core: Core, sig: Signal, gateOk: bool, riskOk: bool): Reason {
    if !gateOk then GateBlock
    else if core.pool.parentFree == [] then ParentPoolExhausted
    else if sig.instr < |core.pos| && EffectiveLots(core, sig) == 0 then ReduceOnlyViolation
    else if sig.instr >= |core.pos| || !riskOk then RiskReject
    else NoLiquidity
  }

  lemma ContextIsAsked(cfg: Config, view: View, par: Parent, lots: int)
    ensures ContextFor(cfg, view, par, lots) == Asked(cfg, view, par.instr, par.dir, lots, par.limit)
  {
  }

  lemma RouterIsAsked(cfg: Config, view: View, par: Parent, lots: int, kind: OrderType)
    requires ViewOk(cfg, view)
    ensures LegsFor(cfg, view, par, lots, kind) == Answer(cfg, view, par.instr, par.dir, lots, par.limit, kind)
  {
    ContextIsAsked(cfg, view, par, lots);
  }

  /**
   Admission, decided: an order is added if and only if the gate and the risk checks
   passed, a parent was free, the instrument exists, the clamp left something and the
   router found a leg; otherwise one reject is added, for the first of these that failed.
   */
  lemma SignalDecided(core: Core, cfg: Config, sig: Signal, gateOk: bool, riskOk: bool, view: View)
    requires Inv(core) && ViewOk(cfg, view) && sig.lots >= 0
    ensures var core' := OnSignal(core, cfg, sig, gateOk, riskOk, view);
            && (|core'.orders| == |core.orders| + 1 <==> Clear(core, cfg, sig, gateOk, riskOk, view))
            && (!Clear(core, cfg, sig, gateOk, riskOk, view) ==>
                  TurnedDown(core, sig, core') && core'.rejects[|core.rejects|].reason == Obstacle(core, sig, gateOk, riskOk))
  {
    EffectiveNonNegative(core, sig);
    if gateOk && core.pool.parentFree != [] {
      var par := NewParent(core, cfg, sig, Top(core.pool.parentFree));
      RouterIsAsked(cfg, view, par, par.leaves, sig.kind);
      RefuseTurnsDown(core, par, sig, Obstacle(core, sig, gateOk, riskOk));
      if Clear(core, cfg, sig, gateOk, riskOk, view) {
        RoutedAnswered(core, cfg, sig, par, view);
      }
    }
  }

  /** The account and the children of an order just admitted. */
  ghost predicate SentOut(core: Core, core': Core, cfg: Config, sig: Signal, legs: seq<Leg>, now: nat)
    requires cfg.tick > 0.0 && core.pool.parentFree != [] && |core'.orders| == |core.orders| + 1
  {
    var n, p, lots := OutCount(legs, |core.pool.childFree|), Top(core.pool.parentFree), EffectiveLots(core, sig);
    && core'.orders[|core.orders|]
         == Account(if n == 0 then None else Some(p), sig.instr, sig.dir, sig.strategy, LimitFor(cfg, sig),
                    Constrained(core, sig), lots, 0, 0.0, 0, lots - SumLegs(legs[n..]), false, SentLegs(sig.dir, legs[..n]))
    && LegsOut(core', cfg, p, legs, n, now)
  }

  /**
   An admitted signal goes out as the router split its clamped size: as many legs as there
   are slots and children for, each with the leg's venue, price, lots and style on the
   signal's side, the rest of the legs released from the reservation.
   */
  lemma SignalSends(core: Core, cfg: Config, sig: Signal, gateOk: bool, riskOk: bool, view: View)
    requires Inv(core) && ViewOk(cfg, view) && sig.lots >= 0 && Clear(core, cfg, sig, gateOk, riskOk, view)
    ensures var core' := OnSignal(core, cfg, sig, gateOk, riskOk, view);
            && |core'.orders| == |core.orders| + 1
            && SentOut(core, core', cfg, sig, SignalLegs(core, cfg, sig, view), view.now)
  {
    var par := NewParent(core, cfg, sig, Top(core.pool.parentFree));
    var legs := SignalLegs(core, cfg, sig, view);
    RouterIsAsked(cfg, view, par, par.leaves, sig.kind);
    RoutesFit(cfg, view, par, sig.kind);
    SignalDecided(core, cfg, sig, gateOk, riskOk, view);
    AdmittedSends(core, cfg, par, legs, |view.venues|, view.now);
  }

  lemma AdmittedSends(core: Core, cfg: Config, par: Parent, legs: seq<Leg>, venues: nat, now: nat)
    requires Inv(core) && core.pool.parentFree != [] && par.id == Top(core.pool.parentFree)
    requires par.count == 0 && par.mask == NO_MASK && par.cum == 0 && par.total == par.leaves && par.leaves > 0
    requires par.instr < |core.pos| && par.serial == |core.orders| && par.avg == 0.0
    requires SplitOk(legs, par.dir, par.leaves, par.limit, venues)
    ensures var admitted := Admit(core, par);
            var core', n := Dispatch(admitted, cfg, par.id, legs, now), OutCount(legs, |core.pool.childFree|);
            && LegsOut(core', cfg, par.id, legs, n, now)
            && AccountAt(core', par.serial)
                 == Account(if n == 0 then None else Some(par.id), par.instr, par.dir, par.strategy, par.limit,
                            par.reduceOnly, par.leaves, 0, 0.0, 0, par.leaves - SumLegs(legs[n..]), false,
                            SentLegs(par.dir, legs[..n]))
  {
    var admitted := Admit(core, par);
    AdmitKeeps(core, par);
    ReadyToSend(admitted, par.id, legs, venues);
    DispatchSends(admitted, cfg, par.id, legs, now);
    assert [] + SentLegs(par.dir, legs[..OutCount(legs, |core.pool.childFree|)])
        == SentLegs(par.dir, legs[..OutCount(legs, |core.pool.childFree|)]);
  }

  // ----- Reroute -----

  /** An order's account once its children are cleared and its leaves cut to what is allowed. */
  function AccountCut(a: Account, excess: int): Account {
    a.(rerouted := true, shrunk := a.shrunk + excess, reserved := a.reserved - excess)
  }

  lemma CutAccounts(core: Core, p: nat)
    requires p < |core.pool.parents| && ParentAt(core.pool, p).serial < |core.orders| && ParentAt(core.pool, p).leaves >= 0
    ensures var cut, par := Shrink(ClearChildren(core, p), p), ParentAt(core.pool, p);
            && AccountAt(cut, par.serial) == AccountCut(AccountAt(core, par.serial), Excess(core, p))
            && cut.rejects == core.rejects && ParentAt(cut.pool, p).strategy == par.strategy
  {
    FreeSlotsParents(core.pool, ParentAt(core.pool, p), 0, true);
    ShrinkAccount(ClearChildren(core, p), p);
  }

  lemma ShrinkAccount(core: Core, p: nat)
    requires p < |core.pool.parents| && ParentAt(core.pool, p).serial < |core.orders| && ParentAt(core.pool, p).leaves >= 0
    ensures var cut, par := Shrink(core, p), ParentAt(core.pool, p);
            var a := AccountAt(core, par.serial);
            && AccountAt(cut, par.serial)
                 == a.(shrunk := a.shrunk + Excess(core, p), reserved := a.reserved - Excess(core, p))
            && cut.rejects == core.rejects && ParentAt(cut.pool, p).strategy == par.strategy
  {
  }

  /** What the re-clamp takes off. */
  function Excess(core: Core, p: nat): int {
    ParentAt(core.pool, p).leaves - Allowed(core, p)
  }

  lemma {:induction false} FreeSlotsParents(pool: Pool, par: Parent, s: nat, onlyTerminal: bool)
    ensures FreeSlots(pool, par, s, onlyTerminal).parents == pool.parents
    decreases MAX_KIDS - s
  {
    if s < MAX_KIDS {
      if HasChild(par, s) && (onlyTerminal ==> Terminal(ChildAt(pool, par.slots[s]))) {
        FreeSlotsParents(FreeChild(pool, par.slots[s]), par, s + 1, onlyTerminal);
      } else {
        FreeSlotsParents(pool, par, s + 1, onlyTerminal);
      }
    }
  }

  /** The legs an order goes on with when `left` lots of it may be sent again: always as a taker. */
  function LegsAgain(cfg: Config, view: View, a: Account, left: int): seq<Leg>
    requires ViewOk(cfg, view)
  {
    if a.reduceOnly && left == 0 then [] else Answer(cfg, view, a.instr, a.dir, left, a.limit, Taker)
  }

  /** The reject that closes order `s` if none of them goes out; an order with nothing left to reduce needs none. */
  function RejectsAgain(rejects: seq<Reject>, a: Account, s: nat, left: int, legs: seq<Leg>, n: nat): seq<Reject> {
    if n > 0 || (a.reduceOnly && left == 0) then rejects
    else rejects + [Reject(a.instr, a.dir, a.strategy, left, if legs == [] then NoLiquidity else ChildPoolExhausted, Some(s))]
  }

  /**
   A reroute sends what the clamp still allows as the router splits it now, with the
   children just freed to hand out again. What the clamp took off is both counted as shrunk
   and released, the legs that found no child are released, and an order left without a
   child is closed with one reject for its lots.
   */
  lemma RerouteSends(core: Core, cfg: Config, p: nat, view: View)
    requires ViewOk(cfg, view) && Mid(core, p) && Load(core.pool, p) == 0 && ParentAt(core.pool, p).leaves > 0
    ensures var core', par, left := Reroute(core, cfg, p, view), ParentAt(core.pool, p), Allowed(core, p);
            var a := AccountCut(AccountAt(core, par.serial), par.leaves - left);
            var legs := LegsAgain(cfg, view, a, left);
            var n := OutCount(legs, |core.pool.childFree| + |Kids(par)|);
            && AccountAt(core', par.serial) == AccountAfter(a, par.dir, legs, n)
            && core'.rejects == RejectsAgain(core.rejects, a, par.serial, left, legs, n)
            && LegsOut(core', cfg, p, legs, n, view.now)
  {
    var s, cut := ParentAt(core.pool, p).serial, Shrink(ClearChildren(core, p), p);
    CutState(core, cut, p);
    SweepSends(cut, Reroute(core, cfg, p, view), cfg, p, view);
  }

  lemma CutState(core: Core, cut: Core, p: nat)
    requires Mid(core, p) && Load(core.pool, p) == 0 && ParentAt(core.pool, p).leaves > 0
    requires cut == Shrink(ClearChildren(core, p), p)
    ensures ReadyToSweep(cut, p) && cut.rejects == core.rejects && ParentAt(cut.pool, p).leaves == Allowed(core, p)
    ensures var par, par' := ParentAt(core.pool, p), ParentAt(cut.pool, p);
            && par'.serial == par.serial && par'.dir == par.dir
            && AccountAt(cut, par.serial) == AccountCut(AccountAt(core, par.serial), par.leaves - Allowed(core, p))
            && |cut.pool.childFree| == |core.pool.childFree| + |Kids(par)|
  {
    HolderAccount(core, p);
    CutDown(core, p);
    CutAccounts(core, p);
  }

  /** The same from the cut state on. */
  lemma SweepSends(cut: Core, core': Core, cfg: Config, p: nat, view: View)
    requires ViewOk(cfg, view) && ReadyToSweep(cut, p) && core' == Sweep(cut, cfg, p, view)
    ensures var par := ParentAt(cut.pool, p);
            var a := AccountAt(cut, par.serial);
            var legs := LegsAgain(cfg, view, a, par.leaves);
            var n := OutCount(legs, |cut.pool.childFree|);
            && AccountAt(core', par.serial) == AccountAfter(a, par.dir, legs, n)
            && core'.rejects == RejectsAgain(cut.rejects, a, par.serial, par.leaves, legs, n)
            && LegsOut(core', cfg, p, legs, n, view.now)
  {
    var par := ParentAt(cut.pool, p);
    HolderAccount(cut, p);
    NothingOut(AccountAt(cut, par.serial), par.dir);
    if par.leaves > 0 {
      var legs, marked := Answer(cfg, view, par.instr, par.dir, par.leaves, par.limit, Taker), MarkPending(cut, p);
      RouterIsAsked(cfg, view, par, par.leaves, Taker);
      RoutesFit(cfg, view, par, Taker);
      if legs != [] {
        MarkKeeps(cut, p);
        ReadyToSend(marked, p, legs, |view.venues|);
        DispatchSends(marked, cfg, p, legs, view.now);
      }
    }
  }

  lemma NothingOut(a: Account, dir: Dir)
    ensures AccountAfter(a, dir, [], 0) == a.(holder := None)
  {
    assert a.sent + [] == a.sent;
  }
}
