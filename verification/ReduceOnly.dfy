/**
 The counter of open lots that the reduce-only clamp reads. As long as no order of a side
 has been rerouted it covers everything live on that side and stays inside the position,
 however admissions, gaps, fills, cancels and timeouts of this and other instruments
 interleave; a reroute lowers its lead by all it sends.
 */
module ReduceOnly {
  import opened Types
  import opened OrderPool
  import opened Positions
  import opened Accounts
  import opened Lifecycle
  import opened LifecycleInvariant
  import opened LifecycleSteps
  import opened LifecycleHistory
  import opened LiveExposure

  /** The lots that closing direction `d` may still trade before the position is flat. */
  function Closable(pos: Position, d: Dir): int {
    -Sign(d) * pos.net
  }

  /** What one account contributes to `Closable`, and to `Closable` minus the open lots. */
  function ClosablePart(i: nat, d: Dir): Account -> int {
    (a: Account) => if a.instr == i then -Sign(d) * (Sign(a.dir) * a.filled) else 0
  }

  function SlackPart(i: nat, d: Dir): Account -> int {
    (a: Account) => if a.instr == i then -Sign(d) * (Sign(a.dir) * a.filled) - (if a.dir == d then a.reserved else 0) else 0
  }

  lemma {:induction false} PartsAreSums(orders: seq<Account>, i: nat, d: Dir)
    ensures SumBy(orders, ClosablePart(i, d)) == -Sign(d) * NetOf(orders, i)
    ensures SumBy(orders, SlackPart(i, d)) == -Sign(d) * NetOf(orders, i) - OpenOf(orders, i, d)
  {
    if orders != [] {
      PartsAreSums(orders[..|orders| - 1], i, d);
    }
  }

  /** Orders from number `k` on that touch instrument `i` all close in direction `d` and were never rerouted. */
  ghost predicate OnlyClosing(orders: seq<Account>, i: nat, d: Dir, k: nat) {
    && k <= |orders|
    && (forall s: nat :: s < k && orders[s].instr == i ==> orders[s].holder == None)
    && (forall s: nat :: k <= s < |orders| && orders[s].instr == i ==> orders[s].dir == d && !orders[s].rerouted)
  }

  ghost predicate NoReroutes(orders: seq<Account>, i: nat, k: nat) {
    forall s: nat :: k <= s < |orders| && orders[s].instr == i ==> !orders[s].rerouted
  }

  /** The commitments of the closing side fit inside the position. */
  ghost predicate Covered(core: Core, i: nat, d: Dir, k: nat) {
    && i < |core.pos| && OnlyClosing(core.orders, i, d, k)
    && OpenOf(core.orders[..k], i, d) == 0
    && 0 <= Open(core.pos[i], d) <= Closable(core.pos[i], d)
  }

  /** Open lots of the closing side are never negative while nothing has been rerouted. */
  lemma OpenNonNegative(core: Core, i: nat, d: Dir, k: nat)
    requires Inv(core) && OnlyClosing(core.orders, i, d, k) && OpenOf(core.orders[..k], i, d) == 0
    ensures OpenOf(core.orders, i, d) >= 0
  {
    var suffix := core.orders[k..];
    SumSplit(core.orders, k, OpenPart(i, d));
    forall t | 0 <= t < |suffix|
      ensures OpenPart(i, d)(suffix[t]) >= 0
    {
      var a := core.orders[k + t];
      assert AccountOk(core, k + t);
      if a.holder.Some? {
        KidsNonNegative(core.pool, a.holder.value);
      }
    }
    SumAllNonNegative(suffix, OpenPart(i, d));
  }

  /** Evolving orders can only add slack and can only shrink the position. */
  lemma EvolutionShrinks(core: Core, orders': seq<Account>, i: nat, d: Dir, k: nat)
    requires OnlyClosing(core.orders, i, d, k) && |orders'| == |core.orders|
    requires forall s: nat :: s < |orders'| ==> Evolves(core.orders[s], orders'[s])
    ensures SumBy(core.orders, SlackPart(i, d)) <= SumBy(orders', SlackPart(i, d))
    ensures SumBy(orders', ClosablePart(i, d)) <= SumBy(core.orders, ClosablePart(i, d))
    ensures OpenOf(orders'[..k], i, d) == OpenOf(core.orders[..k], i, d)
  {
    forall s: nat | s < |orders'|
      ensures SlackPart(i, d)(core.orders[s]) <= SlackPart(i, d)(orders'[s])
      ensures ClosablePart(i, d)(orders'[s]) <= ClosablePart(i, d)(core.orders[s])
      ensures s < k ==> OpenPart(i, d)(orders'[s]) == OpenPart(i, d)(core.orders[s])
    {
      assert Evolves(core.orders[s], orders'[s]);
    }
    SumMonotone(core.orders, orders', SlackPart(i, d));
    SumMonotone(orders', core.orders, ClosablePart(i, d));
    SumEqual(orders'[..k], core.orders[..k], OpenPart(i, d));
  }

  /** From the accounts back to the counters. */
  lemma CoveredFromSums(core: Core, i: nat, d: Dir, k: nat)
    requires Inv(core) && i < |core.pos| && OnlyClosing(core.orders, i, d, k) && OpenOf(core.orders[..k], i, d) == 0
    requires SumBy(core.orders, SlackPart(i, d)) >= 0
    ensures Covered(core, i, d, k) && Closable(core.pos[i], d) == SumBy(core.orders, ClosablePart(i, d))
  {
    PartsAreSums(core.orders, i, d);
    OpenNonNegative(core, i, d, k);
  }

  lemma SumsFromCovered(core: Core, i: nat, d: Dir, k: nat)
    requires Inv(core) && Covered(core, i, d, k)
    ensures SumBy(core.orders, SlackPart(i, d)) == Closable(core.pos[i], d) - Open(core.pos[i], d)
    ensures SumBy(core.orders, ClosablePart(i, d)) == Closable(core.pos[i], d)
  {
    PartsAreSums(core.orders, i, d);
  }

  /** Any event that admits nothing. */
  lemma EvolvedCovered(core: Core, core': Core, i: nat, d: Dir, k: nat)
    requires Inv(core) && Inv(core') && Covered(core, i, d, k) && Evolved(core, core')
    requires NoReroutes(core'.orders, i, k)
    ensures Covered(core', i, d, k) && Closable(core'.pos[i], d) <= Closable(core.pos[i], d)
  {
    forall s: nat | s < |core'.orders|
      ensures core'.orders[s].instr == core.orders[s].instr && core'.orders[s].dir == core.orders[s].dir
      ensures core.orders[s].holder == None ==> core'.orders[s].holder == None
    {
      assert Evolves(core.orders[s], core'.orders[s]);
    }
    SumsFromCovered(core, i, d, k);
    EvolutionShrinks(core, core'.orders, i, d, k);
    CoveredFromSums(core', i, d, k);
  }

  /** An admission clamped against the position, if it touches the instrument at all. */
  lemma AdmissionCovered(core: Core, sig: Signal, core': Core, i: nat, d: Dir, k: nat)
    requires Inv(core) && Inv(core') && Covered(core, i, d, k) && AdmitsAtMostOne(core, sig, core')
    requires sig.instr == i ==> Constrained(core, sig)
    requires sig.lots >= 0
    ensures Covered(core', i, d, k) && Closable(core'.pos[i], d) <= Closable(core.pos[i], d)
  {
    SumsFromCovered(core, i, d, k);
    var n := |core.orders|;
    if |core'.orders| == n {
      assert core'.orders == core.orders;
      CoveredFromSums(core', i, d, k);
    } else {
      var a := core'.orders[n];
      assert core'.orders == core.orders + [a];
      SumSnoc(core.orders, a, SlackPart(i, d));
      SumSnoc(core.orders, a, ClosablePart(i, d));
      assert core'.orders[..k] == core.orders[..k];
      if sig.instr == i {
        ClampIsTight(core.pos[i], sig.dir, sig.lots, sig.reduceOnly);
      }
      CoveredFromSums(core', i, d, k);
    }
  }

  ghost predicate ClosingEvent(core: Core, e: Event, i: nat) {
    e.OrderEvent? && e.sig.instr == i ==> Constrained(core, e.sig)
  }

  lemma StepCovered(core: Core, cfg: Config, e: Event, i: nat, d: Dir, k: nat)
    requires Inv(core) && EventOk(core, cfg, e) && Covered(core, i, d, k) && ClosingEvent(core, e, i)
    requires NoReroutes(Step(core, cfg, e).orders, i, k)
    ensures Covered(Step(core, cfg, e), i, d, k)
    ensures Closable(Step(core, cfg, e).pos[i], d) <= Closable(core.pos[i], d)
  {
    var core' := Step(core, cfg, e);
    StepKeeps(core, cfg, e);
    match e
    case OrderEvent(sig, gateOk, riskOk, view) =>
      SignalAdmits(core, cfg, sig, gateOk, riskOk, view);
      AdmissionCovered(core, sig, core', i, d, k);
    case ReportEvent(rep, view) =>
      ReportEvolves(core, cfg, rep, view);
      EvolvedCovered(core, core', i, d, k);
    case TickEvent(steps, views) =>
      TickEvolves(core, cfg, steps, views);
      EvolvedCovered(core, core', i, d, k);
    case UnwindEvent(_, _) =>
      EvolvedCovered(core, core', i, d, k);
  }

  /** Every admission on the instrument, along the run, is reduce-only or forced by the unwind switch. */
  ghost predicate ClosingRun(core: Core, cfg: Config, events: seq<Event>, i: nat)
    decreases |events|
  {
    events == [] ||
    (ClosingEvent(core, events[0], i)
     && (EventOk(core, cfg, events[0]) ==> ClosingRun(Step(core, cfg, events[0]), cfg, events[1..], i)))
  }

  lemma {:induction false} RunCovered(core: Core, cfg: Config, events: seq<Event>, end: Core, i: nat, d: Dir, k: nat)
    requires Inv(core) && IsRun(core, cfg, events, end) && ClosingRun(core, cfg, events, i)
    requires Covered(core, i, d, k) && NoReroutes(end.orders, i, k)
    ensures Covered(end, i, d, k) && Closable(end.pos[i], d) <= Closable(core.pos[i], d)
    decreases |events|
  {
    if events != [] {
      var mid := Step(core, cfg, events[0]);
      StepKeeps(core, cfg, events[0]);
      RunEvolves(mid, cfg, events[1..], end);
      forall s: nat | k <= s < |mid.orders| && mid.orders[s].instr == i
        ensures !mid.orders[s].rerouted
      {
        assert Evolves(mid.orders[s], end.orders[s]);
      }
      StepCovered(core, cfg, events[0], i, d, k);
      RunCovered(mid, cfg, events[1..], end, i, d, k);
    }
  }

  /** No outstanding order on the instrument and nothing reserved. */
  ghost predicate Quiet(core: Core, i: nat) {
    && i < |core.pos| && core.pos[i].openBuy == 0 && core.pos[i].openSell == 0
    && forall s: nat :: s < |core.orders| && core.orders[s].instr == i ==> core.orders[s].holder == None
  }

  /** SELL closes a long position, BUY a short one. */
  function ClosingSide(pos: Position): Dir {
    if pos.net >= 0 then Sell else Buy
  }

  /**
   From a quiet state, over every run in which each admission on instrument `i` is
   reduce-only or unwind-forced, and at whose end no order admitted on it since has
   been rerouted: the closing side's open lots fit inside the position, and the
   position has kept its sign and not grown.
   */
  lemma CounterStaysWithin(core: Core, cfg: Config, events: seq<Event>, end: Core, i: nat)
    requires Inv(core) && Quiet(core, i) && IsRun(core, cfg, events, end) && ClosingRun(core, cfg, events, i)
    requires NoReroutes(end.orders, i, |core.orders|)
    ensures |end.pos| == |core.pos|
    ensures var d := ClosingSide(core.pos[i]);
            && 0 <= Open(end.pos[i], d) <= Abs(end.pos[i].net)
            && (core.pos[i].net >= 0 ==> 0 <= end.pos[i].net <= core.pos[i].net)
            && (core.pos[i].net <= 0 ==> core.pos[i].net <= end.pos[i].net <= 0)
  {
    var d, k := ClosingSide(core.pos[i]), |core.orders|;
    assert core.orders[..k] == core.orders;
    assert OpenOf(core.orders, i, d) == Open(core.pos[i], d);
    RunEvolves(core, cfg, events, end);
    RunCovered(core, cfg, events, end, i, d, k);
  }

  // ----- Live exposure against the counter the clamp reads -----

  /** While no order of a side has been rerouted, its open-lots counter covers everything live on it. */
  lemma CounterCoversExposure(core: Core, i: nat, d: Dir)
    requires Good(core) && i < |core.pos|
    requires forall s: nat :: s < |core.orders| && core.orders[s].instr == i && core.orders[s].dir == d ==>
               !core.orders[s].rerouted
    ensures 0 <= Exposure(core, i, d) <= Open(core.pos[i], d)
  {
    PrefixCovers(core, i, d, |core.orders|);
    assert core.orders[..|core.orders|] == core.orders;
  }

  lemma {:induction false} PrefixCovers(core: Core, i: nat, d: Dir, n: nat)
    requires Good(core) && n <= |core.orders|
    requires forall s: nat :: s < |core.orders| && core.orders[s].instr == i && core.orders[s].dir == d ==>
               !core.orders[s].rerouted
    ensures 0 <= ExposureOf(core, i, d, n) <= OpenOf(core.orders[..n], i, d)
  {
    if n > 0 {
      PrefixCovers(core, i, d, n - 1);
      assert core.orders[..n][..n - 1] == core.orders[..n - 1];
      OrderCovers(core, i, d, n - 1);
    }
  }

  lemma OrderCovers(core: Core, i: nat, d: Dir, s: nat)
    requires Good(core) && s < |core.orders|
    requires core.orders[s].instr == i && core.orders[s].dir == d ==> !core.orders[s].rerouted
    ensures 0 <= LiveLots(core, s, i, d) <= OpenPart(i, d)(core.orders[s])
  {
    assert AccountOk(core, s);
    var a := core.orders[s];
    if a.holder.Some? {
      KidsNonNegative(core.pool, a.holder.value);
    }
  }

  /**
   What a reroute does to that cover, when the last live child of an order is cancelled:
   the counter's lead over the exposure falls by everything that is sent again, and the
   order goes on having lots at venues if and only if it stays open.
   */
  lemma RerouteUncovers(core: Core, cfg: Config, c: nat, state: OrderState, view: View)
    requires Inv(core) && ViewOk(cfg, view) && Used(core.pool, c) && Live(ChildAt(core.pool, c))
    requires state == OrderState.Canceled || state == OrderState.Rejected
    requires var p := ChildAt(core.pool, c).parentId;
             AllTerminal(BookCancel(core, c, state).pool, ParentAt(BookCancel(core, c, state).pool, p))
    ensures var par, core' := ParentAt(core.pool, ChildAt(core.pool, c).parentId), HandleCancel(core, cfg, c, state, view);
            var i, d, sent := par.instr, par.dir, LiveLots(core', par.serial, par.instr, par.dir);
            && i < |core.pos| == |core'.pos|
            && Open(core'.pos[i], d) - Exposure(core', i, d) <= Open(core.pos[i], d) - Exposure(core, i, d) - sent
            && (sent > 0 <==> AccountAt(core', par.serial).holder != None)
  {
    var p, booked := ChildAt(core.pool, c).parentId, BookCancel(core, c, state);
    CancelKeeps(core, c, state);
    LoadZeroIffAllTerminal(booked.pool, p);
    CancelLead(core, c, state);
    RerouteLead(booked, cfg, p, view);
  }

  /** A cancel lowers the counter and the exposure alike. */
  lemma CancelLead(core: Core, c: nat, state: OrderState)
    requires Inv(core) && Used(core.pool, c) && Live(ChildAt(core.pool, c))
    requires state == OrderState.Canceled || state == OrderState.Rejected
    ensures var par, booked := ParentAt(core.pool, ChildAt(core.pool, c).parentId), BookCancel(core, c, state);
            && par.instr < |core.pos| == |booked.pos|
            && ParentAt(booked.pool, ChildAt(core.pool, c).parentId) == par
            && Open(booked.pos[par.instr], par.dir) - Exposure(booked, par.instr, par.dir)
               == Open(core.pos[par.instr], par.dir) - Exposure(core, par.instr, par.dir)
  {
    var p := ChildAt(core.pool, c).parentId;
    assert Held(core.pool, p);
    HolderAccount(core, p);
    CancelExposure(core, c, state, ParentAt(core.pool, p).instr, ParentAt(core.pool, p).dir);
  }

  lemma RerouteLead(booked: Core, cfg: Config, p: nat, view: View)
    requires ViewOk(cfg, view) && Mid(booked, p) && Load(booked.pool, p) == 0 && ParentAt(booked.pool, p).leaves > 0
    ensures var par, core' := ParentAt(booked.pool, p), Reroute(booked, cfg, p, view);
            var i, d, sent := par.instr, par.dir, LiveLots(core', par.serial, par.instr, par.dir);
            && i < |booked.pos| == |core'.pos|
            && Open(core'.pos[i], d) - Exposure(core', i, d) <= Open(booked.pos[i], d) - Exposure(booked, i, d) - sent
            && (sent > 0 <==> AccountAt(core', par.serial).holder != None)
  {
    var par := ParentAt(booked.pool, p);
    HolderAccount(booked, p);
    RerouteAddsUnreserved(booked, cfg, p, view, par.instr, par.dir);
    RerouteEvolves(booked, cfg, p, view);
    var core' := Reroute(booked, cfg, p, view);
    assert Evolves(booked.orders[par.serial], core'.orders[par.serial]);
    assert AccountOk(core', par.serial);
  }
}
