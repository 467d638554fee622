/**
 The lots each side of an instrument has at venues, and what every step of the order
 lifecycle does to them: a step moves the exposure by what its own order gains or loses,
 and a reroute adds all it sends without reserving any of it.
 */
module LiveExposure {
  import opened Types
  import opened Router
  import opened OrderPool
  import opened Positions
  import opened Accounts
  import opened Lifecycle
  import opened LifecycleInvariant
  import opened LifecycleSteps
  import opened LifecycleHistory

  /** The lots an order still has at venues. */
  function LiveLots(core: Core, s: nat, i: nat, d: Dir): int {
    var a := AccountAt(core, s);
    if a.instr == i && a.dir == d && a.holder.Some? then Load(core.pool, a.holder.value) else 0
  }

  /** Live lots of one side of an instrument, over the first `n` orders. */
  function ExposureOf(core: Core, i: nat, d: Dir, n: nat): int {
    if n == 0 then 0 else ExposureOf(core, i, d, n - 1) + LiveLots(core, n - 1, i, d)
  }

  function Exposure(core: Core, i: nat, d: Dir): int {
    ExposureOf(core, i, d, |core.orders|)
  }

  // ----- Steps that touch one parent -----

  lemma ElsewhereTrans(a: Pool, b: Pool, c: Pool, p: nat)
    requires Elsewhere(a, b, p) && Elsewhere(b, c, p)
    ensures Elsewhere(a, c, p)
  {
    forall q: nat | q != p
      ensures Held(c, q) <==> Held(a, q)
      ensures Held(a, q) ==> ParentAt(c, q) == ParentAt(a, q) && Load(c, q) == Load(a, q)
    {
      assert Held(b, q) <==> Held(a, q);
    }
  }

  /** Only the record of `p` and its place on the free list changed. */
  lemma RecordElsewhere(a: Pool, b: Pool, p: nat)
    requires b.children == a.children && |b.parents| == |a.parents|
    requires forall q: nat :: q < |a.parents| && q != p ==> b.parents[q] == a.parents[q]
    requires forall q: nat :: q != p ==> (q in b.parentFree <==> q in a.parentFree)
    ensures Elsewhere(a, b, p)
  {
    forall q: nat | q != p && Held(a, q)
      ensures Load(b, q) == Load(a, q)
    {
      SumFrame(a, b, Kids(ParentAt(a, q)));
    }
  }

  lemma {:induction false} SendFromElsewhere(core: Core, cfg: Config, p: nat, legs: seq<Leg>, i: nat, now: nat)
    requires Sending(core, p, legs, i)
    ensures Elsewhere(core.pool, SendFrom(core, cfg, p, legs, i, now).0.pool, p)
    decreases |legs| - i
  {
    if CanSend(core, p, legs, i) {
      var next := SendChild(core, cfg, p, i, legs[i], now);
      SendPool(core, cfg, p, legs, i, now);
      SendKeeps(core, cfg, p, legs, i, now);
      SendFromElsewhere(next, cfg, p, legs, i + 1, now);
      ElsewhereTrans(core.pool, next.pool, SendFrom(core, cfg, p, legs, i, now).0.pool, p);
    }
  }

  lemma FinishElsewhere(out: Core, p: nat, legs: seq<Leg>, sent: nat)
    ensures Elsewhere(out.pool, FinishDispatch(out, p, legs, sent).pool, p)
  {
    RecordElsewhere(out.pool, FinishDispatch(out, p, legs, sent).pool, p);
  }

  lemma DispatchElsewhere(core: Core, cfg: Config, p: nat, legs: seq<Leg>, now: nat)
    requires Sending(core, p, legs, 0)
    ensures Elsewhere(core.pool, Dispatch(core, cfg, p, legs, now).pool, p)
  {
    SendFromElsewhere(core, cfg, p, legs, 0, now);
    var (out, sent) := SendFrom(core, cfg, p, legs, 0, now);
    FinishElsewhere(out, p, legs, sent);
    ElsewhereTrans(core.pool, out.pool, FinishDispatch(out, p, legs, sent).pool, p);
  }

  /** What a reroute does once the children are cleared and the leaves cut. */
  function Sweep(cut: Core, cfg: Config, p: nat, view: View): Core
    requires ViewOk(cfg, view)
  {
    var par := ParentAt(cut.pool, p);
    if par.reduceOnly && par.leaves == 0 then CloseReduced(cut, p)
    else
      var legs := LegsFor(cfg, view, par, par.leaves, Taker);
      if legs == [] then Abandon(cut, p, NoLiquidity)
      else Dispatch(MarkPending(cut, p), cfg, p, legs, view.now)
  }

  /** A childless rerouted parent, its lots not below zero and, unless reduce-only, above. */
  ghost predicate ReadyToSweep(cut: Core, p: nat) {
    var par := ParentAt(cut.pool, p);
    && Mid(cut, p) && Load(cut.pool, p) == 0 && par.count == 0 && AccountAt(cut, par.serial).rerouted
    && (par.leaves > 0 || (par.reduceOnly && par.leaves == 0))
  }

  lemma SweepKeeps(cut: Core, cfg: Config, p: nat, view: View)
    requires ViewOk(cfg, view) && ReadyToSweep(cut, p)
    ensures Inv(Sweep(cut, cfg, p, view)) && Evolved(cut, Sweep(cut, cfg, p, view))
  {
    var par := ParentAt(cut.pool, p);
    if par.reduceOnly && par.leaves == 0 {
      ReducedKeeps(cut, p);
      HolderAccount(cut, p);
      OneEvolved(cut, CloseReduced(cut, p), par.serial);
    } else {
      RerouteOn(cut, cfg, p, view);
      RerouteOnEvolves(cut, cfg, p, view);
    }
  }

  lemma SweepElsewhere(cut: Core, cfg: Config, p: nat, view: View)
    requires ViewOk(cfg, view) && ReadyToSweep(cut, p)
    ensures Elsewhere(cut.pool, Sweep(cut, cfg, p, view).pool, p)
  {
    var par := ParentAt(cut.pool, p);
    if par.reduceOnly && par.leaves == 0 {
      RecordElsewhere(cut.pool, CloseReduced(cut, p).pool, p);
    } else {
      RoutesFit(cfg, view, par, Taker);
      var legs := LegsFor(cfg, view, par, par.leaves, Taker);
      if legs == [] {
        RecordElsewhere(cut.pool, Abandon(cut, p, NoLiquidity).pool, p);
      } else {
        var marked := MarkPending(cut, p);
        RecordElsewhere(cut.pool, marked.pool, p);
        MarkKeeps(cut, p);
        ReadyToSend(marked, p, legs, |view.venues|);
        DispatchElsewhere(marked, cfg, p, legs, view.now);
        ElsewhereTrans(cut.pool, marked.pool, Dispatch(marked, cfg, p, legs, view.now).pool, p);
      }
    }
  }

  /** The lots a rerouted order goes on with: all it has left, clamped again if it is reduce-only. */
  function Allowed(core: Core, p: nat): int {
    var par := ParentAt(core.pool, p);
    if par.reduceOnly then ClampReduceOnly(PosAt(core, par.instr), par.dir, par.leaves, true) else par.leaves
  }

  /** Clearing and cutting: nothing but the order itself changes, and it keeps what it is allowed. */
  lemma CutDown(core: Core, p: nat)
    requires Mid(core, p) && Load(core.pool, p) == 0 && ParentAt(core.pool, p).leaves > 0
    ensures var cut := Shrink(ClearChildren(core, p), p);
            && ReadyToSweep(cut, p) && Evolved(core, cut) && Elsewhere(core.pool, cut.pool, p)
            && ParentAt(cut.pool, p).leaves == Allowed(core, p)
            && ParentAt(cut.pool, p).serial == ParentAt(core.pool, p).serial
            && ParentAt(cut.pool, p).instr == ParentAt(core.pool, p).instr
            && ParentAt(cut.pool, p).dir == ParentAt(core.pool, p).dir
            && ParentAt(cut.pool, p).reduceOnly == ParentAt(core.pool, p).reduceOnly
            && ParentAt(cut.pool, p).limit == ParentAt(core.pool, p).limit
            && cut.pool.childFree == core.pool.childFree + Kids(ParentAt(core.pool, p))
  {
    var cleared := ClearChildren(core, p);
    var cut := Shrink(cleared, p);
    ClearKeeps(core, p);
    ClearPool(core, p);
    LoadZeroIffAllTerminal(core.pool, p);
    FreeAll(core.pool, ParentAt(core.pool, p), true);
    HolderAccount(core, p);
    OneEvolved(core, cleared, ParentAt(core.pool, p).serial);
    CutAgain(cleared, p);
    EvolvedTrans(core, cleared, cut);
    ElsewhereTrans(core.pool, cleared.pool, cut.pool, p);
  }

  lemma CutAgain(cleared: Core, p: nat)
    requires Mid(cleared, p) && Load(cleared.pool, p) == 0 && ParentAt(cleared.pool, p).leaves > 0
    requires ParentAt(cleared.pool, p).count == 0 && AccountAt(cleared, ParentAt(cleared.pool, p).serial).rerouted
    ensures var cut := Shrink(cleared, p);
            var par, par' := ParentAt(cleared.pool, p), ParentAt(cut.pool, p);
            && ReadyToSweep(cut, p) && Evolved(cleared, cut) && Elsewhere(cleared.pool, cut.pool, p)
            && par'.leaves == Allowed(cleared, p) && par'.serial == par.serial && par'.instr == par.instr
            && par'.dir == par.dir && par'.reduceOnly == par.reduceOnly && par'.limit == par.limit
            && cut.pool.childFree == cleared.pool.childFree
  {
    ShrinkKeeps(cleared, p);
    ShrinkEvolves(cleared, p);
    RecordElsewhere(cleared.pool, Shrink(cleared, p).pool, p);
  }

  lemma RerouteElsewhere(core: Core, cfg: Config, p: nat, view: View)
    requires ViewOk(cfg, view) && Mid(core, p) && Load(core.pool, p) == 0 && ParentAt(core.pool, p).leaves > 0
    ensures Elsewhere(core.pool, Reroute(core, cfg, p, view).pool, p)
  {
    var cut := Shrink(ClearChildren(core, p), p);
    CutDown(core, p);
    SweepElsewhere(cut, cfg, p, view);
    ElsewhereTrans(core.pool, cut.pool, Sweep(cut, cfg, p, view).pool, p);
  }

  // ----- Exposure before and after -----

  lemma LiveNonNegative(core: Core, s: nat, i: nat, d: Dir)
    requires PoolSound(core.pool) && AccountsOk(core)
    ensures LiveLots(core, s, i, d) >= 0
  {
    if s < |core.orders| && core.orders[s].holder.Some? {
      assert AccountOk(core, s);
      KidsNonNegative(core.pool, core.orders[s].holder.value);
    }
  }

  lemma {:induction false} ExposureNonNegative(core: Core, i: nat, d: Dir, n: nat)
    requires PoolSound(core.pool) && AccountsOk(core)
    ensures ExposureOf(core, i, d, n) >= 0
  {
    if n > 0 {
      LiveNonNegative(core, n - 1, i, d);
      ExposureNonNegative(core, i, d, n - 1);
    }
  }

  /** A change on one parent leaves what every other order has at venues. */
  lemma OthersKeepTheirs(core: Core, core': Core, p: nat, i: nat, d: Dir)
    requires AccountsOk(core) && AccountsOk(core') && Held(core.pool, p)
    requires Elsewhere(core.pool, core'.pool, p) && Evolved(core, core')
    ensures forall s: nat :: s < |core.orders| && s != ParentAt(core.pool, p).serial ==>
              LiveLots(core', s, i, d) == LiveLots(core, s, i, d)
  {
    forall s: nat | s < |core.orders| && s != ParentAt(core.pool, p).serial
      ensures LiveLots(core', s, i, d) == LiveLots(core, s, i, d)
    {
      assert Evolves(core.orders[s], core'.orders[s]);
      if core.orders[s].holder.Some? {
        var q := core.orders[s].holder.value;
        assert AccountOk(core, s) && OpenOk(core.pool, core.orders[s], q, s);
        assert Held(core'.pool, q) && ParentAt(core'.pool, q) == ParentAt(core.pool, q);
      }
    }
  }

  lemma {:induction false} ExposureMoves(core: Core, core': Core, s: nat, i: nat, d: Dir, n: nat)
    requires forall t: nat :: t < n && t != s ==> LiveLots(core', t, i, d) == LiveLots(core, t, i, d)
    ensures ExposureOf(core', i, d, n)
         == ExposureOf(core, i, d, n) + if s < n then LiveLots(core', s, i, d) - LiveLots(core, s, i, d) else 0
  {
    if n > 0 {
      ExposureMoves(core, core', s, i, d, n - 1);
    }
  }

  /** The exposure moves by what the step's own order gains or loses. */
  lemma ExposureStep(core: Core, core': Core, p: nat, i: nat, d: Dir)
    requires AccountsOk(core) && AccountsOk(core') && Held(core.pool, p)
    requires Elsewhere(core.pool, core'.pool, p) && Evolved(core, core')
    ensures var s := ParentAt(core.pool, p).serial;
            Exposure(core', i, d) == Exposure(core, i, d) - LiveLots(core, s, i, d) + LiveLots(core', s, i, d)
  {
    OthersKeepTheirs(core, core', p, i, d);
    ExposureMoves(core, core', ParentAt(core.pool, p).serial, i, d, |core.orders|);
  }

  /** What an order has out never exceeds what it has left, and only its own side sees it. */
  lemma LiveWithinLeaves(core: Core, s: nat, i: nat, d: Dir)
    requires PoolSound(core.pool) && AccountsOk(core) && s < |core.orders|
    ensures var a := core.orders[s];
            && 0 <= LiveLots(core, s, i, d)
            && (a.holder.Some? ==> LiveLots(core, s, i, d) <= a.admitted - a.shrunk - a.filled)
            && (a.instr != i || a.dir != d || a.holder == None ==> LiveLots(core, s, i, d) == 0)
  {
    LiveNonNegative(core, s, i, d);
    assert AccountOk(core, s);
    if core.orders[s].holder.Some? {
      KidsNonNegative(core.pool, core.orders[s].holder.value);
      assert ParentOk(core.pool, core.orders[s].holder.value);
    }
  }

  /** An order goes out again for at most what it is allowed. */
  lemma SweepWithin(cut: Core, core': Core, p: nat, i: nat, d: Dir)
    requires Mid(cut, p) && Inv(core') && Evolved(cut, core')
    ensures var par := ParentAt(cut.pool, p);
            && 0 <= LiveLots(core', par.serial, i, d)
            && LiveLots(core', par.serial, i, d) <= (if par.instr == i && par.dir == d then par.leaves else 0)
  {
    var par := ParentAt(cut.pool, p);
    HolderAccount(cut, p);
    assert Evolves(cut.orders[par.serial], core'.orders[par.serial]);
    LiveWithinLeaves(core', par.serial, i, d);
    assert ParentOk(cut.pool, p);
    KidsNonNegative(cut.pool, p);
  }

  /**
   A reroute adds what it sends to the exposure of its side, at most what the order is
   allowed, and adds nothing to the counter the clamp reads.
   */
  lemma RerouteAddsUnreserved(core: Core, cfg: Config, p: nat, view: View, i: nat, d: Dir)
    requires ViewOk(cfg, view) && Mid(core, p) && Load(core.pool, p) == 0 && ParentAt(core.pool, p).leaves > 0
    ensures var core', par := Reroute(core, cfg, p, view), ParentAt(core.pool, p);
            && Inv(core')
            && Exposure(core', i, d) == Exposure(core, i, d) + LiveLots(core', par.serial, i, d)
            && 0 <= LiveLots(core', par.serial, i, d)
            && LiveLots(core', par.serial, i, d) <= (if par.instr == i && par.dir == d then Allowed(core, p) else 0)
            && |core'.pos| == |core.pos| && (i < |core.pos| ==> Open(core'.pos[i], d) <= Open(core.pos[i], d))
  {
    var cut := Shrink(ClearChildren(core, p), p);
    var core' := Reroute(core, cfg, p, view);
    CutDown(core, p);
    SweepKeeps(cut, cfg, p, view);
    SweepWithin(cut, core', p, i, d);
    EvolvedTrans(core, cut, core');
    RerouteElsewhere(core, cfg, p, view);
    ExposureStep(core, core', p, i, d);
    HolderAccount(core, p);
    EvolutionReleases(core, core', i, d);
  }

  lemma {:induction false} SumMonotone(a: seq<Account>, b: seq<Account>, f: Account -> int)
    requires |a| == |b| && forall t :: 0 <= t < |a| ==> f(a[t]) <= f(b[t])
    ensures SumBy(a, f) <= SumBy(b, f)
  {
    if a != [] {
      SumMonotone(a[..|a| - 1], b[..|b| - 1], f);
    }
  }

  /** Without an admission no counter of open lots goes up. */
  lemma EvolutionReleases(core: Core, core': Core, i: nat, d: Dir)
    requires LedgerOk(core) && LedgerOk(core') && Evolved(core, core')
    ensures i < |core.pos| ==> Open(core'.pos[i], d) <= Open(core.pos[i], d)
  {
    forall s: nat | s < |core.orders|
      ensures OpenPart(i, d)(core'.orders[s]) <= OpenPart(i, d)(core.orders[s])
    {
      assert Evolves(core.orders[s], core'.orders[s]);
    }
    SumMonotone(core'.orders, core.orders, OpenPart(i, d));
  }

  // ----- Reports -----

  /** A fill takes its lots off the exposure of its side and off the position. */
  lemma FillExposure(core: Core, c: nat, lots: nat, price: real, i: nat, d: Dir)
    requires Inv(core) && Used(core.pool, c) && Live(ChildAt(core.pool, c)) && i < |core.pos|
    requires 1 <= lots <= ChildAt(core.pool, c).leaves
    ensures var p, booked := ChildAt(core.pool, c).parentId, BookFill(core, c, lots, price);
            var par := ParentAt(core.pool, p);
            && Mid(booked, p) && Evolved(core, booked)
            && Exposure(booked, i, d) == Exposure(core, i, d) - (if par.instr == i && par.dir == d then lots else 0)
            && booked.pos[i].net == core.pos[i].net + (if par.instr == i then Sign(par.dir) * lots else 0)
  {
    var p, booked := ChildAt(core.pool, c).parentId, BookFill(core, c, lots, price);
    var par := ParentAt(core.pool, p);
    FillKeeps(core, c, lots, price);
    assert Held(core.pool, p) && ParentOk(core.pool, p);
    HolderAccount(core, p);
    FillPool(core.pool, c, lots, FilledParent(par, lots, price));
    OneEvolved(core, booked, par.serial);
    ExposureStep(core, booked, p, i, d);
  }

  /** A cancel or reject takes its child's leaves off the exposure and leaves the position. */
  lemma CancelExposure(core: Core, c: nat, state: OrderState, i: nat, d: Dir)
    requires Inv(core) && Used(core.pool, c) && Live(ChildAt(core.pool, c)) && i < |core.pos|
    requires state == OrderState.Canceled || state == OrderState.Rejected
    ensures var ch, booked := ChildAt(core.pool, c), BookCancel(core, c, state);
            var par := ParentAt(core.pool, ch.parentId);
            && Mid(booked, ch.parentId) && Evolved(core, booked) && ch.leaves >= 1
            && Exposure(booked, i, d) == Exposure(core, i, d) - (if par.instr == i && par.dir == d then ch.leaves else 0)
            && booked.pos[i].net == core.pos[i].net
  {
    var ch, booked := ChildAt(core.pool, c), BookCancel(core, c, state);
    var p := ch.parentId;
    CancelKeeps(core, c, state);
    assert Held(core.pool, p) && ChildOk(ch);
    HolderAccount(core, p);
    ChildEditPool(core.pool, c, ch.(leaves := 0, state := state));
    OneEvolved(core, booked, ParentAt(core.pool, p).serial);
    ExposureStep(core, booked, p, i, d);
  }

  /** Closing a filled order leaves the exposure as it was. */
  lemma CloseExposure(booked: Core, p: nat, i: nat, d: Dir)
    requires Mid(booked, p) && ParentAt(booked.pool, p).leaves == 0
    ensures var core' := CloseFilled(booked, p);
            Inv(core') && Evolved(booked, core') && Exposure(core', i, d) == Exposure(booked, i, d)
  {
    var core', par := CloseFilled(booked, p), ParentAt(booked.pool, p);
    FilledKeeps(booked, p);
    HolderAccount(booked, p);
    OneEvolved(booked, core', par.serial);
    FreeAll(SetParent(booked.pool, p, par.(state := OrderState.Filled)), par, false);
    RecordElsewhere(booked.pool, core'.pool, p);
    ExposureStep(booked, core', p, i, d);
    assert ParentOk(booked.pool, p);
    KidsNonNegative(booked.pool, p);
  }

  // ----- Admission -----

  /** A signal touches no parent but the one it may open, which no order held before. */
  lemma SignalElsewhere(core: Core, cfg: Config, sig: Signal, gateOk: bool, riskOk: bool, view: View) returns (q: nat)
    requires Inv(core) && ViewOk(cfg, view) && sig.lots >= 0
    ensures !Held(core.pool, q) && Elsewhere(core.pool, OnSignal(core, cfg, sig, gateOk, riskOk, view).pool, q)
  {
    q := |core.pool.parents|;
    if gateOk && core.pool.parentFree != [] {
      q := Top(core.pool.parentFree);
      var par := NewParent(core, cfg, sig, q);
      EffectiveNonNegative(core, sig);
      RefuseKeeps(core, par, sig, NoLiquidity);
      if par.leaves != 0 && sig.instr < |core.pos| {
        RoutesFit(cfg, view, par, sig.kind);
        AdmittedElsewhere(core, cfg, par, LegsFor(cfg, view, par, par.leaves, sig.kind), |view.venues|, view.now);
      }
    }
  }

  lemma AdmittedElsewhere(core: Core, cfg: Config, par: Parent, legs: seq<Leg>, venues: nat, now: nat)
    requires Inv(core) && core.pool.parentFree != [] && par.id == Top(core.pool.parentFree)
    requires par.count == 0 && par.mask == NO_MASK && par.cum == 0 && par.total == par.leaves && par.leaves > 0
    requires par.instr < |core.pos| && par.serial == |core.orders| && par.avg == 0.0
    requires SplitOk(legs, par.dir, par.leaves, par.limit, venues)
    ensures Elsewhere(core.pool, Dispatch(Admit(core, par), cfg, par.id, legs, now).pool, par.id)
  {
    var admitted := Admit(core, par);
    AdmitKeeps(core, par);
    ReadyToSend(admitted, par.id, legs, venues);
    DispatchElsewhere(admitted, cfg, par.id, legs, now);
    ElsewhereTrans(core.pool, admitted.pool, Dispatch(admitted, cfg, par.id, legs, now).pool, par.id);
  }

  /** An admission adds what the new order has out to its side, at most the clamped size. */
  lemma SignalExposure(core: Core, cfg: Config, sig: Signal, gateOk: bool, riskOk: bool, view: View, i: nat, d: Dir)
    requires Inv(core) && ViewOk(cfg, view) && sig.lots >= 0
    ensures var core' := OnSignal(core, cfg, sig, gateOk, riskOk, view);
            && Inv(core') && AdmitsAtMostOne(core, sig, core')
            && Exposure(core', i, d) == Exposure(core, i, d) + LiveLots(core', |core.orders|, i, d)
            && 0 <= LiveLots(core', |core.orders|, i, d)
            && LiveLots(core', |core.orders|, i, d) <= (if sig.instr == i && sig.dir == d then EffectiveLots(core, sig) else 0)
  {
    var core' := OnSignal(core, cfg, sig, gateOk, riskOk, view);
    SignalKeeps(core, cfg, sig, gateOk, riskOk, view);
    SignalAdmits(core, cfg, sig, gateOk, riskOk, view);
    EffectiveNonNegative(core, sig);
    var q := SignalElsewhere(core, cfg, sig, gateOk, riskOk, view);
    AdmissionMoves(core, core', sig, q, i, d);
    if |core'.orders| > |core.orders| {
      LiveWithinLeaves(core', |core.orders|, i, d);
      assert AccountOk(core', |core.orders|);
    }
  }

  lemma AdmissionMoves(core: Core, core': Core, sig: Signal, q: nat, i: nat, d: Dir)
    requires AccountsOk(core) && AdmitsAtMostOne(core, sig, core')
    requires !Held(core.pool, q) && Elsewhere(core.pool, core'.pool, q)
    ensures Exposure(core', i, d) == Exposure(core, i, d) + LiveLots(core', |core.orders|, i, d)
  {
    forall s: nat | s < |core.orders|
      ensures LiveLots(core', s, i, d) == LiveLots(core, s, i, d)
    {
      assert AccountOk(core, s);
    }
    ExposureMoves(core, core', |core.orders|, i, d, |core.orders|);
  }
}
