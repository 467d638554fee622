/**
 What a dispatch sends, leg by leg: how many children go out, what each of them carries,
 whether it has a timer, and what the order's account and reservation look like after it.
 */
module Dispatching {
  import opened Types
  import opened Router
  import opened OrderPool
  import opened Accounts
  import opened Lifecycle
  import opened LifecycleInvariant
  import TW = TimerWheel

  // ----- One child -----

  /** The record of the child a leg becomes: at the leg's venue and price, for its lots, on the parent's side. */
  function ChildOf(p: nat, dir: Dir, leg: Leg, now: nat): Child {
    Child(p, leg.slice.price, leg.lots, 0, leg.lots, leg.slice.venue, leg.kind, dir, PendingNew, now)
  }

  function DueTime(cfg: Config, leg: Leg, now: nat): nat {
    match leg.kind
    case Maker => now + cfg.makerTimeout
    case Taker => now + cfg.childTimeout
  }

  /** The child has a timer at its due time, or the slot of that time is full. */
  ghost predicate TimedOrFull(w: TW.Wheel, c: nat, due: nat) {
    var s := TW.SlotFor(w, due);
    (exists j: nat :: j < w.depth && w.slots[s][j] == TW.Entry(c, due, true)) || !TW.HasRoom(w, s)
  }

  lemma InsertTimes(w: TW.Wheel, c: nat, at: nat, timeout: nat)
    ensures TimedOrFull(TW.Insert(w, c, at, timeout), c, at + timeout)
  {
    var w', s := TW.Insert(w, c, at, timeout), TW.SlotFor(w, at + timeout);
    TW.InsertFirstFit(w, c, at, timeout);
    if TW.HasRoom(w, s) {
      var i: nat :| TW.LowestFree(w, s, i) && w' == TW.SetEntry(w, s, i, TW.Entry(c, at + timeout, true));
      assert w'.slots[s][i] == TW.Entry(c, at + timeout, true);
    }
  }

  /** Setting another timer takes nobody's away. */
  lemma InsertLeavesTimed(w: TW.Wheel, c: nat, due: nat, d: nat, at: nat, timeout: nat)
    requires TimedOrFull(w, c, due)
    ensures TimedOrFull(TW.Insert(w, d, at, timeout), c, due)
  {
    var w', s, t := TW.Insert(w, d, at, timeout), TW.SlotFor(w, due), TW.SlotFor(w, at + timeout);
    TW.InsertFirstFit(w, d, at, timeout);
    if TW.HasRoom(w, s) {
      var j: nat :| j < w.depth && w.slots[s][j] == TW.Entry(c, due, true);
      assert w'.slots[s][j] == TW.Entry(c, due, true);
    } else {
      assert forall j :: 0 <= j < w.depth ==> w.slots[s][j].active && w'.slots[s][j] == w.slots[s][j];
    }
  }

  /** Slot `k` of the parent records the child of this leg, and it is timed if there was room. */
  ghost predicate LegOut(core: Core, cfg: Config, p: nat, k: nat, leg: Leg, now: nat) {
    var par := ParentAt(core.pool, p);
    && k < par.count <= MAX_KIDS
    && ChildAt(core.pool, par.slots[k]) == ChildOf(p, par.dir, leg, now)
    && TimedOrFull(core.wheel, par.slots[k], DueTime(cfg, leg, now))
  }

  lemma SendPutsOut(core: Core, cfg: Config, p: nat, legs: seq<Leg>, i: nat, now: nat)
    requires Sending(core, p, legs, i) && CanSend(core, p, legs, i)
    ensures LegOut(SendChild(core, cfg, p, i, legs[i], now), cfg, p, i, legs[i], now)
  {
    var c := Top(core.pool.childFree);
    SendPool(core, cfg, p, legs, i, now);
    SentRecord(core, cfg, p, legs, i, now);
    InsertTimes(core.wheel, c, now, TimeoutFor(cfg, legs[i]));
  }

  lemma SentRecord(core: Core, cfg: Config, p: nat, legs: seq<Leg>, i: nat, now: nat)
    requires Sending(core, p, legs, i) && CanSend(core, p, legs, i)
    ensures var pool', c := SendChild(core, cfg, p, i, legs[i], now).pool, Top(core.pool.childFree);
            ChildAt(pool', c) == ChildOf(p, ParentAt(core.pool, p).dir, legs[i], now)
  {
    assert LegOk(ParentAt(core.pool, p), legs[i]);
    PopList(core.pool.childFree, |core.pool.children|);
  }

  lemma SendLeavesOut(core: Core, cfg: Config, p: nat, legs: seq<Leg>, i: nat, now: nat, k: nat)
    requires Sending(core, p, legs, i) && CanSend(core, p, legs, i) && k < i && LegOut(core, cfg, p, k, legs[k], now)
    ensures LegOut(SendChild(core, cfg, p, i, legs[i], now), cfg, p, k, legs[k], now)
  {
    var par, c := ParentAt(core.pool, p), Top(core.pool.childFree);
    SendPool(core, cfg, p, legs, i, now);
    assert Kids(par)[k] == par.slots[k];
    assert par.slots[k] in Kids(par) && Used(core.pool, par.slots[k]);
    InsertLeavesTimed(core.wheel, par.slots[k], DueTime(cfg, legs[k], now), c, now, TimeoutFor(cfg, legs[i]));
  }

  // ----- The whole loop -----

  ghost predicate LegsOut(core: Core, cfg: Config, p: nat, legs: seq<Leg>, n: nat, now: nat) {
    n <= |legs| && forall k: nat :: k < n ==> LegOut(core, cfg, p, k, legs[k], now)
  }

  lemma SendAddsLeg(core: Core, cfg: Config, p: nat, legs: seq<Leg>, i: nat, now: nat)
    requires Sending(core, p, legs, i) && CanSend(core, p, legs, i) && LegsOut(core, cfg, p, legs, i, now)
    ensures LegsOut(SendChild(core, cfg, p, i, legs[i], now), cfg, p, legs, i + 1, now)
  {
    SendPutsOut(core, cfg, p, legs, i, now);
    forall k: nat | k < i
      ensures LegOut(SendChild(core, cfg, p, i, legs[i], now), cfg, p, k, legs[k], now)
    {
      SendLeavesOut(core, cfg, p, legs, i, now, k);
    }
  }

  /** How many of the legs go out: all of them, or as many as the parent has slots and the pool has children. */
  function OutCount(legs: seq<Leg>, free: nat): nat {
    Min(|legs|, Min(MAX_KIDS, free))
  }

  lemma {:induction false} SendFromOut(core: Core, cfg: Config, p: nat, legs: seq<Leg>, i: nat, now: nat)
    requires Sending(core, p, legs, i) && LegsOut(core, cfg, p, legs, i, now)
    ensures var (core', sent) := SendFrom(core, cfg, p, legs, i, now);
            && sent == OutCount(legs, i + |core.pool.childFree|)
            && LegsOut(core', cfg, p, legs, sent, now)
    decreases |legs| - i
  {
    if CanSend(core, p, legs, i) {
      SendKeeps(core, cfg, p, legs, i, now);
      SendAddsLeg(core, cfg, p, legs, i, now);
      SendFromOut(SendChild(core, cfg, p, i, legs[i], now), cfg, p, legs, i + 1, now);
    }
  }

  /** The legs as the account records them. */
  function SentLegs(dir: Dir, legs: seq<Leg>): seq<Sent> {
    if legs == [] then [] else [SentAs(dir, legs[0])] + SentLegs(dir, legs[1..])
  }

  lemma JoinRecords(a: Account, b: Account, c: Account, dir: Dir, legs: seq<Leg>, i: nat, sent: nat)
    requires i < sent <= |legs|
    requires b == a.(sent := a.sent + [SentAs(dir, legs[i])])
    requires c == b.(sent := b.sent + SentLegs(dir, legs[i + 1..sent]))
    ensures c == a.(sent := a.sent + SentLegs(dir, legs[i..sent]))
  {
    assert legs[i..sent][0] == legs[i] && legs[i..sent][1..] == legs[i + 1..sent];
    assert a.sent + [SentAs(dir, legs[i])] + SentLegs(dir, legs[i + 1..sent])
        == a.sent + ([SentAs(dir, legs[i])] + SentLegs(dir, legs[i + 1..sent]));
  }

  /** An order whose account is on file, and legs with a price. */
  ghost predicate OnFile(core: Core, p: nat, legs: seq<Leg>) {
    && p < |core.pool.parents| && core.pool.parents[p].serial < |core.orders|
    && forall k :: 0 <= k < |legs| ==> legs[k].slice.price > 0
  }

  lemma SendRecords(core: Core, next: Core, cfg: Config, p: nat, legs: seq<Leg>, i: nat, now: nat)
    requires OnFile(core, p, legs) && CanSend(core, p, legs, i) && next == SendChild(core, cfg, p, i, legs[i], now)
    ensures OnFile(next, p, legs)
    ensures var par := ParentAt(core.pool, p);
            && ParentAt(next.pool, p).serial == par.serial && ParentAt(next.pool, p).dir == par.dir
            && (var a := AccountAt(core, par.serial);
                AccountAt(next, par.serial) == a.(sent := a.sent + [SentAs(par.dir, legs[i])]))
  {
  }

  /** The loop writes what it sends to its own order's account and nothing else there. */
  lemma {:induction false} SendFromRecords(core: Core, cfg: Config, p: nat, legs: seq<Leg>, i: nat, now: nat)
    requires OnFile(core, p, legs) && i <= |legs|
    ensures var (core', sent) := SendFrom(core, cfg, p, legs, i, now);
            var par := ParentAt(core.pool, p);
            && i <= sent <= |legs|
            && (var a := AccountAt(core, par.serial);
                AccountAt(core', par.serial) == a.(sent := a.sent + SentLegs(par.dir, legs[i..sent])))
    decreases |legs| - i
  {
    var par := ParentAt(core.pool, p);
    var a := AccountAt(core, par.serial);
    if CanSend(core, p, legs, i) {
      var next, end := SendChild(core, cfg, p, i, legs[i], now), SendFrom(core, cfg, p, legs, i, now);
      SendRecords(core, next, cfg, p, legs, i, now);
      SendFromRecords(next, cfg, p, legs, i + 1, now);
      JoinRecords(a, AccountAt(next, par.serial), AccountAt(end.0, par.serial), par.dir, legs, i, end.1);
    } else {
      assert a.sent + SentLegs(par.dir, legs[i..i]) == a.sent;
    }
  }

  /** The parent's own terms and the rejects are not the loop's to change. */
  lemma {:induction false} SendFromFields(core: Core, cfg: Config, p: nat, legs: seq<Leg>, i: nat, now: nat)
    requires p < |core.pool.parents|
    ensures var core' := SendFrom(core, cfg, p, legs, i, now).0;
            var par, par' := ParentAt(core.pool, p), ParentAt(core'.pool, p);
            && core'.rejects == core.rejects && p < |core'.pool.parents| && |core'.orders| == |core.orders|
            && par'.serial == par.serial && par'.instr == par.instr && par'.dir == par.dir
            && par'.strategy == par.strategy && par'.leaves == par.leaves
    decreases |legs| - i
  {
    if CanSend(core, p, legs, i) {
      SendFromFields(SendChild(core, cfg, p, i, legs[i], now), cfg, p, legs, i + 1, now);
    }
  }

  // ----- Dispatch -----

  /** The order's account after the first `n` legs went out and the rest were given back. */
  function AccountAfter(a: Account, dir: Dir, legs: seq<Leg>, n: nat): Account
    requires n <= |legs|
  {
    a.(sent := a.sent + SentLegs(dir, legs[..n]), reserved := a.reserved - SumLegs(legs[n..]),
       holder := if n == 0 then None else a.holder)
  }

  lemma FinishAccount(out: Core, p: nat, legs: seq<Leg>, sent: nat)
    requires p < |out.pool.parents| && out.pool.parents[p].serial < |out.orders| && out.pool.parents[p].count == sent <= |legs|
    requires SumLegs(legs[sent..]) >= 0
    ensures var core', s := FinishDispatch(out, p, legs, sent), ParentAt(out.pool, p).serial;
            var a := AccountAt(out, s);
            AccountAt(core', s) == a.(reserved := a.reserved - SumLegs(legs[sent..]),
                                      holder := if sent == 0 then None else a.holder)
  {
    if sent == |legs| {
      assert legs[sent..] == [];
    }
    var gap := if sent < |legs| then SumLegs(legs[sent..]) else 0;
    var kept := if gap > 0 then ReleaseFor(out, p, gap) else out;
    ReleasedAccount(out, kept, p, gap);
    ClosedAccount(kept, p);
  }

  lemma ReleasedAccount(out: Core, kept: Core, p: nat, gap: int)
    requires ParentAt(out.pool, p).serial < |out.orders| && gap >= 0
    requires kept == if gap > 0 then ReleaseFor(out, p, gap) else out
    ensures kept.pool == out.pool && |kept.orders| == |out.orders|
    ensures var s := ParentAt(out.pool, p).serial;
            AccountAt(kept, s) == AccountAt(out, s).(reserved := AccountAt(out, s).reserved - gap)
  {
  }

  lemma ClosedAccount(kept: Core, p: nat)
    requires ParentAt(kept.pool, p).serial < |kept.orders|
    ensures var s := ParentAt(kept.pool, p).serial;
            AccountAt(Abandon(kept, p, ChildPoolExhausted), s) == AccountAt(kept, s).(holder := None)
  {
  }

  lemma FinishRest(out: Core, cfg: Config, p: nat, legs: seq<Leg>, sent: nat, now: nat)
    requires Sending(out, p, legs, sent) && LegsOut(out, cfg, p, legs, sent, now)
    ensures var core', par := FinishDispatch(out, p, legs, sent), ParentAt(out.pool, p);
            && LegsOut(core', cfg, p, legs, sent, now)
            && (sent > 0 ==> Held(core'.pool, p) && ParentAt(core'.pool, p).count == sent && core'.rejects == out.rejects)
            && (sent == 0 ==>
                  && !Held(core'.pool, p)
                  && core'.rejects == out.rejects
                       + [Reject(par.instr, par.dir, par.strategy, par.leaves, ChildPoolExhausted, Some(par.serial))])
  {
    var core' := FinishDispatch(out, p, legs, sent);
    if sent > 0 {
      assert core'.pool == out.pool && core'.wheel == out.wheel;
      forall k: nat | k < sent
        ensures LegOut(core', cfg, p, k, legs[k], now)
      {
        assert LegOut(out, cfg, p, k, legs[k], now);
      }
    }
  }

  /** The order of parent `p` after a dispatch of these legs at this time. */
  ghost predicate Dispatched(core: Core, core': Core, cfg: Config, p: nat, legs: seq<Leg>, now: nat) {
    var n, par := OutCount(legs, |core.pool.childFree|), ParentAt(core.pool, p);
    && LegsOut(core', cfg, p, legs, n, now)
    && AccountAt(core', par.serial) == AccountAfter(AccountAt(core, par.serial), par.dir, legs, n)
    && (n > 0 ==> Held(core'.pool, p) && ParentAt(core'.pool, p).count == n && core'.rejects == core.rejects)
    && (n == 0 ==>
          && !Held(core'.pool, p)
          && core'.rejects == core.rejects
               + [Reject(par.instr, par.dir, par.strategy, par.leaves, ChildPoolExhausted, Some(par.serial))])
  }

  /**
   A dispatch sends a leg per slot, in order: as many as the legs, the parent's slots and
   the free children allow. Slot k records a child with the venue, price, lots and style of
   leg k, on the parent's side, timed unless its slot of the wheel is full. The account
   records the same, and exactly the lots of the legs left over are released.
   */
  lemma DispatchSends(core: Core, cfg: Config, p: nat, legs: seq<Leg>, now: nat)
    requires Sending(core, p, legs, 0)
    ensures Dispatched(core, Dispatch(core, cfg, p, legs, now), cfg, p, legs, now)
  {
    var (out, sent) := SendFrom(core, cfg, p, legs, 0, now);
    HolderAccount(core, p);
    SendFromOut(core, cfg, p, legs, 0, now);
    SendFromKeeps(core, cfg, p, legs, 0, now);
    SendFromFields(core, cfg, p, legs, 0, now);
    DispatchAccount(core, cfg, p, legs, now);
    FinishRest(out, cfg, p, legs, sent, now);
  }

  lemma DispatchAccount(core: Core, cfg: Config, p: nat, legs: seq<Leg>, now: nat)
    requires Sending(core, p, legs, 0)
    ensures var sent, s := SendFrom(core, cfg, p, legs, 0, now).1, ParentAt(core.pool, p).serial;
            && sent <= |legs|
            && AccountAt(Dispatch(core, cfg, p, legs, now), s)
                 == AccountAfter(AccountAt(core, s), ParentAt(core.pool, p).dir, legs, sent)
  {
    var (out, sent) := SendFrom(core, cfg, p, legs, 0, now);
    HolderAccount(core, p);
    SendFromRecords(core, cfg, p, legs, 0, now);
    SendFromKeeps(core, cfg, p, legs, 0, now);
    SendFromFields(core, cfg, p, legs, 0, now);
    LegsNonNegative(legs[sent..]);
    FinishAccount(out, p, legs, sent);
    assert legs[0..sent] == legs[..sent];
  }
}
