/**
 The TWAP scheduler of algos/twap_scheduler.hpp. Whatever the random draws
 return, they enter as arbitrary reals: nothing below depends on their
 distribution except the timing bound, which uses only their range.
 */
module Twap {
  import opened Types
  import RA = RealArith

  const NEVER: nat := 0xFFFF_FFFF_FFFF_FFFF

  datatype Config = Config(
    total: int, duration: nat, requested: nat, sizeJitter: real, intervalJitter: real)

  /** The mutable part of the scheduler: `left` slices still to emit `remaining` lots. */
  datatype Schedule = Schedule(slices: nat, remaining: int, left: nat, deadline: nat)

  /** One call of `tick`: the caller's clock and what the two draws would return. */
  datatype Tick = Tick(now: nat, sizeDraw: real, intervalDraw: real)

  /** The largest count within the request and the lots there are, and one slice when there is no such count. */
  function ClampSliceCount(requested: nat, total: int): (n: nat)
    ensures 1 <= n
    ensures total > 0 ==> n <= total
    ensures requested > 0 ==> n <= requested
    ensures requested > 0 && total > 0 ==> n == requested || n == total
    ensures requested == 0 || total <= 0 ==> n == 1
  {
    if requested == 0 || total <= 0 then 1 else Min(requested, total)
  }

  function Start(cfg: Config, start: nat): Schedule {
    var n := ClampSliceCount(cfg.requested, cfg.total);
    Schedule(n, cfg.total, n, start)
  }

  predicate Done(s: Schedule) {
    s.remaining <= 0 || s.left == 0
  }

  /** A non-positive jitter fraction switches the draw off. */
  function Jittered(frac: real, draw: real): real {
    if frac <= 0.0 then 1.0 else draw
  }

  /** `std::clamp`, undefined in C++ unless the bounds are ordered. */
  function Clamp(x: int, lo: int, hi: int): (r: int)
    requires lo <= hi
    ensures lo <= r <= hi
  {
    if x < lo then lo else if x > hi then hi else x
  }

  /** A schedule with something to trade: at least one lot for every slice left, and no slice short. */
  predicate Trading(s: Schedule) {
    s.remaining >= s.left && (s.left == 0 ==> s.remaining == 0)
  }

  /** What every schedule satisfies, also one that was given nothing to trade. */
  predicate Sliceable(s: Schedule) {
    s.slices >= 1 && (s.remaining <= 0 || Trading(s))
  }

  /** The nominal share of one slice, jittered and rounded. */
  function DrawnLots(cfg: Config, n: nat, draw: real): int
    requires n >= 1
  {
    Round((cfg.total as real / n as real) * Jittered(cfg.sizeJitter, draw))
  }

  /** The next slice: everything on the last one, a jittered share that starves nobody before it. */
  function SliceLots(cfg: Config, s: Schedule, draw: real): (lots: int)
    requires Sliceable(s) && !Done(s)
    ensures 1 <= lots <= s.remaining
    ensures s.remaining - lots >= s.left - 1
    ensures s.left == 1 ==> lots == s.remaining
  {
    if s.left == 1 then s.remaining
    else
      Clamp(DrawnLots(cfg, s.slices, draw), 1, s.remaining - (s.left - 1))
  }

  function Interval(cfg: Config, n: nat, draw: real): int
    requires n >= 1
  {
    Trunc((cfg.duration as real / n as real) * Jittered(cfg.intervalJitter, draw))
  }

  /** The longest interval the jitter allows. */
  function MaxInterval(cfg: Config, n: nat): real
    requires n >= 1
  {
    (cfg.duration as real / n as real) * (1.0 + Frac(cfg))
  }

  /** The shortest, to within one nanosecond. */
  function MinInterval(cfg: Config, n: nat): real
    requires n >= 1
  {
    (cfg.duration as real / n as real) * (1.0 - Frac(cfg)) - 1.0
  }

  predicate Fires(s: Schedule, t: Tick) {
    !Done(s) && t.now >= s.deadline
  }

  function NextDeadline(cfg: Config, s: Schedule, t: Tick): nat
    requires s.slices >= 1
  {
    var next := t.now + Interval(cfg, s.slices, t.intervalDraw);
    if Done(s) then NEVER else if next < 0 then 0 else next
  }

  function Advance(cfg: Config, s: Schedule, t: Tick): (s': Schedule)
    requires Sliceable(s)
    ensures Sliceable(s') && s'.slices == s.slices
    ensures Trading(s) ==> Trading(s')
  {
    if !Fires(s, t) then s
    else
      var cut := s.(remaining := s.remaining - SliceLots(cfg, s, t.sizeDraw), left := s.left - 1);
      cut.(deadline := NextDeadline(cfg, cut, t))
  }

  function Emitted(cfg: Config, s: Schedule, ticks: seq<Tick>): seq<int>
    requires Sliceable(s)
    decreases |ticks|
  {
    if ticks == [] then []
    else
      (if Fires(s, ticks[0]) then [SliceLots(cfg, s, ticks[0].sizeDraw)] else [])
      + Emitted(cfg, Advance(cfg, s, ticks[0]), ticks[1..])
  }

  function After(cfg: Config, s: Schedule, ticks: seq<Tick>): (s': Schedule)
    requires Sliceable(s)
    ensures Sliceable(s')
    ensures Trading(s) ==> Trading(s')
    decreases |ticks|
  {
    if ticks == [] then s else After(cfg, Advance(cfg, s, ticks[0]), ticks[1..])
  }

  function Sum(s: seq<int>): int {
    if s == [] then 0 else s[0] + Sum(s[1..])
  }

  /** Lots and slices are both conserved by every run, for any clock readings and any draws. */
  lemma {:induction false} RunConserves(cfg: Config, s: Schedule, ticks: seq<Tick>)
    requires Sliceable(s)
    ensures var out, s' := Emitted(cfg, s, ticks), After(cfg, s, ticks);
            && Sum(out) + s'.remaining == s.remaining
            && |out| + s'.left == s.left
            && forall i :: 0 <= i < |out| ==> out[i] >= 1
    decreases |ticks|
  {
    if ticks != [] {
      var s1 := Advance(cfg, s, ticks[0]);
      RunConserves(cfg, s1, ticks[1..]);
      var rest := Emitted(cfg, s1, ticks[1..]);
      if Fires(s, ticks[0]) {
        var lots := SliceLots(cfg, s, ticks[0].sizeDraw);
        assert ([lots] + rest)[1..] == rest;
      } else {
        assert [] + rest == rest;
      }
    }
  }

  /**
   A run with a positive total that has finished has emitted as many slices as were
   asked for or one per lot, whichever is fewer, every slice at least one lot, adding up
   to the total; a run with nothing to trade emits nothing.
   */
  lemma RunIsExact(cfg: Config, start: nat, ticks: seq<Tick>)
    ensures var s, n := Start(cfg, start), if cfg.requested == 0 then 1 else Min(cfg.requested, cfg.total);
            var out := Emitted(cfg, s, ticks);
            && (cfg.total <= 0 ==> out == [] && Done(After(cfg, s, ticks)))
            && (forall i :: 0 <= i < |out| ==> out[i] >= 1)
            && (cfg.total > 0 ==>
                  && |out| <= n
                  && Sum(out) <= cfg.total
                  && (Done(After(cfg, s, ticks)) <==> |out| == n)
                  && (Done(After(cfg, s, ticks)) <==> Sum(out) == cfg.total))
  {
    RunConserves(cfg, Start(cfg, start), ticks);
    if cfg.total <= 0 {
      NothingToTrade(cfg, Start(cfg, start), ticks);
    }
  }

  lemma {:induction false} NothingToTrade(cfg: Config, s: Schedule, ticks: seq<Tick>)
    requires Sliceable(s) && Done(s)
    ensures Emitted(cfg, s, ticks) == [] && After(cfg, s, ticks) == s
    decreases |ticks|
  {
    if ticks != [] {
      NothingToTrade(cfg, s, ticks[1..]);
    }
  }

  // ----- How large a slice is -----

  /** The lots kept back so that every later slice can have one. */
  function Spare(s: Schedule): int {
    s.remaining - (s.left - 1)
  }

  /**
   Before the last one, a slice is its jittered share to the nearest lot, except that it is
   never empty and never takes a lot a later slice needs.
   */
  lemma SliceNearShare(cfg: Config, s: Schedule, draw: real)
    requires Sliceable(s) && !Done(s) && s.left > 1
    ensures var lots := SliceLots(cfg, s, draw);
            var share := (cfg.total as real / s.slices as real) * (if cfg.sizeJitter <= 0.0 then 1.0 else draw);
            && (lots as real <= share + 0.5 || lots == 1)
            && (lots as real >= share - 0.5 || lots == Spare(s))
  {
    RoundBounds((cfg.total as real / s.slices as real) * Jittered(cfg.sizeJitter, draw));
  }

  /** Within half a lot of the even share of `total` over `n` slices. */
  predicate NearEven(lots: int, total: int, n: nat)
    requires n >= 1
  {
    -0.5 <= lots as real - total as real / n as real <= 0.5
  }

  lemma ShareAtLeastOne(total: int, n: nat)
    requires 1 <= n <= total
    ensures total as real / n as real >= 1.0
  {
    RA.QuotientBetween(total as real, n as real, 1.0, total as real);
  }

  lemma EvenSlice(cfg: Config, s: Schedule, draw: real)
    requires Sliceable(s) && !Done(s) && s.left > 1 && s.slices <= cfg.total && cfg.sizeJitter <= 0.0
    ensures var lots := SliceLots(cfg, s, draw); NearEven(lots, cfg.total, s.slices) || lots == Spare(s)
  {
    var even := cfg.total as real / s.slices as real;
    ShareAtLeastOne(cfg.total, s.slices);
    assert even * 1.0 == even;
    SliceNearShare(cfg, s, draw);
    RoundNonNegative(even);
  }

  /** The i-th slice of a run is even, or takes all but one lot for each slice after it. */
  ghost predicate EvenAt(cfg: Config, s: Schedule, out: seq<int>, i: nat)
    requires i < |out| && s.slices >= 1
  {
    NearEven(out[i], cfg.total, s.slices) || Sum(out[..i + 1]) == s.remaining - (s.left - 1 - i)
  }

  /** With size jitter off, every slice before the last is within half a lot of the even share, bounds permitting. */
  lemma {:induction false} EvenFrom(cfg: Config, s: Schedule, ticks: seq<Tick>, i: nat)
    requires Sliceable(s) && s.slices <= cfg.total && cfg.sizeJitter <= 0.0
    requires i < |Emitted(cfg, s, ticks)| && i + 1 < s.left
    ensures EvenAt(cfg, s, Emitted(cfg, s, ticks), i)
    decreases |ticks|
  {
    var s1, out := Advance(cfg, s, ticks[0]), Emitted(cfg, s, ticks);
    var rest := Emitted(cfg, s1, ticks[1..]);
    if !Fires(s, ticks[0]) {
      assert out == rest;
      EvenFrom(cfg, s1, ticks[1..], i);
    } else {
      var lots := SliceLots(cfg, s, ticks[0].sizeDraw);
      assert out == [lots] + rest;
      if i == 0 {
        EvenSlice(cfg, s, ticks[0].sizeDraw);
        assert out[..1] == [lots] && [lots][1..] == [];
      } else {
        EvenFrom(cfg, s1, ticks[1..], i - 1);
        assert out[..i + 1][0] == lots && out[..i + 1][1..] == rest[..i];
      }
    }
  }

  /**
   Plain TWAP: without size jitter every slice of a run before the last is within half a
   lot of total / n, or leaves exactly one lot for each slice after it.
   */
  lemma SlicesAreEven(cfg: Config, start: nat, ticks: seq<Tick>, i: nat)
    requires cfg.total > 0 && cfg.requested > 0 && cfg.sizeJitter <= 0.0
    requires i < |Emitted(cfg, Start(cfg, start), ticks)| && i + 1 < Min(cfg.requested, cfg.total)
    ensures var n, out := Min(cfg.requested, cfg.total), Emitted(cfg, Start(cfg, start), ticks);
            NearEven(out[i], cfg.total, n) || Sum(out[..i + 1]) == cfg.total - (n - 1 - i)
  {
    EvenFrom(cfg, Start(cfg, start), ticks, i);
  }

  lemma ExactShare(total: real, q: nat, n: real)
    requires n > 0.0 && total == q as real * n
    ensures Round((total / n) * 1.0) == q
  {
    assert total / n == q as real;
    RoundOfInt(q);
  }

  lemma LeavesEnough(q: nat, left: nat, remaining: int)
    requires q >= 1 && left >= 1 && remaining == q * left
    ensures 1 <= q <= remaining - (left - 1)
  {
    assert q * left - left + 1 - q == (q - 1) * (left - 1);
  }

  lemma WholeShare(cfg: Config, s: Schedule, draw: real, q: nat)
    requires Sliceable(s) && !Done(s) && cfg.sizeJitter <= 0.0 && q >= 1
    requires cfg.total as real == q as real * s.slices as real && s.remaining == q * s.left
    ensures SliceLots(cfg, s, draw) == q
  {
    if s.left > 1 {
      ExactShare(cfg.total as real, q, s.slices as real);
      LeavesEnough(q, s.left, s.remaining);
    }
  }

  lemma EqualStep(cfg: Config, s: Schedule, t: Tick, q: nat)
    requires Sliceable(s) && cfg.sizeJitter <= 0.0 && q >= 1
    requires cfg.total as real == q as real * s.slices as real && s.remaining == q * s.left
    ensures Advance(cfg, s, t).remaining == q * Advance(cfg, s, t).left
    ensures Fires(s, t) ==> SliceLots(cfg, s, t.sizeDraw) == q
  {
    if Fires(s, t) {
      WholeShare(cfg, s, t.sizeDraw, q);
      assert q * (s.left - 1) == q * s.left - q;
    }
  }

  lemma {:induction false} EqualFrom(cfg: Config, s: Schedule, ticks: seq<Tick>, q: nat)
    requires Sliceable(s) && cfg.sizeJitter <= 0.0 && q >= 1
    requires cfg.total as real == q as real * s.slices as real && s.remaining == q * s.left
    ensures forall i :: 0 <= i < |Emitted(cfg, s, ticks)| ==> Emitted(cfg, s, ticks)[i] == q
    decreases |ticks|
  {
    if ticks != [] {
      EqualStep(cfg, s, ticks[0], q);
      EqualFrom(cfg, Advance(cfg, s, ticks[0]), ticks[1..], q);
    }
  }

  /** If moreover n divides the total, all slices are equal. */
  lemma SlicesAreEqual(cfg: Config, start: nat, ticks: seq<Tick>, q: nat)
    requires cfg.total > 0 && cfg.requested > 0 && cfg.sizeJitter <= 0.0
    requires cfg.total == q * Min(cfg.requested, cfg.total)
    ensures forall i :: 0 <= i < |Emitted(cfg, Start(cfg, start), ticks)| ==> Emitted(cfg, Start(cfg, start), ticks)[i] == q
  {
    RA.IntMul(q, Min(cfg.requested, cfg.total));
    assert q >= 1;
    EqualFrom(cfg, Start(cfg, start), ticks, q);
  }

  // ----- When a run finishes -----

  /** Every tick that finds its deadline due emits, so `left` due ticks finish the run. */
  predicate AllDue(cfg: Config, s: Schedule, ticks: seq<Tick>)
    requires Sliceable(s)
    decreases |ticks|
  {
    ticks == [] || (ticks[0].now >= s.deadline && AllDue(cfg, Advance(cfg, s, ticks[0]), ticks[1..]))
  }

  lemma {:induction false} DueTicksFinish(cfg: Config, s: Schedule, ticks: seq<Tick>)
    requires Sliceable(s) && Trading(s) && |ticks| == s.left && AllDue(cfg, s, ticks)
    ensures Done(After(cfg, s, ticks)) && Sum(Emitted(cfg, s, ticks)) == s.remaining
    ensures |Emitted(cfg, s, ticks)| == s.left
    decreases |ticks|
  {
    if ticks != [] {
      DueTicksFinish(cfg, Advance(cfg, s, ticks[0]), ticks[1..]);
    }
    RunConserves(cfg, s, ticks);
  }

  /** Draws within the configured fraction, as `uniform_real_distribution` yields them. */
  predicate InRange(cfg: Config, ticks: seq<Tick>) {
    forall i :: 0 <= i < |ticks| ==>
      1.0 - cfg.intervalJitter <= ticks[i].intervalDraw <= 1.0 + cfg.intervalJitter
  }

  /** Each tick is called exactly at the deadline it serves. */
  predicate OnTheDot(cfg: Config, s: Schedule, ticks: seq<Tick>)
    requires Sliceable(s)
    decreases |ticks|
  {
    ticks == [] || (ticks[0].now == s.deadline && OnTheDot(cfg, Advance(cfg, s, ticks[0]), ticks[1..]))
  }

  function Frac(cfg: Config): real {
    if cfg.intervalJitter <= 0.0 then 0.0 else cfg.intervalJitter
  }

  lemma IntervalBounds(cfg: Config, n: nat, draw: real)
    requires n >= 1 && cfg.intervalJitter <= 1.0
    requires 1.0 - cfg.intervalJitter <= draw <= 1.0 + cfg.intervalJitter
    ensures 0 <= Interval(cfg, n, draw)
    ensures MinInterval(cfg, n) <= Interval(cfg, n, draw) as real <= MaxInterval(cfg, n)
  {
    var nominal, j := cfg.duration as real / n as real, Jittered(cfg.intervalJitter, draw);
    RA.DivNonNegative(cfg.duration as real, n as real);
    RA.MulMono(0.0, j, nominal);
    RA.MulMono(j, 1.0 + Frac(cfg), nominal);
    RA.MulMono(1.0 - Frac(cfg), j, nominal);
  }

  /** Two slices in a row are at least the shortest interval apart, on the caller's own clock. */
  lemma SlicesAreSpaced(cfg: Config, s: Schedule, t: Tick, t': Tick)
    requires Sliceable(s) && Fires(s, t) && Fires(Advance(cfg, s, t), t') && InRange(cfg, [t]) && cfg.intervalJitter <= 1.0
    ensures t.now <= t'.now && MinInterval(cfg, s.slices) <= (t'.now - t.now) as real && s.deadline <= t.now
  {
    assert [t][0] == t;
    IntervalBounds(cfg, s.slices, t.intervalDraw);
  }

  function SumIntervals(cfg: Config, n: nat, ticks: seq<Tick>): int
    requires n >= 1
  {
    if ticks == [] then 0 else Interval(cfg, n, ticks[0].intervalDraw) + SumIntervals(cfg, n, ticks[1..])
  }

  function Scaled(k: nat, step: real): real {
    k as real * step
  }

  lemma ScaledSucc(k: nat, step: real)
    ensures Scaled(k + 1, step) == step + Scaled(k, step)
  {
    assert (k + 1) as real == k as real + 1.0;
  }

  lemma InRangeTail(cfg: Config, ticks: seq<Tick>)
    requires ticks != [] && InRange(cfg, ticks)
    ensures InRange(cfg, ticks[1..])
  {
    forall i | 0 <= i < |ticks[1..]|
      ensures 1.0 - cfg.intervalJitter <= ticks[1..][i].intervalDraw <= 1.0 + cfg.intervalJitter
    {
      assert ticks[1..][i] == ticks[i + 1];
    }
  }

  lemma {:induction false} SumIntervalsBound(cfg: Config, n: nat, ticks: seq<Tick>)
    requires n >= 1 && cfg.intervalJitter <= 1.0 && InRange(cfg, ticks)
    ensures 0 <= SumIntervals(cfg, n, ticks)
    ensures SumIntervals(cfg, n, ticks) as real <= Scaled(|ticks|, MaxInterval(cfg, n))
    ensures SumIntervals(cfg, n, ticks) as real >= Scaled(|ticks|, MinInterval(cfg, n))
  {
    if ticks != [] {
      ScaledSucc(|ticks| - 1, MinInterval(cfg, n));
      InRangeTail(cfg, ticks);
      SumIntervalsBound(cfg, n, ticks[1..]);
      IntervalBounds(cfg, n, ticks[0].intervalDraw);
      ScaledSucc(|ticks| - 1, MaxInterval(cfg, n));
    }
  }

  /** Serving each slice at its deadline moves the deadline by the sum of the drawn intervals, never back. */
  lemma {:induction false} DeadlineMoves(cfg: Config, s: Schedule, ticks: seq<Tick>)
    requires Sliceable(s) && Trading(s) && cfg.intervalJitter <= 1.0
    requires InRange(cfg, ticks) && OnTheDot(cfg, s, ticks) && |ticks| < s.left
    ensures After(cfg, s, ticks).left == s.left - |ticks|
    ensures After(cfg, s, ticks).deadline == s.deadline + SumIntervals(cfg, s.slices, ticks)
    ensures s.deadline <= After(cfg, s, ticks).deadline
    decreases |ticks|
  {
    SumIntervalsBound(cfg, s.slices, ticks);
    if ticks != [] {
      InRangeTail(cfg, ticks);
      IntervalBounds(cfg, s.slices, ticks[0].intervalDraw);
      DeadlineMoves(cfg, Advance(cfg, s, ticks[0]), ticks[1..]);
    }
  }

  /**
   With a jitter fraction f of at most 1 and each tick at its deadline, deadlines
   never decrease, and slice k of the n is due k intervals after the start, each at most
   (duration/n) * (1+f) long and at least (duration/n) * (1-f) to within a nanosecond.
   */
  lemma LastSliceDue(cfg: Config, start: nat, ticks: seq<Tick>)
    requires cfg.total > 0 && cfg.intervalJitter <= 1.0
    requires InRange(cfg, ticks) && OnTheDot(cfg, Start(cfg, start), ticks)
    requires |ticks| < ClampSliceCount(cfg.requested, cfg.total)
    ensures var n := ClampSliceCount(cfg.requested, cfg.total);
            var s := After(cfg, Start(cfg, start), ticks);
            && s.left == n - |ticks|
            && start <= s.deadline
            && Scaled(|ticks|, MinInterval(cfg, n)) <= (s.deadline - start) as real <= Scaled(|ticks|, MaxInterval(cfg, n))
  {
    var s := Start(cfg, start);
    DeadlineMoves(cfg, s, ticks);
    SumIntervalsBound(cfg, s.slices, ticks);
  }

  /** The scheduler object; `Value` is the schedule the lemmas above speak of. */
  class Scheduler {
    const cfg: Config
    const slices: nat
    var remaining: int
    var left: nat
    var deadline: nat

    ghost function Value(): Schedule
      reads this
    {
      Schedule(slices, remaining, left, deadline)
    }

    constructor (cfg: Config, start: nat)
      ensures this.cfg == cfg && Value() == Start(cfg, start) && Sliceable(Value())
    {
      this.cfg := cfg;
      slices := ClampSliceCount(cfg.requested, cfg.total);
      remaining := cfg.total;
      left := ClampSliceCount(cfg.requested, cfg.total);
      deadline := start;
    }

    predicate IsDone()
      reads this
    {
      remaining <= 0 || left == 0
    }

    method OnTick(t: Tick) returns (slice: Option<int>)
      requires Sliceable(Value())
      modifies this`remaining, this`left, this`deadline
      ensures Value() == Advance(cfg, old(Value()), t) && Sliceable(Value())
      ensures slice == if Fires(old(Value()), t)
                       then Some(SliceLots(cfg, old(Value()), t.sizeDraw)) else None
    {
      if IsDone() || t.now < deadline {
        return None;
      }
      var lots := MakeSlice(t.sizeDraw);
      ScheduleNext(t);
      return Some(lots);
    }

    method MakeSlice(draw: real) returns (lots: int)
      requires Sliceable(Value()) && !Done(Value())
      modifies this`remaining, this`left
      ensures lots == SliceLots(cfg, old(Value()), draw)
      ensures remaining == old(remaining) - lots && left == old(left) - 1
    {
      if left == 1 {
        lots := remaining;
      } else {
        lots := DrawnLots(cfg, slices, draw);
        var reserve := left - 1;
        lots := Clamp(lots, 1, remaining - reserve);
      }
      remaining := remaining - lots;
      left := left - 1;
    }

    method ScheduleNext(t: Tick)
      requires slices >= 1
      modifies this`deadline
      ensures deadline == NextDeadline(cfg, old(Value()), t)
    {
      if IsDone() {
        deadline := NEVER;
        return;
      }
      var interval := Interval(cfg, slices, t.intervalDraw);
      deadline := if t.now + interval < 0 then 0 else t.now + interval;
    }
  }
}
