/**
 The routing decisions of sor/routing_engine.cpp as functions: the merged slice array,
 the greedy fill and the maker placement, with the proof that the split is the
 cheapest one. Module `RoutingEngine` runs them in place.
 */
module Router {
  import opened Types
  import opened Books
  import opened KWayMerge
  import RA = RealArith

  /** One child order of a split: `lots` of the slice it was cut from. */
  datatype Leg = Leg(slice: Slice, lots: int, kind: OrderType)

  // ----- Phase 1: the merged slice array -----

  function Queues(ctx: Context): seq<seq<Slice>>
    requires ContextOk(ctx)
  {
    seq(|ctx.venues|, k requires 0 <= k < |ctx.venues| => Queue(ctx, k))
  }

  function Slices(ctx: Context): seq<Slice>
    requires ContextOk(ctx)
  {
    NonZero(Merge(Queues(ctx)))
  }

  lemma QueuesTagged(ctx: Context)
    requires ContextOk(ctx)
    ensures Tagged(Queues(ctx))
    ensures forall k :: 0 <= k < |ctx.venues| ==> SortedByCost(Queues(ctx)[k])
  {
    forall k | 0 <= k < |ctx.venues|
      ensures SortedByCost(Queues(ctx)[k])
      ensures forall i :: 0 <= i < |Queues(ctx)[k]| ==> Queues(ctx)[k][i].venue == k
    {
      QueueOrdered(ctx, k);
      assert forall i :: 0 <= i < |Queue(ctx, k)| ==> FromVenue(ctx, k, 0, Queue(ctx, k)[i]);
    }
  }

  lemma {:induction false} TotalBound(qs: seq<seq<Slice>>)
    requires forall k :: 0 <= k < |qs| ==> |qs[k]| <= MAX_DEPTH
    ensures Total(qs) <= |qs| * MAX_DEPTH
  {
    if qs != [] {
      TotalBound(qs[..|qs| - 1]);
    }
  }

  lemma QueuesFit(ctx: Context)
    requires ContextOk(ctx)
    ensures Total(Queues(ctx)) <= MAX_CHILD_ORDERS
  {
    TotalBound(Queues(ctx));
  }

  /**
   The slice array is sorted by effective ticks, fits the buffer, and restricted to
   any venue is exactly that venue's eligible levels, each once, in level order.
   */
  lemma MergeCorrect(ctx: Context)
    requires ContextOk(ctx)
    ensures SortedByCost(Slices(ctx))
    ensures |Slices(ctx)| <= MAX_CHILD_ORDERS
    ensures forall k :: 0 <= k < |ctx.venues| ==> Project(Slices(ctx), k) == Eligible(ctx, k)
    ensures forall s :: s in Slices(ctx) ==> s.venue < |ctx.venues| && s in Eligible(ctx, s.venue)
  {
    var qs := Queues(ctx);
    QueuesTagged(ctx);
    MergeSorted(qs);
    NonZeroSorted(Merge(qs));
    MergeLength(qs);
    QueuesFit(ctx);
    NonZeroMembers(Merge(qs));
    forall k | 0 <= k < |ctx.venues|
      ensures Project(Slices(ctx), k) == Eligible(ctx, k)
    {
      ProjectNonZero(Merge(qs), k);
      MergeProjects(qs, k);
    }
    forall s | s in Slices(ctx)
      ensures s.venue < |ctx.venues| && s in Eligible(ctx, s.venue)
    {
      MergeFrom(qs, s);
      ProjectMembers(Slices(ctx), s.venue);
    }
  }

  lemma {:induction false} MergeFrom(qs: seq<seq<Slice>>, s: Slice)
    requires Tagged(qs) && s in Merge(qs)
    ensures s.venue < |qs|
    decreases Total(qs)
  {
    var b := Best(qs, |qs|);
    BeheadTotal(qs, b);
    if s != qs[b][0] {
      MergeFrom(Behead(qs, b), s);
    }
  }

  lemma SlicesSound(ctx: Context)
    requires ContextOk(ctx)
    ensures forall s :: s in Slices(ctx) ==>
              && s.lots >= 1 && s.price > 0 && s.venue < |ctx.venues|
              && WithinLimit(ctx.dir, s.price, LimitTicks(ctx, ctx.venues[s.venue]))
  {
    MergeCorrect(ctx);
    forall s | s in Slices(ctx)
      ensures && s.lots >= 1 && s.price > 0
              && WithinLimit(ctx.dir, s.price, LimitTicks(ctx, ctx.venues[s.venue]))
    {
      EligibleSound(ctx, s.venue, s);
    }
  }

  // ----- Phase 2: the greedy fill -----

  function MinOf(mins: seq<int>, venue: nat): int {
    if venue < |mins| then mins[venue] else 0
  }

  /** Sweep the slices cheapest first, skipping any whose share is below the venue's minimum. */
  function Greedy(slices: seq<Slice>, remaining: int, mins: seq<int>): seq<Leg> {
    if slices == [] || remaining == 0 then []
    else
      var s := slices[0];
      var fill := Min(remaining, s.lots);
      if fill < MinOf(mins, s.venue) then Greedy(slices[1..], remaining, mins)
      else [Leg(s, fill, Taker)] + Greedy(slices[1..], remaining - fill, mins)
  }

  function SumLegs(legs: seq<Leg>): int {
    if legs == [] then 0 else legs[0].lots + SumLegs(legs[1..])
  }

  function Cost(legs: seq<Leg>): int {
    if legs == [] then 0 else legs[0].lots * legs[0].slice.eff + Cost(legs[1..])
  }

  ghost predicate Positive(slices: seq<Slice>) {
    forall i :: 0 <= i < |slices| ==> slices[i].lots >= 1
  }

  /** The shape of one split: what every leg satisfies and which leg may be partial. */
  ghost predicate LegsOk(legs: seq<Leg>, slices: seq<Slice>, mins: seq<int>) {
    && (forall i :: 0 <= i < |legs| ==>
          && legs[i].slice in slices && legs[i].kind == Taker
          && 1 <= legs[i].lots <= legs[i].slice.lots
          && MinOf(mins, legs[i].slice.venue) <= legs[i].lots)
    && (forall i :: 0 <= i < |legs| - 1 ==> legs[i].lots == legs[i].slice.lots)
  }

  /** Legs that fit the slices and the target, the last one partial only when the target is reached. */
  ghost predicate FillOk(legs: seq<Leg>, slices: seq<Slice>, remaining: int, mins: seq<int>) {
    && LegsOk(legs, slices, mins) && |legs| <= |slices| && 0 <= SumLegs(legs) <= remaining
    && (forall i :: 0 <= i < |legs| && legs[i].lots < legs[i].slice.lots ==> SumLegs(legs) == remaining)
  }

  /**
   Filled plus unfilled is the target, every leg lies between its venue's minimum
   and its slice's size, and only the last leg takes less than its whole slice.
   */
  lemma {:induction false} GreedyShape(slices: seq<Slice>, remaining: nat, mins: seq<int>)
    requires Positive(slices)
    ensures FillOk(Greedy(slices, remaining, mins), slices, remaining, mins)
  {
    if slices != [] && remaining > 0 {
      var fill := Min(remaining, slices[0].lots);
      if fill < MinOf(mins, slices[0].venue) {
        GreedyShape(slices[1..], remaining, mins);
        SkipSlice(Greedy(slices[1..], remaining, mins), slices, remaining, mins);
      } else {
        GreedyShape(slices[1..], remaining - fill, mins);
        TakeSlice(Greedy(slices[1..], remaining - fill, mins), slices, remaining, fill, mins);
      }
    }
  }

  lemma SkipSlice(tail: seq<Leg>, slices: seq<Slice>, remaining: nat, mins: seq<int>)
    requires slices != [] && FillOk(tail, slices[1..], remaining, mins)
    ensures FillOk(tail, slices, remaining, mins)
  {
  }

  lemma TakeSlice(tail: seq<Leg>, slices: seq<Slice>, remaining: nat, fill: nat, mins: seq<int>)
    requires slices != [] && 1 <= fill && fill == Min(remaining, slices[0].lots) && MinOf(mins, slices[0].venue) <= fill
    requires FillOk(tail, slices[1..], remaining - fill, mins)
    ensures FillOk([Leg(slices[0], fill, Taker)] + tail, slices, remaining, mins)
  {
    var leg := Leg(slices[0], fill, Taker);
    var legs := [leg] + tail;
    assert legs[1..] == tail;
    assert forall i :: 1 <= i < |legs| ==> legs[i] == tail[i - 1];
    if fill < slices[0].lots && tail != [] {
      SumOfPositive(tail);
    }
  }

  lemma {:induction false} SumOfPositive(legs: seq<Leg>)
    requires legs != [] && forall i :: 0 <= i < |legs| ==> legs[i].lots >= 1
    ensures SumLegs(legs) >= 1
  {
    if |legs| > 1 {
      SumOfPositive(legs[1..]);
    }
  }

  /** No minimum above one lot, so no slice is ever skipped. */
  predicate NoMinimums(mins: seq<int>) {
    forall k :: 0 <= k < |mins| ==> mins[k] <= 1
  }

  const LOTS: Slice -> int := (s: Slice) => s.lots

  lemma {:induction false} GreedyTakesAll(slices: seq<Slice>, remaining: nat, mins: seq<int>)
    requires Positive(slices) && NoMinimums(mins)
    ensures SumLegs(Greedy(slices, remaining, mins)) == Min(remaining, SumOver(slices, LOTS))
  {
    SumLotsNonNegative(slices);
    if slices != [] && remaining > 0 {
      var fill := Min(remaining, slices[0].lots);
      GreedyTakesAll(slices[1..], remaining - fill, mins);
      SumLotsNonNegative(slices[1..]);
      var legs := Greedy(slices, remaining, mins);
      assert legs[1..] == Greedy(slices[1..], remaining - fill, mins);
    }
  }

  lemma {:induction false} SumLotsNonNegative(slices: seq<Slice>)
    requires Positive(slices)
    ensures SumOver(slices, LOTS) >= 0
  {
    if slices != [] {
      SumLotsNonNegative(slices[1..]);
    }
  }

  // ----- Optimality -----

  /** The price of an allocation: lots taken from a slice times its effective ticks. */
  function CostOf(take: Slice -> int): Slice -> int {
    (s: Slice) => take(s) * s.eff
  }

  /** An allocation takes between nothing and everything of each slice. */
  ghost predicate Bounded(take: Slice -> int, slices: seq<Slice>) {
    forall i :: 0 <= i < |slices| ==> 0 <= take(slices[i]) <= slices[i].lots
  }

  lemma Exchange(a0: int, g0: int, e0: int, m: int, ca: int, cg: int, sa: int, sg: int)
    requires ca >= cg + (sa - sg) * e0
    requires m <= e0 && sa + a0 >= sg + g0
    ensures a0 * e0 + ca >= g0 * e0 + cg + ((sa + a0) - (sg + g0)) * m
  {
    var d := (sa + a0) - (sg + g0);
    assert (sa - sg) * e0 == d * e0 + g0 * e0 - a0 * e0;
    assert d * e0 >= d * m;
  }

  lemma {:induction false} TakenNonNegative(slices: seq<Slice>, take: Slice -> int)
    requires Bounded(take, slices)
    ensures SumOver(slices, take) >= 0
  {
    if slices != [] {
      assert take(slices[0]) >= 0;
      TakenNonNegative(slices[1..], take);
    }
  }

  /**
   The exchange argument: an allocation of at least as many lots pays, beyond the
   greedy cost, at least `m` per extra lot when every slice costs at least `m`.
   */
  lemma {:induction false} GreedyCheapest(slices: seq<Slice>, remaining: nat, mins: seq<int>, take: Slice -> int, m: int)
    requires Positive(slices) && NoMinimums(mins) && SortedByCost(slices) && AtLeast(slices, m)
    requires Bounded(take, slices)
    requires SumOver(slices, take) >= SumLegs(Greedy(slices, remaining, mins))
    ensures SumOver(slices, CostOf(take)) >= Cost(Greedy(slices, remaining, mins))
              + (SumOver(slices, take) - SumLegs(Greedy(slices, remaining, mins))) * m
  {
    if slices != [] {
      var s, rest := slices[0], slices[1..];
      var fill := Min(remaining, s.lots);
      var tail := Greedy(rest, remaining - fill, mins);
      TakenNonNegative(rest, take);
      assert 0 <= take(s) <= s.lots;
      GreedyUnfold(slices, remaining, mins);
      if take(s) > fill {
        assert remaining - fill == 0 && tail == [];
      }
      assert SumOver(rest, take) >= SumLegs(tail);
      GreedyCheapest(rest, remaining - fill, mins, take, s.eff);
      Exchange(take(s), fill, s.eff, m, SumOver(rest, CostOf(take)), Cost(tail), SumOver(rest, take), SumLegs(tail));
    }
  }

  lemma GreedyUnfold(slices: seq<Slice>, remaining: nat, mins: seq<int>)
    requires slices != [] && Positive(slices) && NoMinimums(mins)
    ensures var fill := Min(remaining, slices[0].lots);
            var legs, tail := Greedy(slices, remaining, mins), Greedy(slices[1..], remaining - fill, mins);
            && SumLegs(legs) == fill + SumLegs(tail)
            && Cost(legs) == fill * slices[0].eff + Cost(tail)
  {
    if remaining > 0 {
      var fill := Min(remaining, slices[0].lots);
      assert Greedy(slices, remaining, mins)[1..] == Greedy(slices[1..], remaining - fill, mins);
    }
  }

  // ----- End to end -----

  function Mins(ctx: Context): seq<int>
    requires ContextOk(ctx)
  {
    seq(|ctx.venues|, k requires 0 <= k < |ctx.venues| => CanonicalMin(ctx, ctx.venues[k]))
  }

  /** `calculate_optimal_split`. */
  function Split(ctx: Context): seq<Leg>
    requires ContextOk(ctx)
  {
    Greedy(Slices(ctx), ctx.target, Mins(ctx))
  }

  /** The same sum taken venue by venue over the eligible levels, without any merge. */
  function SumEligible(ctx: Context, n: nat, w: Slice -> int): int
    requires ContextOk(ctx) && n <= |ctx.venues|
  {
    if n == 0 then 0 else SumEligible(ctx, n - 1, w) + SumOver(Eligible(ctx, n - 1), w)
  }

  /** A weight that ignores the zero-sized levels the merge visits and drops. */
  function Masked(w: Slice -> int): Slice -> int {
    (s: Slice) => if s.lots == 0 then 0 else w(s)
  }

  lemma {:induction false} MaskedSum(q: seq<Slice>, w: Slice -> int)
    ensures SumOver(NonZero(q), Masked(w)) == SumOver(NonZero(q), w)
  {
    if q != [] {
      MaskedSum(q[1..], w);
      if q[0].lots != 0 {
        assert NonZero(q)[1..] == NonZero(q[1..]);
      } else {
        assert NonZero(q) == NonZero(q[1..]);
      }
    }
  }

  lemma {:induction false} SumEligibleIsSumAll(ctx: Context, n: nat, w: Slice -> int)
    requires ContextOk(ctx) && n <= |ctx.venues|
    ensures SumEligible(ctx, n, w) == SumAll(Queues(ctx)[..n], Masked(w))
  {
    if n > 0 {
      SumEligibleIsSumAll(ctx, n - 1, w);
      MaskedSum(Queue(ctx, n - 1), w);
      SumNonZero(Queue(ctx, n - 1), Masked(w));
      assert Queues(ctx)[..n][..n - 1] == Queues(ctx)[..n - 1];
    }
  }

  /** Any weight sums to the same over the slice array and over the eligible levels of the venues. */
  lemma SlicesSum(ctx: Context, w: Slice -> int)
    requires ContextOk(ctx)
    ensures SumOver(Slices(ctx), w) == SumEligible(ctx, |ctx.venues|, w)
  {
    var qs := Queues(ctx);
    MaskedSum(Merge(qs), w);
    SumNonZero(Merge(qs), Masked(w));
    MergeSums(qs, Masked(w));
    assert qs[..|qs|] == qs;
    SumEligibleIsSumAll(ctx, |ctx.venues|, w);
  }

  /** An allocation over the eligible levels of all venues: no level gives more than it has. */
  ghost predicate Allocation(ctx: Context, take: Slice -> int)
    requires ContextOk(ctx)
  {
    forall k: nat, s: Slice :: k < |ctx.venues| && s in Eligible(ctx, k) ==> 0 <= take(s) <= s.lots
  }

  /**
   When no venue's canonical minimum exceeds one lot, the split takes
   min(target, total available) lots, and every other allocation of that many lots
   over the eligible levels of all venues costs at least as much.
   */
  lemma SplitIsOptimal(ctx: Context, take: Slice -> int)
    requires ContextOk(ctx) && ctx.target > 0 && NoMinimums(Mins(ctx))
    requires Allocation(ctx, take)
    requires SumEligible(ctx, |ctx.venues|, take) == SumLegs(Split(ctx))
    ensures SumLegs(Split(ctx)) == Min(ctx.target, SumEligible(ctx, |ctx.venues|, LOTS))
    ensures Cost(Split(ctx)) <= SumEligible(ctx, |ctx.venues|, CostOf(take))
  {
    var slices := Slices(ctx);
    SlicesWellFormed(ctx);
    GreedyTakesAll(slices, ctx.target, Mins(ctx));
    SlicesSum(ctx, LOTS);
    AllocationBounded(ctx, take);
    SlicesSum(ctx, take);
    SlicesSum(ctx, CostOf(take));
    CheapestFrom(slices, ctx.target, Mins(ctx), take);
  }

  lemma CheapestFrom(slices: seq<Slice>, target: nat, mins: seq<int>, take: Slice -> int)
    requires Positive(slices) && NoMinimums(mins) && SortedByCost(slices) && Bounded(take, slices)
    requires SumOver(slices, take) == SumLegs(Greedy(slices, target, mins))
    ensures Cost(Greedy(slices, target, mins)) <= SumOver(slices, CostOf(take))
  {
    if slices != [] {
      GreedyCheapest(slices, target, mins, take, slices[0].eff);
    }
  }

  lemma SlicesWellFormed(ctx: Context)
    requires ContextOk(ctx)
    ensures Positive(Slices(ctx)) && SortedByCost(Slices(ctx))
  {
    MergeCorrect(ctx);
    SlicesSound(ctx);
    assert forall i :: 0 <= i < |Slices(ctx)| ==> Slices(ctx)[i] in Slices(ctx);
  }

  lemma AllocationBounded(ctx: Context, take: Slice -> int)
    requires ContextOk(ctx) && Allocation(ctx, take)
    ensures Bounded(take, Slices(ctx))
  {
    MergeCorrect(ctx);
    forall i | 0 <= i < |Slices(ctx)|
      ensures 0 <= take(Slices(ctx)[i]) <= Slices(ctx)[i].lots
    {
      var s := Slices(ctx)[i];
      assert s in Slices(ctx) && s in Eligible(ctx, s.venue);
    }
  }

  // ----- Optimality in cost after fees -----

  /** Ticks paid per lot of a slice, from its price and its venue's quotes and fees. */
  function SliceCost(ctx: Context, s: Slice): real {
    if s.venue < |ctx.venues| && TakerSide(ctx.venues[s.venue], ctx.dir) != []
    then CostAfterFees(ctx.venues[s.venue], ctx.dir, s.price) else 0.0
  }

  function PaidFor(ctx: Context, legs: seq<Leg>): real {
    if legs == [] then 0.0 else legs[0].lots as real * SliceCost(ctx, legs[0].slice) + PaidFor(ctx, legs[1..])
  }

  function PaidOver(ctx: Context, q: seq<Slice>, take: Slice -> int): real {
    if q == [] then 0.0 else take(q[0]) as real * SliceCost(ctx, q[0]) + PaidOver(ctx, q[1..], take)
  }

  /** What an allocation over the eligible levels of the first `n` venues pays. */
  function PaidEligible(ctx: Context, n: nat, take: Slice -> int): real
    requires ContextOk(ctx) && n <= |ctx.venues|
  {
    if n == 0 then 0.0 else PaidEligible(ctx, n - 1, take) + PaidOver(ctx, Eligible(ctx, n - 1), take)
  }

  lemma SliceCostNear(ctx: Context, k: nat, s: Slice)
    requires ContextOk(ctx) && k < |ctx.venues| && s in Eligible(ctx, k)
    ensures -0.5 <= s.eff as real - SliceCost(ctx, s) <= 0.5
  {
    EffectiveIsCost(ctx, k, s);
  }

  /** Half a tick per lot is all that ranking by whole ticks can lose. */
  lemma LotsNear(lots: nat, eff: int, cost: real)
    requires -0.5 <= eff as real - cost <= 0.5
    ensures -0.5 * lots as real <= (lots * eff) as real - lots as real * cost <= 0.5 * lots as real
  {
    RA.IntMul(lots, eff);
    ScaleNear(lots as real, eff as real, cost, eff as real - cost);
  }

  lemma ScaleNear(l: real, e: real, c: real, d: real)
    requires l >= 0.0 && d == e - c && -0.5 <= d <= 0.5
    ensures -0.5 * l <= l * e - l * c <= 0.5 * l
  {
    RA.Distribute(e, c, l);
    RA.MulMono(-0.5, d, l);
    RA.MulMono(d, 0.5, l);
  }

  lemma {:induction false} LegsNear(ctx: Context, legs: seq<Leg>)
    requires forall i :: 0 <= i < |legs| ==> legs[i].lots >= 0 && -0.5 <= legs[i].slice.eff as real - SliceCost(ctx, legs[i].slice) <= 0.5
    ensures PaidFor(ctx, legs) <= Cost(legs) as real + 0.5 * SumLegs(legs) as real
  {
    if legs != [] {
      LotsNear(legs[0].lots, legs[0].slice.eff, SliceCost(ctx, legs[0].slice));
      LegsNear(ctx, legs[1..]);
    }
  }

  lemma {:induction false} LevelsNear(ctx: Context, q: seq<Slice>, take: Slice -> int)
    requires forall i :: 0 <= i < |q| ==> take(q[i]) >= 0 && -0.5 <= q[i].eff as real - SliceCost(ctx, q[i]) <= 0.5
    ensures SumOver(q, CostOf(take)) as real <= PaidOver(ctx, q, take) + 0.5 * SumOver(q, take) as real
  {
    if q != [] {
      LotsNear(take(q[0]), q[0].eff, SliceCost(ctx, q[0]));
      LevelsNear(ctx, q[1..], take);
    }
  }

  lemma VenueNear(ctx: Context, k: nat, take: Slice -> int)
    requires ContextOk(ctx) && k < |ctx.venues| && Allocation(ctx, take)
    ensures var q := Eligible(ctx, k);
            SumOver(q, CostOf(take)) as real <= PaidOver(ctx, q, take) + 0.5 * SumOver(q, take) as real
  {
    var q := Eligible(ctx, k);
    forall i | 0 <= i < |q|
      ensures take(q[i]) >= 0 && -0.5 <= q[i].eff as real - SliceCost(ctx, q[i]) <= 0.5
    {
      assert q[i] in q;
      SliceCostNear(ctx, k, q[i]);
    }
    LevelsNear(ctx, q, take);
  }

  lemma {:induction false} EligibleNear(ctx: Context, n: nat, take: Slice -> int)
    requires ContextOk(ctx) && n <= |ctx.venues| && Allocation(ctx, take)
    ensures SumEligible(ctx, n, CostOf(take)) as real <= PaidEligible(ctx, n, take) + 0.5 * SumEligible(ctx, n, take) as real
  {
    if n > 0 {
      EligibleNear(ctx, n - 1, take);
      VenueNear(ctx, n - 1, take);
    }
  }

  lemma SplitNear(ctx: Context)
    requires ContextOk(ctx) && ctx.target > 0
    ensures PaidFor(ctx, Split(ctx)) <= Cost(Split(ctx)) as real + 0.5 * SumLegs(Split(ctx)) as real
  {
    var legs := Split(ctx);
    MergeCorrect(ctx);
    SlicesWellFormed(ctx);
    GreedyShape(Slices(ctx), ctx.target, Mins(ctx));
    forall i | 0 <= i < |legs|
      ensures -0.5 <= legs[i].slice.eff as real - SliceCost(ctx, legs[i].slice) <= 0.5
    {
      var s := legs[i].slice;
      assert s in Slices(ctx) && s in Eligible(ctx, s.venue);
      SliceCostNear(ctx, s.venue, s);
    }
    LegsNear(ctx, legs);
  }

  /**
   The split against the venues' own prices and fees: with canonical minimums of at most
   one lot, no allocation of as many lots over the eligible levels pays less after fees by
   more than one tick per lot, half for rounding its cost and half for rounding the split's.
   */
  lemma SplitCheapestAfterFees(ctx: Context, take: Slice -> int)
    requires ContextOk(ctx) && ctx.target > 0 && NoMinimums(Mins(ctx))
    requires Allocation(ctx, take) && SumEligible(ctx, |ctx.venues|, take) == SumLegs(Split(ctx))
    ensures PaidFor(ctx, Split(ctx)) <= PaidEligible(ctx, |ctx.venues|, take) + SumLegs(Split(ctx)) as real
  {
    SplitIsOptimal(ctx, take);
    SplitNear(ctx);
    EligibleNear(ctx, |ctx.venues|, take);
  }

  /** The split takes what is wanted and there, and no allocation of as many lots is cheaper. */
  ghost predicate IsOptimal(ctx: Context)
    requires ContextOk(ctx)
  {
    && SumLegs(Split(ctx)) == Min(ctx.target, SumEligible(ctx, |ctx.venues|, LOTS))
    && forall take: Slice -> int {:trigger Allocation(ctx, take)} ::
         Allocation(ctx, take) && SumEligible(ctx, |ctx.venues|, take) == SumLegs(Split(ctx)) ==>
           Cost(Split(ctx)) <= SumEligible(ctx, |ctx.venues|, CostOf(take))
  }

  /** Optimal on all books, limits, sides and targets under these canonical minimums. */
  ghost predicate AlwaysOptimal(mins: seq<int>) {
    forall ctx: Context :: ContextOk(ctx) && ctx.target > 0 && Mins(ctx) == mins ==> IsOptimal(ctx)
  }

  /**
   "Greedy is optimal here" holds for every context exactly when no venue's canonical
   minimum exceeds one lot.
   */
  lemma OptimalIffNoMinimums(mins: seq<int>)
    requires 1 <= |mins| <= MAX_EXCHANGES
    ensures AlwaysOptimal(mins) <==> NoMinimums(mins)
  {
    if NoMinimums(mins) {
      forall ctx: Context | ContextOk(ctx) && ctx.target > 0 && Mins(ctx) == mins
        ensures IsOptimal(ctx)
      {
        NoMinimumsOptimal(ctx);
      }
    } else {
      var k :| 0 <= k < |mins| && mins[k] > 1;
      WantedButSkipped(mins, k);
    }
  }

  lemma NoMinimumsOptimal(ctx: Context)
    requires ContextOk(ctx) && ctx.target > 0 && NoMinimums(Mins(ctx))
    ensures IsOptimal(ctx)
  {
    SlicesWellFormed(ctx);
    GreedyTakesAll(Slices(ctx), ctx.target, Mins(ctx));
    SlicesSum(ctx, LOTS);
    forall take: Slice -> int | Allocation(ctx, take) && SumEligible(ctx, |ctx.venues|, take) == SumLegs(Split(ctx))
      ensures Cost(Split(ctx)) <= SumEligible(ctx, |ctx.venues|, CostOf(take))
    {
      SplitIsOptimal(ctx, take);
    }
  }

  /** Venues with the given minimums, of which only venue `k` offers anything: one level of that size. */
  function MinimumVenue(mins: seq<int>, k: nat, j: nat): Venue
    requires k < |mins| && j < |mins|
  {
    Venue(true, true, [], if j == k then [Level(1, mins[k])] else [], 1.0, 1.0,
          mins[j] as real, mins[k] as real, 0.0, 0.0, 1.0)
  }

  /** A buyer who wants a single lot from them. */
  function OneLotWanted(mins: seq<int>, k: nat): Context
    requires k < |mins|
  {
    Context(seq(|mins|, j requires 0 <= j < |mins| => MinimumVenue(mins, k, j)), Buy, 1, 0.0, 1.0)
  }

  lemma OneLotContext(mins: seq<int>, k: nat)
    requires 1 <= |mins| <= MAX_EXCHANGES && k < |mins| && mins[k] > 1
    ensures ContextOk(OneLotWanted(mins, k)) && Mins(OneLotWanted(mins, k)) == mins
  {
    var ctx := OneLotWanted(mins, k);
    forall j | 0 <= j < |ctx.venues|
      ensures VenueOk(ctx.venues[j]) && Round(ctx.venues[j].minQty / 1.0) == mins[j]
    {
      RoundOfInt(mins[j]);
    }
  }

  lemma OneLotSlice(mins: seq<int>, k: nat)
    requires 1 <= |mins| <= MAX_EXCHANGES && k < |mins| && mins[k] > 1
    requires ContextOk(OneLotWanted(mins, k))
    ensures var ctx := OneLotWanted(mins, k);
            Passes(ctx, k, 0) && SliceOf(ctx, k, 0).lots == mins[k]
  {
    var ctx := OneLotWanted(mins, k);
    RoundOfInt(mins[k]);
    assert Min(mins[k], Trunc(mins[k] as real / 1.0)) == mins[k];
    assert Trunc(mins[k] as real * 1.0) == mins[k];
  }

  lemma {:induction false} AllBelowMinimum(slices: seq<Slice>, remaining: int, mins: seq<int>)
    requires forall s :: s in slices ==> Min(remaining, s.lots) < MinOf(mins, s.venue)
    ensures Greedy(slices, remaining, mins) == []
  {
    if slices != [] {
      AllBelowMinimum(slices[1..], remaining, mins);
    }
  }

  /** The input on which the split is not optimal: the lot is there and wanted, and nothing is taken. */
  lemma WantedButSkipped(mins: seq<int>, k: nat)
    requires 1 <= |mins| <= MAX_EXCHANGES && k < |mins| && mins[k] > 1
    ensures var ctx := OneLotWanted(mins, k);
            && ContextOk(ctx) && Mins(ctx) == mins && ctx.target == 1
            && Split(ctx) == [] && SumEligible(ctx, |ctx.venues|, LOTS) >= 1
            && !IsOptimal(ctx)
  {
    var ctx := OneLotWanted(mins, k);
    OneLotContext(mins, k);
    MergeCorrect(ctx);
    forall s | s in Slices(ctx)
      ensures s.venue == k
    {
      EligibleIsExact(ctx, s.venue);
    }
    AllBelowMinimum(Slices(ctx), 1, mins);
    OneLotSlice(mins, k);
    EligibleIsExact(ctx, k);
    assert SliceOf(ctx, k, 0) in Eligible(ctx, k);
    ProjectMembers(Slices(ctx), k);
    SlicesWellFormed(ctx);
    SumLotsPositive(Slices(ctx));
    SlicesSum(ctx, LOTS);
  }

  lemma SumLotsPositive(slices: seq<Slice>)
    requires slices != [] && Positive(slices)
    ensures SumOver(slices, LOTS) >= 1
  {
    SumLotsNonNegative(slices[1..]);
  }

  // ----- Maker placement -----

  function MakerSide(v: Venue, dir: Dir): seq<Level> {
    if dir == Buy then v.bids else v.asks
  }

  predicate Postable(ctx: Context, k: nat)
    requires ContextOk(ctx) && k < |ctx.venues|
  {
    var v := ctx.venues[k];
    && Usable(v) && MakerSide(v, ctx.dir) != []
    && (ctx.limitPrice > 0.0 ==> !Crosses(ctx.dir, MakerSide(v, ctx.dir)[0].price, Round(ctx.limitPrice / v.tick)))
  }

  predicate Crosses(dir: Dir, price: int, limit: int) {
    if dir == Buy then price > limit else price < limit
  }

  /** What a resting order at this price is ranked by. */
  function Resting(v: Venue, dir: Dir, price: int): int {
    Sign(dir) * price + Round(price as real * v.makerFee)
  }

  function MakerSlice(ctx: Context, k: nat): Slice
    requires ContextOk(ctx) && k < |ctx.venues| && Postable(ctx, k)
  {
    var v := ctx.venues[k];
    var price := MakerSide(v, ctx.dir)[0].price;
    Slice(Resting(v, ctx.dir, price), ctx.target, price, k, 0)
  }

  /** At most one leg, for the whole target, on the cheapest postable touch. */
  ghost predicate IsPlacement(ctx: Context, legs: seq<Leg>)
    requires ContextOk(ctx)
  {
    if legs == [] then forall k :: 0 <= k < |ctx.venues| ==> !Postable(ctx, k)
    else
      && |legs| == 1 && legs[0].lots == ctx.target && legs[0].kind == Maker
      && legs[0].slice.venue < |ctx.venues| && Postable(ctx, legs[0].slice.venue)
      && legs[0].slice == MakerSlice(ctx, legs[0].slice.venue)
      && (forall k :: 0 <= k < |ctx.venues| && Postable(ctx, k) ==>
            && legs[0].slice.eff <= MakerSlice(ctx, k).eff
            && (k < legs[0].slice.venue ==> legs[0].slice.eff < MakerSlice(ctx, k).eff))
  }

  /** The earliest cheapest postable venue among the first n, or -1. */
  function BestTouch(ctx: Context, n: nat): (b: int)
    requires ContextOk(ctx) && n <= |ctx.venues|
    ensures b == -1 ==> forall k :: 0 <= k < n ==> !Postable(ctx, k)
    ensures b != -1 ==> 0 <= b < n && Postable(ctx, b)
  {
    if n == 0 then -1
    else
      var b := BestTouch(ctx, n - 1);
      if !Postable(ctx, n - 1) then b
      else if b == -1 || MakerSlice(ctx, n - 1).eff < MakerSlice(ctx, b).eff then n - 1 else b
  }

  /** `calculate_maker_placement`. */
  function Place(ctx: Context): seq<Leg>
    requires ContextOk(ctx)
  {
    var b := BestTouch(ctx, |ctx.venues|);
    if b == -1 then [] else [Leg(MakerSlice(ctx, b), ctx.target, Maker)]
  }

  lemma {:induction false} BestTouchIsBest(ctx: Context, n: nat)
    requires ContextOk(ctx) && n <= |ctx.venues|
    ensures var b := BestTouch(ctx, n);
            b != -1 ==> forall k :: 0 <= k < n && Postable(ctx, k) ==>
              && MakerSlice(ctx, b).eff <= MakerSlice(ctx, k).eff
              && (k < b ==> MakerSlice(ctx, b).eff < MakerSlice(ctx, k).eff)
  {
    if n > 0 {
      BestTouchIsBest(ctx, n - 1);
    }
  }

  lemma PlaceIsBest(ctx: Context)
    requires ContextOk(ctx)
    ensures IsPlacement(ctx, Place(ctx))
  {
    BestTouchIsBest(ctx, |ctx.venues|);
  }

  /** Ticks per lot of a resting order on a venue's touch, its maker fee or rebate included. */
  function TouchCost(v: Venue, dir: Dir): real
    requires MakerSide(v, dir) != []
  {
    var price := MakerSide(v, dir)[0].price;
    (Sign(dir) * price) as real + price as real * v.makerFee
  }

  /** No postable touch beats the chosen one by more than a tick, from its quote and maker fee. */
  lemma PlaceCheapestAfterFees(ctx: Context, k: nat)
    requires ContextOk(ctx) && k < |ctx.venues| && Postable(ctx, k)
    ensures Place(ctx) != []
    ensures var leg := Place(ctx)[0];
            && leg.slice.venue < |ctx.venues| && Postable(ctx, leg.slice.venue)
            && leg.slice.price == MakerSide(ctx.venues[leg.slice.venue], ctx.dir)[0].price
            && TouchCost(ctx.venues[leg.slice.venue], ctx.dir) <= TouchCost(ctx.venues[k], ctx.dir) + 1.0
  {
    PlaceIsBest(ctx);
    TouchNear(ctx, Place(ctx)[0].slice.venue);
    TouchNear(ctx, k);
  }

  lemma TouchNear(ctx: Context, k: nat)
    requires ContextOk(ctx) && k < |ctx.venues| && Postable(ctx, k)
    ensures -0.5 <= MakerSlice(ctx, k).eff as real - TouchCost(ctx.venues[k], ctx.dir) <= 0.5
  {
    RestingNear(ctx.venues[k], ctx.dir);
  }

  lemma RestingNear(v: Venue, dir: Dir)
    requires MakerSide(v, dir) != []
    ensures -0.5 <= Resting(v, dir, MakerSide(v, dir)[0].price) as real - TouchCost(v, dir) <= 0.5
  {
    var price := MakerSide(v, dir)[0].price;
    NearCost(Sign(dir) * price, price as real * v.makerFee, Resting(v, dir, price), TouchCost(v, dir));
  }

  // ----- What the order manager relies on -----

  /** Legs are positive, fit the target, fit the buffer and never cross the limit. */
  ghost predicate SplitOk(legs: seq<Leg>, dir: Dir, target: int, limit: int, venues: nat) {
    && |legs| <= MAX_CHILD_ORDERS
    && 0 <= SumLegs(legs) <= target
    && forall i :: 0 <= i < |legs| ==>
         && 1 <= legs[i].lots && legs[i].slice.venue < venues && legs[i].slice.price > 0
         && WithinLimit(dir, legs[i].slice.price, limit)
  }

  /** All venues quote in one tick, and the limit handed over is a whole number of them. */
  predicate OneTick(ctx: Context, tick: real, limit: nat) {
    && tick > 0.0
    && (forall k :: 0 <= k < |ctx.venues| ==> ctx.venues[k].tick == tick)
    && ctx.limitPrice == if limit > 0 then limit as real * tick else 0.0
  }

  lemma LimitSurvives(ctx: Context, tick: real, limit: nat, v: Venue)
    requires tick > 0.0 && v.tick == tick
    requires ctx.limitPrice == if limit > 0 then limit as real * tick else 0.0
    ensures LimitTicks(ctx, v) == limit
    ensures limit > 0 ==> ctx.limitPrice > 0.0 && Round(ctx.limitPrice / v.tick) == limit
  {
    if limit > 0 {
      TicksRoundTrip(limit, tick);
      assert limit as real * tick > 0.0;
    }
  }

  lemma SplitContract(ctx: Context, tick: real, limit: nat)
    requires ContextOk(ctx) && OneTick(ctx, tick, limit) && ctx.target > 0
    ensures SplitOk(Split(ctx), ctx.dir, ctx.target, limit, |ctx.venues|)
  {
    var slices := Slices(ctx);
    SlicesSound(ctx);
    MergeCorrect(ctx);
    assert forall i :: 0 <= i < |slices| ==> slices[i] in slices;
    GreedyShape(slices, ctx.target, Mins(ctx));
    forall k | 0 <= k < |ctx.venues|
      ensures LimitTicks(ctx, ctx.venues[k]) == limit
    {
      LimitSurvives(ctx, tick, limit, ctx.venues[k]);
    }
  }

  lemma PlaceContract(ctx: Context, tick: real, limit: nat)
    requires ContextOk(ctx) && OneTick(ctx, tick, limit) && ctx.target > 0
    ensures SplitOk(Place(ctx), ctx.dir, ctx.target, limit, |ctx.venues|)
  {
    PlaceIsBest(ctx);
    var legs := Place(ctx);
    if legs != [] {
      assert legs[1..] == [];
      LimitSurvives(ctx, tick, limit, ctx.venues[legs[0].slice.venue]);
      assert VenueOk(ctx.venues[legs[0].slice.venue]);
    }
  }
}
