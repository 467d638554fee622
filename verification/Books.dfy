/**
 What the router sees: venue books, the context of one routing decision, and which
 book levels are eligible for it. Fees, latency penalty and fill rate are arbitrary
 per-venue reals, as the merge needs only that they are fixed per venue.
 */
module Books {
  import opened Types
  import RA = RealArith

  const MAX_EXCHANGES: nat := 5
  const MAX_DEPTH: nat := 20
  const MAX_CHILD_ORDERS: nat := MAX_EXCHANGES * MAX_DEPTH

  datatype Level = Level(price: int, lots: int)

  /** One exchange: its book, lot constraints and cost parameters. */
  datatype Venue = Venue(
    enabled: bool, valid: bool, bids: seq<Level>, asks: seq<Level>,
    tick: real, lotSize: real, minQty: real, maxQty: real,
    takerAdj: real, makerFee: real, fillRate: real)

  /** One routing decision; a limit price of 0 means no limit, as in the source. */
  datatype Context = Context(venues: seq<Venue>, dir: Dir, target: int, limitPrice: real, refLot: real)

  datatype Slice = Slice(eff: int, lots: int, price: int, venue: nat, level: nat)

  predicate Usable(v: Venue) {
    v.enabled && v.valid
  }

  /** A taker reads the opposite side of the book. */
  function TakerSide(v: Venue, dir: Dir): seq<Level> {
    if dir == Buy then v.asks else v.bids
  }

  /** Best price first: each level no better than the one before it. */
  predicate BestFirst(levels: seq<Level>, dir: Dir) {
    forall i, j :: 0 <= i < j < |levels| ==> Sign(dir) * levels[i].price <= Sign(dir) * levels[j].price
  }

  predicate VenueOk(v: Venue) {
    && v.tick > 0.0 && v.lotSize > 0.0 && v.maxQty >= 0.0 && v.fillRate >= 0.0
    && |v.bids| <= MAX_DEPTH && |v.asks| <= MAX_DEPTH
    && BestFirst(v.asks, Buy) && BestFirst(v.bids, Sell)
    && (forall i :: 0 <= i < |v.bids| ==> v.bids[i].price > 0 && v.bids[i].lots >= 0)
    && (forall i :: 0 <= i < |v.asks| ==> v.asks[i].price > 0 && v.asks[i].lots >= 0)
  }

  predicate MarketOk(venues: seq<Venue>) {
    && 0 < |venues| <= MAX_EXCHANGES
    && forall k :: 0 <= k < |venues| ==> VenueOk(venues[k])
  }

  predicate ContextOk(ctx: Context) {
    MarketOk(ctx.venues)
  }

  /** `resolve_reference_lot_size`. */
  function RefLot(ctx: Context): (r: real)
    requires ContextOk(ctx)
    ensures r > 0.0
    ensures ctx.refLot > 0.0 ==> r == ctx.refLot
    ensures ctx.refLot <= 0.0 ==> r == ctx.venues[0].lotSize
  {
    if ctx.refLot > 0.0 then ctx.refLot else ctx.venues[0].lotSize
  }

  function LimitTicks(ctx: Context, v: Venue): int
    requires v.tick > 0.0
  {
    if ctx.limitPrice > 0.0 then Round(ctx.limitPrice / v.tick) else 0
  }

  function Penalty(ctx: Context, v: Venue): int {
    var side := TakerSide(v, ctx.dir);
    if side == [] then 0 else Round(side[0].price as real * v.takerAdj)
  }

  function MinLots(v: Venue): int
    requires v.lotSize > 0.0
  {
    Round(v.minQty / v.lotSize)
  }

  /** The venue's minimum in canonical lots, which is what the fill is held to. */
  function CanonicalMin(ctx: Context, v: Venue): int
    requires ContextOk(ctx)
  {
    Round(v.minQty / RefLot(ctx))
  }

  /** Lots expected to be there: capped, discounted by the fill rate, in canonical units. */
  function Available(ctx: Context, v: Venue, lots: int): int
    requires ContextOk(ctx) && VenueOk(v)
  {
    var clamped := Min(lots, Trunc(v.maxQty / v.lotSize));
    Converted(Discounted(clamped, v.fillRate), LotRatio(ctx, v))
  }

  function Discounted(lots: int, rate: real): real {
    lots as real * rate
  }

  /** Canonical lots per lot of the venue. */
  function LotRatio(ctx: Context, v: Venue): real
    requires ContextOk(ctx)
  {
    v.lotSize / RefLot(ctx)
  }

  /** Whole native lots, in canonical units. */
  function Converted(native: real, ratio: real): int {
    var adj := Trunc(native);
    if adj == 0 then 0 else Round(adj as real * ratio)
  }

  /** What a lot at this price is ranked by. */
  function Effective(ctx: Context, v: Venue, price: int): int {
    Sign(ctx.dir) * price + Penalty(ctx, v)
  }

  function SliceOf(ctx: Context, k: nat, l: nat): Slice
    requires ContextOk(ctx) && k < |ctx.venues| && l < |TakerSide(ctx.venues[k], ctx.dir)|
  {
    var v := ctx.venues[k];
    var level := TakerSide(v, ctx.dir)[l];
    Slice(Effective(ctx, v, level.price), Available(ctx, v, level.lots), level.price, k, l)
  }

  predicate LimitOk(ctx: Context, k: nat, l: nat)
    requires ContextOk(ctx) && k < |ctx.venues| && l < |TakerSide(ctx.venues[k], ctx.dir)|
  {
    WithinLimit(ctx.dir, TakerSide(ctx.venues[k], ctx.dir)[l].price, LimitTicks(ctx, ctx.venues[k]))
  }

  predicate Passes(ctx: Context, k: nat, l: nat)
    requires ContextOk(ctx) && k < |ctx.venues| && l < |TakerSide(ctx.venues[k], ctx.dir)|
  {
    LimitOk(ctx, k, l) && TakerSide(ctx.venues[k], ctx.dir)[l].lots >= MinLots(ctx.venues[k])
  }

  /** Every level from `l` on that passes, in level order, with no early exit. */
  function Candidates(ctx: Context, k: nat, l: nat): (q: seq<Slice>)
    requires ContextOk(ctx) && k < |ctx.venues| && l <= |TakerSide(ctx.venues[k], ctx.dir)|
    ensures |q| <= |TakerSide(ctx.venues[k], ctx.dir)| - l
    decreases |TakerSide(ctx.venues[k], ctx.dir)| - l
  {
    if l == |TakerSide(ctx.venues[k], ctx.dir)| then []
    else (if Passes(ctx, k, l) then [SliceOf(ctx, k, l)] else []) + Candidates(ctx, k, l + 1)
  }

  function Queue(ctx: Context, k: nat): (q: seq<Slice>)
    requires ContextOk(ctx) && k < |ctx.venues|
    ensures |q| <= MAX_DEPTH
  {
    if Usable(ctx.venues[k]) then Candidates(ctx, k, 0) else []
  }

  /** Drops the levels whose canonical size came out as zero. */
  function NonZero(s: seq<Slice>): seq<Slice> {
    if s == [] then [] else (if s[0].lots != 0 then [s[0]] else []) + NonZero(s[1..])
  }

  /** The eligible levels of one venue: the reference the merged array is measured against. */
  function Eligible(ctx: Context, k: nat): seq<Slice>
    requires ContextOk(ctx) && k < |ctx.venues|
  {
    NonZero(Queue(ctx, k))
  }

  // ----- What the reference contains -----

  ghost predicate LevelOrder(q: seq<Slice>) {
    forall i, j :: 0 <= i < j < |q| ==> q[i].level < q[j].level
  }

  ghost predicate SortedByCost(q: seq<Slice>) {
    forall i, j :: 0 <= i < j < |q| ==> q[i].eff <= q[j].eff
  }

  ghost predicate FromVenue(ctx: Context, k: nat, from: nat, s: Slice)
    requires ContextOk(ctx) && k < |ctx.venues|
  {
    && from <= s.level < |TakerSide(ctx.venues[k], ctx.dir)|
    && Passes(ctx, k, s.level)
    && s == SliceOf(ctx, k, s.level)
  }

  lemma {:induction false} CandidatesAreLevels(ctx: Context, k: nat, l: nat)
    requires ContextOk(ctx) && k < |ctx.venues| && l <= |TakerSide(ctx.venues[k], ctx.dir)|
    ensures forall s :: s in Candidates(ctx, k, l) ==> FromVenue(ctx, k, l, s)
    decreases |TakerSide(ctx.venues[k], ctx.dir)| - l
  {
    if l < |TakerSide(ctx.venues[k], ctx.dir)| {
      CandidatesAreLevels(ctx, k, l + 1);
      forall s | s in Candidates(ctx, k, l)
        ensures FromVenue(ctx, k, l, s)
      {
        if s in Candidates(ctx, k, l + 1) {
          assert FromVenue(ctx, k, l + 1, s);
        } else {
          assert Passes(ctx, k, l) && s == SliceOf(ctx, k, l);
        }
      }
    }
  }

  lemma CandidatesDeeper(ctx: Context, k: nat, l: nat)
    requires ContextOk(ctx) && k < |ctx.venues| && l <= |TakerSide(ctx.venues[k], ctx.dir)|
    ensures forall i :: 0 <= i < |Candidates(ctx, k, l)| ==> l <= Candidates(ctx, k, l)[i].level
  {
    CandidatesAreLevels(ctx, k, l);
    forall i | 0 <= i < |Candidates(ctx, k, l)|
      ensures l <= Candidates(ctx, k, l)[i].level
    {
      assert FromVenue(ctx, k, l, Candidates(ctx, k, l)[i]);
    }
  }

  lemma {:induction false} CandidatesInOrder(ctx: Context, k: nat, l: nat)
    requires ContextOk(ctx) && k < |ctx.venues| && l <= |TakerSide(ctx.venues[k], ctx.dir)|
    ensures LevelOrder(Candidates(ctx, k, l))
    decreases |TakerSide(ctx.venues[k], ctx.dir)| - l
  {
    if l < |TakerSide(ctx.venues[k], ctx.dir)| {
      CandidatesInOrder(ctx, k, l + 1);
      CandidatesDeeper(ctx, k, l + 1);
      var rest := Candidates(ctx, k, l + 1);
      if Passes(ctx, k, l) {
        PrependInOrder(SliceOf(ctx, k, l), rest);
      }
    }
  }

  lemma PrependInOrder(s: Slice, rest: seq<Slice>)
    requires LevelOrder(rest) && forall i :: 0 <= i < |rest| ==> s.level < rest[i].level
    ensures LevelOrder([s] + rest)
  {
  }

  /** Level order on a best-first side is cost order, because the penalty is fixed per venue. */
  lemma LevelOrderIsCostOrder(ctx: Context, k: nat, q: seq<Slice>)
    requires ContextOk(ctx) && k < |ctx.venues|
    requires LevelOrder(q) && forall i :: 0 <= i < |q| ==> FromVenue(ctx, k, 0, q[i])
    ensures SortedByCost(q)
  {
    forall i, j | 0 <= i < j < |q|
      ensures q[i].eff <= q[j].eff
    {
      assert VenueOk(ctx.venues[k]);
      assert FromVenue(ctx, k, 0, q[i]) && FromVenue(ctx, k, 0, q[j]);
    }
  }

  lemma {:induction false} EveryPassingLevel(ctx: Context, k: nat, from: nat, l: nat)
    requires ContextOk(ctx) && k < |ctx.venues| && from <= l < |TakerSide(ctx.venues[k], ctx.dir)|
    requires Passes(ctx, k, l)
    ensures SliceOf(ctx, k, l) in Candidates(ctx, k, from)
    decreases l - from
  {
    if from < l {
      EveryPassingLevel(ctx, k, from + 1, l);
    }
  }

  lemma QueueOrdered(ctx: Context, k: nat)
    requires ContextOk(ctx) && k < |ctx.venues|
    ensures var q := Queue(ctx, k);
            && (forall i :: 0 <= i < |q| ==> FromVenue(ctx, k, 0, q[i]))
            && LevelOrder(q) && SortedByCost(q)
  {
    if Usable(ctx.venues[k]) {
      CandidatesAreLevels(ctx, k, 0);
      CandidatesInOrder(ctx, k, 0);
      LevelOrderIsCostOrder(ctx, k, Queue(ctx, k));
    }
  }

  lemma {:induction false} NonZeroMembers(s: seq<Slice>)
    ensures forall x :: x in NonZero(s) <==> x in s && x.lots != 0
    ensures |NonZero(s)| <= |s|
  {
    if s != [] {
      NonZeroMembers(s[1..]);
      assert forall x :: x in s <==> x == s[0] || x in s[1..];
    }
  }

  lemma {:induction false} NonZeroLevelOrder(s: seq<Slice>)
    requires LevelOrder(s)
    ensures LevelOrder(NonZero(s))
  {
    if s != [] {
      NonZeroLevelOrder(s[1..]);
      NonZeroMembers(s[1..]);
      var q := NonZero(s);
      forall j | 1 <= j < |q| && s[0].lots != 0
        ensures s[0].level < q[j].level
      {
        assert q[j] == NonZero(s[1..])[j - 1];
        assert q[j] in s[1..];
      }
    }
  }

  lemma {:induction false} NonZeroSorted(s: seq<Slice>)
    requires SortedByCost(s)
    ensures SortedByCost(NonZero(s))
  {
    if s != [] {
      NonZeroSorted(s[1..]);
      NonZeroMembers(s[1..]);
      var q := NonZero(s);
      forall j | 1 <= j < |q| && s[0].lots != 0
        ensures s[0].eff <= q[j].eff
      {
        assert q[j] == NonZero(s[1..])[j - 1];
        assert q[j] in s[1..];
      }
    }
  }

  /**
   The eligible levels of a usable venue, exactly: a level is there when it is
   within the limit, at or above the minimum and not rounded away, once, in level
   order, cheapest first.
   */
  lemma EligibleIsExact(ctx: Context, k: nat)
    requires ContextOk(ctx) && k < |ctx.venues|
    ensures var q := Eligible(ctx, k);
            && LevelOrder(q) && SortedByCost(q)
            && (forall s :: s in q <==>
                  && Usable(ctx.venues[k])
                  && s.level < |TakerSide(ctx.venues[k], ctx.dir)|
                  && s == SliceOf(ctx, k, s.level)
                  && Passes(ctx, k, s.level)
                  && s.lots != 0)
  {
    QueueOrdered(ctx, k);
    NonZeroMembers(Queue(ctx, k));
    NonZeroLevelOrder(Queue(ctx, k));
    NonZeroSorted(Queue(ctx, k));
    if Usable(ctx.venues[k]) {
      forall s: Slice | s.level < |TakerSide(ctx.venues[k], ctx.dir)| && s == SliceOf(ctx, k, s.level) && Passes(ctx, k, s.level)
        ensures s in Queue(ctx, k)
      {
        EveryPassingLevel(ctx, k, 0, s.level);
      }
    }
  }

  lemma AvailableNonNegative(ctx: Context, v: Venue, lots: int)
    requires ContextOk(ctx) && VenueOk(v) && lots >= 0
    ensures Available(ctx, v, lots) >= 0
  {
    RA.DivNonNegative(v.maxQty, v.lotSize);
    var clamped := Min(lots, Trunc(v.maxQty / v.lotSize));
    RA.MulMono(0.0, clamped as real, v.fillRate);
    var adj := Trunc(clamped as real * v.fillRate);
    RA.DivNonNegative(v.lotSize, RefLot(ctx));
    RA.MulMono(0.0, adj as real, v.lotSize / RefLot(ctx));
    RoundNonNegative(adj as real * (v.lotSize / RefLot(ctx)));
  }

  /** Eligible slices have a positive size, a positive price and respect the limit. */
  lemma EligibleSound(ctx: Context, k: nat, s: Slice)
    requires ContextOk(ctx) && k < |ctx.venues| && s in Eligible(ctx, k)
    ensures s.lots >= 1 && s.price > 0 && s.venue == k
    ensures WithinLimit(ctx.dir, s.price, LimitTicks(ctx, ctx.venues[k]))
  {
    EligibleIsExact(ctx, k);
    var v := ctx.venues[k];
    assert VenueOk(v);
    AvailableNonNegative(ctx, v, TakerSide(v, ctx.dir)[s.level].lots);
  }

  /**
   Early exit is sound: on a best-first side, once a level is past the limit so is
   every deeper one, so nothing eligible is left.
   */
  lemma {:induction false} PastLimitNothingLeft(ctx: Context, k: nat, l: nat)
    requires ContextOk(ctx) && k < |ctx.venues| && l < |TakerSide(ctx.venues[k], ctx.dir)|
    requires !LimitOk(ctx, k, l)
    ensures Candidates(ctx, k, l) == []
    decreases |TakerSide(ctx.venues[k], ctx.dir)| - l
  {
    var side := TakerSide(ctx.venues[k], ctx.dir);
    if l + 1 < |side| {
      assert VenueOk(ctx.venues[k]);
      assert Sign(ctx.dir) * side[l].price <= Sign(ctx.dir) * side[l + 1].price;
      PastLimitNothingLeft(ctx, k, l + 1);
    }
  }

  // ----- What a slice stands for, from the quotes and parameters of its venue -----

  /** Ticks paid per lot after fees and latency, before rounding: the adjustment is taken on the best quote. */
  function CostAfterFees(v: Venue, dir: Dir, price: int): real
    requires TakerSide(v, dir) != []
  {
    (Sign(dir) * price) as real + TakerSide(v, dir)[0].price as real * v.takerAdj
  }

  lemma NearCost(base: int, fee: real, eff: int, cost: real)
    requires eff == base + Round(fee) && cost == base as real + fee
    ensures -0.5 <= eff as real - cost <= 0.5
  {
    RoundBounds(fee);
  }

  /** A level is ranked by its cost after fees to the nearest tick. */
  lemma EffectiveNear(ctx: Context, v: Venue, price: int)
    requires TakerSide(v, ctx.dir) != []
    ensures -0.5 <= Effective(ctx, v, price) as real - CostAfterFees(v, ctx.dir, price) <= 0.5
  {
    NearCost(Sign(ctx.dir) * price, TakerSide(v, ctx.dir)[0].price as real * v.takerAdj,
             Effective(ctx, v, price), CostAfterFees(v, ctx.dir, price));
  }

  /** An eligible slice is a quoted level of its venue, ranked by its cost after fees to the nearest tick. */
  lemma EffectiveIsCost(ctx: Context, k: nat, s: Slice)
    requires ContextOk(ctx) && k < |ctx.venues| && s in Eligible(ctx, k)
    ensures var v := ctx.venues[k];
            && v.enabled && v.valid && s.venue == k && s.level < |TakerSide(v, ctx.dir)|
            && s.price == TakerSide(v, ctx.dir)[s.level].price
            && -0.5 <= s.eff as real - CostAfterFees(v, ctx.dir, s.price) <= 0.5
  {
    EligibleLevel(ctx, k, s);
    EffectiveNear(ctx, ctx.venues[k], s.price);
  }

  lemma EligibleLevel(ctx: Context, k: nat, s: Slice)
    requires ContextOk(ctx) && k < |ctx.venues| && s in Eligible(ctx, k)
    ensures var v := ctx.venues[k];
            && v.enabled && v.valid && s.venue == k && s.level < |TakerSide(v, ctx.dir)|
            && s.price == TakerSide(v, ctx.dir)[s.level].price && s.eff == Effective(ctx, v, s.price)
            && s.lots == Available(ctx, v, TakerSide(v, ctx.dir)[s.level].lots)
  {
    EligibleIsExact(ctx, k);
  }

  /** The venue's lots on offer at a level: what is quoted, up to the venue's maximum. */
  function Capped(v: Venue, lots: int): real
    requires v.lotSize > 0.0
  {
    if lots as real <= v.maxQty / v.lotSize then lots as real else v.maxQty / v.lotSize
  }

  lemma TruncBounds(x: real)
    requires x >= 0.0
    ensures 0 <= Trunc(x) && x - 1.0 < Trunc(x) as real <= x
  {
  }

  lemma CapBounds(v: Venue, lots: int, clamped: int)
    requires v.lotSize > 0.0 && v.maxQty >= 0.0 && lots >= 0 && clamped == Min(lots, Trunc(v.maxQty / v.lotSize))
    ensures 0 <= clamped && Capped(v, lots) - 1.0 <= clamped as real <= Capped(v, lots)
  {
    RA.DivNonNegative(v.maxQty, v.lotSize);
    TruncBounds(v.maxQty / v.lotSize);
  }

  /** Between `lo` and `hi` native lots, in canonical ones, to the nearest. */
  predicate ConvertedFrom(lots: int, lo: real, hi: real, ratio: real) {
    lo * ratio - 0.5 <= lots as real <= hi * ratio + 0.5
  }

  lemma ConvertBounds(x: real, lo: real, hi: real, ratio: real)
    requires 0.0 <= x <= hi && lo <= x - 1.0 && ratio > 0.0
    ensures ConvertedFrom(Converted(x, ratio), lo, hi, ratio)
  {
    TruncBounds(x);
    var adj := Trunc(x) as real;
    RA.MulMono(adj, hi, ratio);
    RA.MulMono(lo, adj, ratio);
    RoundNear(adj, Trunc(x), ratio, adj * ratio);
  }

  lemma RoundNear(adj: real, n: int, ratio: real, product: real)
    requires adj == n as real && product == adj * ratio
    ensures -0.5 <= (if n == 0 then 0 else Round(adj * ratio)) as real - product <= 0.5
  {
    RoundBounds(product);
    if n == 0 {
      assert product == 0.0;
    }
  }

  /** The least and the most native lots a discount can leave of `cap`, truncations included. */
  function LeastLeft(cap: real, rate: real): real {
    (cap - 1.0) * rate - 1.0
  }

  function MostLeft(cap: real, rate: real): real {
    cap * rate
  }

  lemma DiscountBounds(clamped: int, cap: real, rate: real)
    requires 0 <= clamped && cap - 1.0 <= clamped as real <= cap && rate >= 0.0
    ensures LeastLeft(cap, rate) <= Discounted(clamped, rate) - 1.0
    ensures 0.0 <= Discounted(clamped, rate) <= MostLeft(cap, rate)
  {
    DiscountAtMost(clamped, cap, rate);
    DiscountAtLeast(clamped, cap, rate);
    DiscountAtLeast(clamped, 1.0, rate);
  }

  lemma DiscountAtMost(clamped: int, cap: real, rate: real)
    requires clamped as real <= cap && rate >= 0.0
    ensures Discounted(clamped, rate) <= MostLeft(cap, rate)
  {
    RA.MulMono(clamped as real, cap, rate);
  }

  lemma DiscountAtLeast(clamped: int, cap: real, rate: real)
    requires cap - 1.0 <= clamped as real && rate >= 0.0
    ensures LeastLeft(cap, rate) <= Discounted(clamped, rate) - 1.0
  {
    RA.MulMono(cap - 1.0, clamped as real, rate);
  }

  lemma AvailableBounds(ctx: Context, v: Venue, quoted: int)
    requires ContextOk(ctx) && VenueOk(v) && quoted >= 0
    ensures var cap := Capped(v, quoted);
            ConvertedFrom(Available(ctx, v, quoted), LeastLeft(cap, v.fillRate), MostLeft(cap, v.fillRate), LotRatio(ctx, v))
  {
    var clamped, cap := Min(quoted, Trunc(v.maxQty / v.lotSize)), Capped(v, quoted);
    CapBounds(v, quoted, clamped);
    DiscountBounds(clamped, cap, v.fillRate);
    RA.DivPositive(v.lotSize, RefLot(ctx));
    ConvertBounds(Discounted(clamped, v.fillRate), LeastLeft(cap, v.fillRate), MostLeft(cap, v.fillRate), LotRatio(ctx, v));
  }

  /**
   The size of an eligible slice, from the quote: the level's lots up to the venue's
   maximum, times the fill rate, in canonical lots, short by at most the two truncations
   and off by at most the final rounding.
   */
  lemma LotsOnOffer(ctx: Context, k: nat, s: Slice)
    requires ContextOk(ctx) && k < |ctx.venues| && s in Eligible(ctx, k)
    ensures var v := ctx.venues[k];
            && v.lotSize > 0.0 && s.level < |TakerSide(v, ctx.dir)|
            && (var cap := Capped(v, TakerSide(v, ctx.dir)[s.level].lots);
                ConvertedFrom(s.lots, LeastLeft(cap, v.fillRate), MostLeft(cap, v.fillRate), LotRatio(ctx, v)))
  {
    EligibleLevel(ctx, k, s);
    var v := ctx.venues[k];
    assert VenueOk(v);
    AvailableBounds(ctx, v, TakerSide(v, ctx.dir)[s.level].lots);
  }

  /** The two minimums are the venue's own, to the nearest native and the nearest canonical lot. */
  lemma MinimumsAreNearest(ctx: Context, k: nat)
    requires ContextOk(ctx) && k < |ctx.venues|
    ensures var v := ctx.venues[k];
            && v.lotSize > 0.0
            && -0.5 <= MinLots(v) as real - v.minQty / v.lotSize <= 0.5
            && -0.5 <= CanonicalMin(ctx, v) as real - v.minQty / RefLot(ctx) <= 0.5
  {
    assert VenueOk(ctx.venues[k]);
    RoundBounds(ctx.venues[k].minQty / ctx.venues[k].lotSize);
    RoundBounds(ctx.venues[k].minQty / RefLot(ctx));
  }
}
