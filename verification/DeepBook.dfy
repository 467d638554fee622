/**
 A market that fills any order of up to a chosen size at a chosen price: one venue, one
 level a side, no minimum, no fees. It is the witness wherever a statement over all books
 fails.
 */
module DeepBook {
  import opened Types
  import opened Books
  import opened KWayMerge
  import opened Router
  import opened OrderPool
  import opened Lifecycle
  import RA = RealArith

  function DeepVenue(tick: real, lot: real, price: int, lots: int): Venue {
    Venue(true, true, [Level(price, lots)], [Level(price, lots)], tick, lot, 0.0, lots as real * lot, 0.0, 0.0, 1.0)
  }

  function DeepView(cfg: Config, instr: nat, price: int, lots: int, now: nat): View {
    View([DeepVenue(cfg.tick, LotSize(cfg, instr), price, lots)], now)
  }

  lemma DeepVenueOk(tick: real, lot: real, price: int, lots: nat)
    requires tick > 0.0 && lot > 0.0 && price > 0
    ensures VenueOk(DeepVenue(tick, lot, price, lots))
  {
    RA.MulMono(0.0, lots as real, lot);
  }

  lemma DeepViewOk(cfg: Config, instr: nat, price: int, lots: nat, now: nat)
    requires cfg.tick > 0.0 && price > 0
    ensures ViewOk(cfg, DeepView(cfg, instr, price, lots, now))
  {
    DeepVenueOk(cfg.tick, LotSize(cfg, instr), price, lots);
  }

  /** A context whose only venue is deep and counts in the canonical lot. */
  ghost predicate IsDeep(ctx: Context, lot: real, price: int, lots: int) {
    && |ctx.venues| == 1 && ctx.venues[0].tick > 0.0 && lot > 0.0 && price > 0 && lots >= 1
    && ctx.venues[0] == DeepVenue(ctx.venues[0].tick, lot, price, lots) && ctx.refLot == lot
  }

  lemma DeepContextOk(ctx: Context, lot: real, price: int, lots: int)
    requires IsDeep(ctx, lot, price, lots)
    ensures ContextOk(ctx) && RefLot(ctx) == lot && Mins(ctx) == [0] && MinLots(ctx.venues[0]) == 0
  {
    DeepVenueOk(ctx.venues[0].tick, lot, price, lots);
    RoundOfInt(0);
    assert 0.0 / lot == 0.0;
  }

  lemma WholeQuotient(lots: nat, lot: real, quantity: real)
    requires lot > 0.0 && quantity == lots as real * lot
    ensures Trunc(quantity / lot) == lots
  {
    assert quantity / lot == lots as real;
  }

  lemma SelfQuotient(lot: real)
    requires lot > 0.0
    ensures lot / lot == 1.0
  {
  }

  lemma DeepAvailable(ctx: Context, lot: real, price: int, lots: int)
    requires IsDeep(ctx, lot, price, lots) && ContextOk(ctx) && RefLot(ctx) == lot
    ensures Available(ctx, ctx.venues[0], lots) == lots
  {
    WholeQuotient(lots, lot, ctx.venues[0].maxQty);
    assert Min(lots, Trunc(ctx.venues[0].maxQty / lot)) == lots;
    assert Trunc(lots as real * 1.0) == lots;
    SelfQuotient(lot);
    RoundOfInt(lots);
  }

  function DeepSlice(dir: Dir, price: int, lots: int): Slice {
    Slice(Sign(dir) * price, lots, price, 0, 0)
  }

  lemma DeepQueue(ctx: Context, lot: real, price: int, lots: int)
    requires IsDeep(ctx, lot, price, lots) && ContextOk(ctx)
    requires WithinLimit(ctx.dir, price, LimitTicks(ctx, ctx.venues[0]))
    ensures Queue(ctx, 0) == [DeepSlice(ctx.dir, price, lots)]
  {
    DeepContextOk(ctx, lot, price, lots);
    DeepAvailable(ctx, lot, price, lots);
    assert TakerSide(ctx.venues[0], ctx.dir) == [Level(price, lots)];
    RoundOfInt(0);
    assert price as real * 0.0 == 0.0;
    assert Penalty(ctx, ctx.venues[0]) == 0;
    assert SliceOf(ctx, 0, 0) == DeepSlice(ctx.dir, price, lots);
    assert Passes(ctx, 0, 0);
    assert Candidates(ctx, 0, 1) == [];
  }

  lemma DeepSplit(ctx: Context, lot: real, price: int, lots: int)
    requires IsDeep(ctx, lot, price, lots) && ContextOk(ctx) && 1 <= ctx.target <= lots
    requires WithinLimit(ctx.dir, price, LimitTicks(ctx, ctx.venues[0]))
    ensures Split(ctx) == [Leg(DeepSlice(ctx.dir, price, lots), ctx.target, Taker)]
  {
    DeepQueue(ctx, lot, price, lots);
    DeepContextOk(ctx, lot, price, lots);
    var one := [DeepSlice(ctx.dir, price, lots)];
    assert one[1..] == [];
    assert Queues(ctx) == [one] && Behead([one], 0) == [[]];
    assert Best([one], 1) == 0 && Best([[]], 1) == -1;
    assert Merge([one]) == one;
    assert NonZero(one) == one;
    assert Greedy(one, ctx.target, [0]) == [Leg(DeepSlice(ctx.dir, price, lots), ctx.target, Taker)];
  }

  lemma DeepPlace(ctx: Context, lot: real, price: int, lots: int)
    requires IsDeep(ctx, lot, price, lots) && ContextOk(ctx)
    requires ctx.limitPrice > 0.0 ==> !Crosses(ctx.dir, price, Round(ctx.limitPrice / ctx.venues[0].tick))
    ensures |Place(ctx)| == 1 && Place(ctx)[0].lots == ctx.target && Place(ctx)[0].kind == Maker
  {
    assert MakerSide(ctx.venues[0], ctx.dir) == [Level(price, lots)];
    assert Postable(ctx, 0);
    assert BestTouch(ctx, 0) == -1;
  }

  /** A price the order's limit allows. */
  function FairPrice(dir: Dir, limit: nat): int {
    if dir == Sell && limit >= 1 then limit else 1
  }

  /** Whatever the order, its style and its limit: a deep book takes all of it in one leg. */
  lemma DeepLegs(cfg: Config, par: Parent, kind: OrderType, lots: int, now: nat)
    requires cfg.tick > 0.0 && 1 <= par.leaves <= lots
    ensures var view := DeepView(cfg, par.instr, FairPrice(par.dir, par.limit), lots, now);
            && ViewOk(cfg, view)
            && |LegsFor(cfg, view, par, par.leaves, kind)| == 1
            && LegsFor(cfg, view, par, par.leaves, kind)[0].lots == par.leaves
            && LegsFor(cfg, view, par, par.leaves, kind)[0].kind == kind
  {
    var price := FairPrice(par.dir, par.limit);
    DeepLegsAt(cfg, par, kind, price, lots, now);
  }

  lemma DeepLegsAt(cfg: Config, par: Parent, kind: OrderType, price: int, lots: int, now: nat)
    requires cfg.tick > 0.0 && 1 <= par.leaves <= lots && price >= 1 && WithinLimit(par.dir, price, par.limit)
    ensures var view := DeepView(cfg, par.instr, price, lots, now);
            && ViewOk(cfg, view)
            && |LegsFor(cfg, view, par, par.leaves, kind)| == 1
            && LegsFor(cfg, view, par, par.leaves, kind)[0].lots == par.leaves
            && LegsFor(cfg, view, par, par.leaves, kind)[0].kind == kind
  {
    var view := DeepView(cfg, par.instr, price, lots, now);
    DeepViewOk(cfg, par.instr, price, lots, now);
    var ctx := ContextFor(cfg, view, par, par.leaves);
    var lot := LotSize(cfg, par.instr);
    assert IsDeep(ctx, lot, price, lots);
    LimitSurvives(ctx, cfg.tick, par.limit, ctx.venues[0]);
    if kind == Maker {
      DeepPlace(ctx, lot, price, lots);
    } else {
      DeepSplit(ctx, lot, price, lots);
    }
  }

  // ----- A book that takes two lots in two legs -----

  function PairVenue(tick: real, lot: real): Venue {
    Venue(true, true, [Level(1, 1), Level(1, 1)], [Level(1, 1), Level(1, 1)], tick, lot, 0.0, 1 as real * lot, 0.0, 0.0, 1.0)
  }

  function PairView(cfg: Config, instr: nat, now: nat): View {
    View([PairVenue(cfg.tick, LotSize(cfg, instr))], now)
  }

  function PairSlice(dir: Dir, level: nat): Slice {
    Slice(Sign(dir), 1, 1, 0, level)
  }

  lemma PairViewOk(cfg: Config, instr: nat, now: nat)
    requires cfg.tick > 0.0
    ensures ViewOk(cfg, PairView(cfg, instr, now))
  {
    RA.MulMono(0.0, 1.0, LotSize(cfg, instr));
  }

  /** A context on the pair book, without a limit. */
  ghost predicate IsPair(ctx: Context, lot: real) {
    && ContextOk(ctx) && |ctx.venues| == 1 && lot > 0.0 && ctx.refLot == lot && ctx.limitPrice == 0.0
    && ctx.venues[0] == PairVenue(ctx.venues[0].tick, lot)
  }

  lemma PairAvailable(ctx: Context, lot: real)
    requires IsPair(ctx, lot)
    ensures Available(ctx, ctx.venues[0], 1) == 1
  {
    WholeQuotient(1, lot, ctx.venues[0].maxQty);
    assert Min(1, Trunc(ctx.venues[0].maxQty / lot)) == 1;
    assert Trunc(1 as real * 1.0) == 1;
    SelfQuotient(lot);
    RoundOfInt(1);
  }

  lemma PairLevel(ctx: Context, lot: real, l: nat)
    requires IsPair(ctx, lot) && l < 2
    ensures l < |TakerSide(ctx.venues[0], ctx.dir)| == 2
    ensures Passes(ctx, 0, l) && SliceOf(ctx, 0, l) == PairSlice(ctx.dir, l)
  {
    PairAvailable(ctx, lot);
    RoundOfInt(0);
    assert 1 as real * 0.0 == 0.0;
    assert Penalty(ctx, ctx.venues[0]) == 0;
    assert 0.0 / lot == 0.0;
  }

  lemma PairSplit(ctx: Context, lot: real)
    requires IsPair(ctx, lot) && ctx.target == 2
    ensures Split(ctx) == [Leg(PairSlice(ctx.dir, 0), 1, Taker), Leg(PairSlice(ctx.dir, 1), 1, Taker)]
  {
    PairLevel(ctx, lot, 0);
    PairLevel(ctx, lot, 1);
    var a, b := PairSlice(ctx.dir, 0), PairSlice(ctx.dir, 1);
    assert Candidates(ctx, 0, 2) == [];
    assert Candidates(ctx, 0, 1) == [b];
    assert Candidates(ctx, 0, 0) == [a, b];
    assert Queues(ctx) == [[a, b]];
    PairMerge(a, b);
    RoundOfInt(0);
    assert 0.0 / lot == 0.0;
    assert Mins(ctx) == [0];
    PairGreedy(a, b);
  }

  lemma PairMerge(a: Slice, b: Slice)
    ensures Merge([[a, b]]) == [a, b]
  {
    assert [a, b][1..] == [b] && [b][1..] == [];
    assert Behead([[a, b]], 0) == [[b]] && Behead([[b]], 0) == [[]];
    assert Best([[a, b]], 1) == 0 && Best([[b]], 1) == 0 && Best([[]], 1) == -1;
    assert Merge([[]]) == [];
    assert Merge([[b]]) == [b];
  }

  lemma PairGreedy(a: Slice, b: Slice)
    requires a.lots == 1 && b.lots == 1 && a.venue == 0 && b.venue == 0
    ensures NonZero([a, b]) == [a, b]
    ensures Greedy([a, b], 2, [0]) == [Leg(a, 1, Taker), Leg(b, 1, Taker)]
  {
    assert [a, b][1..] == [b] && [b][1..] == [];
    assert NonZero([b]) == [b];
    assert Greedy([b], 1, [0]) == [Leg(b, 1, Taker)];
  }

  lemma PairLegs(cfg: Config, par: Parent, now: nat)
    requires cfg.tick > 0.0 && par.leaves == 2 && par.limit == 0
    ensures var view := PairView(cfg, par.instr, now);
            && ViewOk(cfg, view)
            && (var legs := LegsFor(cfg, view, par, par.leaves, Taker);
                |legs| == 2 && legs[0].kind == Taker && legs[1].kind == Taker)
  {
    PairViewOk(cfg, par.instr, now);
    PairSplit(ContextFor(cfg, PairView(cfg, par.instr, now), par, par.leaves), LotSize(cfg, par.instr));
  }
}
