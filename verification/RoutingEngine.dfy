/**
 The routing engine as the source runs it: cursors advanced in place, a workspace
 and an output buffer of fixed size, each loop held to the values of `Router`.
 */
module RoutingEngine {
  import opened Types
  import opened Books
  import opened KWayMerge
  import opened Router

  /** Where one venue's walk down its book stands. */
  datatype Cursor = Cursor(level: nat, exhausted: bool)

  ghost predicate CursorOk(ctx: Context, k: nat, c: Cursor)
    requires ContextOk(ctx) && k < |ctx.venues|
  {
    !c.exhausted ==> c.level < |TakerSide(ctx.venues[k], ctx.dir)| && Passes(ctx, k, c.level)
  }

  /** What a cursor still has to deliver. */
  ghost function Pending(ctx: Context, k: nat, c: Cursor): seq<Slice>
    requires ContextOk(ctx) && k < |ctx.venues| && CursorOk(ctx, k, c)
  {
    if c.exhausted then [] else Candidates(ctx, k, c.level)
  }

  ghost predicate CursorsOk(ctx: Context, cs: seq<Cursor>)
    requires ContextOk(ctx)
  {
    |cs| == |ctx.venues| && forall k :: 0 <= k < |cs| ==> CursorOk(ctx, k, cs[k])
  }

  ghost function AllPending(ctx: Context, cs: seq<Cursor>): seq<seq<Slice>>
    requires ContextOk(ctx) && CursorsOk(ctx, cs)
  {
    seq(|cs|, k requires 0 <= k < |cs| => Pending(ctx, k, cs[k]))
  }

  lemma LiveHead(ctx: Context, k: nat, c: Cursor)
    requires ContextOk(ctx) && k < |ctx.venues| && CursorOk(ctx, k, c) && !c.exhausted
    ensures Pending(ctx, k, c) == [SliceOf(ctx, k, c.level)] + Candidates(ctx, k, c.level + 1)
  {
  }

  /** What the scan reads of a cursor: whether its queue is empty, and its head. */
  lemma CursorHead(ctx: Context, cs: seq<Cursor>, k: nat)
    requires ContextOk(ctx) && CursorsOk(ctx, cs) && k < |cs|
    ensures AllPending(ctx, cs)[k] == [] <==> cs[k].exhausted
    ensures !cs[k].exhausted ==> AllPending(ctx, cs)[k][0] == SliceOf(ctx, k, cs[k].level)
  {
    if !cs[k].exhausted {
      LiveHead(ctx, k, cs[k]);
    }
  }

  /** One step of the scan, in terms of what it reads. */
  lemma ScanStep(ctx: Context, cs: seq<Cursor>, k: nat)
    requires ContextOk(ctx) && CursorsOk(ctx, cs) && k < |cs|
    ensures var qs := AllPending(ctx, cs);
            var b, c := Best(qs, k), cs[k];
            && (c.exhausted ==> Best(qs, k + 1) == b)
            && (!c.exhausted ==>
                  var eff := SliceOf(ctx, k, c.level).eff;
                  && qs[k] != [] && qs[k][0].eff == eff
                  && Best(qs, k + 1) == if b == -1 || eff < qs[b][0].eff then k else b)
  {
    CursorHead(ctx, cs, k);
  }

  /** Consuming the best head: the cursor table loses exactly that slice, and so does the merge. */
  lemma MergeStep(ctx: Context, cs: seq<Cursor>, b: nat, c: Cursor)
    requires ContextOk(ctx) && CursorsOk(ctx, cs) && b < |cs|
    requires b == Best(AllPending(ctx, cs), |cs|) && !cs[b].exhausted
    requires CursorOk(ctx, b, c) && Pending(ctx, b, c) == Candidates(ctx, b, cs[b].level + 1)
    ensures CursorsOk(ctx, cs[b := c])
    ensures Total(AllPending(ctx, cs[b := c])) == Total(AllPending(ctx, cs)) - 1
    ensures NonZero(Merge(AllPending(ctx, cs)))
         == (if SliceOf(ctx, b, cs[b].level).lots != 0 then [SliceOf(ctx, b, cs[b].level)] else [])
            + NonZero(Merge(AllPending(ctx, cs[b := c])))
  {
    var qs := AllPending(ctx, cs);
    LiveHead(ctx, b, cs[b]);
    assert qs[b] == Pending(ctx, b, cs[b]);
    assert AllPending(ctx, cs[b := c]) == Behead(qs, b);
    BeheadTotal(qs, b);
    assert Merge(qs)[1..] == Merge(Behead(qs, b));
  }

  lemma LiveBest(ctx: Context, cs: seq<Cursor>)
    requires ContextOk(ctx) && CursorsOk(ctx, cs)
    ensures var b := Best(AllPending(ctx, cs), |cs|);
            if b == -1 then Merge(AllPending(ctx, cs)) == [] else !cs[b].exhausted
  {
  }

  /** Advance to the next level that clears the limit and the minimum, giving up at the first limit violation. */
  method SeekNextValid(ctx: Context, k: nat, start: nat) returns (c: Cursor)
    requires ContextOk(ctx) && k < |ctx.venues| && start <= |TakerSide(ctx.venues[k], ctx.dir)|
    ensures CursorOk(ctx, k, c)
    ensures Pending(ctx, k, c) == Candidates(ctx, k, start)
  {
    var v := ctx.venues[k];
    var side := TakerSide(v, ctx.dir);
    var limit := LimitTicks(ctx, v);
    var l := start;
    while l < |side|
      invariant start <= l <= |side|
      invariant Candidates(ctx, k, start) == Candidates(ctx, k, l)
    {
      if limit != 0 {
        if ctx.dir == Buy && side[l].price > limit {
          PastLimitNothingLeft(ctx, k, l);
          return Cursor(l, true);
        }
        if ctx.dir == Sell && side[l].price < limit {
          PastLimitNothingLeft(ctx, k, l);
          return Cursor(l, true);
        }
      }
      if side[l].lots >= MinLots(v) {
        return Cursor(l, false);
      }
      l := l + 1;
    }
    return Cursor(l, true);
  }

  /** The output buffer a split is written into. */
  class ChildOrderBuffer {
    const orders: array<Leg>
    var count: nat

    ghost predicate Valid()
      reads this
    {
      orders.Length == MAX_CHILD_ORDERS && count <= orders.Length
    }

    ghost function Legs(): seq<Leg>
      reads this, orders
      requires Valid()
    {
      orders[..count]
    }

    constructor ()
      ensures Valid() && fresh(orders) && count == 0
    {
      orders := new Leg[MAX_CHILD_ORDERS](_ => Leg(Slice(0, 0, 0, 0, 0), 0, Taker));
      count := 0;
    }

    method Reset()
      requires Valid()
      modifies this`count
      ensures Valid() && Legs() == []
    {
      count := 0;
    }
  }

  class Engine {
    const workspace: array<Slice>
    var sliceCount: nat

    ghost predicate Valid()
      reads this
    {
      workspace.Length == MAX_CHILD_ORDERS && sliceCount <= workspace.Length
    }

    constructor ()
      ensures Valid() && fresh(workspace)
    {
      workspace := new Slice[MAX_CHILD_ORDERS](_ => Slice(0, 0, 0, 0, 0));
      sliceCount := 0;
    }

    /** One cursor per venue, positioned on its first valid level; unusable venues start exhausted. */
    method OpenCursors(ctx: Context) returns (cursors: array<Cursor>)
      requires ContextOk(ctx)
      ensures fresh(cursors) && CursorsOk(ctx, cursors[..])
      ensures AllPending(ctx, cursors[..]) == Queues(ctx)
    {
      cursors := new Cursor[|ctx.venues|](_ => Cursor(0, true));
      for k := 0 to |ctx.venues|
        invariant forall j :: 0 <= j < k ==> CursorOk(ctx, j, cursors[j]) && Pending(ctx, j, cursors[j]) == Queue(ctx, j)
        invariant forall j :: k <= j < |ctx.venues| ==> cursors[j] == Cursor(0, true)
      {
        if Usable(ctx.venues[k]) {
          var c := SeekNextValid(ctx, k, 0);
          cursors[k] := c;
        }
      }
    }

    /** The linear scan for the cheapest live cursor; -1 when every cursor is exhausted. */
    method ScanHeads(ctx: Context, cursors: array<Cursor>) returns (best: int)
      requires ContextOk(ctx) && CursorsOk(ctx, cursors[..])
      ensures best == Best(AllPending(ctx, cursors[..]), |ctx.venues|)
    {
      ghost var qs := AllPending(ctx, cursors[..]);
      best := -1;
      var bestEff := 0;
      for k := 0 to |ctx.venues|
        invariant best == Best(qs, k)
        invariant best != -1 ==> bestEff == qs[best][0].eff
      {
        best, bestEff := CompareHead(ctx, cursors, k, best, bestEff, qs);
      }
    }

    /** One iteration of the scan. */
    method CompareHead(ctx: Context, cursors: array<Cursor>, k: nat, best: int, bestEff: int, ghost qs: seq<seq<Slice>>)
      returns (b: int, e: int)
      requires ContextOk(ctx) && CursorsOk(ctx, cursors[..]) && k < cursors.Length
      requires qs == AllPending(ctx, cursors[..])
      requires best == Best(qs, k) && (best != -1 ==> bestEff == qs[best][0].eff)
      ensures b == Best(qs, k + 1) && (b != -1 ==> e == qs[b][0].eff)
    {
      b, e := best, bestEff;
      var c := cursors[k];
      ScanStep(ctx, cursors[..], k);
      if !c.exhausted {
        var eff := SliceOf(ctx, k, c.level).eff;
        if best == -1 || eff < bestEff {
          b, e := k, eff;
        }
      }
    }

    /** Emit the best head until no cursor is left. The buffer bound never cuts the merge short. */
    method BuildCostSlices(ctx: Context)
      requires Valid() && ContextOk(ctx)
      modifies this`sliceCount, workspace
      ensures Valid() && workspace[..sliceCount] == Slices(ctx)
    {
      sliceCount := 0;
      var cursors := OpenCursors(ctx);
      QueuesFit(ctx);
      var more := true;
      while more && sliceCount < MAX_CHILD_ORDERS
        invariant Valid() && CursorsOk(ctx, cursors[..])
        invariant sliceCount + Total(AllPending(ctx, cursors[..])) <= MAX_CHILD_ORDERS
        invariant workspace[..sliceCount] + NonZero(Merge(AllPending(ctx, cursors[..]))) == Slices(ctx)
        invariant !more ==> Merge(AllPending(ctx, cursors[..])) == []
        decreases more, Total(AllPending(ctx, cursors[..]))
      {
        more := EmitBest(ctx, cursors);
      }
      MergeLength(AllPending(ctx, cursors[..]));
    }

    /** One step of the merge: emit the best head, or find that every cursor is exhausted. */
    method EmitBest(ctx: Context, cursors: array<Cursor>) returns (more: bool)
      requires Valid() && ContextOk(ctx) && CursorsOk(ctx, cursors[..]) && sliceCount < MAX_CHILD_ORDERS
      requires cursors.Length == |ctx.venues|
      modifies this`sliceCount, workspace, cursors
      ensures Valid() && CursorsOk(ctx, cursors[..])
      ensures workspace[..sliceCount] + NonZero(Merge(AllPending(ctx, cursors[..])))
           == old(workspace[..sliceCount] + NonZero(Merge(AllPending(ctx, cursors[..]))))
      ensures sliceCount + Total(AllPending(ctx, cursors[..])) <= old(sliceCount + Total(AllPending(ctx, cursors[..])))
      ensures more ==> Total(AllPending(ctx, cursors[..])) < old(Total(AllPending(ctx, cursors[..])))
      ensures !more ==> Merge(AllPending(ctx, cursors[..])) == []
    {
      var best := ScanHeads(ctx, cursors);
      LiveBest(ctx, cursors[..]);
      if best == -1 {
        return false;
      }
      var slice := TakeHead(ctx, cursors, best);
      Record(slice, NonZero(Merge(AllPending(ctx, cursors[..]))));
      return true;
    }

    /** Read the chosen cursor's level and move the cursor on. */
    method TakeHead(ctx: Context, cursors: array<Cursor>, best: nat) returns (slice: Slice)
      requires ContextOk(ctx) && CursorsOk(ctx, cursors[..])
      requires best < cursors.Length && best == Best(AllPending(ctx, cursors[..]), cursors.Length)
      requires !cursors[best].exhausted
      modifies cursors
      ensures CursorsOk(ctx, cursors[..])
      ensures Total(AllPending(ctx, cursors[..])) == old(Total(AllPending(ctx, cursors[..]))) - 1
      ensures old(NonZero(Merge(AllPending(ctx, cursors[..]))))
           == (if slice.lots != 0 then [slice] else []) + NonZero(Merge(AllPending(ctx, cursors[..])))
    {
      var level := cursors[best].level;
      slice := SliceOf(ctx, best, level);
      var c := SeekNextValid(ctx, best, level + 1);
      MergeStep(ctx, cursors[..], best, c);
      ghost var moved := cursors[..][best := c];
      cursors[best] := c;
      assert cursors[..] == moved;
    }

    /** Append a slice to the workspace unless its size came out as zero. */
    method Record(slice: Slice, ghost rest: seq<Slice>)
      requires Valid() && sliceCount < MAX_CHILD_ORDERS
      modifies this`sliceCount, workspace
      ensures Valid() && old(sliceCount) <= sliceCount <= old(sliceCount) + 1
      ensures workspace[..sliceCount] + rest
           == old(workspace[..sliceCount]) + ((if slice.lots != 0 then [slice] else []) + rest)
    {
      if slice.lots != 0 {
        workspace[sliceCount] := slice;
        sliceCount := sliceCount + 1;
        assert workspace[..sliceCount] == old(workspace[..sliceCount]) + [slice];
      }
    }

    method GreedyFill(ctx: Context, out: ChildOrderBuffer) returns (remaining: int)
      requires Valid() && ContextOk(ctx) && ctx.target > 0 && workspace[..sliceCount] == Slices(ctx)
      requires out.Valid() && out.count == 0
      modifies out`count, out.orders
      ensures out.Valid() && out.Legs() == Split(ctx)
      ensures remaining == ctx.target - SumLegs(out.Legs()) && 0 <= remaining
    {
      SlicesFillable(ctx);
      remaining := SweepSlices(ctx, out, Slices(ctx), Mins(ctx));
    }

    /** The sweep over the workspace. */
    method SweepSlices(ctx: Context, out: ChildOrderBuffer, ghost slices: seq<Slice>, ghost mins: seq<int>)
      returns (remaining: int)
      requires Valid() && ContextOk(ctx) && ctx.target > 0 && workspace[..sliceCount] == slices
      requires Fillable(ctx, slices, mins) && out.Valid() && out.count == 0
      modifies out`count, out.orders
      ensures out.Valid() && out.Legs() == Greedy(slices, ctx.target, mins)
      ensures remaining == ctx.target - SumLegs(out.Legs()) && 0 <= remaining
    {
      remaining := ctx.target;
      var i := 0;
      assert out.Legs() == [] && slices[0..] == slices;
      while i < sliceCount && remaining != 0
        invariant 0 <= i <= sliceCount && out.Valid() && out.count <= i && remaining >= 0
        invariant out.Legs() + Greedy(slices[i..], remaining, mins) == Greedy(slices, ctx.target, mins)
        invariant SumLegs(out.Legs()) == ctx.target - remaining
      {
        assert workspace[i] == slices[i];
        remaining := FillSlice(ctx, out, workspace[i], remaining, i, slices, mins);
        i := i + 1;
      }
      assert Greedy(slices[i..], remaining, mins) == [];
    }

    /** Take from one slice what is wanted and there, unless that is below the venue's minimum. */
    method FillSlice(ctx: Context, out: ChildOrderBuffer, slice: Slice, wanted: int,
                     ghost i: nat, ghost slices: seq<Slice>, ghost mins: seq<int>) returns (remaining: int)
      requires ContextOk(ctx) && Fillable(ctx, slices, mins) && i < |slices| && slice == slices[i] && wanted > 0
      requires out.Valid() && out.count <= i < MAX_CHILD_ORDERS
      modifies out`count, out.orders
      ensures out.Valid() && out.count <= i + 1 && remaining >= 0
      ensures out.Legs() + Greedy(slices[i + 1..], remaining, mins) == old(out.Legs()) + Greedy(slices[i..], wanted, mins)
      ensures SumLegs(out.Legs()) + remaining == SumLegs(old(out.Legs())) + wanted
    {
      GreedyStep(out.Legs(), slices, i, wanted, mins);
      var fill := Min(wanted, slice.lots);
      remaining := wanted;
      if fill >= CanonicalMin(ctx, ctx.venues[slice.venue]) {
        Emit(out, Leg(slice, fill, Taker));
        remaining := wanted - fill;
      }
    }

    method Emit(out: ChildOrderBuffer, leg: Leg)
      requires out.Valid() && out.count < MAX_CHILD_ORDERS
      modifies out`count, out.orders
      ensures out.Valid() && out.count == old(out.count) + 1 && out.Legs() == old(out.Legs()) + [leg]
      ensures SumLegs(out.Legs()) == SumLegs(old(out.Legs())) + leg.lots
    {
      SumLegsAppend(out.Legs(), leg);
      out.orders[out.count] := leg;
      out.count := out.count + 1;
    }

    method CalculateOptimalSplit(ctx: Context, out: ChildOrderBuffer) returns (unfilled: int)
      requires Valid() && ContextOk(ctx) && ctx.target > 0
      requires out.Valid() && out.count == 0
      modifies this`sliceCount, workspace, out`count, out.orders
      ensures Valid() && out.Valid() && out.Legs() == Split(ctx)
      ensures unfilled == ctx.target - SumLegs(out.Legs())
    {
      BuildCostSlices(ctx);
      unfilled := GreedyFill(ctx, out);
    }

    method CalculateMakerPlacement(ctx: Context, out: ChildOrderBuffer)
      requires ContextOk(ctx) && ctx.target > 0
      requires out.Valid() && out.count == 0
      modifies out`count, out.orders
      ensures out.Valid() && out.Legs() == Place(ctx) && IsPlacement(ctx, out.Legs())
    {
      var best := -1;
      var bestEff := 0;
      for k := 0 to |ctx.venues|
        invariant best == BestTouch(ctx, k)
        invariant best != -1 ==> bestEff == MakerSlice(ctx, best).eff
      {
        if Postable(ctx, k) {
          var eff := MakerSlice(ctx, k).eff;
          if best == -1 || eff < bestEff {
            best, bestEff := k, eff;
          }
        }
      }
      PlaceIsBest(ctx);
      if best != -1 {
        out.orders[0] := Leg(MakerSlice(ctx, best), ctx.target, Maker);
        out.count := 1;
      }
    }
  }

  /** Slices the sweep can work on: non-empty, of known venues, with those venues' canonical minimums. */
  ghost predicate Fillable(ctx: Context, slices: seq<Slice>, mins: seq<int>)
    requires ContextOk(ctx)
  {
    && |mins| == |ctx.venues|
    && (forall i :: 0 <= i < |slices| ==>
          && slices[i].lots >= 1 && slices[i].venue < |ctx.venues|
          && MinOf(mins, slices[i].venue) == CanonicalMin(ctx, ctx.venues[slices[i].venue]))
  }

  lemma SlicesFillable(ctx: Context)
    requires ContextOk(ctx)
    ensures Fillable(ctx, Slices(ctx), Mins(ctx))
  {
    SlicesSound(ctx);
    assert forall i :: 0 <= i < |Slices(ctx)| ==> Slices(ctx)[i] in Slices(ctx);
  }

  /** One iteration of the fill: what is written so far plus what is still to come stays the same. */
  lemma GreedyStep(legs: seq<Leg>, slices: seq<Slice>, i: nat, remaining: int, mins: seq<int>)
    requires i < |slices| && remaining != 0
    ensures legs + Greedy(slices[i..], remaining, mins)
         == (var fill := Min(remaining, slices[i].lots);
             if fill < MinOf(mins, slices[i].venue) then legs + Greedy(slices[i + 1..], remaining, mins)
             else legs + [Leg(slices[i], fill, Taker)] + Greedy(slices[i + 1..], remaining - fill, mins))
  {
    assert slices[i..][1..] == slices[i + 1..];
  }

  lemma {:induction false} SumLegsAppend(legs: seq<Leg>, leg: Leg)
    ensures SumLegs(legs + [leg]) == SumLegs(legs) + leg.lots
  {
    if legs != [] {
      assert (legs + [leg])[1..] == legs[1..] + [leg];
      SumLegsAppend(legs[1..], leg);
    }
  }
}
