/**
 Per-instrument positions (oms/position_tracker.hpp) and the reduce-only clamp
 that reads them (oms/risk_engine.hpp).
 */
module Positions {
  import opened Types
  import RA = RealArith

  datatype Position = Position(net: int, openBuy: int, openSell: int, avg: real, unwind: bool)

  const FLAT: Position := Position(0, 0, 0, 0.0, false)

  datatype Fill = Fill(dir: Dir, lots: nat, price: real)

  function Open(pos: Position, dir: Dir): int {
    if dir == Buy then pos.openBuy else pos.openSell
  }

  function Reserve(pos: Position, dir: Dir, lots: int): Position {
    if dir == Buy then pos.(openBuy := pos.openBuy + lots) else pos.(openSell := pos.openSell + lots)
  }

  function Release(pos: Position, dir: Dir, lots: int): Position {
    if dir == Buy then pos.(openBuy := pos.openBuy - lots) else pos.(openSell := pos.openSell - lots)
  }

  /** The mean of two prices weighted by their lots. */
  function Blend(a: real, wa: real, b: real, wb: real): real
    requires wa + wb > 0.0
  {
    (a * wa + b * wb) / (wa + wb)
  }

  /** The average entry price after a fill: reset when flat or flipped, blended otherwise. */
  function NextAverage(prev: int, avg: real, next: int, lots: nat, price: real): real {
    if next == 0 then 0.0
    else if (prev >= 0) == (next >= 0) && Abs(prev) + lots > 0 then
      Blend(avg, Abs(prev) as real, price, lots as real)
    else price
  }

  function ApplyFill(pos: Position, fill: Fill): Position {
    var next := pos.net + Sign(fill.dir) * fill.lots;
    pos.(net := next, avg := NextAverage(pos.net, pos.avg, next, fill.lots, fill.price))
  }

  // ----- The ledger over a whole history of fills -----

  function Replay(fills: seq<Fill>): Position {
    if fills == [] then FLAT else ApplyFill(Replay(fills[..|fills| - 1]), fills[|fills| - 1])
  }

  function Bought(fills: seq<Fill>, dir: Dir): int {
    if fills == [] then 0
    else Bought(fills[..|fills| - 1], dir)
         + if fills[|fills| - 1].dir == dir then fills[|fills| - 1].lots else 0
  }

  /** Crossing to the other side (or leaving flat for short) starts a new cost basis. */
  predicate Restarts(prev: int, next: int) {
    prev == 0 || next == 0 || (prev > 0) != (next > 0)
  }

  /** The fills since the position was last flat or flipped, that fill included. */
  function Basis(fills: seq<Fill>): seq<Fill> {
    if fills == [] then []
    else
      var before, last := fills[..|fills| - 1], fills[|fills| - 1];
      var prev := Replay(before).net;
      if Restarts(prev, prev + Sign(last.dir) * last.lots) then [last] else Basis(before) + [last]
  }

  lemma {:induction false} NetIsBuysMinusSells(fills: seq<Fill>)
    ensures Replay(fills).net == Bought(fills, Buy) - Bought(fills, Sell)
  {
    if fills != [] {
      NetIsBuysMinusSells(fills[..|fills| - 1]);
    }
  }

  lemma BlendBetween(a: real, wa: real, b: real, wb: real, lo: real, hi: real)
    requires wa >= 0.0 && wb >= 0.0 && wa + wb > 0.0
    requires (wa > 0.0 ==> lo <= a <= hi) && lo <= b <= hi
    ensures lo <= Blend(a, wa, b, wb) <= hi
  {
    QuotientOfSums(a, wa, b, wb, lo, hi, a * wa, b * wb, wa + wb);
  }

  lemma QuotientOfSums(a: real, wa: real, b: real, wb: real, lo: real, hi: real, pa: real, pb: real, w: real)
    requires wa >= 0.0 && wb >= 0.0 && w == wa + wb && w > 0.0 && pa == a * wa && pb == b * wb
    requires (wa > 0.0 ==> lo <= a <= hi) && lo <= b <= hi
    ensures lo <= (pa + pb) / w <= hi
  {
    var la := AtLeastWeighted(a, wa, lo, pa);
    var lb := AtLeastWeighted(b, wb, lo, pb);
    var ha := AtMostWeighted(a, wa, hi, pa);
    var hb := AtMostWeighted(b, wb, hi, pb);
    SumWeighted(wa, wb, w, lo, la, lb);
    SumWeighted(wa, wb, w, hi, ha, hb);
    RA.QuotientBetween(pa + pb, w, lo, hi);
  }

  lemma AtLeastWeighted(a: real, w: real, lo: real, p: real) returns (l: real)
    requires w >= 0.0 && p == a * w && (w > 0.0 ==> lo <= a)
    ensures l == w * lo && l <= p
  {
    l := w * lo;
    if w > 0.0 {
      RA.MulMono(lo, a, w);
    }
  }

  lemma AtMostWeighted(a: real, w: real, hi: real, p: real) returns (h: real)
    requires w >= 0.0 && p == a * w && (w > 0.0 ==> a <= hi)
    ensures h == w * hi && p <= h
  {
    h := w * hi;
    if w > 0.0 {
      RA.MulMono(a, hi, w);
    }
  }

  lemma SumWeighted(wa: real, wb: real, w: real, x: real, xa: real, xb: real)
    requires w == wa + wb && xa == wa * x && xb == wb * x
    ensures w * x == xa + xb
  {
    RA.Distribute(wa, wb, x);
  }

  lemma NextAverageBetween(prev: int, avg: real, next: int, lots: nat, price: real, lo: real, hi: real)
    requires next != 0 && lots > 0 && lo <= price <= hi
    requires !Restarts(prev, next) ==> lo <= avg <= hi
    ensures lo <= NextAverage(prev, avg, next, lots, price) <= hi
  {
    if (prev >= 0) == (next >= 0) {
      var wa, wb := Abs(prev) as real, lots as real;
      BlendBetween(avg, wa, price, wb, lo, hi);
    }
  }

  predicate PricesWithin(fills: seq<Fill>, lo: real, hi: real) {
    forall i :: 0 <= i < |fills| ==> lo <= fills[i].price <= hi
  }

  /**
   While a position is open its average entry lies between the lowest and the
   highest price filled since it was last flat or flipped.
   */
  lemma {:induction false} AverageWithinBasis(fills: seq<Fill>, lo: real, hi: real)
    requires forall i :: 0 <= i < |fills| ==> fills[i].lots > 0
    requires PricesWithin(Basis(fills), lo, hi)
    ensures Replay(fills).net != 0 ==> lo <= Replay(fills).avg <= hi
  {
    if fills != [] && Replay(fills).net != 0 {
      var before, last := fills[..|fills| - 1], fills[|fills| - 1];
      var pos := Replay(before);
      var next := pos.net + Sign(last.dir) * last.lots;
      var basis := Basis(fills);
      assert basis[|basis| - 1] == last;
      if !Restarts(pos.net, next) {
        assert forall i :: 0 <= i < |Basis(before)| ==> basis[i] == Basis(before)[i];
        AverageWithinBasis(before, lo, hi);
      }
      NextAverageBetween(pos.net, pos.avg, next, last.lots, last.price, lo, hi);
    }
  }

  // ----- What the average is -----

  /**
   The average after one fill, by its value: none when flat, the fill's own price after a
   flip, and otherwise the old lots at the old average together with the new at theirs.
   */
  lemma AverageAfterFill(pos: Position, fill: Fill)
    requires fill.lots > 0
    ensures var pos' := ApplyFill(pos, fill);
            && (pos'.net == 0 ==> pos'.avg == 0.0)
            && (pos'.net < 0 <= pos.net || pos.net < 0 < pos'.net ==> pos'.avg == fill.price)
            && ((pos.net < 0 && pos'.net < 0) || (pos.net >= 0 && pos'.net > 0) ==>
                  pos'.avg * (Abs(pos.net) as real + fill.lots as real)
                    == pos.avg * Abs(pos.net) as real + fill.price * fill.lots as real)
  {
    var pos' := ApplyFill(pos, fill);
    if (pos.net < 0 && pos'.net < 0) || (pos.net >= 0 && pos'.net > 0) {
      RA.DivMul(pos.avg * Abs(pos.net) as real + fill.price * fill.lots as real,
                Abs(pos.net) as real + fill.lots as real, pos'.avg);
    }
  }

  function Worth(fill: Fill): real {
    fill.price * fill.lots as real
  }

  /** What a history of fills was worth. */
  function Paid(fills: seq<Fill>): real {
    if fills == [] then 0.0 else Paid(fills[..|fills| - 1]) + Worth(fills[|fills| - 1])
  }

  predicate OneSided(fills: seq<Fill>, dir: Dir) {
    forall i :: 0 <= i < |fills| ==> fills[i].dir == dir && fills[i].lots > 0
  }

  /** A position all built on one side, of so many lots worth so much. */
  predicate BuiltUp(pos: Position, dir: Dir, lots: int, paid: real) {
    Sign(dir) * pos.net >= 0 && Abs(pos.net) == lots && pos.avg * lots as real == paid
  }

  lemma BuildsUp(pos: Position, fill: Fill, lots: int, paid: real)
    requires fill.lots > 0 && BuiltUp(pos, fill.dir, lots, paid)
    ensures BuiltUp(ApplyFill(pos, fill), fill.dir, lots + fill.lots, paid + Worth(fill))
  {
    AverageAfterFill(pos, fill);
    assert (lots + fill.lots) as real == lots as real + fill.lots as real;
  }

  /** Building a position from flat, long or short: the average is the volume-weighted mean of its fills. */
  lemma {:induction false} AverageIsVolumeWeighted(fills: seq<Fill>, dir: Dir)
    requires OneSided(fills, dir)
    ensures BuiltUp(Replay(fills), dir, Bought(fills, dir), Paid(fills))
  {
    if fills != [] {
      var before, last := fills[..|fills| - 1], fills[|fills| - 1];
      AverageIsVolumeWeighted(before, dir);
      BuildsUp(Replay(before), last, Bought(before, dir), Paid(before));
    }
  }

  // ----- The reduce-only clamp -----

  predicate Reduces(net: int, dir: Dir) {
    (dir == Buy && net < 0) || (dir == Sell && net > 0)
  }

  /** The lots that are safe to route; 0 means the order may not be routed at all. */
  function ClampReduceOnly(pos: Position, dir: Dir, lots: int, requested: bool): (q: int)
    ensures !requested && !pos.unwind ==> q == lots
    ensures lots >= 0 ==> 0 <= q <= lots
  {
    if !requested && !pos.unwind then lots
    else if !Reduces(pos.net, dir) then 0
    else
      var headroom := Abs(pos.net) - Open(pos, dir);
      if headroom <= 0 then 0 else Min(lots, headroom)
  }

  /**
   A clamped order together with everything already committed on its side fits
   inside the position, and the clamp gives away nothing it could have allowed.
   */
  lemma ClampIsTight(pos: Position, dir: Dir, lots: nat, requested: bool)
    requires requested || pos.unwind
    ensures var q := ClampReduceOnly(pos, dir, lots, requested);
            && 0 <= q <= lots
            && (q > 0 ==> Reduces(pos.net, dir) && Open(pos, dir) + q <= Abs(pos.net))
            && (q < lots ==> !Reduces(pos.net, dir) || Open(pos, dir) + q >= Abs(pos.net))
  {
  }

  /**
   With `live` lots already at venues on the closing side, a clamped order of this size
   keeps the side inside the position exactly when the open-lots counter covers the live
   lots or the order would have fitted uncut.
   */
  lemma ClampSafeIff(pos: Position, dir: Dir, lots: nat, live: nat)
    requires Reduces(pos.net, dir) && live <= Abs(pos.net)
    ensures live + ClampReduceOnly(pos, dir, lots, true) <= Abs(pos.net)
       <==> live <= Open(pos, dir) || live + lots <= Abs(pos.net)
  {
  }

  lemma FillMovesNet(pos: Position, fill: Fill)
    ensures var pos' := ApplyFill(pos, fill);
            && pos'.net == pos.net + Sign(fill.dir) * fill.lots
            && pos'.openBuy == pos.openBuy && pos'.openSell == pos.openSell && pos'.unwind == pos.unwind
  {
  }

  /** The table the execution core owns, updated in place. */
  class PositionTable {
    const instruments: array<Position>

    constructor (n: nat)
      ensures fresh(instruments) && instruments.Length == n
      ensures instruments[..] == seq(n, _ => FLAT)
    {
      instruments := new Position[n](_ => FLAT);
    }

    method OnFill(i: nat, dir: Dir, lots: nat, price: real)
      requires i < instruments.Length
      modifies instruments
      ensures instruments[..] == old(instruments[..])[i := ApplyFill(old(instruments[i]), Fill(dir, lots, price))]
    {
      var pos := instruments[i];
      var signedLots := Sign(dir) * lots;
      var next := pos.net + signedLots;
      instruments[i] := pos.(net := next, avg := NextAverage(pos.net, pos.avg, next, lots, price));
    }

    method ReserveOpen(i: nat, dir: Dir, lots: int)
      requires i < instruments.Length
      modifies instruments
      ensures instruments[..] == old(instruments[..])[i := Reserve(old(instruments[i]), dir, lots)]
    {
      if dir == Buy {
        instruments[i] := instruments[i].(openBuy := instruments[i].openBuy + lots);
      } else {
        instruments[i] := instruments[i].(openSell := instruments[i].openSell + lots);
      }
    }

    method ReleaseOpen(i: nat, dir: Dir, lots: int)
      requires i < instruments.Length
      modifies instruments
      ensures instruments[..] == old(instruments[..])[i := Release(old(instruments[i]), dir, lots)]
    {
      if dir == Buy {
        instruments[i] := instruments[i].(openBuy := instruments[i].openBuy - lots);
      } else {
        instruments[i] := instruments[i].(openSell := instruments[i].openSell - lots);
      }
    }

    method SetUnwind(i: nat, enabled: bool)
      requires i < instruments.Length
      modifies instruments
      ensures instruments[..] == old(instruments[..])[i := old(instruments[i]).(unwind := enabled)]
    {
      instruments[i] := instruments[i].(unwind := enabled);
    }
  }
}
