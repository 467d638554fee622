/**
 Native exchange lots against the instrument's canonical lots: `to_canonical_lots`,
 and the truncating `to_lots` that sizes a dispatched child. Both depend on the two
 lot sizes only through `ratio`, the size of one native lot in canonical lots.
 */
module LotConversion {
  import opened Types
  import RA = RealArith

  /** `round(native_lots * native_lot_size / ref_lot_size)`. */
  function ToCanonical(native: int, ratio: real): int {
    Round(native as real * ratio)
  }

  /** `to_lots(co.qty, lot_sz)` where `co.qty` is worth `granted` canonical lots. */
  function ChildLots(granted: int, ratio: real): int
    requires ratio > 0.0
  {
    Trunc(granted as real / ratio)
  }

  ghost predicate Additive(ratio: real) {
    forall a: nat, b: nat :: ToCanonical(a + b, ratio) == ToCanonical(a, ratio) + ToCanonical(b, ratio)
  }

  /** A native lot is a whole number of canonical lots. */
  predicate WholeRatio(ratio: real) {
    Round(ratio) as real == ratio
  }

  lemma WholeScale(native: int, ratio: real)
    requires WholeRatio(ratio)
    ensures ToCanonical(native, ratio) == native * Round(ratio)
  {
    RA.IntMul(native, Round(ratio));
    RoundOfInt(native * Round(ratio));
  }

  lemma {:induction false} AdditiveScales(n: nat, ratio: real)
    requires Additive(ratio)
    ensures ToCanonical(n, ratio) == n * ToCanonical(1, ratio)
  {
    if n == 0 {
      assert ToCanonical(0 + 0, ratio) == ToCanonical(0, ratio) + ToCanonical(0, ratio);
    } else {
      AdditiveScales(n - 1, ratio);
      assert ToCanonical((n - 1) + 1, ratio) == ToCanonical(n - 1, ratio) + ToCanonical(1, ratio);
    }
  }

  lemma ScaledError(n: nat, ratio: real)
    requires Round(n as real * ratio) == n * Round(ratio)
    ensures n as real * (Round(ratio) as real - ratio) <= 0.5
    ensures n as real * (ratio - Round(ratio) as real) <= 0.5
  {
    RoundBounds(n as real * ratio);
    RA.IntMul(n, Round(ratio));
    RA.Distribute(Round(ratio) as real, ratio, n as real);
    RA.Distribute(ratio, Round(ratio) as real, n as real);
  }

  /** n times the rounding error of the ratio stays below a half for every n. */
  lemma ErrorScales(n: nat, ratio: real)
    requires Additive(ratio)
    ensures n as real * (Round(ratio) as real - ratio) <= 0.5
    ensures n as real * (ratio - Round(ratio) as real) <= 0.5
  {
    AdditiveScales(n, ratio);
    assert ToCanonical(1, ratio) == Round(ratio) by {
      RoundCong(1 as real * ratio, ratio);
    }
    ScaledError(n, ratio);
  }

  /** So there is no error. */
  lemma AdditiveImpliesWhole(ratio: real)
    requires Additive(ratio)
    ensures WholeRatio(ratio)
  {
    var k := Round(ratio) as real;
    if k != ratio {
      var n := RA.Archimedes(if k > ratio then k - ratio else ratio - k, 0.5);
      ErrorScales(n, ratio);
    }
  }

  /**
   Converting each partial fill separately sums to the conversion of the total,
   for every pair of fills, exactly when the venue's lot is a whole number of
   canonical lots.
   */
  lemma AdditiveIffWhole(ratio: real)
    ensures Additive(ratio) <==> WholeRatio(ratio)
  {
    if WholeRatio(ratio) {
      forall a: nat, b: nat
        ensures ToCanonical(a + b, ratio) == ToCanonical(a, ratio) + ToCanonical(b, ratio)
      {
        WholeScale(a + b, ratio);
        WholeScale(a, ratio);
        WholeScale(b, ratio);
      }
    } else if Additive(ratio) {
      AdditiveImpliesWhole(ratio);
    }
  }

  function SumFills(fills: seq<nat>): nat {
    if fills == [] then 0 else fills[0] + SumFills(fills[1..])
  }

  function SumConverted(fills: seq<nat>, ratio: real): int {
    if fills == [] then 0 else ToCanonical(fills[0], ratio) + SumConverted(fills[1..], ratio)
  }

  /** Any number of partial fills, converted one by one as they arrive. */
  lemma {:induction false} FillsConvertExactly(fills: seq<nat>, ratio: real)
    requires WholeRatio(ratio)
    ensures SumConverted(fills, ratio) == ToCanonical(SumFills(fills), ratio)
  {
    if fills == [] {
      WholeScale(0, ratio);
    } else {
      FillsConvertExactly(fills[1..], ratio);
      AdditiveIffWhole(ratio);
    }
  }

  lemma FloorFrom(x: real, g: nat, k: int, q: nat, r: int)
    requires k >= 1 && 0 <= r < k && x * k as real == g as real && g == k * q + r
    ensures x >= 0.0 && x.Floor == q
  {
    RA.IntMul(k, q);
    NotBelow(x, q as real, k as real, g as real);
    NotAbove(x, q as real, k as real, g as real);
  }

  lemma NotBelow(x: real, q: real, k: real, g: real)
    requires k > 0.0 && x * k == g && k * q <= g
    ensures q <= x
  {
    if x < q {
      RA.MulStrict(x, q, k);
    }
  }

  lemma NotAbove(x: real, q: real, k: real, g: real)
    requires k > 0.0 && x * k == g && g < k * q + k
    ensures x < q + 1.0
  {
    if x >= q + 1.0 {
      RA.MulMono(q + 1.0, x, k);
      RA.Distribute(q, 1.0, k);
    }
  }

  /** A child never represents more canonical lots than the split granted, whatever the two lot sizes. */
  lemma ChildNeverExceedsGrant(granted: nat, ratio: real)
    requires ratio > 0.0
    ensures 0 <= ToCanonical(ChildLots(granted, ratio), ratio) <= granted
  {
    var x, lots := granted as real / ratio, ChildLots(granted, ratio);
    RA.DivMul(granted as real, ratio, x);
    RA.DivNonNegative(granted as real, ratio);
    RA.MulMono(lots as real, x, ratio);
    RA.MulMono(0.0, lots as real, ratio);
  }

  /**
   With a native lot of a whole number of canonical ones, what a child leaves behind
   is the remainder modulo that number, so it represents all of the grant exactly when
   that divides, and is empty exactly when the grant is below one native lot.
   */
  lemma ChildLeavesRemainder(granted: nat, ratio: real)
    requires ratio > 0.0 && WholeRatio(ratio)
    ensures var k, lots := Round(ratio), ChildLots(granted, ratio);
            && k >= 1
            && granted - ToCanonical(lots, ratio) == granted % k
            && (lots == 0 <==> granted < k)
  {
    var k := Round(ratio);
    var x := granted as real / ratio;
    RA.DivMul(granted as real, ratio, x);
    var q, r := granted / k, granted % k;
    FloorFrom(x, granted, k, q, r);
    WholeScale(q, ratio);
    SmallQuotient(granted, k);
  }

  lemma SmallQuotient(g: nat, k: int)
    requires k >= 1
    ensures g / k == 0 <==> g < k
  {
  }
}
