/**
 The K-way merge of sorted queues by linear scan of the heads, on values: what it
 outputs, in which order, and that sums over it are sums over the queues.
 */
module KWayMerge {
  import opened Books

  /** The index of the cheapest head among the first `n` queues, earliest on ties; -1 when all are empty. */
  function Best(qs: seq<seq<Slice>>, n: nat): (b: int)
    requires n <= |qs|
    ensures b == -1 <==> forall k :: 0 <= k < n ==> qs[k] == []
    ensures b != -1 ==> 0 <= b < n && qs[b] != []
    ensures b != -1 ==> forall k :: 0 <= k < n && qs[k] != [] ==> qs[b][0].eff <= qs[k][0].eff
    ensures b != -1 ==> forall k :: 0 <= k < b && qs[k] != [] ==> qs[b][0].eff < qs[k][0].eff
  {
    if n == 0 then -1
    else
      var b := Best(qs, n - 1);
      if qs[n - 1] == [] then b
      else if b == -1 || qs[n - 1][0].eff < qs[b][0].eff then n - 1 else b
  }

  function Total(qs: seq<seq<Slice>>): nat {
    if qs == [] then 0 else Total(qs[..|qs| - 1]) + |qs[|qs| - 1]|
  }

  function Behead(qs: seq<seq<Slice>>, b: nat): seq<seq<Slice>>
    requires b < |qs| && qs[b] != []
  {
    qs[b := qs[b][1..]]
  }

  lemma {:induction false} BeheadTotal(qs: seq<seq<Slice>>, b: nat)
    requires b < |qs| && qs[b] != []
    ensures Total(Behead(qs, b)) == Total(qs) - 1
  {
    var n := |qs| - 1;
    if b < n {
      assert Behead(qs, b)[..n] == Behead(qs[..n], b);
      BeheadTotal(qs[..n], b);
    } else {
      assert Behead(qs, b)[..n] == qs[..n];
    }
  }

  function Merge(qs: seq<seq<Slice>>): seq<Slice>
    decreases Total(qs)
  {
    var b := Best(qs, |qs|);
    if b == -1 then []
    else
      BeheadTotal(qs, b);
      [qs[b][0]] + Merge(Behead(qs, b))
  }

  lemma {:induction false} MergeLength(qs: seq<seq<Slice>>)
    ensures |Merge(qs)| == Total(qs)
    decreases Total(qs)
  {
    var b := Best(qs, |qs|);
    if b == -1 {
      EmptyTotal(qs);
    } else {
      BeheadTotal(qs, b);
      MergeLength(Behead(qs, b));
    }
  }

  lemma {:induction false} EmptyTotal(qs: seq<seq<Slice>>)
    requires forall k :: 0 <= k < |qs| ==> qs[k] == []
    ensures Total(qs) == 0
  {
    if qs != [] {
      EmptyTotal(qs[..|qs| - 1]);
    }
  }

  // ----- Order -----

  ghost predicate AtLeast(s: seq<Slice>, m: int) {
    forall i :: 0 <= i < |s| ==> m <= s[i].eff
  }

  lemma {:induction false} MergeAtLeast(qs: seq<seq<Slice>>, m: int)
    requires forall k :: 0 <= k < |qs| ==> AtLeast(qs[k], m)
    ensures AtLeast(Merge(qs), m)
    decreases Total(qs)
  {
    var b := Best(qs, |qs|);
    if b != -1 {
      BeheadTotal(qs, b);
      var rest := Behead(qs, b);
      assert AtLeast(qs[b], m);
      MergeAtLeast(rest, m);
    }
  }

  lemma {:induction false} MergeSorted(qs: seq<seq<Slice>>)
    requires forall k :: 0 <= k < |qs| ==> SortedByCost(qs[k])
    ensures SortedByCost(Merge(qs))
    decreases Total(qs)
  {
    var b := Best(qs, |qs|);
    if b != -1 {
      BeheadTotal(qs, b);
      var rest, m := Behead(qs, b), qs[b][0].eff;
      forall k | 0 <= k < |rest|
        ensures SortedByCost(rest[k]) && AtLeast(rest[k], m)
      {
        assert SortedByCost(qs[k]);
      }
      MergeSorted(rest);
      MergeAtLeast(rest, m);
    }
  }

  // ----- Content -----

  /** The slices of one venue, in the order they occur. */
  function Project(s: seq<Slice>, k: nat): seq<Slice> {
    if s == [] then [] else (if s[0].venue == k then [s[0]] else []) + Project(s[1..], k)
  }

  ghost predicate Tagged(qs: seq<seq<Slice>>) {
    forall k, i :: 0 <= k < |qs| && 0 <= i < |qs[k]| ==> qs[k][i].venue == k
  }

  /** Projecting the merge on a venue gives back that venue's queue, whole and in order. */
  lemma {:induction false} MergeProjects(qs: seq<seq<Slice>>, k: nat)
    requires Tagged(qs) && k < |qs|
    ensures Project(Merge(qs), k) == qs[k]
    decreases Total(qs)
  {
    var b := Best(qs, |qs|);
    if b != -1 {
      BeheadTotal(qs, b);
      var rest := Behead(qs, b);
      assert Tagged(rest);
      MergeProjects(rest, k);
      assert Merge(qs)[1..] == Merge(rest);
    }
  }

  lemma {:induction false} ProjectNonZero(s: seq<Slice>, k: nat)
    ensures Project(NonZero(s), k) == NonZero(Project(s, k))
  {
    if s != [] {
      ProjectNonZero(s[1..], k);
      if s[0].lots != 0 {
        assert NonZero(s)[1..] == NonZero(s[1..]);
      } else {
        assert NonZero(s) == NonZero(s[1..]);
      }
      if s[0].venue == k {
        assert Project(s, k)[1..] == Project(s[1..], k);
      } else {
        assert Project(s, k) == Project(s[1..], k);
      }
    }
  }

  lemma {:induction false} ProjectMembers(s: seq<Slice>, k: nat)
    ensures forall x :: x in Project(s, k) <==> x in s && x.venue == k
  {
    if s != [] {
      ProjectMembers(s[1..], k);
      assert forall x :: x in s <==> x == s[0] || x in s[1..];
    }
  }

  // ----- Sums -----

  function SumOver(s: seq<Slice>, w: Slice -> int): int {
    if s == [] then 0 else w(s[0]) + SumOver(s[1..], w)
  }

  function SumAll(qs: seq<seq<Slice>>, w: Slice -> int): int {
    if qs == [] then 0 else SumAll(qs[..|qs| - 1], w) + SumOver(qs[|qs| - 1], w)
  }

  lemma {:induction false} BeheadSum(qs: seq<seq<Slice>>, b: nat, w: Slice -> int)
    requires b < |qs| && qs[b] != []
    ensures SumAll(qs, w) == w(qs[b][0]) + SumAll(Behead(qs, b), w)
  {
    var n := |qs| - 1;
    if b < n {
      assert Behead(qs, b)[..n] == Behead(qs[..n], b);
      BeheadSum(qs[..n], b, w);
    } else {
      assert Behead(qs, b)[..n] == qs[..n];
    }
  }

  /** Any weight sums to the same over the merged array and over the venues' queues. */
  lemma {:induction false} MergeSums(qs: seq<seq<Slice>>, w: Slice -> int)
    ensures SumOver(Merge(qs), w) == SumAll(qs, w)
    decreases Total(qs)
  {
    var b := Best(qs, |qs|);
    if b == -1 {
      EmptySum(qs, w);
    } else {
      BeheadTotal(qs, b);
      MergeSums(Behead(qs, b), w);
      BeheadSum(qs, b, w);
      assert Merge(qs)[1..] == Merge(Behead(qs, b));
    }
  }

  lemma {:induction false} EmptySum(qs: seq<seq<Slice>>, w: Slice -> int)
    requires forall k :: 0 <= k < |qs| ==> qs[k] == []
    ensures SumAll(qs, w) == 0
  {
    if qs != [] {
      EmptySum(qs[..|qs| - 1], w);
    }
  }

  lemma {:induction false} SumNonZero(s: seq<Slice>, w: Slice -> int)
    requires forall x :: x in s && x.lots == 0 ==> w(x) == 0
    ensures SumOver(NonZero(s), w) == SumOver(s, w)
  {
    if s != [] {
      SumNonZero(s[1..], w);
      if s[0].lots != 0 {
        assert NonZero(s)[1..] == NonZero(s[1..]);
      } else {
        assert NonZero(s) == NonZero(s[1..]);
      }
    }
  }
}
