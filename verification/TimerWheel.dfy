/**
 The flat timer ring of oms/timer_wheel.hpp. The wheel is a value here; class `Ring`
 of module `TimerWheelObject` updates it in place.
 */
module TimerWheel {
  import opened Types
  import opened Modular

  datatype Entry = Entry(cid: nat, deadline: nat, active: bool)

  datatype WheelData = WheelData(slots: seq<seq<Entry>>, depth: nat, tick: nat, now: nat)

  predicate Shaped(w: WheelData) {
    w.tick > 0 && |w.slots| > 0 && forall s :: 0 <= s < |w.slots| ==> |w.slots[s]| == w.depth
  }

  type Wheel = w: WheelData | Shaped(w) witness WheelData([[]], 0, 1, 0)

  function SlotFor(w: Wheel, ts: nat): (s: nat)
    ensures s < |w.slots|
  {
    (ts / w.tick) % |w.slots|
  }

  function SetEntry(w: Wheel, s: nat, i: nat, e: Entry): (w': Wheel)
    requires s < |w.slots| && i < w.depth
    ensures w'.now == w.now && w'.tick == w.tick && w'.depth == w.depth && |w'.slots| == |w.slots|
  {
    w.(slots := w.slots[s := w.slots[s][i := e]])
  }

  /** The first inactive entry of a row at or after `i`, or the row's length. */
  function FreeIndex(row: seq<Entry>, i: nat): (r: nat)
    requires i <= |row|
    ensures i <= r <= |row|
    ensures r < |row| ==> !row[r].active
    ensures forall j :: i <= j < r ==> row[j].active
    decreases |row| - i
  {
    if i == |row| || !row[i].active then i else FreeIndex(row, i + 1)
  }

  /** The first active entry of a row for this child at or after `i`, or the row's length. */
  function MatchIndex(row: seq<Entry>, cid: nat, i: nat): (r: nat)
    requires i <= |row|
    ensures i <= r <= |row|
    ensures r < |row| ==> row[r].active && row[r].cid == cid
    ensures forall j :: i <= j < r ==> !(row[j].active && row[j].cid == cid)
    decreases |row| - i
  {
    if i == |row| || (row[i].active && row[i].cid == cid) then i else MatchIndex(row, cid, i + 1)
  }

  /** The first row at or after `s` that holds an active entry for this child, or the row count. */
  function MatchSlot(w: Wheel, cid: nat, s: nat): (r: nat)
    requires s <= |w.slots|
    ensures s <= r <= |w.slots|
    ensures r < |w.slots| ==> MatchIndex(w.slots[r], cid, 0) < w.depth
    ensures forall t :: s <= t < r ==> MatchIndex(w.slots[t], cid, 0) == w.depth
    decreases |w.slots| - s
  {
    if s == |w.slots| || MatchIndex(w.slots[s], cid, 0) < w.depth then s else MatchSlot(w, cid, s + 1)
  }

  /** `insert`: the first free entry of the deadline's slot; a full slot leaves the wheel unchanged. */
  function Insert(w: Wheel, cid: nat, at: nat, timeout: nat): (w': Wheel)
    ensures w'.now == w.now && w'.tick == w.tick && w'.depth == w.depth && |w'.slots| == |w.slots|
  {
    var s := SlotFor(w, at + timeout);
    var i := FreeIndex(w.slots[s], 0);
    if i < w.depth then SetEntry(w, s, i, Entry(cid, at + timeout, true)) else w
  }

  function Disarm(w: Wheel, s: nat, i: nat): (w': Wheel)
    requires s < |w.slots| && i < w.depth
  {
    SetEntry(w, s, i, w.slots[s][i].(active := false))
  }

  /** `cancel`: clears the first active entry for this child, if there is one. */
  function Cancel(w: Wheel, cid: nat): (w': Wheel)
    ensures w'.now == w.now && w'.tick == w.tick && w'.depth == w.depth && |w'.slots| == |w.slots|
  {
    var s := MatchSlot(w, cid, 0);
    if s < |w.slots| then Disarm(w, s, MatchIndex(w.slots[s], cid, 0)) else w
  }

  // ----- Which children have a timer -----

  predicate ActiveAt(w: Wheel, s: nat, i: nat) {
    s < |w.slots| && i < w.depth && w.slots[s][i].active
  }

  ghost function Armed(w: Wheel): set<nat> {
    set s, i | 0 <= s < |w.slots| && 0 <= i < w.depth && w.slots[s][i].active :: w.slots[s][i].cid
  }

  /** At most one active entry per child. */
  ghost predicate Unique(w: Wheel) {
    forall s: nat, i: nat, t: nat, j: nat :: ActiveAt(w, s, i) && ActiveAt(w, t, j) && w.slots[s][i].cid == w.slots[t][j].cid ==>
      s == t && i == j
  }

  lemma ArmedAt(w: Wheel, s: nat, i: nat)
    requires ActiveAt(w, s, i)
    ensures w.slots[s][i].cid in Armed(w)
  {
  }

  lemma InsertArms(w: Wheel, cid: nat, at: nat, timeout: nat)
    requires Unique(w) && cid !in Armed(w)
    ensures Unique(Insert(w, cid, at, timeout))
    ensures Armed(w) <= Armed(Insert(w, cid, at, timeout)) <= Armed(w) + {cid}
  {
    var w' := Insert(w, cid, at, timeout);
    var s := SlotFor(w, at + timeout);
    var i := FreeIndex(w.slots[s], 0);
    if i < w.depth {
      forall t: nat, j: nat | t < |w.slots| && j < w.depth && !(t == s && j == i)
        ensures w'.slots[t][j] == w.slots[t][j]
      {
      }
      forall t: nat, j: nat | ActiveAt(w, t, j)
        ensures w.slots[t][j].cid != cid && ActiveAt(w', t, j) && w'.slots[t][j] == w.slots[t][j]
      {
        ArmedAt(w, t, j);
      }
      forall t: nat, j: nat | ActiveAt(w', t, j)
        ensures (t == s && j == i && w'.slots[t][j].cid == cid) || (ActiveAt(w, t, j) && w'.slots[t][j] == w.slots[t][j])
      {
      }
      forall c | c in Armed(w)
        ensures c in Armed(w')
      {
        var t: nat, j: nat :| ActiveAt(w, t, j) && w.slots[t][j].cid == c;
        ArmedAt(w', t, j);
      }
      forall c | c in Armed(w')
        ensures c in Armed(w) + {cid}
      {
        var t: nat, j: nat :| ActiveAt(w', t, j) && w'.slots[t][j].cid == c;
        if !(t == s && j == i) {
          ArmedAt(w, t, j);
        }
      }
    }
  }

  predicate HasRoom(w: Wheel, s: nat) {
    s < |w.slots| && exists i :: 0 <= i < w.depth && !w.slots[s][i].active
  }

  /** Entry `i` is the lowest inactive one of its slot. */
  predicate LowestFree(w: Wheel, s: nat, i: nat) {
    s < |w.slots| && i < w.depth && !w.slots[s][i].active && forall j :: 0 <= j < i ==> w.slots[s][j].active
  }

  /**
   `insert` gives up only on a full slot: a timer goes to the lowest inactive entry of its
   deadline's slot if there is one, and otherwise nothing changes. So a child without a
   timer has one afterwards exactly when the slot had room.
   */
  lemma InsertFirstFit(w: Wheel, cid: nat, at: nat, timeout: nat)
    ensures var w', s := Insert(w, cid, at, timeout), SlotFor(w, at + timeout);
            && (HasRoom(w, s) ==> exists i: nat :: LowestFree(w, s, i) && w' == SetEntry(w, s, i, Entry(cid, at + timeout, true)))
            && (!HasRoom(w, s) ==> w' == w)
            && (cid !in Armed(w) ==> (cid in Armed(w') <==> HasRoom(w, s)))
  {
    var w', s := Insert(w, cid, at, timeout), SlotFor(w, at + timeout);
    var i := FreeIndex(w.slots[s], 0);
    if i < w.depth {
      assert LowestFree(w, s, i);
      ArmedAt(w', s, i);
    }
  }

  lemma DisarmRemoves(w: Wheel, s: nat, i: nat)
    requires Unique(w) && ActiveAt(w, s, i)
    ensures Unique(Disarm(w, s, i))
    ensures Armed(Disarm(w, s, i)) == Armed(w) - {w.slots[s][i].cid}
  {
    var w', cid := Disarm(w, s, i), w.slots[s][i].cid;
    forall t: nat, j: nat | ActiveAt(w', t, j)
      ensures ActiveAt(w, t, j) && w'.slots[t][j] == w.slots[t][j] && w'.slots[t][j].cid != cid
    {
      assert !(t == s && j == i);
    }
    forall c | c in Armed(w')
      ensures c in Armed(w) - {cid}
    {
      var t: nat, j: nat :| ActiveAt(w', t, j) && w'.slots[t][j].cid == c;
      ArmedAt(w, t, j);
    }
    forall c | c in Armed(w) - {cid}
      ensures c in Armed(w')
    {
      var t: nat, j: nat :| ActiveAt(w, t, j) && w.slots[t][j].cid == c;
      assert ActiveAt(w', t, j) && w'.slots[t][j] == w.slots[t][j];
      ArmedAt(w', t, j);
    }
  }

  /** After `cancel` the child has no timer, and every other child keeps its own. */
  lemma CancelRemoves(w: Wheel, cid: nat)
    requires Unique(w)
    ensures Unique(Cancel(w, cid)) && Armed(Cancel(w, cid)) == Armed(w) - {cid}
  {
    var s := MatchSlot(w, cid, 0);
    if s < |w.slots| {
      DisarmRemoves(w, s, MatchIndex(w.slots[s], cid, 0));
    } else {
      assert cid !in Armed(w);
    }
  }

  // ----- When a timer fires -----

  /**
   The wheel mid-flight: `next` is the entry of the current slot that is checked
   next (`depth` when no scan is in progress), `caller` the clock reading the tick
   call in progress was given.
   */
  datatype Scan = Scan(wheel: Wheel, next: nat, caller: nat)

  /** The steps of the execution thread; a callback's own inserts and cancels interleave with checks. */
  datatype Step =
    | Arm(cid: nat, at: nat, timeout: nat)
    | Drop(cid: nat)
    | Advance(caller: nat)
    | Check

  function Bucket(w: Wheel, ts: nat): nat {
    ts / w.tick
  }

  function Current(w: Wheel): nat {
    SlotFor(w, w.now)
  }

  /** One step; `Advance` and `Check` do nothing where the tick loop would not take them. */
  function Apply(sc: Scan, step: Step): (sc': Scan)
    ensures sc'.wheel.tick == sc.wheel.tick && sc'.wheel.depth == sc.wheel.depth
    ensures |sc'.wheel.slots| == |sc.wheel.slots|
  {
    var w := sc.wheel;
    match step
    case Arm(cid, at, timeout) => sc.(wheel := Insert(w, cid, at, timeout))
    case Drop(cid) => sc.(wheel := Cancel(w, cid))
    case Advance(caller) =>
      if sc.next >= w.depth && w.now + w.tick <= caller
      then Scan(w.(now := w.now + w.tick), 0, caller) else sc
    case Check =>
      if sc.next >= w.depth then sc
      else if w.slots[Current(w)][sc.next].active
      then Scan(Disarm(w, Current(w), sc.next), sc.next + 1, sc.caller)
      else sc.(next := sc.next + 1)
  }

  predicate Visits(sc: Scan, step: Step, s: nat, i: nat) {
    step.Check? && sc.next < sc.wheel.depth && Current(sc.wheel) == s && sc.next == i
  }

  /** The bucket in which entry (s, i) is next checked. */
  function NextVisit(sc: Scan, s: nat, i: nat): nat
    requires s < |sc.wheel.slots|
  {
    var n, b := |sc.wheel.slots|, Bucket(sc.wheel, sc.wheel.now);
    if s == Current(sc.wheel) && i >= sc.next then b else b + 1 + (s - b - 1) % n
  }

  lemma LapStep(b: nat, s: nat, n: nat)
    requires s < n
    ensures (s - b - 1) % n == 0 <==> s == (b + 1) % n
    ensures (s - b - 1) % n != 0 ==> (s - b - 1) % n == 1 + (s - (b + 1) - 1) % n
  {
    var y := s - b - 1;
    var q, r := y / n, y % n;
    assert y == n * q + r;
    if r == 0 {
      assert b + 1 == n * (-q) + s;
      ModUnique(b + 1, n, -q, s);
    } else {
      ModUnique(y - 1, n, q, r - 1);
    }
    if s == (b + 1) % n {
      var p := (b + 1) / n;
      assert y == n * (-p) + 0;
      ModUnique(y, n, -p, 0);
    }
  }

  lemma NextBucket(w: Wheel)
    ensures (w.now + w.tick) / w.tick == w.now / w.tick + 1
  {
    var q, r := w.now / w.tick, w.now % w.tick;
    assert w.now + w.tick == w.tick * (q + 1) + r by {
      Distribute(w.tick, q);
    }
    ModUnique(w.now + w.tick, w.tick, q + 1, r);
  }

  /** No step other than the visit itself moves an entry's next visit. */
  lemma VisitStable(sc: Scan, step: Step, s: nat, i: nat)
    requires s < |sc.wheel.slots| && i < sc.wheel.depth && !Visits(sc, step, s, i)
    ensures NextVisit(Apply(sc, step), s, i) == NextVisit(sc, s, i)
  {
    if step.Advance? && Apply(sc, step) != sc {
      NextBucket(sc.wheel);
      LapStep(Bucket(sc.wheel, sc.wheel.now), s, |sc.wheel.slots|);
    }
  }

  lemma EntryStable(sc: Scan, step: Step, s: nat, i: nat)
    requires ActiveAt(sc.wheel, s, i) && !Visits(sc, step, s, i)
    requires step != Drop(sc.wheel.slots[s][i].cid)
    ensures ActiveAt(Apply(sc, step).wheel, s, i)
    ensures Apply(sc, step).wheel.slots[s][i] == sc.wheel.slots[s][i]
  {
  }

  function Run(sc: Scan, steps: seq<Step>): (sc': Scan)
    ensures sc'.wheel.tick == sc.wheel.tick && sc'.wheel.depth == sc.wheel.depth
    ensures |sc'.wheel.slots| == |sc.wheel.slots|
    decreases |steps|
  {
    if steps == [] then sc else Run(Apply(sc, steps[0]), steps[1..])
  }

  /** The wheel's clock and the caller's clock at the moment the entry is checked, if a run gets there. */
  function Fired(sc: Scan, steps: seq<Step>, s: nat, i: nat): Option<(nat, nat)>
    decreases |steps|
  {
    if steps == [] then None
    else if Visits(sc, steps[0], s, i) then Some((sc.wheel.now, sc.caller))
    else Fired(Apply(sc, steps[0]), steps[1..], s, i)
  }

  predicate NeverDropped(steps: seq<Step>, cid: nat) {
    forall k :: 0 <= k < |steps| ==> steps[k] != Drop(cid)
  }

  /**
   The life of one uncancelled entry over any run, whatever is armed, dropped or
   fired around it: either the run reaches its next visit, where it fires, in the
   bucket fixed when it was armed, or it is still there, untouched.
   */
  lemma {:induction false} Lifetime(sc: Scan, steps: seq<Step>, s: nat, i: nat)
    requires ActiveAt(sc.wheel, s, i) && NeverDropped(steps, sc.wheel.slots[s][i].cid)
    requires sc.wheel.now <= sc.caller
    ensures match Fired(sc, steps, s, i)
            case Some((now, caller)) => Bucket(sc.wheel, now) == NextVisit(sc, s, i) && now <= caller
            case None =>
              && ActiveAt(Run(sc, steps).wheel, s, i)
              && Run(sc, steps).wheel.slots[s][i] == sc.wheel.slots[s][i]
              && NextVisit(Run(sc, steps), s, i) == NextVisit(sc, s, i)
    decreases |steps|
  {
    if steps != [] && !Visits(sc, steps[0], s, i) {
      VisitStable(sc, steps[0], s, i);
      EntryStable(sc, steps[0], s, i);
      Lifetime(Apply(sc, steps[0]), steps[1..], s, i);
    }
  }

  // ----- How often a timer fires -----

  /** The step fires a timer of this child. */
  predicate Fires(sc: Scan, step: Step, cid: nat) {
    && step.Check? && sc.next < sc.wheel.depth
    && sc.wheel.slots[Current(sc.wheel)][sc.next].active && sc.wheel.slots[Current(sc.wheel)][sc.next].cid == cid
  }

  /** How many times a run fires a timer of this child. */
  function FireCount(sc: Scan, steps: seq<Step>, cid: nat): nat
    decreases |steps|
  {
    if steps == [] then 0
    else (if Fires(sc, steps[0], cid) then 1 else 0) + FireCount(Apply(sc, steps[0]), steps[1..], cid)
  }

  predicate NeverArmed(steps: seq<Step>, cid: nat) {
    forall k :: 0 <= k < |steps| ==> !(steps[k].Arm? && steps[k].cid == cid)
  }

  /** An active entry of this child. */
  predicate Holds(w: Wheel, cid: nat, s: nat, i: nat) {
    ActiveAt(w, s, i) && w.slots[s][i].cid == cid
  }

  ghost predicate NoEntry(w: Wheel, cid: nat) {
    forall s: nat, i: nat :: !Holds(w, cid, s, i)
  }

  ghost predicate OneEntry(w: Wheel, cid: nat) {
    forall s: nat, i: nat, t: nat, j: nat :: Holds(w, cid, s, i) && Holds(w, cid, t, j) ==> s == t && i == j
  }

  /** Without a new arming no step gives the child an entry it did not have. */
  lemma NoNewEntry(sc: Scan, step: Step, cid: nat)
    requires !(step.Arm? && step.cid == cid)
    ensures forall s: nat, i: nat :: Holds(Apply(sc, step).wheel, cid, s, i) ==> Holds(sc.wheel, cid, s, i)
  {
  }

  /** A check that fires the child's only entry leaves it with none. */
  lemma FiringClears(sc: Scan, step: Step, cid: nat)
    requires OneEntry(sc.wheel, cid) && Fires(sc, step, cid)
    ensures NoEntry(Apply(sc, step).wheel, cid)
  {
    var s, i := Current(sc.wheel), sc.next;
    assert Holds(sc.wheel, cid, s, i);
    NoNewEntry(sc, step, cid);
    forall t: nat, j: nat
      ensures !Holds(Apply(sc, step).wheel, cid, t, j)
    {
      if t != s || j != i {
        assert !Holds(sc.wheel, cid, t, j);
      }
    }
  }

  lemma {:induction false} NeverFires(sc: Scan, steps: seq<Step>, cid: nat)
    requires NoEntry(sc.wheel, cid) && NeverArmed(steps, cid)
    ensures FireCount(sc, steps, cid) == 0 && NoEntry(Run(sc, steps).wheel, cid)
    decreases |steps|
  {
    if steps != [] {
      assert !Holds(sc.wheel, cid, Current(sc.wheel), sc.next);
      NoNewEntry(sc, steps[0], cid);
      NeverFires(Apply(sc, steps[0]), steps[1..], cid);
    }
  }

  /**
   Exactly once: over any run in which the child is not armed again, its timer fires at
   most once, and once fired the child has no timer left.
   */
  lemma {:induction false} FiresOnce(sc: Scan, steps: seq<Step>, cid: nat)
    requires OneEntry(sc.wheel, cid) && NeverArmed(steps, cid)
    ensures FireCount(sc, steps, cid) <= 1
    ensures FireCount(sc, steps, cid) == 1 ==> NoEntry(Run(sc, steps).wheel, cid)
    decreases |steps|
  {
    if steps != [] {
      NoNewEntry(sc, steps[0], cid);
      if Fires(sc, steps[0], cid) {
        FiringClears(sc, steps[0], cid);
        NeverFires(Apply(sc, steps[0]), steps[1..], cid);
      } else {
        FiresOnce(Apply(sc, steps[0]), steps[1..], cid);
      }
    }
  }

  /**
   When the deadline's bucket, relative to the wheel's clock, makes the entry fire
   in that bucket. Outside a scan this is 1 to N buckets ahead; an entry placed in
   the slot being scanned, at an index not reached yet, fires in the current bucket.
   */
  predicate InReach(sc: Scan, i: nat, deadline: nat) {
    var n, now, b := |sc.wheel.slots|, Bucket(sc.wheel, sc.wheel.now), Bucket(sc.wheel, deadline);
    if b % n == Current(sc.wheel) && i >= sc.next then b == now else now < b <= now + n
  }

  lemma LapUnique(now: nat, b: nat, n: nat)
    requires n > 0
    ensures now + 1 + (b % n - now - 1) % n == b <==> now < b <= now + n
  {
    var y := b % n - now - 1;
    var v := now + 1 + y % n;
    assert y == n * (y / n) + y % n;
    assert b == n * (b / n) + b % n;
    var p := b / n + y / n;
    assert b - v == n * p by {
      DistributeSum(n, b / n, y / n);
    }
    MultipleGap(n, p);
  }

  lemma DistributeSum(n: int, a: int, b: int)
    ensures n * (a + b) == n * a + n * b
  {
  }

  /** An entry in its deadline's slot is next visited in its deadline's bucket exactly when it is in reach. */
  lemma OnTimeIffInReach(sc: Scan, s: nat, i: nat, deadline: nat)
    requires s == SlotFor(sc.wheel, deadline)
    ensures NextVisit(sc, s, i) == Bucket(sc.wheel, deadline) <==> InReach(sc, i, deadline)
  {
    LapUnique(Bucket(sc.wheel, sc.wheel.now), Bucket(sc.wheel, deadline), |sc.wheel.slots|);
  }

  lemma SameBucket(w: Wheel, a: nat, b: nat)
    requires Bucket(w, a) == Bucket(w, b)
    ensures a < b + w.tick && b < a + w.tick
  {
    assert a == w.tick * (a / w.tick) + a % w.tick;
    assert b == w.tick * (b / w.tick) + b % w.tick;
  }

  lemma BucketMonotone(w: Wheel, a: nat, b: nat)
    requires a <= b
    ensures Bucket(w, a) <= Bucket(w, b)
  {
    assert a == w.tick * (a / w.tick) + a % w.tick;
    assert b == w.tick * (b / w.tick) + b % w.tick;
    var d := a / w.tick - b / w.tick;
    assert w.tick * d == w.tick * (a / w.tick) - w.tick * (b / w.tick);
    MultipleGap(w.tick, d);
  }

  /** No tick call is in progress and the wheel has caught up with the caller's clock. */
  predicate CaughtUp(sc: Scan, caller: nat) {
    sc.next >= sc.wheel.depth && caller < sc.wheel.now + sc.wheel.tick
  }

  /**
   The wheel against the plain notion of a timer, for any clock phase. An entry in
   reach that nobody cancels fires within a tick of its deadline on the wheel's
   clock, never while the caller's clock is a full tick or more before the deadline,
   and has fired once a tick call with `caller >= deadline + tick` returns.
   */
  lemma FiresOnTime(sc: Scan, steps: seq<Step>, s: nat, i: nat, caller: nat)
    requires ActiveAt(sc.wheel, s, i) && NeverDropped(steps, sc.wheel.slots[s][i].cid)
    requires sc.wheel.now <= sc.caller
    requires s == SlotFor(sc.wheel, sc.wheel.slots[s][i].deadline)
    requires InReach(sc, i, sc.wheel.slots[s][i].deadline)
    ensures var deadline, tick := sc.wheel.slots[s][i].deadline, sc.wheel.tick;
            && (match Fired(sc, steps, s, i)
                case Some((now, at)) => deadline < now + tick && now < deadline + tick && deadline < at + tick
                case None => ActiveAt(Run(sc, steps).wheel, s, i))
            && (CaughtUp(Run(sc, steps), caller) && deadline + tick <= caller ==> Fired(sc, steps, s, i).Some?)
  {
    var deadline := sc.wheel.slots[s][i].deadline;
    Lifetime(sc, steps, s, i);
    OnTimeIffInReach(sc, s, i, deadline);
    match Fired(sc, steps, s, i)
    case Some((now, at)) => SameBucket(sc.wheel, now, deadline);
    case None =>
      var end := Run(sc, steps);
      if CaughtUp(end, caller) && deadline + sc.wheel.tick <= caller {
        BucketMonotone(end.wheel, deadline, end.wheel.now);
        ModNonNegative(s - Bucket(end.wheel, end.wheel.now) - 1, |end.wheel.slots|);
      }
  }

  /**
   From insertion on, for a timer that found room in its slot and is not cancelled:
   it fires in its deadline's bucket if and only if it was in reach, in reach means
   1 to N buckets ahead when no scan is in progress, and then it fires on time.
   */
  lemma ArmedTimerFires(sc: Scan, cid: nat, at: nat, timeout: nat, steps: seq<Step>, caller: nat)
    requires HasRoom(sc.wheel, SlotFor(sc.wheel, at + timeout))
    requires sc.wheel.now <= sc.caller && NeverDropped(steps, cid)
    ensures var deadline, tick, sc' := at + timeout, sc.wheel.tick, Apply(sc, Arm(cid, at, timeout));
            var s := SlotFor(sc.wheel, deadline);
            var i := FreeIndex(sc.wheel.slots[s], 0);
            var now, due := Bucket(sc.wheel, sc.wheel.now), Bucket(sc.wheel, deadline);
            && LowestFree(sc.wheel, s, i) && ActiveAt(sc'.wheel, s, i)
            && sc'.wheel.slots[s][i] == Entry(cid, deadline, true)
            && (sc.next >= sc.wheel.depth ==> (InReach(sc, i, deadline) <==> now < due <= now + |sc.wheel.slots|))
            && (match Fired(sc', steps, s, i)
                case Some((fired, _)) => Bucket(sc.wheel, fired) == due <==> InReach(sc, i, deadline)
                case None => ActiveAt(Run(sc', steps).wheel, s, i))
            && (InReach(sc, i, deadline) ==>
                  && (match Fired(sc', steps, s, i)
                      case Some((fired, clock)) =>
                        deadline < fired + tick && fired < deadline + tick && deadline < clock + tick
                      case None => true)
                  && (CaughtUp(Run(sc', steps), caller) && deadline + tick <= caller ==> Fired(sc', steps, s, i).Some?))
  {
    var deadline, sc' := at + timeout, Apply(sc, Arm(cid, at, timeout));
    var s := SlotFor(sc.wheel, deadline);
    var i := FreeIndex(sc.wheel.slots[s], 0);
    Lifetime(sc', steps, s, i);
    OnTimeIffInReach(sc', s, i, deadline);
    if InReach(sc, i, deadline) {
      FiresOnTime(sc', steps, s, i, caller);
    }
  }

  lemma ModNonNegative(x: int, n: int)
    requires n > 0
    ensures x % n >= 0
  {
  }
}
