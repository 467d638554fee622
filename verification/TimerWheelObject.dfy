/** The timer wheel object: slots updated in place by the loops of `insert`, `cancel` and `check_slot`. */
module TimerWheelObject {
  import opened Types
  import opened TimerWheel

  class Ring {
    const slots: array<seq<Entry>>
    const depth: nat
    const tick: nat
    var now: nat

    ghost predicate Valid()
      reads this, slots
    {
      tick > 0 && slots.Length > 0 && forall s :: 0 <= s < slots.Length ==> |slots[s]| == depth
    }

    ghost function Value(): Wheel
      reads this, slots
      requires Valid()
    {
      WheelData(slots[..], depth, tick, now)
    }

    constructor (n: nat, depth: nat, tick: nat, now: nat)
      requires n > 0 && tick > 0
      ensures Valid() && fresh(slots)
      ensures Value() == WheelData(seq(n, _ => seq(depth, _ => Entry(0, 0, false))), depth, tick, now)
    {
      slots := new seq<Entry>[n](_ => seq(depth, _ => Entry(0, 0, false)));
      this.depth := depth;
      this.tick := tick;
      this.now := now;
    }

    method Insert(cid: nat, at: nat, timeout: nat) returns (ok: bool)
      requires Valid()
      modifies slots
      ensures Valid() && Value() == TimerWheel.Insert(old(Value()), cid, at, timeout)
      ensures ok <==> HasRoom(old(Value()), SlotFor(old(Value()), at + timeout))
    {
      var s := (at + timeout) / tick % slots.Length;
      var i := 0;
      while i < depth && slots[s][i].active
        invariant 0 <= i <= depth
        invariant FreeIndex(slots[s], 0) == FreeIndex(slots[s], i)
      {
        i := i + 1;
      }
      if i == depth {
        return false;
      }
      slots[s] := slots[s][i := Entry(cid, at + timeout, true)];
      return true;
    }

    method Cancel(cid: nat)
      requires Valid()
      modifies slots
      ensures Valid() && Value() == TimerWheel.Cancel(old(Value()), cid)
    {
      ghost var w := Value();
      for s := 0 to slots.Length
        invariant Valid() && Value() == w
        invariant MatchSlot(w, cid, 0) == MatchSlot(w, cid, s)
      {
        var i := 0;
        while i < depth && !(slots[s][i].active && slots[s][i].cid == cid)
          invariant 0 <= i <= depth
          invariant MatchIndex(slots[s], cid, 0) == MatchIndex(slots[s], cid, i)
        {
          i := i + 1;
        }
        if i < depth {
          slots[s] := slots[s][i := slots[s][i].(active := false)];
          return;
        }
      }
    }

    method AdvanceClock()
      requires Valid()
      modifies this`now
      ensures Valid() && Value() == old(Value()).(now := old(now) + tick)
    {
      now := now + tick;
    }

    method CurrentSlot() returns (s: nat)
      requires Valid()
      ensures s == Current(Value()) && s < slots.Length
    {
      s := now / tick % slots.Length;
    }

    /** One iteration of `check_slot`: an active entry is cleared and its child returned. */
    method TakeDue(s: nat, i: nat) returns (cid: Option<nat>)
      requires Valid() && s < slots.Length && i < depth
      modifies slots
      ensures Valid()
      ensures cid == if old(ActiveAt(Value(), s, i)) then Some(old(slots[s][i].cid)) else None
      ensures Value() == if old(ActiveAt(Value(), s, i)) then Disarm(old(Value()), s, i) else old(Value())
    {
      if !slots[s][i].active {
        return None;
      }
      var e := slots[s][i];
      slots[s] := slots[s][i := e.(active := false)];
      return Some(e.cid);
    }
  }
}
