/** The pool object: two record arrays and two LIFO free lists, pushed and popped in place. */
module OrderPoolObject {
  import opened Types
  import opened OrderPool

  /** A list of distinct ids below `n` has at most `n` entries. */
  lemma {:induction false} DistinctFits(s: seq<nat>, n: nat)
    requires FreeListOk(s, n)
    ensures |s| <= n
  {
    var ids := set i | 0 <= i < |s| :: s[i];
    DistinctCount(s);
    Below(ids, n);
  }

  lemma {:induction false} DistinctCount(s: seq<nat>)
    requires Distinct(s)
    ensures |set i | 0 <= i < |s| :: s[i]| == |s|
  {
    if s != [] {
      var n := |s| - 1;
      DistinctCount(s[..n]);
      var rest := set i | 0 <= i < |s[..n]| :: s[..n][i];
      assert (set i | 0 <= i < |s| :: s[i]) == rest + {s[n]} by {
        forall x | x in rest
          ensures x in set i | 0 <= i < |s| :: s[i]
        {
          var i :| 0 <= i < |s[..n]| && s[..n][i] == x;
          assert s[i] == x;
        }
        forall x | x in set i | 0 <= i < |s| :: s[i]
          ensures x in rest + {s[n]}
        {
          var i :| 0 <= i < |s| && s[i] == x;
          if i < n {
            assert s[..n][i] == x;
          }
        }
      }
      assert s[n] !in rest;
    }
  }

  lemma {:induction false} Below(ids: set<nat>, n: nat)
    requires forall x :: x in ids ==> x < n
    ensures |ids| <= n
  {
    if n == 0 {
      assert ids == {};
    } else {
      Below(ids - {n - 1}, n - 1);
    }
  }

  lemma {:induction false} FreeSlotsGrows(pool: Pool, par: Parent, s: nat, onlyTerminal: bool)
    ensures |pool.childFree| <= |FreeSlots(pool, par, s, onlyTerminal).childFree|
    decreases MAX_KIDS - s
  {
    if s < MAX_KIDS {
      if HasChild(par, s) && (onlyTerminal ==> Terminal(ChildAt(pool, par.slots[s]))) {
        FreeSlotsGrows(FreeChild(pool, par.slots[s]), par, s + 1, onlyTerminal);
      } else {
        FreeSlotsGrows(pool, par, s + 1, onlyTerminal);
      }
    }
  }

  class Pools {
    const parents: array<Parent>
    const children: array<Child>
    const parentFree: array<nat>
    const childFree: array<nat>
    var parentTop: nat
    var childTop: nat

    ghost predicate Valid()
      reads this
    {
      && parentFree.Length == parents.Length && parentTop <= parentFree.Length
      && childFree.Length == children.Length && childTop <= childFree.Length
      && parentFree != childFree
    }

    ghost function Value(): Pool
      reads this, parents, children, parentFree, childFree
      requires Valid()
    {
      Pool(parents[..], children[..], parentFree[..parentTop], childFree[..childTop])
    }

    constructor (maxParents: nat, maxChildren: nat)
      ensures Valid() && fresh(parents) && fresh(children) && fresh(parentFree) && fresh(childFree)
      ensures FreeListOk(Value().parentFree, maxParents) && FreeListOk(Value().childFree, maxChildren)
      ensures Value().parents == seq(maxParents, _ => BLANK_PARENT)
      ensures Value().children == seq(maxChildren, _ => BLANK_CHILD)
      ensures forall p: nat :: p < maxParents ==> p in Value().parentFree
      ensures forall c: nat :: c < maxChildren ==> c in Value().childFree
    {
      parents := new Parent[maxParents](_ => BLANK_PARENT);
      children := new Child[maxChildren](_ => BLANK_CHILD);
      parentFree := new nat[maxParents](i requires 0 <= i < maxParents => maxParents - 1 - i);
      childFree := new nat[maxChildren](i requires 0 <= i < maxChildren => maxChildren - 1 - i);
      parentTop := maxParents;
      childTop := maxChildren;
      new;
      forall p: nat | p < maxParents
        ensures p in Value().parentFree
      {
        assert Value().parentFree[maxParents - 1 - p] == p;
      }
      forall c: nat | c < maxChildren
        ensures c in Value().childFree
      {
        assert Value().childFree[maxChildren - 1 - c] == c;
      }
    }

    method TakeParent() returns (id: Option<nat>)
      requires Valid() && ListsOk(Value())
      modifies this`parentTop, parents
      ensures Valid()
      ensures old(Value()).parentFree == [] ==> id == None && Value() == old(Value())
      ensures old(Value()).parentFree != [] ==>
                id == Some(Top(old(Value()).parentFree)) && Value() == AllocParent(old(Value()))
    {
      if parentTop == 0 {
        return None;
      }
      parentTop := parentTop - 1;
      var p := parentFree[parentTop];
      parents[p] := BLANK_PARENT.(id := p);
      return Some(p);
    }

    method TakeChild() returns (id: Option<nat>)
      requires Valid() && ListsOk(Value())
      modifies this`childTop, children
      ensures Valid()
      ensures old(Value()).childFree == [] ==> id == None && Value() == old(Value())
      ensures old(Value()).childFree != [] ==>
                id == Some(Top(old(Value()).childFree)) && Value() == AllocChild(old(Value()))
    {
      if childTop == 0 {
        return None;
      }
      childTop := childTop - 1;
      var c := childFree[childTop];
      children[c] := BLANK_CHILD;
      return Some(c);
    }

    method ReturnParent(p: nat)
      requires Valid() && parentTop < parentFree.Length
      modifies this`parentTop, parentFree
      ensures Valid() && Value() == FreeParent(old(Value()), p)
    {
      parentFree[parentTop] := p;
      parentTop := parentTop + 1;
    }

    method ReturnChild(c: nat)
      requires Valid() && childTop < childFree.Length
      modifies this`childTop, childFree
      ensures Valid() && Value() == FreeChild(old(Value()), c)
    {
      childFree[childTop] := c;
      childTop := childTop + 1;
    }

    method WriteParent(p: nat, par: Parent)
      requires Valid() && p < parents.Length
      modifies parents
      ensures Value() == SetParent(old(Value()), p, par)
    {
      parents[p] := par;
    }

    method WriteChild(c: nat, ch: Child)
      requires Valid() && c < children.Length
      modifies children
      ensures Value() == SetChild(old(Value()), c, ch)
    {
      children[c] := ch;
    }

    /** The loop that returns a parent's recorded children. */
    method ReturnSlots(par: Parent, onlyTerminal: bool)
      requires Valid() && Compact(par) && |FreeSlots(Value(), par, 0, onlyTerminal).childFree| <= children.Length
      requires forall s :: 0 <= s < MAX_KIDS && HasChild(par, s) ==> par.slots[s] < children.Length
      modifies this`childTop, childFree
      ensures Valid() && Value() == FreeSlots(old(Value()), par, 0, onlyTerminal)
    {
      for s := 0 to MAX_KIDS
        invariant Valid() && FreeSlots(Value(), par, s, onlyTerminal) == FreeSlots(old(Value()), par, 0, onlyTerminal)
      {
        if HasChild(par, s) {
          var ch := children[par.slots[s]];
          if onlyTerminal ==> Terminal(ch) {
            FreeSlotsGrows(FreeChild(Value(), par.slots[s]), par, s + 1, onlyTerminal);
            ReturnChild(par.slots[s]);
          }
        }
      }
    }

    /** `all_children_terminal`. */
    method AreAllTerminal(par: Parent) returns (b: bool)
      requires Valid()
      requires forall s :: 0 <= s < MAX_KIDS && HasChild(par, s) ==> par.slots[s] < children.Length
      ensures b == AllTerminal(Value(), par)
    {
      for s := 0 to MAX_KIDS
        invariant forall t :: 0 <= t < s && HasChild(par, t) ==> !Live(ChildAt(Value(), par.slots[t]))
      {
        if HasChild(par, s) && Live(children[par.slots[s]]) {
          return false;
        }
      }
      return true;
    }
  }
}
