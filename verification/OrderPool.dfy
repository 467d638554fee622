/**
 Parent and child records and the two flat pools with LIFO free lists
 (oms/order_pool.hpp), with what it means for the pools to be consistent: who owns
 which child, and how much of a parent its children carry.
 */
module OrderPool {
  import opened Types

  const MAX_KIDS: nat := 16

  datatype Child = Child(
    parentId: nat, price: int, lots: int, cum: int, leaves: int,
    venue: nat, kind: OrderType, dir: Dir, state: OrderState, sentNs: nat)

  const BLANK_CHILD: Child := Child(0, 0, 0, 0, 0, 0, Maker, Buy, New, 0)

  /** `serial` numbers admitted orders, so that a recycled id can be told from the order it held before. */
  datatype ParentRecord = ParentRecord(
    id: nat, instr: nat, dir: Dir, state: OrderState, kind: OrderType, reduceOnly: bool, strategy: nat,
    total: int, cum: int, leaves: int, limit: nat, avg: real,
    slots: seq<nat>, mask: seq<bool>, count: nat, serial: nat)

  predicate Sized(p: ParentRecord) {
    |p.slots| == MAX_KIDS && |p.mask| == MAX_KIDS
  }

  const NO_SLOTS: seq<nat> := [0, 0, 0, 0, 0, 0, 0, 0, 0, 0, 0, 0, 0, 0, 0, 0]
  const NO_MASK: seq<bool> := 
    [false, false, false, false, false, false, false, false, false, false, false, false, false, false, false, false]

  const BLANK_PARENT: ParentRecord :=
    ParentRecord(0, 0, Buy, New, Maker, false, 0, 0, 0, 0, 0, 0.0, NO_SLOTS, NO_MASK, 0, 0)

  type Parent = p: ParentRecord | Sized(p) witness BLANK_PARENT

  datatype Pool = Pool(parents: seq<Parent>, children: seq<Child>, parentFree: seq<nat>, childFree: seq<nat>)

  predicate Live(ch: Child) {
    ch.state == PendingNew || ch.state == PartiallyFilled
  }

  predicate Terminal(ch: Child) {
    ch.state == Canceled || ch.state == Rejected || ch.state == Filled
  }

  // ----- Records -----

  predicate HasChild(par: Parent, s: nat) {
    s < MAX_KIDS && par.mask[s]
  }

  function AddChild(par: Parent, s: nat, cid: nat): Parent {
    par.(slots := Put(par.slots, s, cid), mask := Put(par.mask, s, true), count := par.count + 1)
  }

  function DropChildren(par: Parent): Parent {
    par.(count := 0, mask := NO_MASK)
  }

  function ParentAt(pool: Pool, p: nat): Parent {
    if p < |pool.parents| then pool.parents[p] else BLANK_PARENT
  }

  function ChildAt(pool: Pool, c: nat): Child {
    if c < |pool.children| then pool.children[c] else BLANK_CHILD
  }

  function SetParent(pool: Pool, p: nat, par: Parent): Pool {
    pool.(parents := Put(pool.parents, p, par))
  }

  function SetChild(pool: Pool, c: nat, ch: Child): Pool {
    pool.(children := Put(pool.children, c, ch))
  }

  // ----- The free lists -----

  function Top(free: seq<nat>): nat
    requires free != []
  {
    free[|free| - 1]
  }

  /** `alloc_parent`: pop the last id freed and blank its record. */
  function AllocParent(pool: Pool): Pool
    requires pool.parentFree != []
  {
    var p := Top(pool.parentFree);
    SetParent(pool.(parentFree := pool.parentFree[..|pool.parentFree| - 1]), p, BLANK_PARENT.(id := p))
  }

  function AllocChild(pool: Pool): Pool
    requires pool.childFree != []
  {
    SetChild(pool.(childFree := pool.childFree[..|pool.childFree| - 1]), Top(pool.childFree), BLANK_CHILD)
  }

  function FreeParent(pool: Pool, p: nat): Pool {
    pool.(parentFree := pool.parentFree + [p])
  }

  function FreeChild(pool: Pool, c: nat): Pool {
    pool.(childFree := pool.childFree + [c])
  }

  /** The loop over child slots that frees recorded children, either all of them or only finished ones. */
  function FreeSlots(pool: Pool, par: Parent, s: nat, onlyTerminal: bool): Pool
    decreases MAX_KIDS - s
  {
    if s >= MAX_KIDS then pool
    else if HasChild(par, s) && (onlyTerminal ==> Terminal(ChildAt(pool, par.slots[s])))
    then FreeSlots(FreeChild(pool, par.slots[s]), par, s + 1, onlyTerminal)
    else FreeSlots(pool, par, s + 1, onlyTerminal)
  }

  predicate AllTerminal(pool: Pool, par: Parent) {
    forall s :: 0 <= s < MAX_KIDS && HasChild(par, s) ==> !Live(ChildAt(pool, par.slots[s]))
  }

  // ----- Consistency -----

  predicate Held(pool: Pool, p: nat) {
    p < |pool.parents| && p !in pool.parentFree
  }

  predicate Used(pool: Pool, c: nat) {
    c < |pool.children| && c !in pool.childFree
  }

  /** The mask is always a prefix of the slots. */
  predicate Compact(par: Parent) {
    par.count <= MAX_KIDS && forall s :: 0 <= s < MAX_KIDS ==> par.mask[s] == (s < par.count)
  }

  function Kids(par: Parent): seq<nat> {
    if par.count <= MAX_KIDS then par.slots[..par.count] else []
  }

  ghost predicate Distinct(s: seq<nat>) {
    forall i, j :: 0 <= i < j < |s| ==> s[i] != s[j]
  }

  ghost predicate FreeListOk(free: seq<nat>, n: nat) {
    Distinct(free) && forall i :: 0 <= i < |free| ==> free[i] < n
  }

  ghost predicate ListsOk(pool: Pool) {
    && FreeListOk(pool.parentFree, |pool.parents|)
    && FreeListOk(pool.childFree, |pool.children|)
  }

  ghost predicate ShapesOk(pool: Pool) {
    forall p :: 0 <= p < |pool.parents| ==> Compact(pool.parents[p])
  }

  ghost predicate RecordsOk(pool: Pool) {
    forall p: nat :: Held(pool, p) ==> ParentAt(pool, p).id == p && Distinct(Kids(ParentAt(pool, p)))
  }

  /** Every recorded child is allocated, points back and works on its parent's side. */
  ghost predicate DownOk(pool: Pool) {
    forall p: nat, c: nat :: Held(pool, p) && c in Kids(ParentAt(pool, p)) ==>
      Used(pool, c) && ChildAt(pool, c).parentId == p && ChildAt(pool, c).dir == ParentAt(pool, p).dir
  }

  /** Every allocated child is recorded by an allocated parent. */
  ghost predicate UpOk(pool: Pool) {
    forall c: nat :: Used(pool, c) ==>
      && Held(pool, ChildAt(pool, c).parentId)
      && c in Kids(ParentAt(pool, ChildAt(pool, c).parentId))
  }

  ghost predicate OwnsOk(pool: Pool) {
    RecordsOk(pool) && DownOk(pool) && UpOk(pool)
  }

  /** A live child still has lots to fill, a finished one has none. */
  predicate ChildOk(ch: Child) {
    && 0 <= ch.cum <= ch.lots && 1 <= ch.lots
    && (Live(ch) || Terminal(ch))
    && (Live(ch) ==> ch.leaves == ch.lots - ch.cum && ch.leaves >= 1)
    && (Terminal(ch) ==> ch.leaves == 0)
  }

  ghost predicate ChildrenOk(pool: Pool) {
    forall c: nat :: Used(pool, c) ==> ChildOk(ChildAt(pool, c))
  }

  function SumLeaves(pool: Pool, kids: seq<nat>): int {
    if kids == [] then 0 else SumLeaves(pool, kids[..|kids| - 1]) + ChildAt(pool, kids[|kids| - 1]).leaves
  }

  /** The lots a parent's children still carry. */
  function Load(pool: Pool, p: nat): int {
    SumLeaves(pool, Kids(ParentAt(pool, p)))
  }

  predicate ParentOk(pool: Pool, p: nat) {
    var par := ParentAt(pool, p);
    par.leaves == par.total - par.cum && 0 <= par.cum && Load(pool, p) <= par.leaves
  }

  ghost predicate ParentsOk(pool: Pool) {
    forall p: nat :: Held(pool, p) ==> ParentOk(pool, p)
  }

  ghost predicate PoolSound(pool: Pool) {
    ListsOk(pool) && ShapesOk(pool) && OwnsOk(pool) && ChildrenOk(pool) && ParentsOk(pool)
  }

  // ----- Sums of leaves -----

  lemma {:induction false} SumFrame(a: Pool, b: Pool, kids: seq<nat>)
    requires forall c :: c in kids ==> ChildAt(a, c).leaves == ChildAt(b, c).leaves
    ensures SumLeaves(a, kids) == SumLeaves(b, kids)
  {
    if kids != [] {
      assert kids[|kids| - 1] in kids;
      SumFrame(a, b, kids[..|kids| - 1]);
    }
  }

  lemma {:induction false} SumUpdate(a: Pool, b: Pool, kids: seq<nat>, c: nat)
    requires Distinct(kids) && c in kids
    requires forall d :: d in kids && d != c ==> ChildAt(a, d).leaves == ChildAt(b, d).leaves
    ensures SumLeaves(b, kids) == SumLeaves(a, kids) - ChildAt(a, c).leaves + ChildAt(b, c).leaves
  {
    var rest, last := kids[..|kids| - 1], kids[|kids| - 1];
    if last == c {
      SumFrame(a, b, rest);
    } else {
      assert last in kids;
      SumUpdate(a, b, rest, c);
    }
  }

  lemma {:induction false} SumNonNegative(pool: Pool, kids: seq<nat>)
    requires forall c :: c in kids ==> ChildAt(pool, c).leaves >= 0
    ensures 0 <= SumLeaves(pool, kids)
    ensures forall c :: c in kids ==> ChildAt(pool, c).leaves <= SumLeaves(pool, kids)
  {
    if kids != [] {
      assert kids[|kids| - 1] in kids;
      SumNonNegative(pool, kids[..|kids| - 1]);
      assert forall c :: c in kids ==> c == kids[|kids| - 1] || c in kids[..|kids| - 1];
    }
  }

  lemma {:induction false} SumZero(pool: Pool, kids: seq<nat>)
    requires forall c :: c in kids ==> ChildAt(pool, c).leaves == 0
    ensures SumLeaves(pool, kids) == 0
  {
    if kids != [] {
      assert kids[|kids| - 1] in kids;
      SumZero(pool, kids[..|kids| - 1]);
    }
  }

  lemma SumAppend(pool: Pool, kids: seq<nat>, c: nat)
    ensures SumLeaves(pool, kids + [c]) == SumLeaves(pool, kids) + ChildAt(pool, c).leaves
  {
    assert (kids + [c])[..|kids|] == kids;
  }

  lemma KidsNonNegative(pool: Pool, p: nat)
    requires PoolSound(pool) && Held(pool, p)
    ensures 0 <= Load(pool, p)
    ensures forall c :: c in Kids(ParentAt(pool, p)) ==> ChildAt(pool, c).leaves <= Load(pool, p)
  {
    SumNonNegative(pool, Kids(ParentAt(pool, p)));
  }

  /** A parent carries no lots exactly when `all_children_terminal` says so. */
  lemma LoadZeroIffAllTerminal(pool: Pool, p: nat)
    requires PoolSound(pool) && Held(pool, p)
    ensures Load(pool, p) == 0 <==> AllTerminal(pool, ParentAt(pool, p))
    ensures Load(pool, p) == 0 ==> forall c :: c in Kids(ParentAt(pool, p)) ==> Terminal(ChildAt(pool, c))
  {
    var par := ParentAt(pool, p);
    var kids := Kids(par);
    KidsNonNegative(pool, p);
    forall c | c in kids
      ensures ChildOk(ChildAt(pool, c))
    {
    }
    assert forall s :: 0 <= s < MAX_KIDS && HasChild(par, s) ==> par.slots[s] == kids[s] && kids[s] in kids;
    if AllTerminal(pool, par) {
      forall c | c in kids
        ensures ChildAt(pool, c).leaves == 0
      {
        var s :| 0 <= s < |kids| && kids[s] == c;
        assert HasChild(par, s);
      }
      SumZero(pool, kids);
    }
  }

  // ----- The free loop in closed form -----

  /** The recorded children from slot `s` on. */
  function KidsFrom(par: Parent, s: nat): seq<nat>
    decreases MAX_KIDS - s
  {
    if s >= MAX_KIDS then []
    else (if HasChild(par, s) then [par.slots[s]] else []) + KidsFrom(par, s + 1)
  }

  lemma {:induction false} CompactKids(par: Parent, s: nat)
    requires Compact(par) && s <= MAX_KIDS
    ensures KidsFrom(par, s) == if s < par.count then par.slots[s..par.count] else []
    decreases MAX_KIDS - s
  {
    if s < MAX_KIDS {
      CompactKids(par, s + 1);
    }
  }

  lemma KidsWhole(par: Parent)
    requires Compact(par)
    ensures KidsFrom(par, 0) == Kids(par)
  {
    CompactKids(par, 0);
  }

  lemma FreeAppend(pool: Pool, c: nat, rest: seq<nat>)
    ensures FreeChild(pool, c).(childFree := FreeChild(pool, c).childFree + rest)
         == pool.(childFree := pool.childFree + ([c] + rest))
  {
    assert pool.childFree + [c] + rest == pool.childFree + ([c] + rest);
  }

  lemma {:induction false} FreeSlotsClosed(pool: Pool, par: Parent, s: nat, onlyTerminal: bool)
    requires s <= MAX_KIDS
    requires onlyTerminal ==> forall t :: s <= t < MAX_KIDS && HasChild(par, t) ==> Terminal(ChildAt(pool, par.slots[t]))
    ensures FreeSlots(pool, par, s, onlyTerminal) == pool.(childFree := pool.childFree + KidsFrom(par, s))
    decreases MAX_KIDS - s
  {
    if s < MAX_KIDS {
      if HasChild(par, s) {
        FreeSlotsClosed(FreeChild(pool, par.slots[s]), par, s + 1, onlyTerminal);
        FreeAppend(pool, par.slots[s], KidsFrom(par, s + 1));
      } else {
        FreeSlotsClosed(pool, par, s + 1, onlyTerminal);
        assert [] + KidsFrom(par, s + 1) == KidsFrom(par, s + 1);
      }
    } else {
      assert pool.childFree + [] == pool.childFree;
    }
  }

  /** The free loop appends exactly the parent's recorded children to the free list. */
  lemma FreeAll(pool: Pool, par: Parent, onlyTerminal: bool)
    requires Compact(par)
    requires onlyTerminal ==> forall c :: c in Kids(par) ==> Terminal(ChildAt(pool, c))
    ensures FreeSlots(pool, par, 0, onlyTerminal) == pool.(childFree := pool.childFree + Kids(par))
  {
    KidsWhole(par);
    forall t | 0 <= t < MAX_KIDS && HasChild(par, t)
      ensures onlyTerminal ==> Terminal(ChildAt(pool, par.slots[t]))
    {
      assert Kids(par)[t] == par.slots[t];
    }
    FreeSlotsClosed(pool, par, 0, onlyTerminal);
  }

  // ----- What the transitions on the pools keep -----

  /** Every parent other than `p` is as it was, its children's lots included. */
  ghost predicate Elsewhere(a: Pool, b: Pool, p: nat) {
    forall q: nat :: q != p ==>
      && (Held(b, q) <==> Held(a, q))
      && (Held(a, q) ==> ParentAt(b, q) == ParentAt(a, q) && Load(b, q) == Load(a, q))
  }

  /** The same allocations, records and parent links. */
  ghost predicate SameOwnership(a: Pool, b: Pool) {
    && (forall p: nat :: Held(a, p) <==> Held(b, p))
    && (forall c: nat :: Used(a, c) <==> Used(b, c))
    && (forall p: nat :: Held(a, p) ==>
          && ParentAt(a, p).id == ParentAt(b, p).id && Kids(ParentAt(a, p)) == Kids(ParentAt(b, p))
          && ParentAt(a, p).dir == ParentAt(b, p).dir)
    && (forall c: nat :: Used(a, c) ==>
          ChildAt(a, c).parentId == ChildAt(b, c).parentId && ChildAt(a, c).dir == ChildAt(b, c).dir)
  }

  lemma OwnershipFrame(a: Pool, b: Pool)
    requires OwnsOk(a) && SameOwnership(a, b)
    ensures OwnsOk(b)
  {
    forall p: nat | Held(b, p)
      ensures ParentAt(b, p).id == p && Distinct(Kids(ParentAt(b, p)))
    {
      assert Held(a, p);
    }
    forall p: nat, c: nat | Held(b, p) && c in Kids(ParentAt(b, p))
      ensures Used(b, c) && ChildAt(b, c).parentId == p && ChildAt(b, c).dir == ParentAt(b, p).dir
    {
      assert Held(a, p) && c in Kids(ParentAt(a, p)) && Used(a, c);
    }
    forall c: nat | Used(b, c)
      ensures Held(b, ChildAt(b, c).parentId) && c in Kids(ParentAt(b, ChildAt(b, c).parentId))
    {
      assert Used(a, c) && Held(a, ChildAt(a, c).parentId);
    }
  }

  lemma LoadFrame(a: Pool, b: Pool, p: nat)
    requires DownOk(a) && Held(a, p) && Kids(ParentAt(b, p)) == Kids(ParentAt(a, p))
    requires forall c: nat :: Used(a, c) ==> ChildAt(b, c) == ChildAt(a, c)
    ensures Load(b, p) == Load(a, p)
  {
    forall c | c in Kids(ParentAt(a, p))
      ensures ChildAt(a, c).leaves == ChildAt(b, c).leaves
    {
      assert Used(a, c);
    }
    SumFrame(a, b, Kids(ParentAt(a, p)));
  }

  /** A child and its parent change together, as on every execution report. */
  lemma ReportKeepsPool(pool: Pool, c: nat, ch: Child, par: Parent)
    requires PoolSound(pool) && Used(pool, c) && ChildOk(ch)
    requires ch.parentId == ChildAt(pool, c).parentId && ch.dir == ChildAt(pool, c).dir
    requires var old' := ParentAt(pool, ch.parentId);
             && par.id == old'.id && par.dir == old'.dir && par.slots == old'.slots && par.mask == old'.mask && par.count == old'.count
             && par.leaves == par.total - par.cum && 0 <= par.cum
             && old'.leaves - par.leaves <= ChildAt(pool, c).leaves - ch.leaves
    ensures var pool' := SetParent(SetChild(pool, c, ch), ch.parentId, par);
            && PoolSound(pool')
            && Load(pool', ch.parentId) == Load(pool, ch.parentId) - ChildAt(pool, c).leaves + ch.leaves
            && Held(pool', ch.parentId) && Elsewhere(pool, pool', ch.parentId)
            && (forall d: nat :: Used(pool', d) <==> Used(pool, d))
            && (forall d: nat :: d != c ==> ChildAt(pool', d) == ChildAt(pool, d))
            && ChildAt(pool', c) == ch && ParentAt(pool', ch.parentId) == par
  {
    var p := ch.parentId;
    var pool' := SetParent(SetChild(pool, c, ch), p, par);
    assert Held(pool, p) && ParentOk(pool, p);
    ReportDelta(pool, c, ch, par);
    OwnershipFrame(pool, pool');
    ReportLoads(pool, pool', c, p);
    forall q: nat | Held(pool', q)
      ensures ParentOk(pool', q)
    {
      assert Held(pool, q) && ParentOk(pool, q);
    }
    forall d: nat | Used(pool', d)
      ensures ChildOk(ChildAt(pool', d))
    {
      assert Used(pool, d);
    }
  }

  lemma ReportDelta(pool: Pool, c: nat, ch: Child, par: Parent)
    requires ListsOk(pool) && ShapesOk(pool) && Used(pool, c) && Held(pool, ch.parentId)
    requires ch.parentId == ChildAt(pool, c).parentId && ch.dir == ChildAt(pool, c).dir
    requires var old' := ParentAt(pool, ch.parentId);
             && par.id == old'.id && par.dir == old'.dir && par.slots == old'.slots && par.mask == old'.mask && par.count == old'.count
    ensures var pool' := SetParent(SetChild(pool, c, ch), ch.parentId, par);
            && ListsOk(pool') && ShapesOk(pool') && SameOwnership(pool, pool')
            && ChildAt(pool', c) == ch && ParentAt(pool', ch.parentId) == par
            && (forall d: nat :: d != c ==> ChildAt(pool', d) == ChildAt(pool, d))
            && (forall q: nat :: q != ch.parentId ==> ParentAt(pool', q) == ParentAt(pool, q))
  {
  }

  lemma ReportLoads(pool: Pool, pool': Pool, c: nat, p: nat)
    requires OwnsOk(pool) && Used(pool, c) && p == ChildAt(pool, c).parentId && SameOwnership(pool, pool')
    requires forall d: nat :: d != c ==> ChildAt(pool', d) == ChildAt(pool, d)
    ensures Load(pool', p) == Load(pool, p) - ChildAt(pool, c).leaves + ChildAt(pool', c).leaves
    ensures forall q: nat :: Held(pool, q) && q != p ==> Load(pool', q) == Load(pool, q)
  {
    SumUpdate(pool, pool', Kids(ParentAt(pool, p)), c);
    forall q: nat | Held(pool, q) && q != p
      ensures Load(pool', q) == Load(pool, q)
    {
      assert c !in Kids(ParentAt(pool, q));
      SumFrame(pool, pool', Kids(ParentAt(pool, q)));
    }
  }

  /** A parent's own fields change; its children do not. */
  lemma ParentEditKeepsPool(pool: Pool, p: nat, par: Parent)
    requires PoolSound(pool) && Held(pool, p)
    requires var old' := ParentAt(pool, p);
             && par.id == old'.id && par.dir == old'.dir && par.slots == old'.slots && par.mask == old'.mask && par.count == old'.count
    requires par.leaves == par.total - par.cum && 0 <= par.cum && Load(pool, p) <= par.leaves
    ensures PoolSound(SetParent(pool, p, par)) && Held(SetParent(pool, p, par), p)
    ensures Elsewhere(pool, SetParent(pool, p, par), p)
    ensures Load(SetParent(pool, p, par), p) == Load(pool, p)
  {
    var pool' := SetParent(pool, p, par);
    assert Kids(par) == Kids(ParentAt(pool, p));
    assert forall q: nat :: q != p ==> ParentAt(pool', q) == ParentAt(pool, q);
    EditDelta(pool, p, par);
    OwnershipFrame(pool, pool');
    forall q: nat | Held(pool, q)
      ensures Load(pool', q) == Load(pool, q)
    {
      SumFrame(pool, pool', Kids(ParentAt(pool, q)));
    }
    forall q: nat | Held(pool', q)
      ensures ParentOk(pool', q)
    {
      assert Held(pool, q) && ParentOk(pool, q);
    }
    assert ChildrenOk(pool');
  }

  lemma EditDelta(pool: Pool, p: nat, par: Parent)
    requires ListsOk(pool) && ShapesOk(pool) && Held(pool, p)
    requires var old' := ParentAt(pool, p);
             && par.id == old'.id && par.dir == old'.dir && par.slots == old'.slots && par.mask == old'.mask && par.count == old'.count
    ensures var pool' := SetParent(pool, p, par);
            ListsOk(pool') && ShapesOk(pool') && SameOwnership(pool, pool')
  {
  }

  /** Records of free parents carry no meaning. */
  lemma FreeRecordKeepsPool(pool: Pool, p: nat, par: Parent)
    requires PoolSound(pool) && !Held(pool, p) && Compact(par)
    ensures PoolSound(SetParent(pool, p, par)) && !Held(SetParent(pool, p, par), p)
    ensures Elsewhere(pool, SetParent(pool, p, par), p)
  {
    var pool' := SetParent(pool, p, par);
    FreeRecordDelta(pool, p, par);
    OwnershipFrame(pool, pool');
    forall q: nat | Held(pool, q)
      ensures Load(pool', q) == Load(pool, q)
    {
      LoadFrame(pool, pool', q);
    }
    forall q: nat | Held(pool', q)
      ensures ParentOk(pool', q)
    {
      assert Held(pool, q) && ParentOk(pool, q);
    }
    assert ChildrenOk(pool');
  }

  lemma FreeRecordDelta(pool: Pool, p: nat, par: Parent)
    requires ListsOk(pool) && ShapesOk(pool) && !Held(pool, p) && Compact(par)
    ensures var pool' := SetParent(pool, p, par);
            && ListsOk(pool') && ShapesOk(pool') && SameOwnership(pool, pool')
            && (forall q: nat :: Held(pool, q) ==> ParentAt(pool', q) == ParentAt(pool, q))
  {
  }

  /** Freeing a parent's children and forgetting them: nobody else is affected. */
  lemma ClearKeepsPool(pool: Pool, p: nat)
    requires PoolSound(pool) && Held(pool, p) && Load(pool, p) == 0
    ensures var par := ParentAt(pool, p);
            var pool' := SetParent(pool.(childFree := pool.childFree + Kids(par)), p, DropChildren(par));
            && PoolSound(pool') && Load(pool', p) == 0 && Held(pool', p) && Elsewhere(pool, pool', p)
            && (forall c: nat :: Used(pool', c) <==> Used(pool, c) && c !in Kids(par))
  {
    var par := ParentAt(pool, p);
    var pool' := SetParent(pool.(childFree := pool.childFree + Kids(par)), p, DropChildren(par));
    ClearLists(pool, p);
    assert Kids(DropChildren(par)) == [];
    ClearOthers(pool, pool', p);
  }

  lemma ClearLists(pool: Pool, p: nat)
    requires PoolSound(pool) && Held(pool, p)
    ensures FreeListOk(pool.childFree + Kids(ParentAt(pool, p)), |pool.children|)
  {
    var kids := Kids(ParentAt(pool, p));
    forall i | 0 <= i < |kids|
      ensures kids[i] < |pool.children| && kids[i] !in pool.childFree
    {
      assert kids[i] in kids;
      assert Used(pool, kids[i]);
    }
  }

  /** `pool'` differs from `pool` by releasing p's children, with p either emptied or released too. */
  lemma ClearOthers(pool: Pool, pool': Pool, p: nat)
    requires PoolSound(pool) && Held(pool, p)
    requires pool'.children == pool.children && pool'.childFree == pool.childFree + Kids(ParentAt(pool, p))
    requires |pool'.parents| == |pool.parents|
    requires forall q: nat :: q != p ==> ParentAt(pool', q) == ParentAt(pool, q) && Held(pool', q) == Held(pool, q)
    requires Held(pool', p) ==>
      && Kids(ParentAt(pool', p)) == [] && Compact(ParentAt(pool', p)) && ParentAt(pool', p).id == p
      && ParentAt(pool', p).leaves == ParentAt(pool', p).total - ParentAt(pool', p).cum
      && 0 <= ParentAt(pool', p).cum && 0 <= ParentAt(pool', p).leaves
    requires ListsOk(pool') && ShapesOk(pool')
    ensures PoolSound(pool')
    ensures forall q: nat :: Held(pool, q) && q != p ==> Load(pool', q) == Load(pool, q)
    ensures forall c: nat :: Used(pool', c) <==> Used(pool, c) && c !in Kids(ParentAt(pool, p))
  {
    var kids := Kids(ParentAt(pool, p));
    assert forall c: nat :: Used(pool', c) <==> Used(pool, c) && c !in kids by {
      assert forall c: nat :: c in pool'.childFree <==> c in pool.childFree || c in kids;
    }
    ClearOwns(pool, pool', p);
    forall q: nat | Held(pool, q) && q != p
      ensures Load(pool', q) == Load(pool, q)
    {
      SumFrame(pool, pool', Kids(ParentAt(pool, q)));
    }
    forall q: nat | Held(pool', q)
      ensures ParentOk(pool', q)
    {
      if q != p {
        assert Held(pool, q) && ParentOk(pool, q);
      }
    }
  }

  lemma ClearOwns(pool: Pool, pool': Pool, p: nat)
    requires OwnsOk(pool) && Held(pool, p) && pool'.children == pool.children
    requires forall c: nat :: Used(pool', c) <==> Used(pool, c) && c !in Kids(ParentAt(pool, p))
    requires forall q: nat :: q != p ==> ParentAt(pool', q) == ParentAt(pool, q) && Held(pool', q) == Held(pool, q)
    requires Held(pool', p) ==> Kids(ParentAt(pool', p)) == [] && ParentAt(pool', p).id == p
    ensures OwnsOk(pool')
  {
    forall q: nat | Held(pool', q)
      ensures ParentAt(pool', q).id == q && Distinct(Kids(ParentAt(pool', q)))
    {
      assert q != p ==> Held(pool, q);
    }
    forall q: nat, c: nat | Held(pool', q) && c in Kids(ParentAt(pool', q))
      ensures Used(pool', c) && ChildAt(pool', c).parentId == q && ChildAt(pool', c).dir == ParentAt(pool', q).dir
    {
      assert q != p && Held(pool, q);
      assert Used(pool, c) && ChildAt(pool, c).parentId == q;
    }
    forall c: nat | Used(pool', c)
      ensures Held(pool', ChildAt(pool', c).parentId) && c in Kids(ParentAt(pool', ChildAt(pool', c).parentId))
    {
      assert Used(pool, c);
      assert ChildAt(pool, c).parentId != p;
    }
  }

  /** Releasing a parent together with all its children. */
  lemma CloseKeepsPool(pool: Pool, p: nat)
    requires PoolSound(pool) && Held(pool, p)
    ensures var par := ParentAt(pool, p);
            var pool' := FreeParent(pool.(childFree := pool.childFree + Kids(par)), p);
            && PoolSound(pool') && !Held(pool', p) && Elsewhere(pool, pool', p)
            && (forall c: nat :: Used(pool', c) <==> Used(pool, c) && c !in Kids(par))
  {
    var pool' := FreeParent(pool.(childFree := pool.childFree + Kids(ParentAt(pool, p))), p);
    ClearLists(pool, p);
    assert forall q: nat :: q in pool'.parentFree <==> q in pool.parentFree || q == p;
    ClearOthers(pool, pool', p);
  }

  lemma PopList(free: seq<nat>, n: nat)
    requires free != [] && FreeListOk(free, n)
    ensures var rest, x := free[..|free| - 1], Top(free);
            && FreeListOk(rest, n) && x in free && x !in rest && x < n
            && (forall d: nat :: d != x ==> (d in free <==> d in rest))
  {
    assert free == free[..|free| - 1] + [Top(free)];
  }

  lemma AddedKid(par: Parent, c: nat)
    requires Compact(par) && par.count < MAX_KIDS
    ensures var par' := AddChild(par, par.count, c);
            Compact(par') && Kids(par') == Kids(par) + [c]
  {
  }

  /** Taking a parent off the free list and filling in a fresh record without children. */
  lemma OpenKeepsPool(pool: Pool, par: Parent)
    requires PoolSound(pool) && pool.parentFree != []
    requires par.id == Top(pool.parentFree) && par.count == 0 && par.mask == NO_MASK
    requires par.leaves == par.total - par.cum && 0 <= par.cum && 0 <= par.leaves
    ensures var pool' := SetParent(AllocParent(pool), par.id, par);
            && PoolSound(pool') && Held(pool', par.id) && !Held(pool, par.id) && Load(pool', par.id) == 0
            && Elsewhere(pool, pool', par.id) && ParentAt(pool', par.id) == par
            && pool'.children == pool.children && pool'.childFree == pool.childFree
  {
    var p := par.id;
    var pool' := SetParent(AllocParent(pool), p, par);
    OpenDelta(pool, par);
    OpenOwns(pool, pool', p);
    assert Load(pool', p) == SumLeaves(pool', []);
    assert ParentOk(pool', p);
    forall q: nat | Held(pool, q)
      ensures Load(pool', q) == Load(pool, q)
    {
      assert q != p;
      SumFrame(pool, pool', Kids(ParentAt(pool, q)));
    }
    forall q: nat | Held(pool', q)
      ensures ParentOk(pool', q)
    {
      if q != p {
        assert Held(pool, q) && ParentOk(pool, q);
      }
    }
    assert forall c: nat :: Used(pool', c) <==> Used(pool, c);
    assert ChildrenOk(pool');
  }

  lemma OpenDelta(pool: Pool, par: Parent)
    requires ListsOk(pool) && ShapesOk(pool) && pool.parentFree != []
    requires par.id == Top(pool.parentFree) && par.count == 0 && par.mask == NO_MASK
    ensures var p, pool' := par.id, SetParent(AllocParent(pool), par.id, par);
            && ListsOk(pool') && ShapesOk(pool') && Held(pool', p) && !Held(pool, p)
            && pool'.children == pool.children && pool'.childFree == pool.childFree
            && ParentAt(pool', p) == par && Kids(par) == []
            && (forall q: nat :: q != p ==> Held(pool', q) == Held(pool, q) && ParentAt(pool', q) == ParentAt(pool, q))
  {
    var p, free := par.id, pool.parentFree;
    var pool' := SetParent(AllocParent(pool), p, par);
    assert pool'.parentFree == free[..|free| - 1];
    PopList(free, |pool.parents|);
  }

  lemma OpenOwns(pool: Pool, pool': Pool, p: nat)
    requires OwnsOk(pool) && !Held(pool, p) && pool'.children == pool.children && pool'.childFree == pool.childFree
    requires forall q: nat :: q != p ==> ParentAt(pool', q) == ParentAt(pool, q) && Held(pool', q) == Held(pool, q)
    requires Kids(ParentAt(pool', p)) == [] && ParentAt(pool', p).id == p
    ensures OwnsOk(pool')
  {
    forall q: nat, c: nat | Held(pool', q) && c in Kids(ParentAt(pool', q))
      ensures Used(pool', c) && ChildAt(pool', c).parentId == q && ChildAt(pool', c).dir == ParentAt(pool', q).dir
    {
      assert q != p && Held(pool, q);
      assert Used(pool, c);
    }
    forall c: nat | Used(pool', c)
      ensures Held(pool', ChildAt(pool', c).parentId) && c in Kids(ParentAt(pool', ChildAt(pool', c).parentId))
    {
      assert Used(pool, c);
    }
  }

  /** Putting back the parent just taken restores the free list. */
  lemma AllocFreeRestores(pool: Pool, par: Parent)
    requires pool.parentFree != [] && par.id == Top(pool.parentFree)
    ensures FreeParent(SetParent(AllocParent(pool), par.id, par), par.id) == SetParent(pool, par.id, par)
  {
    var free := pool.parentFree;
    assert free[..|free| - 1] + [par.id] == free;
    assert Put(Put(pool.parents, par.id, BLANK_PARENT.(id := par.id)), par.id, par) == Put(pool.parents, par.id, par);
  }

  /** Adding one freshly allocated live child in the next slot. */
  lemma DispatchKeepsPool(pool: Pool, p: nat, ch: Child)
    requires PoolSound(pool) && Held(pool, p) && pool.childFree != [] && ParentAt(pool, p).count < MAX_KIDS
    requires ChildOk(ch) && Live(ch) && ch.parentId == p && ch.dir == ParentAt(pool, p).dir
    requires Load(pool, p) + ch.leaves <= ParentAt(pool, p).leaves
    ensures var par, c := ParentAt(pool, p), Top(pool.childFree);
            var pool' := SetParent(SetChild(AllocChild(pool), c, ch), p, AddChild(par, par.count, c));
            && PoolSound(pool') && !Used(pool, c) && Used(pool', c)
            && Load(pool', p) == Load(pool, p) + ch.leaves && Held(pool', p) && Elsewhere(pool, pool', p)
            && ParentAt(pool', p) == AddChild(par, par.count, c)
            && (forall d: nat :: d != c ==> Used(pool', d) == Used(pool, d) && ChildAt(pool', d) == ChildAt(pool, d))
            && ChildAt(pool', c) == ch
  {
    var par, c := ParentAt(pool, p), Top(pool.childFree);
    var pool' := SetParent(SetChild(AllocChild(pool), c, ch), p, AddChild(par, par.count, c));
    DispatchDelta(pool, p, ch);
    assert c !in Kids(par) by {
      assert forall d :: d in Kids(par) ==> Used(pool, d);
    }
    DispatchLoads(pool, pool', p, c, ch);
    DispatchOwns(pool, pool', p, c);
    forall q: nat | Held(pool', q)
      ensures ParentOk(pool', q)
    {
      assert Held(pool, q) && ParentOk(pool, q);
    }
    forall d: nat | Used(pool', d)
      ensures ChildOk(ChildAt(pool', d))
    {
      assert d != c ==> Used(pool, d);
    }
  }

  lemma DispatchDelta(pool: Pool, p: nat, ch: Child)
    requires ListsOk(pool) && ShapesOk(pool) && Held(pool, p) && pool.childFree != []
    requires ParentAt(pool, p).count < MAX_KIDS
    ensures var par, c := ParentAt(pool, p), Top(pool.childFree);
            var par' := AddChild(par, par.count, c);
            var pool' := SetParent(SetChild(AllocChild(pool), c, ch), p, par');
            && ListsOk(pool') && ShapesOk(pool') && !Used(pool, c) && Used(pool', c)
            && ChildAt(pool', c) == ch && ParentAt(pool', p) == par' && Kids(par') == Kids(par) + [c]
            && (forall q: nat :: Held(pool', q) <==> Held(pool, q))
            && (forall q: nat :: q != p ==> ParentAt(pool', q) == ParentAt(pool, q))
            && (forall d: nat :: d != c ==> Used(pool', d) == Used(pool, d) && ChildAt(pool', d) == ChildAt(pool, d))
  {
    var par, c, free := ParentAt(pool, p), Top(pool.childFree), pool.childFree;
    var pool' := SetParent(SetChild(AllocChild(pool), c, ch), p, AddChild(par, par.count, c));
    assert pool'.childFree == free[..|free| - 1];
    PopList(free, |pool.children|);
    AddedKid(par, c);
    assert forall q: nat :: Held(pool', q) <==> Held(pool, q);
  }

  lemma DispatchLoads(pool: Pool, pool': Pool, p: nat, c: nat, ch: Child)
    requires DownOk(pool) && Held(pool, p) && !Used(pool, c) && ch == ChildAt(pool', c)
    requires forall d: nat :: d != c ==> ChildAt(pool', d) == ChildAt(pool, d)
    requires forall q: nat :: q != p ==> ParentAt(pool', q) == ParentAt(pool, q)
    requires Kids(ParentAt(pool', p)) == Kids(ParentAt(pool, p)) + [c]
    ensures Load(pool', p) == Load(pool, p) + ch.leaves
    ensures forall q: nat :: Held(pool, q) && q != p ==> Load(pool', q) == Load(pool, q)
  {
    var kids := Kids(ParentAt(pool, p));
    SumAppend(pool', kids, c);
    forall d | d in kids
      ensures ChildAt(pool, d).leaves == ChildAt(pool', d).leaves
    {
      assert Used(pool, d);
    }
    SumFrame(pool, pool', kids);
    forall q: nat | Held(pool, q) && q != p
      ensures Load(pool', q) == Load(pool, q)
    {
      LoadFrame(pool, pool', q);
    }
  }

  lemma DispatchOwns(pool: Pool, pool': Pool, p: nat, c: nat)
    requires OwnsOk(pool) && Held(pool, p) && !Used(pool, c) && Used(pool', c)
    requires ChildAt(pool', c).parentId == p && c !in Kids(ParentAt(pool, p))
    requires ChildAt(pool', c).dir == ParentAt(pool, p).dir == ParentAt(pool', p).dir
    requires forall d: nat :: d != c ==> ChildAt(pool', d) == ChildAt(pool, d) && Used(pool', d) == Used(pool, d)
    requires forall q: nat :: Held(pool', q) <==> Held(pool, q)
    requires forall q: nat :: q != p ==> ParentAt(pool', q) == ParentAt(pool, q)
    requires Kids(ParentAt(pool', p)) == Kids(ParentAt(pool, p)) + [c] && ParentAt(pool', p).id == p
    ensures OwnsOk(pool')
  {
    forall q: nat, d: nat | Held(pool', q) && d in Kids(ParentAt(pool', q))
      ensures Used(pool', d) && ChildAt(pool', d).parentId == q && ChildAt(pool', d).dir == ParentAt(pool', q).dir
    {
      if q != p {
        assert Held(pool, q) && Used(pool, d);
      } else if d != c {
        assert d in Kids(ParentAt(pool, p)) && Used(pool, d);
      }
    }
    forall d: nat | Used(pool', d)
      ensures Held(pool', ChildAt(pool', d).parentId) && d in Kids(ParentAt(pool', ChildAt(pool', d).parentId))
    {
      if d == c {
        var kids := Kids(ParentAt(pool', p));
        assert kids[|kids| - 1] == c;
      } else {
        assert Used(pool, d);
      }
    }
  }
}
