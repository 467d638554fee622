/**
 The single-producer single-consumer ring of oms/spsc_queue.hpp, first as a
 two-thread protocol whose steps are the individual loads, buffer accesses and
 stores, then as the sequential object each thread calls.
 */
module SpscQueue {
  import opened Modular

  /** Where the producer is inside `push`: what it has already loaded or written. */
  datatype Producer<T> =
    | Idle
    | HeadLoaded(value: T, h: nat)
    | RoomSeen(value: T, h: nat)
    | SlotWritten(value: T, h: nat)

  /** Where the consumer is inside `pop`. */
  datatype Consumer<T> =
    | Resting
    | TailLoaded(t: nat)
    | ItemSeen(t: nat)
    | SlotRead(t: nat, value: T)

  /** The shared ring, both program counters, and the values each side has completed so far. */
  datatype Ring<T> = Ring(
    buf: seq<T>, head: nat, tail: nat,
    producer: Producer<T>, consumer: Consumer<T>,
    pushed: seq<T>, popped: seq<T>)

  datatype Step<T> =
    | BeginPush(value: T)   // load head_
    | PushCheck             // load tail_, return false when full
    | PushWrite             // buf_[h] = v
    | PushPublish           // store head_, return true
    | BeginPop              // load tail_
    | PopCheck              // load head_, return false when empty
    | PopRead               // v = buf_[t]
    | PopPublish            // store tail_, return true

  /** What a caller of `push` or `pop` sees at a step. */
  datatype Outcome<T> = Silent | Pushed(value: T) | PushFull | Popped(value: T) | PopEmpty

  function Init<T>(buf: seq<T>): Ring<T> {
    Ring(buf, 0, 0, Idle, Resting, [], [])
  }

  /** One atomic step; a step that its thread is not at leaves the ring as it is. */
  function Apply<T>(r: Ring<T>, step: Step<T>): Ring<T>
    requires |r.buf| > 0
  {
    var n := |r.buf|;
    match step
    case BeginPush(v) => if r.producer.Idle? then r.(producer := HeadLoaded(v, r.head)) else r
    case PushCheck =>
      if !r.producer.HeadLoaded? then r
      else if (r.producer.h + 1) % n == r.tail then r.(producer := Idle)
      else r.(producer := RoomSeen(r.producer.value, r.producer.h))
    case PushWrite =>
      if !r.producer.RoomSeen? || r.producer.h >= n then r
      else r.(buf := r.buf[r.producer.h := r.producer.value],
              producer := SlotWritten(r.producer.value, r.producer.h))
    case PushPublish =>
      if !r.producer.SlotWritten? then r
      else r.(head := (r.producer.h + 1) % n, producer := Idle, pushed := r.pushed + [r.producer.value])
    case BeginPop => if r.consumer.Resting? then r.(consumer := TailLoaded(r.tail)) else r
    case PopCheck =>
      if !r.consumer.TailLoaded? then r
      else if r.consumer.t == r.head then r.(consumer := Resting)
      else r.(consumer := ItemSeen(r.consumer.t))
    case PopRead =>
      if !r.consumer.ItemSeen? || r.consumer.t >= n then r
      else r.(consumer := SlotRead(r.consumer.t, r.buf[r.consumer.t]))
    case PopPublish =>
      if !r.consumer.SlotRead? then r
      else r.(tail := (r.consumer.t + 1) % n, consumer := Resting, popped := r.popped + [r.consumer.value])
  }

  /** The return value a step delivers to its caller, if it delivers one. */
  function Observe<T>(r: Ring<T>, step: Step<T>): Outcome<T>
    requires |r.buf| > 0
  {
    match step
    case PushCheck =>
      if r.producer.HeadLoaded? && (r.producer.h + 1) % |r.buf| == r.tail then PushFull else Silent
    case PushPublish => if r.producer.SlotWritten? then Pushed(r.producer.value) else Silent
    case PopCheck => if r.consumer.TailLoaded? && r.consumer.t == r.head then PopEmpty else Silent
    case PopPublish => if r.consumer.SlotRead? then Popped(r.consumer.value) else Silent
    case _ => Silent
  }

  /** The plain bounded FIFO the ring must be indistinguishable from. */
  ghost predicate FifoStep<T>(q: seq<T>, outcome: Outcome<T>, q': seq<T>, capacity: nat) {
    match outcome
    case Silent => q' == q
    case Pushed(v) => |q| < capacity && q' == q + [v]
    case PushFull => |q| == capacity && q' == q
    case Popped(v) => q != [] && q[0] == v && q' == q[1..]
    case PopEmpty => q == [] && q' == q
  }

  ghost function Contents<T>(r: Ring<T>): seq<T>
    requires |r.popped| <= |r.pushed|
  {
    r.pushed[|r.popped|..]
  }

  /** What every interleaving keeps: indices are counters modulo N, the live window is intact. */
  ghost predicate Inv<T>(r: Ring<T>) {
    var n, np, nc := |r.buf|, |r.pushed|, |r.popped|;
    && n > 0
    && nc <= np <= nc + n - 1
    && r.head == np % n && r.tail == nc % n
    && r.popped == r.pushed[..nc]
    && (forall k :: nc <= k < np ==> r.buf[k % n] == r.pushed[k])
    && (!r.producer.Idle? ==> r.producer.h == r.head)
    && (r.producer.RoomSeen? || r.producer.SlotWritten? ==> np + 1 < nc + n)
    && (r.producer.SlotWritten? ==> r.buf[r.producer.h] == r.producer.value)
    && (!r.consumer.Resting? ==> r.consumer.t == r.tail)
    && (r.consumer.ItemSeen? || r.consumer.SlotRead? ==> nc < np)
    && (r.consumer.SlotRead? ==> r.consumer.value == r.pushed[nc])
  }

  lemma PublishKeepsInv<T>(r: Ring<T>)
    requires Inv(r) && r.producer.SlotWritten?
    ensures Inv(Apply(r, PushPublish))
    ensures Contents(Apply(r, PushPublish)) == Contents(r) + [r.producer.value]
  {
    ModSucc(|r.pushed|, |r.buf|);
    assert r.pushed[..|r.popped|] == (r.pushed + [r.producer.value])[..|r.popped|];
  }

  lemma WriteKeepsInv<T>(r: Ring<T>)
    requires Inv(r) && r.producer.RoomSeen?
    ensures Inv(Apply(r, PushWrite)) && Contents(Apply(r, PushWrite)) == Contents(r)
  {
    var n, np, nc := |r.buf|, |r.pushed|, |r.popped|;
    forall k | nc <= k < np
      ensures k % n != np % n
    {
      if k % n == np % n {
        SameSlot(k, np, n);
      }
    }
  }

  lemma RetireKeepsInv<T>(r: Ring<T>)
    requires Inv(r) && r.consumer.SlotRead?
    ensures Inv(Apply(r, PopPublish)) && Contents(r) != [] && Contents(r)[0] == r.consumer.value
    ensures Contents(Apply(r, PopPublish)) == Contents(r)[1..]
  {
    var r', nc := Apply(r, PopPublish), |r.popped|;
    ModSucc(nc, |r.buf|);
    assert r'.popped == r.pushed[..nc] + [r.pushed[nc]] == r.pushed[..nc + 1];
  }

  /** Loading an index or reading the buffer only moves that thread's program counter. */
  lemma LoadKeepsInv<T>(r: Ring<T>, step: Step<T>)
    requires Inv(r) && (step.BeginPush? || step.BeginPop? || step.PopRead?)
    ensures Inv(Apply(r, step)) && Contents(Apply(r, step)) == Contents(r)
  {
  }

  lemma CheckKeepsInv<T>(r: Ring<T>)
    requires Inv(r)
    ensures Inv(Apply(r, PushCheck)) && Inv(Apply(r, PopCheck))
    ensures r.producer.HeadLoaded? ==>
              ((r.producer.h + 1) % |r.buf| == r.tail <==> |r.pushed| == |r.popped| + |r.buf| - 1)
    ensures r.consumer.TailLoaded? ==> (r.consumer.t == r.head <==> |r.pushed| == |r.popped|)
  {
    var n, np, nc := |r.buf|, |r.pushed|, |r.popped|;
    ModSucc(np, n);
    if np + 1 == nc + n {
      ModUnique(np + 1, n, nc / n + 1, nc % n);
    } else if (np + 1) % n == nc % n {
      SameSlot(nc, np + 1, n);
    }
    if np % n == nc % n {
      SameSlot(nc, np, n);
    }
  }

  /** Every step of either thread keeps the invariant and is a step of the FIFO. */
  lemma StepRefinesFifo<T>(r: Ring<T>, step: Step<T>)
    requires Inv(r)
    ensures Inv(Apply(r, step))
    ensures FifoStep(Contents(r), Observe(r, step), Contents(Apply(r, step)), |r.buf| - 1)
  {
    match step
    case PushPublish =>
      if r.producer.SlotWritten? {
        PublishKeepsInv(r);
      }
    case PushWrite =>
      if r.producer.RoomSeen? {
        WriteKeepsInv(r);
      }
    case PopPublish =>
      if r.consumer.SlotRead? {
        RetireKeepsInv(r);
      }
    case PushCheck => CheckKeepsInv(r);
    case PopCheck => CheckKeepsInv(r);
    case _ => LoadKeepsInv(r, step);
  }

  /** The writer's slot and the reader's slot, at the two points where the buffer is touched. */
  ghost predicate RaceFree<T>(r: Ring<T>) {
    r.producer.RoomSeen? && r.consumer.ItemSeen? ==> r.producer.h != r.consumer.t
  }

  lemma InvRaceFree<T>(r: Ring<T>)
    requires Inv(r)
    ensures RaceFree(r)
  {
    if r.producer.RoomSeen? && r.consumer.ItemSeen? && r.producer.h == r.consumer.t {
      SameSlot(|r.popped|, |r.pushed|, |r.buf|);
    }
  }

  function Run<T>(r: Ring<T>, schedule: seq<Step<T>>): (r': Ring<T>)
    requires |r.buf| > 0
    ensures |r'.buf| == |r.buf|
    decreases |schedule|
  {
    if schedule == [] then r else Run(Apply(r, schedule[0]), schedule[1..])
  }

  /** The outcomes a schedule delivers, in order. */
  function Trace<T>(r: Ring<T>, schedule: seq<Step<T>>): seq<Outcome<T>>
    requires |r.buf| > 0
    decreases |schedule|
  {
    if schedule == [] then [] else [Observe(r, schedule[0])] + Trace(Apply(r, schedule[0]), schedule[1..])
  }

  /** A trace is a behaviour of the FIFO that takes its queue from `q` to `q'`. */
  ghost predicate FifoRun<T(!new)>(q: seq<T>, trace: seq<Outcome<T>>, q': seq<T>, capacity: nat)
    decreases |trace|
  {
    if trace == [] then q' == q
    else exists mid :: FifoStep(q, trace[0], mid, capacity) && FifoRun(mid, trace[1..], q', capacity)
  }

  lemma {:induction false} RunKeepsInv<T(!new)>(r: Ring<T>, schedule: seq<Step<T>>)
    requires Inv(r)
    ensures Inv(Run(r, schedule))
    ensures FifoRun(Contents(r), Trace(r, schedule), Contents(Run(r, schedule)), |r.buf| - 1)
    decreases |schedule|
  {
    if schedule != [] {
      var r' := Apply(r, schedule[0]);
      StepRefinesFifo(r, schedule[0]);
      RunKeepsInv(r', schedule[1..]);
      var trace := Trace(r, schedule);
      assert trace[0] == Observe(r, schedule[0]) && trace[1..] == Trace(r', schedule[1..]);
      assert FifoStep(Contents(r), trace[0], Contents(r'), |r.buf| - 1);
    }
  }

  /**
   In every interleaving, from an empty ring: the popped values are a prefix of
   the pushed ones, at most N-1 are held, the two threads never touch the same
   slot at once, and the callers' outcomes are those of a FIFO of capacity N-1.
   */
  lemma Linearizable<T(!new)>(buf: seq<T>, schedule: seq<Step<T>>)
    requires |buf| > 0
    ensures var r := Run(Init(buf), schedule);
            && r.popped <= r.pushed
            && |r.pushed| - |r.popped| <= |buf| - 1
            && RaceFree(r)
            && FifoRun([], Trace(Init(buf), schedule), r.pushed[|r.popped|..], |buf| - 1)
  {
    RunKeepsInv(Init(buf), schedule);
    InvRaceFree(Run(Init(buf), schedule));
  }

  // ----- Every call finishes, whatever the other thread does -----

  predicate ByConsumer<T>(step: Step<T>) {
    step.BeginPop? || step.PopCheck? || step.PopRead? || step.PopPublish?
  }

  predicate ByProducer<T>(step: Step<T>) {
    step.BeginPush? || step.PushCheck? || step.PushWrite? || step.PushPublish?
  }

  ghost predicate AllByConsumer<T>(schedule: seq<Step<T>>) {
    forall i :: 0 <= i < |schedule| ==> ByConsumer(schedule[i])
  }

  ghost predicate AllByProducer<T>(schedule: seq<Step<T>>) {
    forall i :: 0 <= i < |schedule| ==> ByProducer(schedule[i])
  }

  /** The consumer's steps leave the producer where it is, push nothing and only make room. */
  lemma {:induction false} ConsumerMakesRoom<T(!new)>(r: Ring<T>, schedule: seq<Step<T>>)
    requires Inv(r) && AllByConsumer(schedule)
    ensures var r' := Run(r, schedule);
            Inv(r') && r'.producer == r.producer && r'.pushed == r.pushed && |r.popped| <= |r'.popped|
    decreases |schedule|
  {
    if schedule != [] {
      StepRefinesFifo(r, schedule[0]);
      ConsumerMakesRoom(Apply(r, schedule[0]), schedule[1..]);
    }
  }

  /** The producer's steps leave the consumer where it is, pop nothing and only add items. */
  lemma {:induction false} ProducerAddsItems<T(!new)>(r: Ring<T>, schedule: seq<Step<T>>)
    requires Inv(r) && AllByProducer(schedule)
    ensures var r' := Run(r, schedule);
            Inv(r') && r'.consumer == r.consumer && r'.popped == r.popped && r.pushed <= r'.pushed
    decreases |schedule|
  {
    if schedule != [] {
      StepRefinesFifo(r, schedule[0]);
      assert r.pushed <= Apply(r, schedule[0]).pushed;
      ProducerAddsItems(Apply(r, schedule[0]), schedule[1..]);
    }
  }

  ghost predicate Room<T>(r: Ring<T>) {
    |r.pushed| - |r.popped| < |r.buf| - 1
  }

  lemma PushLooks<T(!new)>(r: Ring<T>, v: T, a: seq<Step<T>>)
    requires Inv(r) && r.producer.Idle? && Room(r) && AllByConsumer(a)
    ensures var looking := Run(Apply(r, BeginPush(v)), a);
            && Inv(looking) && Room(looking) && looking.pushed == r.pushed
            && looking.producer.HeadLoaded? && looking.producer.value == v
  {
    LoadKeepsInv(r, BeginPush(v));
    ConsumerMakesRoom(Apply(r, BeginPush(v)), a);
  }

  lemma PushSeesRoom<T(!new)>(r: Ring<T>, b: seq<Step<T>>)
    requires Inv(r) && r.producer.HeadLoaded? && Room(r) && AllByConsumer(b)
    ensures Observe(r, PushCheck) == Silent
    ensures var writing := Run(Apply(r, PushCheck), b);
            && Inv(writing) && writing.pushed == r.pushed
            && writing.producer.RoomSeen? && writing.producer.value == r.producer.value
  {
    CheckKeepsInv(r);
    ConsumerMakesRoom(Apply(r, PushCheck), b);
  }

  lemma PushWrites<T(!new)>(r: Ring<T>, c: seq<Step<T>>)
    requires Inv(r) && r.producer.RoomSeen? && AllByConsumer(c)
    ensures var storing := Run(Apply(r, PushWrite), c);
            && storing.pushed == r.pushed && storing.producer.SlotWritten? && storing.producer.value == r.producer.value
  {
    WriteKeepsInv(r);
    ConsumerMakesRoom(Apply(r, PushWrite), c);
  }

  /**
   A push takes its four steps and succeeds if there is room when it begins, however the
   consumer's steps fall in between.
   */
  lemma PushCompletes<T(!new)>(r: Ring<T>, v: T, a: seq<Step<T>>, b: seq<Step<T>>, c: seq<Step<T>>)
    requires Inv(r) && r.producer.Idle? && Room(r) && AllByConsumer(a) && AllByConsumer(b) && AllByConsumer(c)
    ensures var looking := Run(Apply(r, BeginPush(v)), a);
            var writing := Run(Apply(looking, PushCheck), b);
            var storing := Run(Apply(writing, PushWrite), c);
            && Observe(looking, PushCheck) == Silent && Observe(storing, PushPublish) == Pushed(v)
            && Apply(storing, PushPublish).pushed == r.pushed + [v]
  {
    PushLooks(r, v, a);
    var looking := Run(Apply(r, BeginPush(v)), a);
    PushSeesRoom(looking, b);
    PushWrites(Run(Apply(looking, PushCheck), b), c);
  }

  /** Without room or items the call says so at its second step and is over. */
  lemma RefusalsReported<T>(r: Ring<T>)
    requires Inv(r)
    ensures r.producer.HeadLoaded? && !Room(r) ==> Observe(r, PushCheck) == PushFull && Apply(r, PushCheck).producer.Idle?
    ensures r.consumer.TailLoaded? && r.popped == r.pushed ==>
              Observe(r, PopCheck) == PopEmpty && Apply(r, PopCheck).consumer.Resting?
  {
    CheckKeepsInv(r);
  }

  lemma PopLooks<T(!new)>(r: Ring<T>, a: seq<Step<T>>)
    requires Inv(r) && r.consumer.Resting? && |r.popped| < |r.pushed| && AllByProducer(a)
    ensures var looking := Run(Apply(r, BeginPop), a);
            && Inv(looking) && looking.popped == r.popped && r.pushed <= looking.pushed && looking.consumer.TailLoaded?
  {
    LoadKeepsInv(r, BeginPop);
    ProducerAddsItems(Apply(r, BeginPop), a);
  }

  lemma PopSeesItem<T(!new)>(r: Ring<T>, b: seq<Step<T>>)
    requires Inv(r) && r.consumer.TailLoaded? && |r.popped| < |r.pushed| && AllByProducer(b)
    ensures Observe(r, PopCheck) == Silent
    ensures var reading := Run(Apply(r, PopCheck), b);
            && Inv(reading) && reading.popped == r.popped && r.pushed <= reading.pushed && reading.consumer.ItemSeen?
  {
    CheckKeepsInv(r);
    ProducerAddsItems(Apply(r, PopCheck), b);
  }

  lemma PopReads<T(!new)>(r: Ring<T>, c: seq<Step<T>>)
    requires Inv(r) && r.consumer.ItemSeen? && AllByProducer(c)
    ensures |r.popped| < |r.pushed|
    ensures var retiring := Run(Apply(r, PopRead), c);
            && retiring.popped == r.popped
            && retiring.consumer.SlotRead? && retiring.consumer.value == r.pushed[|r.popped|]
  {
    LoadKeepsInv(r, PopRead);
    ProducerAddsItems(Apply(r, PopRead), c);
  }

  /** A pop likewise: an item when it begins is enough, and the oldest one is returned. */
  lemma PopCompletes<T(!new)>(r: Ring<T>, a: seq<Step<T>>, b: seq<Step<T>>, c: seq<Step<T>>)
    requires Inv(r) && r.consumer.Resting? && |r.popped| < |r.pushed|
    requires AllByProducer(a) && AllByProducer(b) && AllByProducer(c)
    ensures var looking := Run(Apply(r, BeginPop), a);
            var reading := Run(Apply(looking, PopCheck), b);
            var retiring := Run(Apply(reading, PopRead), c);
            && Observe(looking, PopCheck) == Silent && Observe(retiring, PopPublish) == Popped(r.pushed[|r.popped|])
            && Apply(retiring, PopPublish).popped == r.popped + [r.pushed[|r.popped|]]
  {
    PopLooks(r, a);
    var looking := Run(Apply(r, BeginPop), a);
    PopSeesItem(looking, b);
    PopReads(Run(Apply(looking, PopCheck), b), c);
  }

  /** The queue object as one thread at a time sees it. */
  class Queue<T(0)> {
    const buf: array<T>
    var head: nat
    var tail: nat

    ghost predicate Valid()
      reads this
    {
      head < buf.Length && tail < buf.Length
    }

    ghost function Held(): seq<T>
      reads this, buf
      requires Valid()
    {
      if tail <= head then buf[tail..head] else buf[tail..] + buf[..head]
    }

    constructor (n: nat)
      requires n > 0
      ensures Valid() && fresh(buf) && buf.Length == n && Held() == []
    {
      buf := new T[n];
      head, tail := 0, 0;
    }

    method Push(v: T) returns (ok: bool)
      requires Valid()
      modifies this, buf
      ensures Valid()
      ensures ok == (|old(Held())| < buf.Length - 1)
      ensures Held() == if ok then old(Held()) + [v] else old(Held())
    {
      var next := if head + 1 == buf.Length then 0 else head + 1;
      if next == tail {
        return false;
      }
      buf[head] := v;
      head := next;
      return true;
    }

    method Pop() returns (ok: bool, v: T)
      requires Valid()
      modifies this
      ensures Valid()
      ensures ok == (old(Held()) != [])
      ensures ok ==> v == old(Held())[0] && Held() == old(Held())[1..]
      ensures !ok ==> Held() == old(Held())
    {
      v := buf[tail];
      if tail == head {
        return false, v;
      }
      tail := if tail + 1 == buf.Length then 0 else tail + 1;
      return true, v;
    }
  }
}
