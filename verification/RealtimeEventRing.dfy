/** The bounded single-producer single-consumer ring of cpp/src/types/realtime_event_ring.hpp.

    push() and pop() interleave at every index load, index store and single payload word. The
    indices are 64-bit and wrap; the capacity divides the modulus, so a wrapped index still names
    the slot of the event it counts. */
module RealtimeEventRing {
  import opened Types

  const CAPACITY: nat := 64
  const MODULUS: nat := 0x1_0000_0000_0000_0000

  // ---------------------------- 64-bit arithmetic ----------------------------

  function Wrap(x: nat): nat { x % MODULUS }
  function Add64(a: nat, b: nat): nat { Wrap(a + b) }

  function Sub64(a: nat, b: nat): nat
    requires b < MODULUS
  {
    Wrap(a + MODULUS - b)
  }

  function SlotOf(index: nat): (slot: nat)
    ensures slot < CAPACITY
  {
    index % CAPACITY
  }

  lemma WrapKeepsSlot(x: nat)
    ensures SlotOf(Wrap(x)) == SlotOf(x)
  {
    assert x == MODULUS * (x / MODULUS) + Wrap(x);
    assert MODULUS == CAPACITY * 0x400_0000_0000_0000;
    var q := 0x400_0000_0000_0000 * (x / MODULUS);
    assert x == CAPACITY * q + Wrap(x);
  }

  lemma AddWrapped(x: nat, k: nat)
    ensures Add64(Wrap(x), k) == Wrap(x + k)
  {}

  // A difference of at most one capacity survives the wrap of either index
  lemma SubWrapped(a: nat, b: nat)
    requires b <= a <= b + CAPACITY
    ensures Sub64(Wrap(a), Wrap(b)) == a - b
  {}

  // ------------------------------ Atomic steps ------------------------------

  datatype Producer<V> =
    | PIdle
    | PLoaded(e: seq<V>, w: nat)
    | PDropping
    | PCopying(e: seq<V>, w: nat, k: nat)
    | PStoring(e: seq<V>, w: nat)

  datatype Consumer<V> =
    | CIdle
    | CLoaded(r: nat)
    | CCopying(r: nat, out: seq<V>)

  datatype Ring<V> = Ring(slots: seq<seq<V>>, writeIndex: nat, readIndex: nat, dropped: nat,
                          producer: Producer<V>, consumer: Consumer<V>)

  datatype Action<V> =
    | LoadOwnWrite(e: seq<V>)  // push(e) starts
    | LoadRead                 // and finds room, or not
    | CountDrop
    | CopyIn                   // one payload word
    | StoreWrite               // push(e) returns true
    | LoadOwnRead              // pop() starts
    | LoadWrite                // and finds an event, or returns false
    | CopyOut                  // one payload word
    | StoreRead                // pop() returns true

  predicate Enabled<V>(n: nat, b: Ring<V>, a: Action<V>) {
    |b.slots| == CAPACITY && (forall i :: 0 <= i < CAPACITY ==> |b.slots[i]| == n) &&
    match a
    case LoadOwnWrite(e) => b.producer.PIdle? && |e| == n
    case LoadRead => b.producer.PLoaded? && b.readIndex < MODULUS
    case CountDrop => b.producer.PDropping?
    case CopyIn => b.producer.PCopying? && b.producer.k < |b.producer.e| == n
    case StoreWrite => b.producer.PStoring?
    case LoadOwnRead => b.consumer.CIdle?
    case LoadWrite => b.consumer.CLoaded?
    case CopyOut => b.consumer.CCopying? && |b.consumer.out| < n
    case StoreRead => b.consumer.CCopying? && |b.consumer.out| == n
  }

  function Apply<V>(n: nat, b: Ring<V>, a: Action<V>): Ring<V>
    requires Enabled(n, b, a)
  {
    match a
    case LoadOwnWrite(e) => b.(producer := PLoaded(e, b.writeIndex))
    case LoadRead =>
      var p := b.producer;
      b.(producer := if Sub64(p.w, b.readIndex) >= CAPACITY then PDropping
                     else if n == 0 then PStoring(p.e, p.w) else PCopying(p.e, p.w, 0))
    case CountDrop => b.(dropped := Add64(b.dropped, 1), producer := PIdle)
    case CopyIn =>
      var p := b.producer;
      var slot := SlotOf(p.w);
      b.(slots := b.slots[slot := b.slots[slot][p.k := p.e[p.k]]],
         producer := if p.k + 1 == n then PStoring(p.e, p.w) else p.(k := p.k + 1))
    case StoreWrite => b.(writeIndex := Add64(b.producer.w, 1), producer := PIdle)
    case LoadOwnRead => b.(consumer := CLoaded(b.readIndex))
    case LoadWrite =>
      b.(consumer := if b.consumer.r == b.writeIndex then CIdle else CCopying(b.consumer.r, []))
    case CopyOut =>
      var c := b.consumer;
      b.(consumer := c.(out := c.out + [b.slots[SlotOf(c.r)][|c.out|]]))
    case StoreRead => b.(readIndex := Add64(b.consumer.r, 1), consumer := CIdle)
  }

  // -------------------------------- History ---------------------------------

  // Unbounded counts of what happened, which the ring itself only knows modulo 2^64
  datatype Log<V> = Log(attempts: nat, accepted: seq<seq<V>>, popped: seq<seq<V>>, drops: nat)

  function Observe<V>(log: Log<V>, b: Ring<V>, a: Action<V>): Log<V> {
    match a
    case LoadOwnWrite(_) => log.(attempts := log.attempts + 1)
    case CountDrop => log.(drops := log.drops + 1)
    case StoreWrite => if b.producer.PStoring? then log.(accepted := log.accepted + [b.producer.e]) else log
    case StoreRead => if b.consumer.CCopying? then log.(popped := log.popped + [b.consumer.out]) else log
    case _ => log
  }

  // ------------------------------- Invariant --------------------------------

  ghost predicate ProducerInv<V>(n: nat, b: Ring<V>, log: Log<V>)
    requires |b.slots| == CAPACITY
  {
    match b.producer
    case PIdle => true
    case PDropping => true
    case PLoaded(e, w) => |e| == n && w == b.writeIndex
    case PCopying(e, w, k) =>
      && |e| == n && k < n && w == b.writeIndex && |log.accepted| < |log.popped| + CAPACITY
      && |b.slots[SlotOf(w)]| == n && b.slots[SlotOf(w)][..k] == e[..k]
    case PStoring(e, w) =>
      && |e| == n && w == b.writeIndex && |log.accepted| < |log.popped| + CAPACITY
      && b.slots[SlotOf(w)] == e
  }

  ghost predicate ConsumerInv<V>(n: nat, b: Ring<V>, log: Log<V>)
    requires |b.slots| == CAPACITY
  {
    match b.consumer
    case CIdle => true
    case CLoaded(r) => r == b.readIndex
    case CCopying(r, out) =>
      && r == b.readIndex && |log.popped| < |log.accepted| && |out| <= n
      && |b.slots[SlotOf(r)]| == n && out == b.slots[SlotOf(r)][..|out|]
  }

  ghost predicate QueueInv<V>(b: Ring<V>, log: Log<V>)
    requires |b.slots| == CAPACITY
  {
    && |log.popped| <= |log.accepted| <= |log.popped| + CAPACITY
    && log.popped == log.accepted[..|log.popped|]
    && (forall j :: |log.popped| <= j < |log.accepted| ==> b.slots[SlotOf(j)] == log.accepted[j])
  }

  ghost predicate Inv<V>(n: nat, b: Ring<V>, log: Log<V>) {
    && |b.slots| == CAPACITY && (forall i :: 0 <= i < CAPACITY ==> |b.slots[i]| == n)
    && b.writeIndex == Wrap(|log.accepted|) && b.readIndex == Wrap(|log.popped|)
    && b.dropped == Wrap(log.drops)
    && log.attempts == |log.accepted| + log.drops + (if b.producer.PIdle? then 0 else 1)
    && QueueInv(b, log) && ProducerInv(n, b, log) && ConsumerInv(n, b, log)
  }

  function Initial<V>(slots: seq<seq<V>>): Ring<V> { Ring(slots, 0, 0, 0, PIdle, CIdle) }
  function NoLog<V>(): Log<V> { Log(0, [], [], 0) }

  // --------------------------- One step of the FIFO ---------------------------

  // What the ring holds, read off its indices and slots alone
  ghost function Contents<V>(b: Ring<V>): seq<seq<V>>
    requires |b.slots| == CAPACITY && b.readIndex < MODULUS
  {
    seq(Sub64(b.writeIndex, b.readIndex), (i: nat) => b.slots[SlotOf(Add64(b.readIndex, i))])
  }

  datatype FifoOp<V> = Enqueue(e: seq<V>) | Dequeue(e: seq<V>) | Full | Empty | Stutter

  ghost predicate FifoAllows<V>(q: seq<seq<V>>, op: FifoOp<V>) {
    match op
    case Enqueue(_) => |q| < CAPACITY
    case Dequeue(e) => q != [] && q[0] == e
    case Full => |q| == CAPACITY
    case Empty => q == []
    case Stutter => true
  }

  function FifoNext<V>(q: seq<seq<V>>, op: FifoOp<V>): seq<seq<V>> {
    match op
    case Enqueue(e) => q + [e]
    case Dequeue(_) => if q == [] then q else q[1..]
    case _ => q
  }

  // A push takes effect at its index store, or fails at the load that finds the ring full. A pop
  // takes effect at its index store, or fails at the load that finds the ring empty
  function Linearize<V>(b: Ring<V>, a: Action<V>): FifoOp<V> {
    match a
    case LoadRead =>
      if b.producer.PLoaded? && b.readIndex < MODULUS && Sub64(b.producer.w, b.readIndex) >= CAPACITY then Full
      else Stutter
    case StoreWrite => if b.producer.PStoring? then Enqueue(b.producer.e) else Stutter
    case LoadWrite => if b.consumer.CLoaded? && b.consumer.r == b.writeIndex then Empty else Stutter
    case StoreRead => if b.consumer.CCopying? then Dequeue(b.consumer.out) else Stutter
    case _ => Stutter
  }

  lemma ContentsIsQueue<V>(n: nat, b: Ring<V>, log: Log<V>)
    requires Inv(n, b, log)
    ensures b.readIndex < MODULUS && Contents(b) == log.accepted[|log.popped|..]
  {
    hide Wrap, SlotOf, ProducerInv, ConsumerInv;
    WrapBelow(|log.popped|);
    SubWrapped(|log.accepted|, |log.popped|);
    forall i: nat | i < |log.accepted| - |log.popped|
      ensures b.slots[SlotOf(Add64(b.readIndex, i))] == log.accepted[|log.popped| + i]
    {
      AddWrapped(|log.popped|, i);
      WrapKeepsSlot(|log.popped| + i);
    }
  }

  lemma WrapBelow(x: nat)
    ensures Wrap(x) < MODULUS
  {}

  // Positions less than one capacity apart never share a slot
  lemma SlotsApart(i: nat, j: nat)
    requires i < j < i + CAPACITY
    ensures SlotOf(i) != SlotOf(j)
  {}

  lemma ProducerStepKeepsInv<V>(n: nat, b: Ring<V>, log: Log<V>, a: Action<V>)
    requires Inv(n, b, log) && Enabled(n, b, a)
    requires !IsConsumerAction(a)
    ensures Inv(n, Apply(n, b, a), Observe(log, b, a))
  {
    hide Wrap, SlotOf;
    var w, r := |log.accepted|, |log.popped|;
    WrapKeepsSlot(w);
    WrapKeepsSlot(r);
    SubWrapped(w, r);
    AddWrapped(w, 1);
    AddWrapped(log.drops, 1);
    forall j | r <= j < w && w < r + CAPACITY
      ensures SlotOf(j) != SlotOf(w)
    {
      SlotsApart(j, w);
    }
    if a.CopyIn? {
      var p := b.producer;
      var slot' := b.slots[SlotOf(p.w)][p.k := p.e[p.k]];
      assert slot'[..p.k + 1] == p.e[..p.k + 1];
      assert p.k + 1 == n ==> slot' == p.e;
    }
  }

  predicate IsConsumerAction<V>(a: Action<V>) {
    a.LoadOwnRead? || a.LoadWrite? || a.CopyOut? || a.StoreRead?
  }

  lemma ConsumerStepKeepsInv<V>(n: nat, b: Ring<V>, log: Log<V>, a: Action<V>)
    requires Inv(n, b, log) && Enabled(n, b, a)
    requires IsConsumerAction(a)
    ensures Inv(n, Apply(n, b, a), Observe(log, b, a))
    ensures a.StoreRead? ==> |log.popped| < |log.accepted| && b.consumer.out == log.accepted[|log.popped|]
  {
    hide Wrap, SlotOf;
    var w, r := |log.accepted|, |log.popped|;
    WrapKeepsSlot(r);
    SubWrapped(w, r);
    AddWrapped(r, 1);
    if a.StoreRead? {
      assert b.consumer.out == b.slots[SlotOf(r)] == log.accepted[r];
      assert log.accepted[..r + 1] == log.accepted[..r] + [log.accepted[r]];
    }
  }

  lemma StepKeepsInv<V>(n: nat, b: Ring<V>, log: Log<V>, a: Action<V>)
    requires Inv(n, b, log) && Enabled(n, b, a)
    ensures var b', log' := Apply(n, b, a), Observe(log, b, a);
            && Inv(n, b', log') && b.readIndex < MODULUS && b'.readIndex < MODULUS
            && FifoAllows(Contents(b), Linearize(b, a))
            && Contents(b') == FifoNext(Contents(b), Linearize(b, a))
  {
    hide Wrap, SlotOf, Contents;
    var w, r := |log.accepted|, |log.popped|;
    var b', log' := Apply(n, b, a), Observe(log, b, a);
    assert Inv(n, b', log') by {
      if IsConsumerAction(a) {
        ConsumerStepKeepsInv(n, b, log, a);
      } else {
        ProducerStepKeepsInv(n, b, log, a);
      }
    }
    ContentsIsQueue(n, b, log);
    ContentsIsQueue(n, b', log');
    SubWrapped(w, r);
    if a.StoreRead? {
      ConsumerStepKeepsInv(n, b, log, a);
    } else if a.LoadWrite? && r < w {
      WrapSeparates(w, r);
    }
  }

  // Index equality means empty: counts at most one capacity apart wrap to different indices
  lemma WrapSeparates(w: nat, r: nat)
    requires r < w <= r + CAPACITY
    ensures Wrap(w) != Wrap(r)
  {}

  // ------------------------------- Whole runs --------------------------------

  predicate IsRun<V>(n: nat, b: Ring<V>, actions: seq<Action<V>>)
    decreases |actions|
  {
    actions == [] || (Enabled(n, b, actions[0]) && IsRun(n, Apply(n, b, actions[0]), actions[1..]))
  }

  function After<V>(n: nat, b: Ring<V>, actions: seq<Action<V>>): Ring<V>
    requires IsRun(n, b, actions)
    decreases |actions|
  {
    if actions == [] then b else After(n, Apply(n, b, actions[0]), actions[1..])
  }

  function LogAfter<V>(n: nat, log: Log<V>, b: Ring<V>, actions: seq<Action<V>>): Log<V>
    requires IsRun(n, b, actions)
    decreases |actions|
  {
    if actions == [] then log
    else LogAfter(n, Observe(log, b, actions[0]), Apply(n, b, actions[0]), actions[1..])
  }

  function Ops<V>(n: nat, b: Ring<V>, actions: seq<Action<V>>): seq<FifoOp<V>>
    requires IsRun(n, b, actions)
    decreases |actions|
  {
    if actions == [] then []
    else [Linearize(b, actions[0])] + Ops(n, Apply(n, b, actions[0]), actions[1..])
  }

  ghost predicate FifoAccepts<V>(q: seq<seq<V>>, ops: seq<FifoOp<V>>, q': seq<seq<V>>)
    decreases |ops|
  {
    if ops == [] then q' == q
    else FifoAllows(q, ops[0]) && FifoAccepts(FifoNext(q, ops[0]), ops[1..], q')
  }

  lemma {:induction false} RunKeepsInv<V>(n: nat, b: Ring<V>, log: Log<V>, actions: seq<Action<V>>)
    requires Inv(n, b, log) && IsRun(n, b, actions)
    ensures var b' := After(n, b, actions);
            && Inv(n, b', LogAfter(n, log, b, actions))
            && b.readIndex < MODULUS && b'.readIndex < MODULUS
            && FifoAccepts(Contents(b), Ops(n, b, actions), Contents(b'))
    decreases |actions|
  {
    hide Wrap, SlotOf, Contents;
    WrapBelow(|log.popped|);
    if actions != [] {
      var a := actions[0];
      StepKeepsInv(n, b, log, a);
      RunKeepsInv(n, Apply(n, b, a), Observe(log, b, a), actions[1..]);
      var rest := Ops(n, Apply(n, b, a), actions[1..]);
      assert ([Linearize(b, a)] + rest)[1..] == rest;
    }
  }

  // Every interleaving from the empty ring is a history of a FIFO of capacity 64: what was popped
  // is a prefix of what was accepted, so every accepted event comes out once, whole and in order.
  // The producer fills a slot the consumer is not copying out. Every push ever started is
  // accounted for: popped, still queued, dropped, or under way
  lemma RefinesFifo<V>(n: nat, slots: seq<seq<V>>, actions: seq<Action<V>>)
    requires |slots| == CAPACITY && forall i :: 0 <= i < CAPACITY ==> |slots[i]| == n
    requires IsRun(n, Initial(slots), actions)
    ensures var b, log := After(n, Initial(slots), actions), LogAfter(n, NoLog(), Initial(slots), actions);
            && |b.slots| == CAPACITY && b.readIndex < MODULUS
            && FifoAccepts([], Ops(n, Initial(slots), actions), Contents(b))
            && log.accepted == log.popped + Contents(b) && |Contents(b)| <= CAPACITY
            && (b.producer.PCopying? && b.consumer.CCopying? ==> SlotOf(b.producer.w) != SlotOf(b.consumer.r))
            && log.attempts == |log.popped| + |Contents(b)| + log.drops + (if b.producer.PIdle? then 0 else 1)
            && b.dropped == Wrap(log.drops)
  {
    hide Wrap, SlotOf, Contents;
    var b, log := After(n, Initial(slots), actions), LogAfter(n, NoLog(), Initial(slots), actions);
    WrapZero();
    ContentsIsQueue(n, Initial(slots), NoLog());
    RunKeepsInv(n, Initial(slots), NoLog(), actions);
    ContentsIsQueue(n, b, log);
    if b.producer.PCopying? && b.consumer.CCopying? {
      WrapKeepsSlot(|log.accepted|);
      WrapKeepsSlot(|log.popped|);
      SlotsApart(|log.popped|, |log.accepted|);
    }
  }

  function Failures<V>(ops: seq<FifoOp<V>>): nat {
    if ops == [] then 0 else (if ops[0].Full? then 1 else 0) + Failures(ops[1..])
  }

  // Events are lost to a full queue only: over every interleaving, as many pushes are dropped, or about to
  // be, as have found all 64 places taken
  lemma {:induction false} DropsAreFull<V>(n: nat, b: Ring<V>, log: Log<V>, actions: seq<Action<V>>)
    requires IsRun(n, b, actions)
    ensures LogAfter(n, log, b, actions).drops + (if After(n, b, actions).producer.PDropping? then 1 else 0)
         == log.drops + (if b.producer.PDropping? then 1 else 0) + Failures(Ops(n, b, actions))
    decreases |actions|
  {
    hide Sub64, SlotOf, Add64;
    if actions != [] {
      var b', log' := Apply(n, b, actions[0]), Observe(log, b, actions[0]);
      DropsAreFull(n, b', log', actions[1..]);
      var ops := Ops(n, b, actions);
      assert ops[0] == Linearize(b, actions[0]) && ops[1..] == Ops(n, b', actions[1..]);
    }
  }

  lemma WrapZero()
    ensures Wrap(0) == 0
  {}

  // --------------------------------- Class ----------------------------------

  // The ring as the program holds it. Push and Pop are the public calls run to their end with the
  // other side standing still at any point of its own
  class RealtimeEventRing<V(0)> {
    const n: nat
    const slots: array<seq<V>>
    var writeIndex: nat
    var readIndex: nat
    var dropped: nat
    var producer: Producer<V>
    var consumer: Consumer<V>
    ghost var log: Log<V>

    ghost function State(): Ring<V>
      reads this, slots
    {
      Ring(slots[..], writeIndex, readIndex, dropped, producer, consumer)
    }

    ghost predicate Valid()
      reads this, slots
    {
      Inv(n, State(), log)
    }

    // What pop() has still to hand out
    ghost function Queued(): seq<seq<V>>
      requires Valid()
      reads this, slots
    {
      log.accepted[|log.popped|..]
    }

    constructor (initial: array<seq<V>>, n: nat)
      requires initial.Length == CAPACITY && forall i :: 0 <= i < CAPACITY ==> |initial[i]| == n
      ensures Valid() && this.n == n && slots == initial && Queued() == []
      ensures State() == Initial(initial[..]) && log == NoLog()
    {
      this.n, slots, writeIndex, readIndex, dropped := n, initial, 0, 0, 0;
      producer, consumer := PIdle, CIdle;
      log := NoLog();
    }

    method BeginPush(e: seq<V>)
      requires Valid() && producer.PIdle? && |e| == n
      modifies this`producer, this`log
      ensures Valid() && State() == Apply(n, old(State()), LoadOwnWrite(e))
      ensures log == Observe(old(log), old(State()), LoadOwnWrite(e))
    {
      StepKeepsInv(n, State(), log, LoadOwnWrite(e));
      log := Observe(log, State(), LoadOwnWrite(e));
      producer := PLoaded(e, writeIndex);
    }

    // The load of the consumer's index, and the test for room
    method CheckRoom() returns (ok: bool)
      requires Valid() && producer.PLoaded?
      modifies this`producer
      ensures Valid() && State() == Apply(n, old(State()), LoadRead)
      ensures ok == (|Queued()| < CAPACITY)
      ensures if ok then producer.PCopying? || producer.PStoring? else producer.PDropping?
      ensures ok ==> producer.e == old(producer.e)
    {
      StepKeepsInv(n, State(), log, LoadRead);
      SubWrapped(|log.accepted|, |log.popped|);
      var e, w := producer.e, producer.w;
      ok := Sub64(w, readIndex) < CAPACITY;
      producer := if !ok then PDropping else if n == 0 then PStoring(e, w) else PCopying(e, w, 0);
    }

    method Drop()
      requires Valid() && producer.PDropping?
      modifies this`dropped, this`producer, this`log
      ensures Valid() && State() == Apply(n, old(State()), CountDrop)
      ensures log == Observe(old(log), old(State()), CountDrop)
    {
      StepKeepsInv(n, State(), log, CountDrop);
      log := Observe(log, State(), CountDrop);
      dropped := Add64(dropped, 1);
      producer := PIdle;
    }

    method CopyInWord()
      requires Valid() && producer.PCopying?
      modifies this`producer, slots
      ensures Valid() && State() == Apply(n, old(State()), CopyIn)
      ensures producer.PCopying? || producer.PStoring?
      ensures producer.e == old(producer.e)
      ensures producer.PCopying? ==> old(producer.k) < producer.k < n
    {
      StepKeepsInv(n, State(), log, CopyIn);
      var e, w, k := producer.e, producer.w, producer.k;
      slots[SlotOf(w)] := slots[SlotOf(w)][k := e[k]];
      producer := if k + 1 == n then PStoring(e, w) else PCopying(e, w, k + 1);
    }

    method FinishPush()
      requires Valid() && producer.PStoring?
      modifies this`writeIndex, this`producer, this`log
      ensures Valid() && State() == Apply(n, old(State()), StoreWrite)
      ensures log == Observe(old(log), old(State()), StoreWrite)
    {
      StepKeepsInv(n, State(), log, StoreWrite);
      log := Observe(log, State(), StoreWrite);
      writeIndex := Add64(producer.w, 1);
      producer := PIdle;
    }

    method Push(e: seq<V>) returns (ok: bool)
      requires Valid() && producer.PIdle? && |e| == n
      modifies this`writeIndex, this`dropped, this`producer, this`log, slots
      ensures Valid() && producer.PIdle?
      ensures ok == (|old(Queued())| < CAPACITY)
      ensures Queued() == if ok then old(Queued()) + [e] else old(Queued())
      ensures log.drops == old(log.drops) + if ok then 0 else 1
      ensures log.attempts == old(log.attempts) + 1 && log.popped == old(log.popped)
    {
      LogOrder();
      BeginPush(e);
      hide Inv, Sub64, SlotOf, Wrap;
      ok := CheckRoom();
      if !ok {
        Drop();
        return;
      }
      while producer.PCopying?
        invariant Valid() && log == old(log).(attempts := old(log.attempts) + 1)
        invariant producer.PCopying? || producer.PStoring?
        invariant producer.e == e
        decreases if producer.PCopying? && producer.k < n then n - producer.k else 0, producer.PCopying?
      {
        CopyInWord();
      }
      FinishPush();
    }

    lemma LogOrder()
      requires Valid()
      ensures |log.popped| <= |log.accepted|
    {}

    method BeginPop()
      requires Valid() && consumer.CIdle?
      modifies this`consumer, this`log
      ensures Valid() && State() == Apply(n, old(State()), LoadOwnRead)
      ensures log == Observe(old(log), old(State()), LoadOwnRead)
    {
      StepKeepsInv(n, State(), log, LoadOwnRead);
      log := Observe(log, State(), LoadOwnRead);
      consumer := CLoaded(readIndex);
    }

    // The load of the producer's index, and the test for an event
    method CheckEvent() returns (ok: bool)
      requires Valid() && consumer.CLoaded?
      modifies this`consumer
      ensures Valid() && State() == Apply(n, old(State()), LoadWrite)
      ensures ok == (Queued() != [])
      ensures consumer == if ok then CCopying(old(consumer.r), []) else CIdle
    {
      StepKeepsInv(n, State(), log, LoadWrite);
      if |log.popped| < |log.accepted| {
        WrapSeparates(|log.accepted|, |log.popped|);
      }
      ok := consumer.r != writeIndex;
      consumer := if ok then CCopying(consumer.r, []) else CIdle;
    }

    method CopyOutWord()
      requires Valid() && consumer.CCopying? && |consumer.out| < n
      modifies this`consumer
      ensures Valid() && State() == Apply(n, old(State()), CopyOut)
      ensures consumer.CCopying? && |consumer.out| == |old(consumer.out)| + 1
    {
      StepKeepsInv(n, State(), log, CopyOut);
      var r, out := consumer.r, consumer.out;
      consumer := CCopying(r, out + [slots[SlotOf(r)][|out|]]);
    }

    method FinishPop() returns (out: seq<V>)
      requires Valid() && consumer.CCopying? && |consumer.out| == n
      modifies this`readIndex, this`consumer, this`log
      ensures Valid() && State() == Apply(n, old(State()), StoreRead)
      ensures log == Observe(old(log), old(State()), StoreRead)
      ensures old(Queued()) != [] && out == old(consumer.out) == old(Queued())[0]
    {
      StepKeepsInv(n, State(), log, StoreRead);
      ConsumerStepKeepsInv(n, State(), log, StoreRead);
      log := Observe(log, State(), StoreRead);
      out := consumer.out;
      readIndex := Add64(consumer.r, 1);
      consumer := CIdle;
    }

    method Pop() returns (ok: bool, out: seq<V>)
      requires Valid() && consumer.CIdle?
      modifies this`readIndex, this`consumer, this`log
      ensures Valid() && consumer.CIdle?
      ensures ok == (old(Queued()) != [])
      ensures ok ==> out == old(Queued())[0] && Queued() == old(Queued())[1..]
      ensures !ok ==> out == [] && Queued() == old(Queued())
    {
      LogOrder();
      BeginPop();
      hide Inv, SlotOf, Wrap;
      out := [];
      ok := CheckEvent();
      if !ok {
        return;
      }
      while |consumer.out| < n
        invariant Valid() && log == old(log)
        invariant consumer.CCopying? && |consumer.out| <= n
      {
        CopyOutWord();
      }
      out := FinishPop();
    }
  }
}
