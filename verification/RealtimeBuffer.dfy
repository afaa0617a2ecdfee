/** The lock-free triple buffer of cpp/src/types/realtime_buffer.hpp.

    The writer and the reader interleave at every load, compare-and-swap and single payload
    word. `Apply` is one such step, `Inv` what every step keeps, and `Linearize` names the step
    of a one-place overwrite mailbox that each of them stands for. */
module RealtimeBuffer {
  import opened Types

  // ------------------------------ State word --------------------------------

  // Three two-bit slot indices and a flag share one word. Masks and shifts of an unsigned value are
  // remainders and quotients by powers of two
  function Pack(w: nat, r: nat, c: nat, unread: bool): nat {
    w % 4 + 4 * (r % 4) + 16 * (c % 4) + (if unread then 64 else 0)
  }

  function Wr(s: nat): nat { s % 4 }
  function Rdy(s: nat): nat { s / 4 % 4 }
  function Rd(s: nat): nat { s / 16 % 4 }
  predicate Fresh(s: nat) { s / 64 % 2 == 1 }

  lemma UnpackPack(w: nat, r: nat, c: nat, unread: bool)
    requires w < 4 && r < 4 && c < 4
    ensures var s := Pack(w, r, c, unread);
            Wr(s) == w && Rdy(s) == r && Rd(s) == c && Fresh(s) == unread
  {
    var f := if unread then 1 else 0;
    assert Pack(w, r, c, unread) == 4 * (4 * (4 * f + c) + r) + w;
    Digits(4 * (4 * f + c) + r, w, 4);
    Digits(4 * f + c, r, 4);
    Digits(4 * f + c, 4 * r + w, 16);
    Digits(f, c, 4);
    Digits(f, 16 * c + 4 * r + w, 64);
  }

  lemma Digits(high: nat, low: nat, base: nat)
    requires low < base && (base == 4 || base == 16 || base == 64)
    ensures (base * high + low) / base == high && (base * high + low) % base == low
  {
    if base == 4 {
      assert (4 * high + low) / 4 == high;
    } else if base == 16 {
      assert (16 * high + low) / 16 == high;
    } else {
      assert (64 * high + low) / 64 == high;
    }
  }

  // ------------------------------ Atomic steps ------------------------------

  // Program counter and locals of write(): `s` is the loaded word, `cur` the word the next
  // compare-and-swap expects, `k` the number of payload words copied so far
  datatype Writer<V> =
    | WIdle
    | CopyingIn(s: nat, v: seq<V>, k: nat)
    | Publishing(v: seq<V>, cur: nat)

  // Program counter and locals of read()
  datatype Reader<V> =
    | RIdle
    | Claiming(cur: nat)
    | CopyingOut(slot: nat, out: seq<V>)

  datatype Buffer<V> = Buffer(word: nat, slots: seq<seq<V>>, writer: Writer<V>, reader: Reader<V>)

  datatype Action<V> =
    | BeginWrite(v: seq<V>)  // call write(v) and load the state word
    | CopyIn                 // one payload word
    | Publish                // the compare-and-swap succeeds
    | PublishRetry           // it fails, spuriously or because the word changed
    | BeginRead              // call read() and load the state word
    | Claim                  // the compare-and-swap succeeds
    | ClaimRetry
    | CopyOut                // one payload word
    | Return                 // read() returns true

  predicate InRange(s: nat) { Wr(s) < 3 && Rdy(s) < 3 && Rd(s) < 3 }

  predicate Enabled<V>(n: nat, b: Buffer<V>, a: Action<V>) {
    |b.slots| == 3 && (forall i :: 0 <= i < 3 ==> |b.slots[i]| == n) &&
    match a
    case BeginWrite(v) => b.writer.WIdle? && |v| == n
    case CopyIn => b.writer.CopyingIn? && b.writer.k < |b.writer.v| == n && Wr(b.writer.s) < 3
    case Publish => b.writer.Publishing? && b.writer.cur == b.word
    case PublishRetry => b.writer.Publishing?
    case BeginRead => b.reader.RIdle?
    case Claim => b.reader.Claiming? && b.reader.cur == b.word
    case ClaimRetry => b.reader.Claiming?
    case CopyOut => b.reader.CopyingOut? && b.reader.slot < 3 && |b.reader.out| < n
    case Return => b.reader.CopyingOut? && |b.reader.out| == n
  }

  // The words the two compare-and-swaps install
  function Published(cur: nat): nat { Pack(Rdy(cur), Wr(cur), Rd(cur), true) }
  function Claimed(cur: nat): nat { Pack(Wr(cur), Rd(cur), Rdy(cur), false) }

  function Apply<V>(n: nat, b: Buffer<V>, a: Action<V>): Buffer<V>
    requires Enabled(n, b, a)
  {
    match a
    case BeginWrite(v) =>
      b.(writer := if n == 0 then Publishing(v, b.word) else CopyingIn(b.word, v, 0))
    case CopyIn =>
      var w := b.writer;
      b.(slots := b.slots[Wr(w.s) := b.slots[Wr(w.s)][w.k := w.v[w.k]]],
         writer := if w.k + 1 == n then Publishing(w.v, w.s) else w.(k := w.k + 1))
    case Publish => b.(word := Published(b.writer.cur), writer := WIdle)
    case PublishRetry => b.(writer := b.writer.(cur := b.word))
    case BeginRead => if Fresh(b.word) then b.(reader := Claiming(b.word)) else b
    case Claim =>
      var next := Claimed(b.reader.cur);
      b.(word := next, reader := CopyingOut(Rd(next), []))
    case ClaimRetry => b.(reader := b.reader.(cur := b.word))
    case CopyOut => b.(reader := b.reader.(out := b.reader.out + [b.slots[b.reader.slot][|b.reader.out|]]))
    case Return => b.(reader := RIdle)
  }

  predicate IsReaderAction<V>(a: Action<V>) {
    a.BeginRead? || a.Claim? || a.ClaimRetry? || a.CopyOut? || a.Return?
  }

  // -------------------------------- History ---------------------------------

  // `written` lists the published values, `taken` the position in it of each claimed one, and
  // `returned` what read() handed out. `claims` and `lost` restart with every write(): how often
  // the reader claimed a value while it ran, and how often its compare-and-swap failed because
  // the word had changed
  datatype Log<V> = Log(written: seq<seq<V>>, taken: seq<nat>, returned: seq<seq<V>>, claims: nat, lost: nat)

  function Observe<V>(log: Log<V>, b: Buffer<V>, a: Action<V>): Log<V> {
    match a
    case BeginWrite(_) => log.(claims := 0, lost := 0)
    case Publish => if b.writer.Publishing? then log.(written := log.written + [b.writer.v]) else log
    case PublishRetry =>
      if b.writer.Publishing? && b.writer.cur != b.word then log.(lost := log.lost + 1) else log
    case Claim =>
      log.(taken := if log.written == [] then log.taken else log.taken + [|log.written| - 1],
           claims := if b.writer.WIdle? then log.claims else log.claims + 1)
    case Return => if b.reader.CopyingOut? then log.(returned := log.returned + [b.reader.out]) else log
    case _ => log
  }

  // ------------------------------- Invariant --------------------------------

  predicate Permutation(s: nat) { InRange(s) && Wr(s) != Rdy(s) && Rdy(s) != Rd(s) && Rd(s) != Wr(s) }

  // The words claimed so far point strictly forward into the words written, and what read()
  // returned is exactly the values they point at
  ghost predicate LogInv<V>(log: Log<V>, reader: Reader<V>) {
    && (forall i, j :: 0 <= i < j < |log.taken| ==> log.taken[i] < log.taken[j])
    && (forall i :: 0 <= i < |log.taken| ==> log.taken[i] < |log.written|)
    && |log.taken| == |log.returned| + (if reader.CopyingOut? then 1 else 0)
    && (forall i :: 0 <= i < |log.returned| ==> log.returned[i] == log.written[log.taken[i]])
  }

  ghost predicate WriterInv<V>(n: nat, b: Buffer<V>, log: Log<V>)
    requires |b.slots| == 3 && Permutation(b.word)
  {
    && log.lost <= log.claims <= 1
    && match b.writer
       case WIdle => true
       case CopyingIn(s, v, k) =>
         && |v| == n && k < n && Wr(s) == Wr(b.word)
         && |b.slots[Wr(s)]| == n && b.slots[Wr(s)][..k] == v[..k]
         && log.lost + (if s != b.word then 1 else 0) <= log.claims
         && (log.claims == 1 ==> !Fresh(b.word))
       case Publishing(v, cur) =>
         && |v| == n && b.slots[Wr(b.word)] == v
         && log.lost + (if cur != b.word then 1 else 0) <= log.claims
         && (log.claims == 1 ==> !Fresh(b.word))
  }

  ghost predicate ReaderInv<V>(n: nat, b: Buffer<V>, log: Log<V>)
    requires |b.slots| == 3 && Permutation(b.word) && LogInv(log, b.reader)
  {
    match b.reader
    case RIdle => true
    case Claiming(_) => Fresh(b.word)
    case CopyingOut(slot, out) =>
      && slot == Rd(b.word) && |out| <= n && |b.slots[slot]| == n
      && out == b.slots[slot][..|out|]
      && b.slots[slot] == log.written[Last(log.taken)]
  }

  ghost predicate Inv<V>(n: nat, b: Buffer<V>, log: Log<V>) {
    && |b.slots| == 3 && (forall i :: 0 <= i < 3 ==> |b.slots[i]| == n)
    && Permutation(b.word)
    && LogInv(log, b.reader)
    && WriterInv(n, b, log)
    && ReaderInv(n, b, log)
    // The word is fresh exactly when the newest value has not been claimed, and then the ready
    // slot holds it
    && (Fresh(b.word) <==> |log.written| > 0 && (log.taken == [] || Last(log.taken) < |log.written| - 1))
    && (Fresh(b.word) ==> b.slots[Rdy(b.word)] == Last(log.written))
  }

  function Initial<V>(slots: seq<seq<V>>): Buffer<V> { Buffer(Pack(0, 1, 2, false), slots, WIdle, RIdle) }
  function NoLog<V>(): Log<V> { Log([], [], [], 0, 0) }

  lemma InitialInv<V>(n: nat, slots: seq<seq<V>>)
    requires |slots| == 3 && forall i :: 0 <= i < 3 ==> |slots[i]| == n
    ensures Inv(n, Initial(slots), NoLog())
  {
    UnpackPack(0, 1, 2, false);
  }

  // -------------------------- One step of the mailbox ------------------------

  datatype MailboxOp<V> = Put(v: seq<V>) | Take(v: seq<V>) | TakeEmpty | Stutter

  ghost predicate MailboxAllows<V>(m: Option<seq<V>>, op: MailboxOp<V>) {
    match op
    case Take(v) => m == Some(v)
    case TakeEmpty => m == None
    case _ => true
  }

  function MailboxNext<V>(m: Option<seq<V>>, op: MailboxOp<V>): Option<seq<V>> {
    match op
    case Put(v) => Some(v)
    case Take(_) => None
    case TakeEmpty => None
    case Stutter => m
  }

  function Mailbox<V>(b: Buffer<V>): Option<seq<V>> {
    if Fresh(b.word) && Rdy(b.word) < |b.slots| then Some(b.slots[Rdy(b.word)]) else None
  }

  // write(v) takes effect at its successful compare-and-swap, read() at its own, or at the load
  // that finds nothing fresh
  function Linearize<V>(b: Buffer<V>, a: Action<V>): MailboxOp<V> {
    match a
    case Publish => if b.writer.Publishing? then Put(b.writer.v) else Stutter
    case Claim => if Mailbox(b).Some? then Take(Mailbox(b).value) else Stutter
    case BeginRead => if Fresh(b.word) then Stutter else TakeEmpty
    case _ => Stutter
  }

  lemma BeginWriteKeepsInv<V>(n: nat, b: Buffer<V>, log: Log<V>, a: Action<V>)
    requires Inv(n, b, log) && Enabled(n, b, a) && (a.BeginWrite? || a.PublishRetry?)
    ensures Inv(n, Apply(n, b, a), Observe(log, b, a))
    ensures Mailbox(Apply(n, b, a)) == Mailbox(b)
  {
    hide Pack, Wr, Rdy, Rd, Fresh;
  }

  lemma CopyInKeepsInv<V>(n: nat, b: Buffer<V>, log: Log<V>)
    requires Inv(n, b, log) && Enabled(n, b, CopyIn)
    ensures Inv(n, Apply(n, b, CopyIn), Observe(log, b, CopyIn))
    ensures Mailbox(Apply(n, b, CopyIn)) == Mailbox(b)
  {
    hide Pack, Wr, Rdy, Rd, Fresh;
    var w := b.writer;
    var slot' := b.slots[Wr(w.s)][w.k := w.v[w.k]];
    assert slot'[..w.k + 1] == w.v[..w.k + 1];
    assert w.k + 1 == n ==> slot' == w.v;
  }

  lemma PublishKeepsInv<V>(n: nat, b: Buffer<V>, log: Log<V>)
    requires Inv(n, b, log) && Enabled(n, b, Publish)
    ensures Inv(n, Apply(n, b, Publish), Observe(log, b, Publish))
    ensures Mailbox(Apply(n, b, Publish)) == MailboxNext(Mailbox(b), Linearize(b, Publish))
  {
    hide Pack, Wr, Rdy, Rd, Fresh;
    UnpackPack(Rdy(b.word), Wr(b.word), Rd(b.word), true);
  }

  lemma WriterStepKeepsInv<V>(n: nat, b: Buffer<V>, log: Log<V>, a: Action<V>)
    requires Inv(n, b, log) && Enabled(n, b, a)
    requires a.BeginWrite? || a.CopyIn? || a.Publish? || a.PublishRetry?
    ensures Inv(n, Apply(n, b, a), Observe(log, b, a))
    ensures MailboxAllows(Mailbox(b), Linearize(b, a))
    ensures Mailbox(Apply(n, b, a)) == MailboxNext(Mailbox(b), Linearize(b, a))
  {
    hide Inv, Apply, Observe, Mailbox;
    match a
    case CopyIn => CopyInKeepsInv(n, b, log);
    case Publish => PublishKeepsInv(n, b, log);
    case _ => BeginWriteKeepsInv(n, b, log, a);
  }

  lemma ReaderStepKeepsLog<V>(n: nat, b: Buffer<V>, log: Log<V>, a: Action<V>)
    requires Inv(n, b, log) && Enabled(n, b, a) && IsReaderAction(a)
    ensures LogInv(Observe(log, b, a), Apply(n, b, a).reader)
    ensures a.Claim? ==> log.written != [] && Linearize(b, a) == Take(Last(log.written))
  {
    hide Pack, Wr, Rd, Fresh, WriterInv, Claimed;
    if a.Claim? {
      assert Fresh(b.word);
    }
  }

  lemma ReaderStepKeepsInv<V>(n: nat, b: Buffer<V>, log: Log<V>, a: Action<V>)
    requires Inv(n, b, log) && Enabled(n, b, a) && IsReaderAction(a)
    ensures Inv(n, Apply(n, b, a), Observe(log, b, a))
    ensures MailboxAllows(Mailbox(b), Linearize(b, a))
    ensures Mailbox(Apply(n, b, a)) == MailboxNext(Mailbox(b), Linearize(b, a))
    ensures a.Claim? ==> log.written != [] && Linearize(b, a) == Take(Last(log.written))
  {
    ReaderStepKeepsLog(n, b, log, a);
    hide Pack, Wr, Rdy, Rd, Fresh, LogInv;
    UnpackPack(Wr(b.word), Rd(b.word), Rdy(b.word), false);
    assert LogInv(log, b.reader);
  }

  // A claim empties the mailbox, and the slot it leads to holds what was in it
  lemma ClaimedSlot<V>(n: nat, b: Buffer<V>, log: Log<V>)
    requires Inv(n, b, log) && Enabled(n, b, Claim)
    ensures var r := Apply(n, b, Claim);
            && r.reader.CopyingOut? && r.reader.slot < |b.slots| && Mailbox(r) == None
            && Mailbox(b) == Some(b.slots[r.reader.slot])
  {
    hide Pack, Wr, Rdy, Rd, Fresh, LogInv, WriterInv;
    UnpackPack(Wr(b.word), Rd(b.word), Rdy(b.word), false);
  }

  lemma StepKeepsInv<V>(n: nat, b: Buffer<V>, log: Log<V>, a: Action<V>)
    requires Inv(n, b, log) && Enabled(n, b, a)
    ensures Inv(n, Apply(n, b, a), Observe(log, b, a))
    ensures MailboxAllows(Mailbox(b), Linearize(b, a))
    ensures Mailbox(Apply(n, b, a)) == MailboxNext(Mailbox(b), Linearize(b, a))
    ensures a.Claim? ==> log.written != [] && Linearize(b, a) == Take(Last(log.written))
  {
    hide Inv, Apply, Observe, Mailbox, MailboxNext, MailboxAllows;
    if IsReaderAction(a) {
      ReaderStepKeepsInv(n, b, log, a);
    } else {
      WriterStepKeepsInv(n, b, log, a);
    }
  }

  // ------------------------------- Whole runs --------------------------------

  predicate IsRun<V>(n: nat, b: Buffer<V>, actions: seq<Action<V>>)
    decreases |actions|
  {
    actions == [] || (Enabled(n, b, actions[0]) && IsRun(n, Apply(n, b, actions[0]), actions[1..]))
  }

  function After<V>(n: nat, b: Buffer<V>, actions: seq<Action<V>>): Buffer<V>
    requires IsRun(n, b, actions)
    decreases |actions|
  {
    if actions == [] then b else After(n, Apply(n, b, actions[0]), actions[1..])
  }

  function LogAfter<V>(n: nat, log: Log<V>, b: Buffer<V>, actions: seq<Action<V>>): Log<V>
    requires IsRun(n, b, actions)
    decreases |actions|
  {
    if actions == [] then log
    else LogAfter(n, Observe(log, b, actions[0]), Apply(n, b, actions[0]), actions[1..])
  }

  function Ops<V>(n: nat, b: Buffer<V>, actions: seq<Action<V>>): seq<MailboxOp<V>>
    requires IsRun(n, b, actions)
    decreases |actions|
  {
    if actions == [] then []
    else [Linearize(b, actions[0])] + Ops(n, Apply(n, b, actions[0]), actions[1..])
  }

  ghost predicate MailboxAccepts<V>(m: Option<seq<V>>, ops: seq<MailboxOp<V>>, m': Option<seq<V>>)
    decreases |ops|
  {
    if ops == [] then m' == m
    else MailboxAllows(m, ops[0]) && MailboxAccepts(MailboxNext(m, ops[0]), ops[1..], m')
  }

  lemma {:induction false} RunKeepsInv<V>(n: nat, b: Buffer<V>, log: Log<V>, actions: seq<Action<V>>)
    requires Inv(n, b, log) && IsRun(n, b, actions)
    ensures Inv(n, After(n, b, actions), LogAfter(n, log, b, actions))
    ensures MailboxAccepts(Mailbox(b), Ops(n, b, actions), Mailbox(After(n, b, actions)))
    decreases |actions|
  {
    if actions != [] {
      var a := actions[0];
      StepKeepsInv(n, b, log, a);
      RunKeepsInv(n, Apply(n, b, a), Observe(log, b, a), actions[1..]);
      var rest := Ops(n, Apply(n, b, a), actions[1..]);
      assert ([Linearize(b, a)] + rest)[1..] == rest;
    }
  }

  // Every interleaving from the constructor is a history of the overwrite mailbox. The three
  // indices stay a permutation, so the slot being filled is neither the ready one nor the one
  // being copied out. What read() returns is the written values, whole, each at most once and
  // in the order written. A writer loses its compare-and-swap to the reader at most once
  lemma RefinesMailbox<V>(n: nat, slots: seq<seq<V>>, actions: seq<Action<V>>)
    requires |slots| == 3 && forall i :: 0 <= i < 3 ==> |slots[i]| == n
    requires IsRun(n, Initial(slots), actions)
    ensures var b, log := After(n, Initial(slots), actions), LogAfter(n, NoLog(), Initial(slots), actions);
            && MailboxAccepts(None, Ops(n, Initial(slots), actions), Mailbox(b))
            && Permutation(b.word)
            && (b.writer.CopyingIn? ==> Wr(b.writer.s) != Rdy(b.word))
            && (b.writer.CopyingIn? && b.reader.CopyingOut? ==> Wr(b.writer.s) != b.reader.slot)
            && |log.returned| <= |log.taken|
            && (forall i, j :: 0 <= i < j < |log.taken| ==> log.taken[i] < log.taken[j] < |log.written|)
            && (forall i :: 0 <= i < |log.returned| ==>
                  log.taken[i] < |log.written| && log.returned[i] == log.written[log.taken[i]])
            && log.claims <= 1 && log.lost <= 1
  {
    UnpackPack(0, 1, 2, false);
    InitialInv(n, slots);
    RunKeepsInv(n, Initial(slots), NoLog(), actions);
  }

  lemma ReaderStepDrains<V>(n: nat, b: Buffer<V>, log: Log<V>, a: Action<V>)
    requires Inv(n, b, log) && Enabled(n, b, a) && IsReaderAction(a)
    requires b.reader.Claiming? || !Fresh(b.word)
    ensures Observe(log, b, a).written == log.written
    ensures Apply(n, b, a).reader.Claiming? || !Fresh(Apply(n, b, a).word)
  {
    hide Pack, Wr, Rdy, Rd, Fresh, WriterInv, LogInv;
    UnpackPack(Wr(b.word), Rd(b.word), Rdy(b.word), false);
  }

  lemma {:induction false} ReaderRunDrains<V>(n: nat, b: Buffer<V>, log: Log<V>, actions: seq<Action<V>>)
    requires Inv(n, b, log) && IsRun(n, b, actions)
    requires forall i :: 0 <= i < |actions| ==> IsReaderAction(actions[i])
    requires b.reader.Claiming? || !Fresh(b.word)
    ensures LogAfter(n, log, b, actions).written == log.written
    ensures var b' := After(n, b, actions); b'.reader.Claiming? || !Fresh(b'.word)
    decreases |actions|
  {
    if actions != [] {
      hide Inv, Enabled, Apply, Observe, Fresh;
      var a := actions[0];
      ReaderStepKeepsInv(n, b, log, a);
      ReaderStepDrains(n, b, log, a);
      ReaderRunDrains(n, Apply(n, b, a), Observe(log, b, a), actions[1..]);
    }
  }

  lemma CaughtUp<V>(n: nat, b: Buffer<V>, log: Log<V>)
    requires Inv(n, b, log) && b.reader.RIdle? && !Fresh(b.word) && log.written != []
    ensures log.returned != [] && Last(log.returned) == Last(log.written)
    ensures |log.taken| == |log.returned| && Last(log.taken) == |log.written| - 1
  {
    hide Fresh, WriterInv, ReaderInv;
  }

  // Once the writer is quiet, a reader that calls read() again and finishes has returned the last
  // value written: at once, or by this very call
  lemma QuietReaderCatchesUp<V>(n: nat, b: Buffer<V>, log: Log<V>, actions: seq<Action<V>>)
    requires Inv(n, b, log) && b.reader.RIdle?
    requires IsRun(n, b, [BeginRead] + actions)
    requires forall i :: 0 <= i < |actions| ==> IsReaderAction(actions[i])
    requires After(n, b, [BeginRead] + actions).reader.RIdle?
    requires log.written != []
    ensures var log' := LogAfter(n, log, b, [BeginRead] + actions);
            && log'.written == log.written
            && log'.returned != [] && Last(log'.returned) == Last(log.written)
            && |log'.taken| == |log'.returned| && Last(log'.taken) == |log.written| - 1
  {
    hide Inv, Fresh, MailboxAccepts, Linearize;
    var all: seq<Action<V>> := [BeginRead] + actions;
    assert all[0] == BeginRead && all[1..] == actions;
    var b1, log1 := Apply(n, b, BeginRead), Observe(log, b, BeginRead);
    StepKeepsInv(n, b, log, BeginRead);
    ReaderRunDrains(n, b1, log1, actions);
    RunKeepsInv(n, b1, log1, actions);
    CaughtUp(n, After(n, b1, actions), LogAfter(n, log1, b1, actions));
  }

  // --------------------------------- Class ----------------------------------

  // The buffer as the program holds it. Each method is one atomic step; Write and Read are the
  // two public calls, run to their end while the other side stands still. `spurious` is how often
  // the weak compare-and-swap fails although the word matches
  class RealtimeBuffer<V(0)> {
    const n: nat
    var word: nat
    const slots: array<seq<V>>
    var writer: Writer<V>
    var reader: Reader<V>
    ghost var log: Log<V>

    ghost function State(): Buffer<V>
      reads this, slots
    {
      Buffer(word, slots[..], writer, reader)
    }

    ghost predicate Valid()
      reads this, slots
    {
      Inv(n, State(), log)
    }

    constructor (initial: array<seq<V>>, n: nat)
      requires initial.Length == 3 && forall i :: 0 <= i < 3 ==> |initial[i]| == n
      ensures Valid() && this.n == n && slots == initial
      ensures State() == Initial(initial[..]) && log == NoLog()
    {
      this.n, word, slots, writer, reader := n, Pack(0, 1, 2, false), initial, WIdle, RIdle;
      log := NoLog();
      new;
      InitialInv(n, initial[..]);
    }

    method BeginWriting(v: seq<V>)
      requires Valid() && writer.WIdle? && |v| == n
      modifies this
      ensures Valid() && State() == Apply(n, old(State()), BeginWrite(v))
      ensures log == Observe(old(log), old(State()), BeginWrite(v))
    {
      StepKeepsInv(n, State(), log, BeginWrite(v));
      log := Observe(log, State(), BeginWrite(v));
      writer := if n == 0 then Publishing(v, word) else CopyingIn(word, v, 0);
    }

    method CopyInWord()
      requires Valid() && writer.CopyingIn?
      modifies this`writer, slots
      ensures Valid() && State() == Apply(n, old(State()), CopyIn)
    {
      StepKeepsInv(n, State(), log, CopyIn);
      var s, v, k := writer.s, writer.v, writer.k;
      slots[Wr(s)] := slots[Wr(s)][k := v[k]];
      writer := if k + 1 == n then Publishing(v, s) else CopyingIn(s, v, k + 1);
    }

    // One weak compare-and-swap of write()
    method TryPublish(spurious: bool) returns (ok: bool)
      requires Valid() && writer.Publishing?
      modifies this
      ensures Valid() && ok == (old(writer.cur == word) && !spurious)
      ensures State() == Apply(n, old(State()), if ok then Publish else PublishRetry)
      ensures log == Observe(old(log), old(State()), if ok then Publish else PublishRetry)
      ensures ok ==> Mailbox(State()) == Some(old(writer.v))
    {
      ok := writer.cur == word && !spurious;
      ghost var a: Action<V> := if ok then Publish else PublishRetry;
      StepKeepsInv(n, State(), log, a);
      log := Observe(log, State(), a);
      if ok {
        word, writer := Published(writer.cur), WIdle;
      } else {
        writer := writer.(cur := word);
      }
    }

    method BeginReading() returns (ok: bool)
      requires Valid() && reader.RIdle?
      modifies this`reader
      ensures Valid() && State() == Apply(n, old(State()), BeginRead)
      ensures ok == Fresh(word) == Mailbox(State()).Some?
    {
      StepKeepsInv(n, State(), log, BeginRead);
      ok := Fresh(word);
      if ok {
        reader := Claiming(word);
      }
    }

    // One weak compare-and-swap of read()
    method TryClaim(spurious: bool) returns (ok: bool)
      requires Valid() && reader.Claiming?
      modifies this
      ensures Valid() && ok == (old(reader.cur == word) && !spurious)
      ensures State() == Apply(n, old(State()), if ok then Claim else ClaimRetry)
      ensures log == Observe(old(log), old(State()), if ok then Claim else ClaimRetry)
      ensures ok ==> Mailbox(State()) == None && reader.slot < slots.Length
      ensures ok ==> old(Mailbox(State())) == Some(slots[reader.slot])
    {
      hide Pack, Wr, Rdy, Rd, Fresh, LogInv, WriterInv, ReaderInv, Mailbox;
      ok := reader.cur == word && !spurious;
      ghost var a: Action<V> := if ok then Claim else ClaimRetry;
      StepKeepsInv(n, State(), log, a);
      if ok {
        ClaimedSlot(n, State(), log);
      }
      log := Observe(log, State(), a);
      if ok {
        word, reader := Claimed(reader.cur), CopyingOut(Rd(Claimed(reader.cur)), []);
      } else {
        reader := reader.(cur := word);
      }
    }

    method CopyOutWord()
      requires Valid() && reader.CopyingOut? && |reader.out| < n
      modifies this`reader
      ensures Valid() && State() == Apply(n, old(State()), CopyOut)
    {
      StepKeepsInv(n, State(), log, CopyOut);
      reader := reader.(out := reader.out + [slots[reader.slot][|reader.out|]]);
    }

    method FinishRead() returns (out: seq<V>)
      requires Valid() && reader.CopyingOut? && |reader.out| == n
      modifies this
      ensures Valid() && State() == Apply(n, old(State()), Return)
      ensures out == old(reader.out) == slots[old(reader.slot)]
      ensures log == Observe(old(log), old(State()), Return)
    {
      StepKeepsInv(n, State(), log, Return);
      log := Observe(log, State(), Return);
      out := reader.out;
      reader := RIdle;
    }

    method Write(v: seq<V>, spurious: nat)
      requires Valid() && writer.WIdle? && |v| == n
      modifies this, slots
      ensures Valid() && writer.WIdle? && reader == old(reader)
      ensures Mailbox(State()) == Some(v)
      ensures log.written == old(log.written) + [v] && log.returned == old(log.returned)
    {
      hide Pack, Wr, Rdy, Rd, Fresh, Inv, Claimed, Published;
      BeginWriting(v);
      while writer.CopyingIn?
        invariant Valid() && !writer.WIdle? && writer.v == v && reader == old(reader)
        invariant writer.CopyingIn? ==> writer.k < n
        invariant log.written == old(log.written) && log.returned == old(log.returned)
        decreases if writer.CopyingIn? then n - writer.k else 0
      {
        CopyInWord();
      }
      var left := spurious;
      var ok := TryPublish(left > 0);
      while !ok
        invariant Valid() && reader == old(reader) && log.returned == old(log.returned)
        invariant !ok ==> writer.Publishing? && writer.v == v && writer.cur == word && log.written == old(log.written)
        invariant ok ==> writer.WIdle? && Mailbox(State()) == Some(v) && log.written == old(log.written) + [v]
        decreases !ok, left
      {
        left := if left > 0 then left - 1 else 0;
        ok := TryPublish(left > 0);
      }
    }

    method Read(spurious: nat) returns (ok: bool, out: seq<V>)
      requires Valid() && reader.RIdle?
      modifies this
      ensures Valid() && reader.RIdle? && writer == old(writer) && slots[..] == old(slots[..])
      ensures ok == old(Mailbox(State()).Some?)
      ensures ok ==> Mailbox(State()) == None && out == old(Mailbox(State()).value)
      ensures !ok ==> out == [] && State() == old(State())
      ensures log.written == old(log.written)
      ensures log.returned == old(log.returned) + if ok then [out] else []
    {
      hide Pack, Wr, Rdy, Rd, Fresh, Inv, Claimed, Published;
      out := [];
      ok := BeginReading();
      if !ok {
        return;
      }
      ClaimPending(spurious);
      CopyOutWords();
      out := FinishRead();
    }

    // The compare-and-swap loop of read()
    method ClaimPending(spurious: nat)
      requires Valid() && reader.Claiming? && reader.cur == word && Mailbox(State()).Some?
      modifies this
      ensures Valid() && writer == old(writer) && slots[..] == old(slots[..])
      ensures log.written == old(log.written) && log.returned == old(log.returned)
      ensures reader.CopyingOut? && reader.out == [] && Mailbox(State()) == None
      ensures reader.slot < slots.Length && slots[reader.slot] == old(Mailbox(State())).value
    {
      hide Pack, Wr, Rdy, Rd, Fresh, Inv, Claimed, Published;
      var left := spurious;
      var claimed := TryClaim(left > 0);
      while !claimed
        invariant Valid() && writer == old(writer) && slots[..] == old(slots[..])
        invariant log.written == old(log.written) && log.returned == old(log.returned)
        invariant !claimed ==> reader.Claiming? && reader.cur == word == old(word)
        invariant claimed ==> reader.CopyingOut? && reader.out == [] && Mailbox(State()) == None
        invariant claimed ==> reader.slot < slots.Length && slots[reader.slot] == old(Mailbox(State())).value
        decreases !claimed, left
      {
        left := if left > 0 then left - 1 else 0;
        claimed := TryClaim(left > 0);
      }
    }

    // The payload copy of read()
    method CopyOutWords()
      requires Valid() && reader.CopyingOut? && |reader.out| <= n && Mailbox(State()) == None && reader.slot < slots.Length
      modifies this
      ensures Valid() && writer == old(writer) && slots[..] == old(slots[..])
      ensures log.written == old(log.written) && log.returned == old(log.returned)
      ensures reader.CopyingOut? && |reader.out| == n && Mailbox(State()) == None && reader.slot == old(reader.slot)
    {
      hide Pack, Wr, Rdy, Rd, Fresh, Inv, Claimed, Published;
      while |reader.out| < n
        invariant Valid() && writer == old(writer) && slots[..] == old(slots[..])
        invariant log.written == old(log.written) && log.returned == old(log.returned)
        invariant reader.CopyingOut? && |reader.out| <= n && Mailbox(State()) == None && reader.slot == old(reader.slot)
      {
        CopyOutWord();
      }
    }
  }
}
