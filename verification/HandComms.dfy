/** One hand's control session, cpp/src/hand_core/comms/hand_comms.cpp: what a read takes in, which
    control word every actuator gets, and the evidence for "enabled" and "stopped". */
module HandComms {
  import opened Types
  import opened Frames
  import C = Cia402
  import D = Drive
  import P = Protocol
  import H = HomingSequence

  const UINT32_MAX: nat := 0xFFFF_FFFF

  type WordArray = w: seq<bv16> | |w| == ACTUATOR_COUNT witness NoWords()

  // `silent` counts the read() calls since the last decoded frame
  datatype Comms = Comms(
    side: P.HandSide, disabled: Mask, open: bool, controlActive: bool,
    rx: StateFrames, lastWord: WordArray, seenHigh: Mask, homing: H.Homing,
    silent: nat, anyFrame: bool)

  // ------------------------------- Connection -------------------------------

  // A successful connect(): nothing of the previous session's observations is carried over
  function Connected(c: Comms): Comms {
    c.(open := true, rx := NoState(), seenHigh := AllOf(false), lastWord := NoWords(),
       silent := 0, anyFrame := false, homing := H.Cancelled(c.homing))
  }

  function Disconnected(c: Comms): Comms { c.(open := false, controlActive := false) }

  function Run(c: Comms): Comms { if c.open then c.(controlActive := true) else c }
  function Stop(c: Comms): Comms { c.(controlActive := false) }

  function Home(c: Comms): Comms {
    if c.controlActive then c.(homing := H.Started(c.homing, c.disabled)) else c
  }

  // ----------------------------------- Read -----------------------------------

  predicate ReceivedAny(side: P.HandSide, queue: seq<P.CanFrame>) {
    exists k :: 0 <= k < |queue| && P.Classify(side, queue[k]).Decoded?
  }

  predicate QuickStopHigh(rx: StateFrames, i: nat)
    requires i < ACTUATOR_COUNT
  {
    C.Has(rx.status[i], C.QUICK_STOP_ACTIVE)
  }

  function SeenHigh(seen: Mask, rx: StateFrames): Mask {
    seq(ACTUATOR_COUNT, i requires 0 <= i < ACTUATOR_COUNT => seen[i] || QuickStopHigh(rx, i))
  }

  function Read(c: Comms, queue: seq<P.CanFrame>): Comms {
    if !c.open then c
    else
      var rx := P.Drain(c.side, queue, c.rx);
      var received := ReceivedAny(c.side, queue);
      c.(rx := rx, seenHigh := SeenHigh(c.seenHigh, rx), anyFrame := c.anyFrame || received,
         silent := if received then 0 else if c.silent < UINT32_MAX then c.silent + 1 else c.silent)
  }

  predicate QuickStopAttained(c: Comms) {
    forall i :: 0 <= i < ACTUATOR_COUNT && !c.disabled[i] && c.seenHigh[i] ==> !QuickStopHigh(c.rx, i)
  }

  predicate DrivesEnabled(c: Comms) { C.Settled(c.rx.status, c.rx.errorCode, c.disabled) }

  // Per-actuator health, which the command masking reads; a disabled actuator never looks enabled
  // or faulted
  function EnabledMask(c: Comms): Mask {
    seq(ACTUATOR_COUNT, i requires 0 <= i < ACTUATOR_COUNT => !c.disabled[i] && C.IsOperationEnabled(c.rx.status[i]))
  }

  function FaultMask(c: Comms): Mask {
    seq(ACTUATOR_COUNT, i requires 0 <= i < ACTUATOR_COUNT => !c.disabled[i] && c.rx.errorCode[i] != 0)
  }

  // The two verdicts about the drives exclude each other after every read: both can hold only
  // where no actuator takes part at all
  lemma VerdictsExclude(c: Comms, queue: seq<P.CanFrame>)
    requires c.open
    ensures var r := Read(c, queue);
            DrivesEnabled(r) && QuickStopAttained(r) <==> forall i :: 0 <= i < ACTUATOR_COUNT ==> c.disabled[i]
  {
    var r := Read(c, queue);
    if DrivesEnabled(r) && !(forall i :: 0 <= i < ACTUATOR_COUNT ==> c.disabled[i]) {
      var i :| 0 <= i < ACTUATOR_COUNT && !r.disabled[i] && r.rx.errorCode[i] == 0 && C.IsOperationEnabled(r.rx.status[i]);
      EnabledIsNotStopped(r.rx.status[i]);
      assert r.seenHigh[i] && QuickStopHigh(r.rx, i);
    }
  }

  // The latch of bit5 has no part in that verdict: who was never seen high is not high now either
  lemma StopIsWhatIsShown(c: Comms, queue: seq<P.CanFrame>)
    requires c.open
    ensures var r := Read(c, queue);
            QuickStopAttained(r) <==> forall i :: 0 <= i < ACTUATOR_COUNT && !r.disabled[i] ==> r.rx.status[i] & 0x0020 == 0
  {
    hide P.Drain;
    var r := Read(c, queue);
    forall i | 0 <= i < ACTUATOR_COUNT
      ensures r.rx.status[i] & 0x0020 != 0 ==> r.seenHigh[i]
    {}
  }

  lemma EnabledIsNotStopped(status: bv16)
    ensures C.IsOperationEnabled(status) ==> C.Has(status, C.QUICK_STOP_ACTIVE)
  {}

  // ----------------------------------- Write -----------------------------------

  datatype Stepped = Stepped(homing: H.Homing, mode: C.Mode, frames: CommandFrames)

  // A quick stop takes precedence, and what it cancels does not go on by itself
  function StepHoming(c: Comms, frames: CommandFrames, quickStop: bool): Stepped {
    if quickStop then Stepped(H.Cancelled(c.homing), C.QuickStop, frames)
    else if c.homing.active then
      Stepped(H.Step(c.homing, c.rx), H.WordMode(c.homing), H.Command(c.homing, frames))
    else Stepped(c.homing, C.Enable, frames)
  }

  function ActuatorMode(c: Comms, mode: C.Mode, i: nat): C.Mode
    requires i < ACTUATOR_COUNT
  {
    if c.disabled[i] then C.Shutdown else mode
  }

  function ControlWords(c: Comms, mode: C.Mode): (words: WordArray)
    ensures forall i :: 0 <= i < ACTUATOR_COUNT ==>
      words[i] == C.ControlWord(ActuatorMode(c, mode, i), c.rx.status[i], c.lastWord[i])
  {
    seq(ACTUATOR_COUNT, i requires 0 <= i < ACTUATOR_COUNT =>
      C.ControlWord(ActuatorMode(c, mode, i), c.rx.status[i], c.lastWord[i]))
  }

  function Write(c: Comms, frames: CommandFrames, quickStop: bool): Comms {
    if !c.open then c
    else
      var s := StepHoming(c, frames, quickStop);
      c.(homing := s.homing, lastWord := ControlWords(c, s.mode))
  }

  // What goes out on the wire
  function Sent(c: Comms, frames: CommandFrames, quickStop: bool): CommandFrames {
    var s := StepHoming(c, frames, quickStop);
    s.frames.(controlWord := ControlWords(c, s.mode))
  }

  // 0x02 everywhere, 0x06 for the disabled actuators
  predicate IsQuickStopFrame(c: Comms, frames: CommandFrames) {
    forall i :: 0 <= i < ACTUATOR_COUNT ==>
      frames.controlWord[i] == if c.disabled[i] then C.SHUTDOWN else C.QUICK_STOP
  }

  lemma QuickStopWins(c: Comms, frames: CommandFrames)
    requires c.open
    ensures IsQuickStopFrame(c, Sent(c, frames, true))
    ensures !Write(c, frames, true).homing.active
    ensures Write(c, frames, true).homing.outcome == c.homing.outcome
  {}

  lemma DisabledIsHeldAtShutdown(c: Comms, frames: CommandFrames, quickStop: bool, i: nat)
    requires i < ACTUATOR_COUNT && c.disabled[i]
    ensures Sent(c, frames, quickStop).controlWord[i] == C.SHUTDOWN
  {}

  // Each write is one cycle of the drive ladder for every actuator: the drive receives the word
  // that is stored for the next one
  lemma WriteIsLadderCycle(c: Comms, frames: CommandFrames, quickStop: bool, i: nat,
                           d: D.DriveState, held: bv16, d': D.DriveState)
    requires c.open && i < ACTUATOR_COUNT && D.Shows(d, c.rx.status[i])
    requires D.DriveStep(d, held, Sent(c, frames, quickStop).controlWord[i], d')
    ensures var mode := ActuatorMode(c, StepHoming(c, frames, quickStop).mode, i);
            var c' := Write(c, frames, quickStop);
            D.Cycle(mode, D.Axis(d, held, c.lastWord[i]), D.Axis(d', c'.lastWord[i], c'.lastWord[i]))
  {}

  // ----------------------------------- Class -----------------------------------

  class HandComms {
    const side: P.HandSide
    const disabled: Mask
    var open: bool
    var controlActive: bool
    var rx: StateFrames
    var lastWord: WordArray
    var seenHigh: Mask
    const homing: H.HomingSequence
    var silent: nat
    var anyFrame: bool

    ghost function State(): Comms
      reads this, homing
    {
      Comms(side, disabled, open, controlActive, rx, lastWord, seenHigh, homing.State(), silent, anyFrame)
    }

    constructor (side: P.HandSide, disabled: Mask)
      ensures !open && !controlActive && !anyFrame && silent == 0 && fresh(homing)
      ensures this.side == side && this.disabled == disabled && !homing.active
      ensures rx == NoState() && lastWord == NoWords() && seenHigh == AllOf(false)
    {
      this.side, this.disabled := side, disabled;
      open, controlActive, anyFrame, silent := false, false, false, 0;
      rx, lastWord, seenHigh := NoState(), NoWords(), AllOf(false);
      homing := new H.HomingSequence();
    }

    // `ok` is whether the socket could be opened and no other master was heard
    method Connect(ok: bool)
      modifies this, homing
      ensures State() == if ok then Connected(old(State())) else old(State()).(open := false)
    {
      if !ok {
        open := false;
        return;
      }
      open := true;
      rx := NoState();
      seenHigh := AllOf(false);
      lastWord := NoWords();
      silent := 0;
      anyFrame := false;
      homing.CancelHoming();
    }

    method Disconnect()
      modifies this
      ensures State() == Disconnected(old(State()))
    {
      open := false;
      controlActive := false;
    }

    method RunSession() returns (ok: bool)
      modifies this
      ensures ok == open && State() == Run(old(State()))
    {
      ok := open;
      if ok {
        controlActive := true;
      }
    }

    method StopSession()
      modifies this
      ensures State() == Stop(old(State()))
    {
      controlActive := false;
    }

    method StartHoming() returns (ok: bool)
      modifies homing
      ensures ok == controlActive && State() == Home(old(State()))
    {
      ok := controlActive;
      if ok {
        homing.StartHoming(disabled);
      }
    }

    method DrainQueue(queue: seq<P.CanFrame>) returns (frames: StateFrames, receivedAny: bool)
      ensures frames == P.Drain(side, queue, rx) && receivedAny == ReceivedAny(side, queue)
    {
      receivedAny, frames := false, rx;
      var k := 0;
      while k < |queue|
        invariant 0 <= k <= |queue|
        invariant frames == P.Drain(side, queue[..k], rx)
        invariant receivedAny == ReceivedAny(side, queue[..k])
      {
        assert queue[..k + 1] == queue[..k] + [queue[k]];
        P.DrainSnoc(side, queue[..k], queue[k], rx);
        var result;
        result, frames := P.DecodeFrame(side, queue[k], frames);
        receivedAny := receivedAny || result == P.Decoded;
        k := k + 1;
      }
      assert queue[..|queue|] == queue;
    }

    // Takes in all that has arrived since the last call
    method ReadFrames(queue: seq<P.CanFrame>)
      modifies this
      ensures State() == Read(old(State()), queue)
    {
      if !open {
        return;
      }
      hide ReceivedAny;
      var frames, receivedAny := DrainQueue(queue);
      rx := frames;
      if receivedAny {
        silent := 0;
        anyFrame := true;
      } else if silent < UINT32_MAX {
        silent := silent + 1;
      }
      RecordHigh();
    }

    method RecordHigh()
      modifies this`seenHigh
      ensures State() == old(State()).(seenHigh := SeenHigh(old(seenHigh), rx))
    {
      var seen := seenHigh;
      for i := 0 to ACTUATOR_COUNT
        invariant |seen| == ACTUATOR_COUNT
        invariant forall j :: 0 <= j < i ==> seen[j] == (seenHigh[j] || QuickStopHigh(rx, j))
        invariant forall j :: i <= j < ACTUATOR_COUNT ==> seen[j] == seenHigh[j]
      {
        if QuickStopHigh(rx, i) {
          seen := seen[i := true];
        }
      }
      assert seen == SeenHigh(seenHigh, rx);
      seenHigh := seen;
    }

    method CheckQuickStop() returns (attained: bool)
      ensures attained == QuickStopAttained(State())
    {
      for i := 0 to ACTUATOR_COUNT
        invariant forall j :: 0 <= j < i && !disabled[j] && seenHigh[j] ==> !QuickStopHigh(rx, j)
      {
        if disabled[i] || !seenHigh[i] {
          continue;
        }
        if QuickStopHigh(rx, i) {
          return false;
        }
      }
      return true;
    }

    method CheckDrives() returns (enabled: bool)
      ensures enabled <==> DrivesEnabled(State())
    {
      enabled := C.EnableSettled(rx.status, rx.errorCode, disabled);
    }

    // Returns what is put on the wire; sending itself is not modelled
    method WriteFrames(frames: CommandFrames, quickStop: bool) returns (sent: CommandFrames)
      requires open
      modifies this, homing
      ensures State() == Write(old(State()), frames, quickStop)
      ensures sent == Sent(old(State()), frames, quickStop)
    {
      var mode := C.Enable;
      sent := frames;
      if quickStop {
        homing.CancelHoming();
        mode := C.QuickStop;
      } else if homing.active {
        mode, sent := homing.StepHoming(rx, sent);
      }
      var words := lastWord;
      for i := 0 to ACTUATOR_COUNT
        invariant |words| == ACTUATOR_COUNT
        invariant forall j :: 0 <= j < i ==>
          words[j] == C.ControlWord(if disabled[j] then C.Shutdown else mode, rx.status[j], lastWord[j])
        invariant forall j :: i <= j < ACTUATOR_COUNT ==> words[j] == lastWord[j]
      {
        var actuatorMode := if disabled[i] then C.Shutdown else mode;
        words := words[i := C.ControlWord(actuatorMode, rx.status[i], words[i])];
      }
      assert words == ControlWords(old(State()), mode);
      lastWord := words;
      sent := sent.(controlWord := words);
    }
  }
}
