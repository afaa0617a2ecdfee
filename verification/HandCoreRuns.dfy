/** Runs of the hand that are possible: a homing that succeeds, and the runs in which a call says
    more than the hand has done. Every one starts with a newly constructed hand. */
module HandCoreRuns {
  import opened Types
  import opened Frames
  import opened ActionCheck
  import opened HandCore
  import opened HandCoreInvariant
  import opened HandCoreHistory
  import opened HandCoreSafety
  import opened HandCoreHoming
  import opened HandCoreCalls
  import opened HandCoreCycles
  import opened HandCorePoses
  import W = Cia402
  import C = HandComms
  import P = Protocol
  import H = HomingSequence
  import J = JointPositionController
  import M = CommandMapping

  // ------------------------------- What the hand sends -------------------------------

  const ENABLED: bv16 := 0x0027
  const SWITCHED_ON: bv16 := 0x0023
  const HOMED: bv16 := 0x1027

  // One status frame: the same word of every actuator, and no error
  function StatusFrame(side: P.HandSide, word: bv16): P.CanFrame {
    P.RawFrame(P.StateId(side, P.StatusWord), 64,
               seq(64, i requires 0 <= i < 64 => StatusByte(word, i)))
  }

  // The low byte of a word comes first, and behind the words come the error codes
  function StatusByte(word: bv16, i: nat): P.Byte { if i < 32 then P.ByteOf(word as int, i % 2) else 0 }

  function Report(side: P.HandSide, word: bv16): seq<P.CanFrame> { [StatusFrame(side, word)] }

  ghost predicate AllShow(rx: StateFrames, word: bv16) {
    forall i :: 0 <= i < ACTUATOR_COUNT ==> rx.status[i] == word && rx.errorCode[i] == 0
  }

  lemma StatusIsClassified(side: P.HandSide, word: bv16)
    ensures var rx := StatusFrame(side, word);
            P.Classify(side, rx).Decoded? && P.SignalOf(side, P.IdOf(rx)) == Some(P.StatusWord)
  {}

  lemma StatusBytes(side: P.HandSide, word: bv16, i: nat)
    requires i < ACTUATOR_COUNT
    ensures var data := StatusFrame(side, word).data; P.ReadWord(data, 2 * i) == word && P.ReadWord(data, 32 + 2 * i) == 0
  {
    hide P.ByteOf, P.WordOf;
    P.WordBytes(word);
    P.WordBytes(0);
    assert P.ByteOf(0, 0) == 0 && P.ByteOf(0, 1) == 0 by { hide P.WordOf; ZeroBytes(); }
    var data := StatusFrame(side, word).data;
    assert data[2 * i] == P.ByteOf(word as int, 0) && data[2 * i + 1] == P.ByteOf(word as int, 1);
  }

  lemma ZeroBytes()
    ensures P.ByteOf(0, 0) == 0 && P.ByteOf(0, 1) == 0
  {}

  lemma StatusIsDecoded(side: P.HandSide, word: bv16, frames: StateFrames)
    ensures P.Classify(side, StatusFrame(side, word)).Decoded?
    ensures AllShow(P.Decode(side, StatusFrame(side, word), frames), word)
  {
    hide StatusFrame, P.Classify, P.SignalOf, P.IdOf, P.ReadWord;
    StatusIsClassified(side, word);
    var decoded, data := P.Decode(side, StatusFrame(side, word), frames), StatusFrame(side, word).data;
    assert decoded.status == P.Words(data, 0, ACTUATOR_COUNT) && decoded.errorCode == P.Words(data, 32, ACTUATOR_COUNT);
    forall i | 0 <= i < ACTUATOR_COUNT
      ensures decoded.status[i] == word && decoded.errorCode[i] == 0
    {
      StatusBytes(side, word, i);
      assert decoded.status[i] == P.ReadWord(data, 0 + 2 * i);
    }
  }

  lemma ReadReports(c: C.Comms, word: bv16)
    requires c.open
    ensures var r := C.Read(c, Report(c.side, word));
            && r == c.(rx := r.rx, seenHigh := r.seenHigh, anyFrame := true, silent := 0)
            && AllShow(r.rx, word)
  {
    var queue := Report(c.side, word);
    StatusIsDecoded(c.side, word, c.rx);
    hide P.Decode, P.Classify, StatusFrame, AllShow;
    assert queue[1..] == [];
    assert C.ReceivedAny(c.side, queue) by { assert P.Classify(c.side, queue[0]).Decoded?; }
    assert P.Drain(c.side, queue, c.rx) == P.Decode(c.side, queue[0], c.rx);
  }

  lemma ReadNothing(c: C.Comms)
    requires c.open && c.silent < C.UINT32_MAX
    ensures var r := C.Read(c, []); r == c.(seenHigh := r.seenHigh, silent := c.silent + 1)
  {}

  // ------------------------------------ Any cycle ------------------------------------

  // What the first step of a cycle makes of the link, and of the lifecycle
  lemma BeginLink(s: Setup, c: Core, input: RtInput)
    requires c.thread.Alive?
    ensures var r := BeginCycle(s, c, input);
            && r.thread.Alive? && r.thread.loop.pc.BeforeReread?
            && r.comms == C.Read(if c.requestHoming && c.requested == Running then C.Home(c.comms) else c.comms, input.queue)
            && r.checkFirstFrame == (c.checkFirstFrame || (r.comms.anyFrame && !c.thread.loop.firstFrameReported))
            && r.thread.loop.firstFrameReported == (c.thread.loop.firstFrameReported || r.comms.anyFrame)
            && r.thread.loop.pc.cycle.receiving == Receiving(s, r.comms)
            && r.thread.loop.pc.cycle.requested == c.requested && r.thread.loop.pc.cycle.observed == r.lifecycle
            && r.lifecycle == (if r.comms.anyFrame && c.thread.loop.previousReceiving && !Receiving(s, r.comms) then Faulted
                               else c.lifecycle)
            && (r.lifecycle != c.lifecycle ==> r.stopCause == ReceiveSilence)
  {
    hide C.Read, C.Home, Taken, TakeHold, Refreshed, Receiving, Compute;
    var c1 := Taken(c);
    var c2 := Observe(c1, input.queue);
    TakenDoes(c);
    RefreshedDoes(c.thread.loop, c.mail, c.mailConfig);
    TakeHoldDoes(WatchLink(s, c2), input.joints);
    ComputeDoes(s, Watched(s, c, input), input.joints);
  }

  lemma SameJudgement(a: Core, b: Core, receiving: bool)
    requires a.lifecycle == b.lifecycle && a.requested == b.requested && a.comms.anyFrame == b.comms.anyFrame
    requires C.DrivesEnabled(a.comms) == C.DrivesEnabled(b.comms) && C.QuickStopAttained(a.comms) == C.QuickStopAttained(b.comms)
    ensures NextLifecycle(a, receiving) == NextLifecycle(b, receiving)
  {}

  // What the last step does with an open link where the frames go out
  lemma FinishSent(s: Setup, c: Core)
    requires Inv(s, c) && c.thread.Alive? && c.thread.loop.pc.AfterReread? && c.comms.open
    ensures var r, k, latest := FinishCycle(c, Sent), c.thread.loop.pc.cycle, c.thread.loop.pc.latest;
            && r.thread == Alive(c.thread.loop.(pc := Top))
            && r.comms == (if ControlSession(k.requested, k.observed) then C.Write(c.comms, k.frames, QuickStops(k, latest)) else c.comms)
            && r.checkCommunication == k.receiving && r.lifecycle == NextLifecycle(c, k.receiving)
            && r.checkFirstFrame == c.checkFirstFrame
  {
    hide FinishCycle, Transmitted, Receiving, Follows, NextLifecycle, Inv, C.Write, C.DrivesEnabled, C.QuickStopAttained;
    var w := FinishShapes(s, c, Sent);
    TransmittedComms(c, Sent);
    SentFaultsNot(c);
    var t := Transmitted(c, Sent);
    TransmittedStep(s, c, Sent);
    SameEvidence(c.comms, t.comms);
    SameJudgement(t, c, c.thread.loop.pc.cycle.receiving);
  }

  lemma TransmitSent(c: Core, k: Cycle, latest: Lifecycle)
    requires c.comms.open
    ensures var t := Transmit(c, k, latest, Sent);
            && t.lifecycle == c.lifecycle && t.checkCommunication == k.receiving && t.checkFirstFrame == c.checkFirstFrame
            && t.requested == c.requested
  {
    hide C.Write, TrailAfter, TransmitFaults, TransientAfter, QuickStops;
    SentIsNoFault(c, k, latest);
  }

  lemma SentFaultsNot(c: Core)
    requires c.thread.Alive? && c.thread.loop.pc.AfterReread? && c.comms.open
    ensures var t, k := Transmitted(c, Sent), c.thread.loop.pc.cycle;
            && t.lifecycle == c.lifecycle && t.checkCommunication == k.receiving && t.checkFirstFrame == c.checkFirstFrame
            && t.requested == c.requested
  {
    hide Transmit;
    TransmitSent(c, c.thread.loop.pc.cycle, c.thread.loop.pc.latest);
  }

  lemma SentIsNoFault(c: Core, k: Cycle, latest: Lifecycle)
    requires c.comms.open
    ensures !TransmitFaults(c, k, latest, Sent)
  {}

  // And where a send fails for good while Running
  lemma FinishHard(s: Setup, c: Core)
    requires Inv(s, c) && c.thread.Alive? && c.thread.loop.pc.AfterReread? && c.comms.open
    requires var k, latest := c.thread.loop.pc.cycle, c.thread.loop.pc.latest;
             ControlSession(k.requested, k.observed) && latest == Running && k.observed != Faulted
    ensures var r, k := FinishCycle(c, Hard), c.thread.loop.pc.cycle;
            && r.thread == Alive(c.thread.loop.(pc := Top))
            && r.comms == C.Write(c.comms, k.frames, false) && r.lifecycle == Faulted && r.stopCause == TransmitFailure
  {
    hide FinishCycle, Transmitted, Receiving, Follows, NextLifecycle, Inv, C.Write;
    var w := FinishShapes(s, c, Hard);
    TransmittedComms(c, Hard);
    HardFaults(c);
    NextLifecycleIs(Transmitted(c, Hard), c.thread.loop.pc.cycle.receiving);
  }

  lemma HardFaults(c: Core)
    requires c.thread.Alive? && c.thread.loop.pc.AfterReread? && c.comms.open
    requires var k, latest := c.thread.loop.pc.cycle, c.thread.loop.pc.latest;
             ControlSession(k.requested, k.observed) && latest == Running && k.observed != Faulted
    ensures var t := Transmitted(c, Hard); t.lifecycle == Faulted && t.stopCause == TransmitFailure
    ensures !QuickStops(c.thread.loop.pc.cycle, c.thread.loop.pc.latest)
  {
    HardIsFault(c, c.thread.loop.pc.cycle, c.thread.loop.pc.latest);
    hide C.Write, TrailAfter, TransmitFaults, TransientAfter;
  }

  lemma HardIsFault(c: Core, k: Cycle, latest: Lifecycle)
    requires c.comms.open && latest == Running && k.observed != Faulted
    ensures TransmitFaults(c, k, latest, Hard)
  {}

  // ---------------------------------- Whole cycles -----------------------------------

  ghost predicate Reachable(s: Setup, c: Core) {
    exists cores, steps :: IsRun(s, cores, steps) && |cores| == |steps| + 1 && cores[|steps|] == c
  }

  lemma Started(s: Setup, side: P.HandSide, memory: M.Memory, homing: H.Homing)
    requires !homing.active
    ensures Reachable(s, Constructed(side, AllOf(false), memory, homing))
  {
    hide Constructed;
    var cores: seq<Core> := [Constructed(side, AllOf(false), memory, homing)];
    assert IsRun(s, cores, []);
  }

  lemma Extended(s: Setup, cores: seq<Core>, steps: seq<Step>, step: Step) returns (more: seq<Core>)
    requires IsRun(s, cores, steps) && Enabled(cores[|steps|], step)
    ensures more == cores + [Apply(s, cores[|steps|], step)] && IsRun(s, more, steps + [step])
  {
    hide Constructed, Apply, Enabled;
    more := cores + [Apply(s, cores[|steps|], step)];
  }

  lemma Reached(s: Setup, c: Core)
    requires Reachable(s, c)
    ensures Inv(s, c)
  {
    hide IsRun, Inv;
    var cores, steps :| IsRun(s, cores, steps) && |cores| == |steps| + 1 && cores[|steps|] == c;
    AlwaysInv(s, cores, steps, |steps|);
  }

  lemma Next(s: Setup, c: Core, step: Step) returns (r: Core)
    requires Reachable(s, c) && Enabled(c, step)
    ensures r == Apply(s, c, step) && Reachable(s, r) && Inv(s, r)
  {
    hide IsRun, Inv, Apply, Enabled;
    var cores, steps :| IsRun(s, cores, steps) && |cores| == |steps| + 1 && cores[|steps|] == c;
    r := Apply(s, c, step);
    var more := Extended(s, cores, steps, step);
    RunLength(s, more, steps + [step]);
    assert more[|steps + [step]|] == r;
    Reached(s, r);
  }

  function Input(queue: seq<P.CanFrame>): RtInput {
    RtInput(queue, seq(J.JOINT_COUNT, _ => None), false, true, [])
  }

  // The link as a cycle finds it
  function Seen(c: Core, queue: seq<P.CanFrame>): C.Comms {
    C.Read(if c.requestHoming && c.requested == Running then C.Home(c.comms) else c.comms, queue)
  }

  // Between cycles on an open link
  ghost predicate Up(c: Core) {
    c.thread.Alive? && c.thread.loop.pc.Top? && c.comms.open && c.comms.controlActive && !c.destroyed
  }

  // What stays through a cycle
  ghost predicate SameSession(c: Core, r: Core) {
    && r.requested == c.requested && r.user == c.user && r.links == c.links && r.runs == c.runs && r.destroyed == c.destroyed
    && r.comms.open == c.comms.open && r.comms.controlActive == c.comms.controlActive && r.comms.disabled == c.comms.disabled
    && r.comms.side == c.comms.side
  }

  // In the middle of a cycle that is receiving, past its re-read
  ghost predicate Begun(s: Setup, c: Core, seen: C.Comms, r: Core) {
    && c.thread.Alive? && r.thread.Alive? && r.comms == seen && SameSession(c, r) && r.lifecycle == c.lifecycle
    && r.checkFirstFrame == (c.checkFirstFrame || (seen.anyFrame && !c.thread.loop.firstFrameReported))
    && r.checkCommunication == c.checkCommunication && !r.requestHoming
    && r.activeHoming == (c.activeHoming || (c.requestHoming && c.requested == Running))
    && r.resultHoming == c.resultHoming
    && r.homingState == (if c.requestHoming && c.requested != Running then HomingState.Failed else c.homingState)
    && r.thread.loop.firstFrameReported == (c.thread.loop.firstFrameReported || seen.anyFrame)
    && (seen.anyFrame ==> r.thread.loop.previousReceiving)
  }

  ghost predicate IsMid(c: Core, r: Core) {
    r.thread.Alive? && match r.thread.loop.pc
      case Top => false
      case BeforeReread(k) => IsCycleOf(c, k)
      case AfterReread(k, latest) => latest == c.requested && IsCycleOf(c, k)
  }

  predicate IsCycleOf(c: Core, k: Cycle) { k.receiving && k.requested == c.requested && k.observed == c.lifecycle }

  lemma SeenSession(c: Core, queue: seq<P.CanFrame>)
    ensures var seen := Seen(c, queue);
            && seen.open == c.comms.open && seen.controlActive == c.comms.controlActive && seen.disabled == c.comms.disabled
            && seen.side == c.comms.side
  {
    hide P.Drain, C.ReceivedAny, C.SeenHigh;
  }

  lemma BeginReceiving(s: Setup, c: Core, queue: seq<P.CanFrame>) returns (r: Core)
    requires Reachable(s, c) && Up(c) && c.lifecycle != Faulted && c.requested != Disconnected
    requires Receiving(s, Seen(c, queue))
    ensures r == Apply(s, c, LoopTop(Input(queue))) && Reachable(s, r) && Begun(s, c, Seen(c, queue), r)
    ensures IsMid(c, r) && r.thread.loop.pc.BeforeReread?
  {
    hide C.Read, C.Home, BeginCycle, Inv, IsRun;
    var step := LoopTop(Input(queue));
    r := Next(s, c, step);
    Reached(s, r);
    TopBegins(s, c, step);
    BeginLink(s, c, step.input);
    SeenSession(c, queue);
    var w := BeginShapes(s, c, step.input);
    LinkIsWatched(s, r);
  }

  lemma LinkIsWatched(s: Setup, c: Core)
    requires Inv(s, c) && c.thread.Alive? && c.comms.anyFrame
    ensures c.thread.loop.previousReceiving == Receiving(s, c.comms)
  {}

  lemma RereadReceiving(s: Setup, c: Core) returns (r: Core)
    requires Reachable(s, c) && c.thread.Alive? && c.thread.loop.pc.BeforeReread?
    ensures r == Apply(s, c, LoopReread) && Reachable(s, r) && r == RtReread(c)
  {
    hide IsRun, Inv;
    r := Next(s, c, LoopReread);
  }

  // What the last step of such a cycle leaves
  ghost predicate Finished(c: Core, r: Core) {
    && Up(r) && SameSession(c, r) && r.checkCommunication && r.checkFirstFrame == c.checkFirstFrame
    && r.lifecycle == NextLifecycle(c, true) && r.requestHoming == c.requestHoming
    && r.comms.rx == c.comms.rx && r.comms.anyFrame == c.comms.anyFrame && r.comms.silent == c.comms.silent
    && r.comms.homing == (if c.requested == Running && c.comms.homing.active then H.Step(c.comms.homing, c.comms.rx) else c.comms.homing)
    && (!c.activeHoming ==> !r.activeHoming && r.resultHoming == c.resultHoming && r.homingState == c.homingState)
    && c.thread.Alive? && r.thread.loop.firstFrameReported == c.thread.loop.firstFrameReported
    && r.thread.loop.previousReceiving == c.thread.loop.previousReceiving
  }

  lemma WriteLeaves(c: C.Comms, frames: CommandFrames)
    requires c.open
    ensures var r := C.Write(c, frames, false);
            && r == c.(homing := r.homing, lastWord := r.lastWord)
            && r.homing == (if c.homing.active then H.Step(c.homing, c.rx) else c.homing)
  {
    hide H.Step, H.Command, H.WordMode, C.ControlWords;
  }

  lemma FinishReceiving(s: Setup, c: Core, k: Cycle) returns (r: Core)
    requires Reachable(s, c) && c.thread.Alive? && c.thread.loop.pc == AfterReread(k, c.requested)
    requires k.receiving && k.requested == c.requested && k.observed != Faulted
    requires c.comms.open && c.comms.controlActive && !c.destroyed && (c.requested == Running || c.requested == Connected)
    ensures r == Apply(s, c, LoopFinish(Sent)) && Reachable(s, r) && Finished(c, r)
  {
    hide FinishCycle, IsRun, Inv, C.Write, NextLifecycle, H.Step;
    r := Next(s, c, LoopFinish(Sent));
    Reached(s, c);
    FinishSent(s, c);
    FinishKeepsOpen(s, c, Sent);
    WriteLeaves(c.comms, k.frames);
    FinishKeepsSession(s, c, Sent);
  }

  lemma FinishKeepsSession(s: Setup, c: Core, tx: TxResult)
    requires Inv(s, c) && c.thread.Alive? && c.thread.loop.pc.AfterReread?
    ensures var r := FinishCycle(c, tx);
            r.runs == c.runs && r.destroyed == c.destroyed && r.comms.controlActive == c.comms.controlActive
  {
    hide FinishCycle, Transmitted, Inv, Receiving, Follows, NextLifecycle;
    var w := FinishShapes(s, c, tx);
  }

  // ----------------------------------- Connecting ------------------------------------

  // Right after connect() has started the loop
  ghost predicate Opening(c: Core, side: P.HandSide) {
    && Up(c) && c.requested == Connected && c.lifecycle == Disconnected && c.user == AwaitFrame(false, NotRecorded)
    && c.comms.side == side && c.comms.disabled == AllOf(false) && !c.comms.anyFrame && !c.comms.homing.active
    && !c.thread.loop.firstFrameReported && !c.checkFirstFrame && !c.checkCommunication
    && !c.requestHoming && !c.activeHoming && c.homingState == NotRun
  }

  const LINK: LinkInput := LinkInput(true, true)

  lemma ConstructedOpens(s: Setup, side: P.HandSide, memory: M.Memory, homing: H.Homing)
    ensures var c0 := Constructed(side, AllOf(false), memory, homing);
            Enabled(c0, UserCall(CallConnect(LINK))) && Opening(Apply(s, c0, UserCall(CallConnect(LINK))), side)
  {}

  lemma Opens(s: Setup, side: P.HandSide, memory: M.Memory, homing: H.Homing) returns (c: Core)
    requires !homing.active
    ensures Reachable(s, c) && Opening(c, side)
  {
    hide Constructed, Apply, Opening, Reachable;
    ConstructedOpens(s, side, memory, homing);
    Started(s, side, memory, homing);
    c := Next(s, Constructed(side, AllOf(false), memory, homing), UserCall(CallConnect(LINK)));
  }

  lemma ReportIsSeen(s: Setup, c: Core, word: bv16)
    requires c.comms.open
    ensures var seen := Seen(c, Report(c.comms.side, word));
            && Receiving(s, seen) && seen.anyFrame && seen.silent == 0 && AllShow(seen.rx, word)
            && seen.homing == (if c.requestHoming && c.requested == Running then C.Home(c.comms).homing else c.comms.homing)
  {
    hide C.Read, AllShow;
    ReadReports(c.comms, word);
    ReadReports(C.Home(c.comms), word);
  }

  // The first frame is in, and the cycle that brought it is not over
  ghost predicate FirstFrameIn(c: Core, side: P.HandSide) {
    && c.thread.Alive? && c.thread.loop.pc.BeforeReread? && c.comms.open && c.comms.controlActive && !c.destroyed
    && c.requested == Connected && c.lifecycle == Disconnected && c.user == AwaitFrame(false, NotRecorded)
    && c.comms.side == side && c.comms.disabled == AllOf(false) && c.comms.anyFrame && c.comms.silent == 0 && !c.comms.homing.active
    && c.checkFirstFrame && !c.checkCommunication && !c.requestHoming && !c.activeHoming && c.homingState == NotRun
    && c.thread.loop.previousReceiving
    && IsCycleOf(c, c.thread.loop.pc.cycle)
  }

  lemma HearsFirstFrame(s: Setup, c: Core, side: P.HandSide, word: bv16) returns (r: Core)
    requires Reachable(s, c) && Opening(c, side)
    ensures Reachable(s, r) && FirstFrameIn(r, side)
  {
    hide Reachable, C.Read, C.Home, Receiving, Apply, Report;
    ReportIsSeen(s, c, word);
    r := BeginReceiving(s, c, Report(side, word));
  }

  // ------------------------- A homing that reads as in progress ----------------------

  lemma FirstFramePolled(s: Setup, c: Core)
    requires c.user.AwaitFrame? && c.checkFirstFrame
    ensures Enabled(c, UserPoll(false, LINK)) && Apply(s, c, UserPoll(false, LINK)) == c.(lifecycle := Connected, user := Outside(OK))
  {}

  // connect() may succeed before a cycle has reported the link as up, and a start_homing() at once
  // is refused: the hand then reads as homing, and no homing is pending or under way
  lemma HomingMayOnlyReadAsInProgress(s: Setup, side: P.HandSide, memory: M.Memory, homing: H.Homing) returns (c: Core, r: Core)
    requires !homing.active
    ensures Reachable(s, c) && c.user == Outside(OK) && Enabled(c, UserCall(CallStartHoming))
    ensures r == Apply(s, c, UserCall(CallStartHoming)) && Reachable(s, r)
    ensures r.user == Outside(Refused(CommunicationLost)) && r.homingState == HomingState.InProgress && !IsHoming(r)
  {
    hide Reachable, StartHoming, Constructed, Opening;
    var start := Opens(s, side, memory, homing);
    var heard := HearsFirstFrame(s, start, side, ENABLED);
    hide Apply;
    FirstFramePolled(s, heard);
    c := Next(s, heard, UserPoll(false, LINK));
    r := Next(s, c, UserCall(CallStartHoming));
    RefusedHomingReadsInProgress(c);
    assert r == StartHoming(c) by { StartHomingApplied(s, c); }
    RefusedForSilence(c);
  }

  lemma StartHomingApplied(s: Setup, c: Core)
    requires Enabled(c, UserCall(CallStartHoming))
    ensures Apply(s, c, UserCall(CallStartHoming)) == StartHoming(c)
  {
    hide StartHoming;
  }

  lemma RefusedForSilence(c: Core)
    requires Checked(c, Action.Home, true).OK? && !c.checkCommunication && !ControlConfirmed(c)
    ensures StartHoming(c).user == Outside(Refused(CommunicationLost))
  {
    hide Checked, PreparedForHoming, RequestControl;
    PreparedIs(c);
    StartHomingIs(c);
  }

  // ------------------------------- A fault written over ------------------------------

  // The user waits in connect(), and nothing has come in for n cycles
  ghost predicate Silent(c: Core, n: nat) {
    && Up(c) && c.requested == Connected && c.lifecycle == Connected && c.user == AwaitFrame(false, NotRecorded)
    && c.checkFirstFrame && c.comms.anyFrame && c.comms.silent == n && c.thread.loop.previousReceiving
    && !c.requestHoming && !c.activeHoming && !c.comms.homing.active
  }

  lemma FirstCycleEnds(s: Setup, c: Core, side: P.HandSide) returns (r: Core)
    requires Reachable(s, c) && FirstFrameIn(c, side)
    ensures Reachable(s, r) && Silent(r, 0) && r.checkCommunication
    ensures r.comms.side == side && r.comms.disabled == AllOf(false) && r.homingState == NotRun
  {
    hide Reachable, Apply, C.DrivesEnabled, C.QuickStopAttained, H.Step;
    var m := RereadReceiving(s, c);
    r := FinishReceiving(s, m, c.thread.loop.pc.cycle);
  }

  lemma NothingIsSeen(s: Setup, c: Core)
    requires c.comms.open && c.comms.anyFrame && c.comms.silent < C.UINT32_MAX && !c.requestHoming
    ensures var seen := Seen(c, []);
            && seen == c.comms.(seenHigh := seen.seenHigh, silent := c.comms.silent + 1)
            && (Receiving(s, seen) <==> c.comms.silent < s.lossCycles)
  {
    hide C.Read, C.Home;
    ReadNothing(c.comms);
  }

  lemma SilentCycle(s: Setup, c: Core, n: nat) returns (r: Core)
    requires Reachable(s, c) && Silent(c, n) && n < s.lossCycles < C.UINT32_MAX
    ensures Reachable(s, r) && Silent(r, n + 1)
  {
    hide Reachable, Apply, C.DrivesEnabled, C.QuickStopAttained, H.Step, Receiving, C.Read, C.Home;
    NothingIsSeen(s, c);
    var b := BeginReceiving(s, c, []);
    var m := RereadReceiving(s, b);
    r := FinishReceiving(s, m, b.thread.loop.pc.cycle);
  }

  lemma {:induction false} SilentCycles(s: Setup, c: Core, n: nat) returns (r: Core)
    requires Reachable(s, c) && Silent(c, n) && n <= s.lossCycles < C.UINT32_MAX
    ensures Reachable(s, r) && Silent(r, s.lossCycles)
    decreases s.lossCycles - n
  {
    hide Reachable, Silent;
    if n == s.lossCycles {
      return c;
    }
    var next := SilentCycle(s, c, n);
    r := SilentCycles(s, next, n + 1);
  }

  // One more silent cycle is a fault
  lemma SilenceFaults(s: Setup, c: Core) returns (r: Core)
    requires Reachable(s, c) && Silent(c, s.lossCycles) && s.lossCycles < C.UINT32_MAX
    ensures Reachable(s, r) && r.thread.Alive? && r.thread.loop.pc.Top? && r.lifecycle == Faulted && r.stopCause == ReceiveSilence
    ensures r.user == AwaitFrame(false, NotRecorded) && r.checkFirstFrame && r.requested == Connected && !r.destroyed
    ensures r.comms.side == c.comms.side && r.comms.disabled == c.comms.disabled
  {
    hide Reachable, Receiving, C.Read, C.Home, BeginCycle, FinishCycle, Inv;
    var begin := LoopTop(Input([]));
    NothingIsSeen(s, c);
    var b := Next(s, c, begin);
    TopBegins(s, c, begin);
    BeginLink(s, c, Input([]));
    var w := BeginShapes(s, c, Input([]));
    var m := Next(s, b, LoopReread);
    r := Next(s, m, LoopFinish(Sent));
    SilentFinish(s, m);
  }

  // Without a reconnect it ends the loop
  lemma FaultEndsLoop(s: Setup, c: Core) returns (r: Core)
    requires Reachable(s, c) && c.thread.Alive? && c.thread.loop.pc.Top? && c.lifecycle == Faulted && !s.autoReconnect
    ensures Reachable(s, r) && r == c.(thread := Ended)
  {
    hide Reachable, RtTop, Inv, TryReconnect;
    r := Next(s, c, LoopTop(Input([])));
    TopOfFaultedIs(s, c, Input([]));
  }

  lemma SilentFinish(s: Setup, c: Core)
    requires Inv(s, c) && c.thread.Alive? && c.thread.loop.pc.AfterReread? && c.comms.open
    requires c.lifecycle == Faulted && c.stopCause == ReceiveSilence
    ensures var r := FinishCycle(c, Sent);
            && r.lifecycle == Faulted && r.stopCause == ReceiveSilence && r.user == c.user && r.requested == c.requested
            && r.checkFirstFrame == c.checkFirstFrame && r.thread == Alive(c.thread.loop.(pc := Top))
            && r.destroyed == c.destroyed && r.comms.side == c.comms.side && r.comms.disabled == c.comms.disabled
  {
    hide FinishCycle, Inv, C.Write;
    FinishSent(s, c);
    FinishKeepsFault(s, c, Sent);
    FinishKeepsOpen(s, c, Sent);
    FinishKeepsSession(s, c, Sent);
    SentKeepsCause(s, c);
    var k := c.thread.loop.pc.cycle;
    WriteKeepsSide(c.comms, k.frames, QuickStops(k, c.thread.loop.pc.latest));
  }

  lemma WriteKeepsSide(c: C.Comms, frames: CommandFrames, quickStop: bool)
    ensures var r := C.Write(c, frames, quickStop); r.side == c.side && r.disabled == c.disabled
  {
    hide C.StepHoming, C.ControlWords;
  }

  lemma SentKeepsCause(s: Setup, c: Core)
    requires Inv(s, c) && c.thread.Alive? && c.thread.loop.pc.AfterReread? && c.comms.open
    ensures FinishCycle(c, Sent).stopCause == c.stopCause
  {
    hide FinishCycle, Transmitted, Inv, Receiving, Follows, NextLifecycle;
    var w := FinishShapes(s, c, Sent);
    SentCause(c);
  }

  lemma SentCause(c: Core)
    requires c.thread.Alive? && c.thread.loop.pc.AfterReread? && c.comms.open
    ensures Transmitted(c, Sent).stopCause == c.stopCause
  {
    hide C.Write, TrailAfter, TransmitFaults, TransientAfter, QuickStops;
    SentIsNoFault(c, c.thread.loop.pc.cycle, c.thread.loop.pc.latest);
  }

  // For every silence that counts as a fault: the hand sends one frame and falls silent before the
  // next poll of connect(). The call succeeds, the hand reads as Connected, and no loop is left
  lemma ConnectMayHideFault(s: Setup, side: P.HandSide, memory: M.Memory, homing: H.Homing) returns (c: Core, r: Core)
    requires !homing.active && !s.autoReconnect && s.lossCycles < C.UINT32_MAX
    ensures Reachable(s, c) && c.user.AwaitFrame? && c.lifecycle == Faulted && c.stopCause == ReceiveSilence
    ensures Enabled(c, UserPoll(false, LINK)) && r == Apply(s, c, UserPoll(false, LINK)) && Reachable(s, r)
    ensures r.user == Outside(OK) && r.lifecycle == Connected && r.thread == Ended
  {
    hide Reachable, Constructed, Opening, Silent, Apply;
    var start := Opens(s, side, memory, homing);
    var heard := HearsFirstFrame(s, start, side, ENABLED);
    var silent := FirstCycleEnds(s, heard, side);
    silent := SilentCycles(s, silent, 0);
    var fault := SilenceFaults(s, silent);
    c := FaultEndsLoop(s, fault);
    FirstFramePolled(s, c);
    r := Next(s, c, UserPoll(false, LINK));
  }

  // ------------------------------ A homing that succeeds -----------------------------

  // A homing of all sixteen actuators, n cycles into a stage
  ghost predicate Homes(h: H.Homing, stage: H.Stage, n: nat) {
    && h.active && h.stage == stage && h.cycle == n && h.outcome.InProgress?
    && forall i :: 0 <= i < ACTUATOR_COUNT ==> !h.disabled[i] && !h.attained[i] && (h.present[i] <==> !stage.Enable?)
  }

  lemma WordMeans(rx: StateFrames, i: nat)
    requires i < ACTUATOR_COUNT
    ensures rx.status[i] == ENABLED ==> H.Enabled(rx, i) && !H.Attained(rx, i) && !H.Error(rx, i) && W.IsOperationEnabled(rx.status[i])
    ensures rx.status[i] == SWITCHED_ON ==> !H.Enabled(rx, i)
    ensures rx.status[i] == HOMED ==> H.Attained(rx, i) && !H.Error(rx, i) && W.IsOperationEnabled(rx.status[i])
  {}

  lemma StartHomes(h: H.Homing)
    ensures Homes(H.Started(h, AllOf(false)), H.Stage.Enable, 0)
  {}

  lemma EnablingHomes(h: H.Homing, rx: StateFrames)
    requires Homes(h, H.Stage.Enable, 0) && AllShow(rx, ENABLED)
    ensures Homes(H.Step(h, rx), H.ClearDisable, 0)
  {
    hide H.Enabled;
    forall i | 0 <= i < ACTUATOR_COUNT ensures H.Enabled(rx, i) { WordMeans(rx, i); }
    var latched := H.Latched(h.(cycle := 1), rx);
    assert latched[0];
  }

  lemma ClearingHomes(h: H.Homing, rx: StateFrames)
    ensures Homes(h, H.ClearDisable, 0) && AllShow(rx, SWITCHED_ON) ==> Homes(H.Step(h, rx), H.ClearReEnable, 0)
    ensures Homes(h, H.ClearReEnable, 0) && AllShow(rx, ENABLED) ==> Homes(H.Step(h, rx), H.Preload, 0)
  {
    hide H.Enabled, H.Attained;
    forall i | 0 <= i < ACTUATOR_COUNT
      ensures rx.status[i] == SWITCHED_ON ==> !H.Enabled(rx, i)
      ensures rx.status[i] == ENABLED ==> H.Enabled(rx, i) && !H.Attained(rx, i)
    {
      WordMeans(rx, i);
    }
  }

  lemma PushingHomes(h: H.Homing, rx: StateFrames, n: nat)
    ensures Homes(h, H.Preload, n) && n < H.PRELOAD_CYCLES ==>
              if n + 1 < H.PRELOAD_CYCLES then Homes(H.Step(h, rx), H.Preload, n + 1) else Homes(H.Step(h, rx), H.Settle, 0)
    ensures Homes(h, H.Settle, n) && n < H.SETTLE_CYCLES ==>
              if n + 1 < H.SETTLE_CYCLES then Homes(H.Step(h, rx), H.Settle, n + 1) else Homes(H.Step(h, rx), H.TriggerWait, 0)
  {}

  lemma TriggeringHomes(h: H.Homing, rx: StateFrames)
    requires Homes(h, H.TriggerWait, 0) && AllShow(rx, ENABLED)
    ensures var h' := H.Step(h, rx); Homes(h', H.TriggerWait, 1) && forall i :: 0 <= i < ACTUATOR_COUNT ==> h'.inProgressSeen[i]
  {
    hide H.Attained, H.Error;
    forall i | 0 <= i < ACTUATOR_COUNT ensures !H.Attained(rx, i) && !H.Error(rx, i) { WordMeans(rx, i); }
    var h1 := H.Triggered(h.(cycle := 1), rx);
    assert h1.present[0] && !h1.attained[0];
  }

  lemma AttainingHomes(h: H.Homing, rx: StateFrames)
    requires Homes(h, H.TriggerWait, 1) && (forall i :: 0 <= i < ACTUATOR_COUNT ==> h.inProgressSeen[i]) && AllShow(rx, HOMED)
    ensures var h' := H.Step(h, rx); !h'.active && h'.outcome.Succeeded?
  {
    hide H.Attained, H.Error;
    forall i | 0 <= i < ACTUATOR_COUNT ensures H.Attained(rx, i) && !H.Error(rx, i) { WordMeans(rx, i); }
  }

  // The hand in the middle of a homing, between cycles
  ghost predicate InHoming(c: Core, side: P.HandSide) {
    && Up(c) && c.requested == Running && c.lifecycle == Running && c.user == Outside(OK) && c.comms.side == side
    && c.comms.disabled == AllOf(false) && c.activeHoming && !c.requestHoming && c.comms.homing.active && c.homingState == HomingState.InProgress
  }

  // The hand right after start_homing()
  ghost predicate AskedToHome(c: Core, side: P.HandSide) {
    && Up(c) && c.requested == Running && c.lifecycle == Connected && c.user == Outside(OK) && c.comms.side == side
    && c.requestHoming && c.comms.disabled == AllOf(false) && c.homingState == HomingState.InProgress
  }

  lemma ShowsEnabled(c: C.Comms)
    requires AllShow(c.rx, ENABLED) && c.disabled == AllOf(false)
    ensures C.DrivesEnabled(c)
  {
    assert W.IsOperationEnabled(ENABLED);
    assert !c.disabled[0] && c.rx.errorCode[0] == 0 && W.IsOperationEnabled(c.rx.status[0]);
  }

  // The cycle that takes up the request, with all drives reported as enabled
  lemma FirstHomingCycle(s: Setup, c: Core, side: P.HandSide) returns (r: Core)
    requires Reachable(s, c) && AskedToHome(c, side)
    ensures Reachable(s, r) && InHoming(r, side) && Homes(r.comms.homing, H.ClearDisable, 0)
  {
    hide Reachable, Apply, C.DrivesEnabled, C.QuickStopAttained, H.Step, Receiving, Homes, C.Read, AllShow, Report;
    ReportIsSeen(s, c, ENABLED);
    StartHomes(c.comms.homing);
    var b := BeginReceiving(s, c, Report(side, ENABLED));
    var m := RereadReceiving(s, b);
    ShowsEnabled(m.comms);
    HomesIsActive(m.comms.homing, H.Stage.Enable, 0);
    EnablingHomes(m.comms.homing, m.comms.rx);
    r := FinishReceiving(s, m, b.thread.loop.pc.cycle);
    HomesIsActive(r.comms.homing, H.ClearDisable, 0);
    Reached(s, m);
    assert r == FinishCycle(m, Sent) by { hide *; SentApplied(s, m); }
    StaysActive(s, m, Sent);
  }

  lemma HomesIsActive(h: H.Homing, stage: H.Stage, n: nat)
    requires Homes(h, stage, n)
    ensures h.active
  {}

  lemma StaysActive(s: Setup, c: Core, tx: TxResult)
    requires Inv(s, c) && c.thread.Alive? && c.thread.loop.pc.AfterReread? && c.activeHoming
    ensures var r := FinishCycle(c, tx);
            r.comms.homing.active ==> r.activeHoming && r.homingState == c.homingState
  {
    hide FinishCycle, Inv, ReportsSuccess;
    CycleResolvesHoming(s, c, tx);
    OnlyInactiveReports(c, LoopFinish(tx), FinishCycle(c, tx));
    FinishVerdict(s, c, LoopFinish(tx));
    VerdictIsFinal(s, c, tx);
  }

  lemma OnlyInactiveReports(c: Core, step: Step, r: Core)
    ensures ReportsSuccess(c, step, r) ==> !r.comms.homing.active
  {}

  lemma VerdictIsFinal(s: Setup, c: Core, tx: TxResult)
    requires Inv(s, c) && c.thread.Alive? && c.thread.loop.pc.AfterReread? && c.activeHoming
    ensures var r := FinishCycle(c, tx); !r.activeHoming ==> !r.comms.homing.active
  {
    hide FinishCycle, Transmitted, Inv, Receiving, Follows, NextLifecycle;
    var w := FinishShapes(s, c, tx);
  }

  // A cycle in the middle of a homing steps it once
  lemma HomingCycle(s: Setup, c: Core, side: P.HandSide, word: bv16) returns (r: Core, rx: StateFrames)
    requires Reachable(s, c) && InHoming(c, side)
    ensures Reachable(s, r) && AllShow(rx, word) && r.comms.homing == H.Step(c.comms.homing, rx)
    ensures r.comms.homing.active ==> InHoming(r, side)
  {
    hide Reachable, Apply, C.DrivesEnabled, C.QuickStopAttained, H.Step, Receiving, C.Read, AllShow, Report;
    ReportIsSeen(s, c, word);
    var b := BeginReceiving(s, c, Report(side, word));
    var m := RereadReceiving(s, b);
    r := FinishReceiving(s, m, b.thread.loop.pc.cycle);
    rx := m.comms.rx;
    Reached(s, m);
    assert r == FinishCycle(m, Sent) by { hide *; SentApplied(s, m); }
    StaysActive(s, m, Sent);
  }

  lemma SentApplied(s: Setup, c: Core)
    requires Enabled(c, LoopFinish(Sent))
    ensures Apply(s, c, LoopFinish(Sent)) == FinishCycle(c, Sent)
  {
    hide FinishCycle;
  }

  lemma HomingIsAsked(c: Core)
    requires c.requested == Connected && c.lifecycle == Connected && c.checkCommunication && !c.destroyed && c.user.Outside?
    ensures var r := StartHoming(c);
            && r == c.(requested := Running, runs := r.runs, staged := r.staged, mail := r.mail, user := Outside(OK),
                       homingState := HomingState.InProgress, resultHoming := false, requestHoming := true)
  {
    hide PreparedForHoming, RequestControl, ControlStatus, Checked;
    assert Checked(c, Action.Home, true).OK? by { HomeIsAllowed(c); }
    PreparedIs(c);
    StartHomingIs(c);
    RequestControlIs(PreparedForHoming(c));
  }

  lemma HomeIsAllowed(c: Core)
    requires c.requested in AllowedStates(Action.Home) && c.lifecycle != Faulted && !c.destroyed
    ensures Checked(c, Action.Home, true).OK?
  {}

  // connect(), a first cycle, and a start_homing() that is accepted
  lemma AsksToHome(s: Setup, side: P.HandSide, memory: M.Memory, homing: H.Homing) returns (c: Core)
    requires !homing.active
    ensures Reachable(s, c) && AskedToHome(c, side)
  {
    hide Reachable, Constructed, Opening, Apply, StartHoming;
    var start := Opens(s, side, memory, homing);
    var heard := HearsFirstFrame(s, start, side, ENABLED);
    var up := FirstCycleEnds(s, heard, side);
    FirstFramePolled(s, up);
    var polled := Next(s, up, UserPoll(false, LINK));
    StartHomingApplied(s, polled);
    HomingIsAsked(polled);
    c := Next(s, polled, UserCall(CallStartHoming));
  }

  lemma {:induction false} Pushes(s: Setup, c: Core, side: P.HandSide, stage: H.Stage, n: nat) returns (r: Core)
    requires Reachable(s, c) && InHoming(c, side) && Homes(c.comms.homing, stage, n)
    requires (stage.Preload? || stage.Settle?) && n < H.Limit(stage)
    ensures Reachable(s, r) && InHoming(r, side)
    ensures Homes(r.comms.homing, if stage.Preload? then H.Settle else H.TriggerWait, 0)
    decreases H.Limit(stage) - n
  {
    hide Reachable, InHoming, Homes, H.Step;
    var rx;
    r, rx := HomingCycle(s, c, side, ENABLED);
    PushingHomes(c.comms.homing, rx, n);
    if n + 1 < H.Limit(stage) {
      HomesIsActive(r.comms.homing, stage, n + 1);
      r := Pushes(s, r, side, stage, n + 1);
    } else {
      HomesIsActive(r.comms.homing, if stage.Preload? then H.Settle else H.TriggerWait, 0);
    }
  }

  // Up to the trigger, every drive with bit12 clear
  lemma ReachesTrigger(s: Setup, side: P.HandSide, memory: M.Memory, homing: H.Homing) returns (c: Core)
    requires !homing.active
    ensures Reachable(s, c) && InHoming(c, side) && Homes(c.comms.homing, H.TriggerWait, 1)
    ensures forall i :: 0 <= i < ACTUATOR_COUNT ==> c.comms.homing.inProgressSeen[i]
  {
    hide Reachable, InHoming, Homes, H.Step, AskedToHome;
    var rx;
    var h;
    c := AsksToHome(s, side, memory, homing);
    c := FirstHomingCycle(s, c, side);
    h := c.comms.homing;
    c, rx := HomingCycle(s, c, side, SWITCHED_ON);
    ClearingHomes(h, rx);
    HomesIsActive(c.comms.homing, H.ClearReEnable, 0);
    h := c.comms.homing;
    c, rx := HomingCycle(s, c, side, ENABLED);
    ClearingHomes(h, rx);
    HomesIsActive(c.comms.homing, H.Preload, 0);
    c := Pushes(s, c, side, H.Preload, 0);
    c := Pushes(s, c, side, H.Settle, 0);
    h := c.comms.homing;
    c, rx := HomingCycle(s, c, side, ENABLED);
    TriggeringHomes(h, rx);
    HomesIsActive(c.comms.homing, H.TriggerWait, 1);
  }

  // The last cycle of a homing is past its re-read, and its last step will end it as a success
  ghost predicate AboutToSucceed(c: Core, side: P.HandSide) {
    && c.thread.Alive? && c.comms.open && c.comms.controlActive && !c.destroyed && c.comms.side == side
    && c.comms.disabled == AllOf(false) && c.requested == Running && c.lifecycle == Running && c.activeHoming && c.comms.homing.active
    && c.thread.loop.pc.AfterReread? && c.thread.loop.pc.latest == Running && IsCycleOf(c, c.thread.loop.pc.cycle)
    && var h := H.Step(c.comms.homing, c.comms.rx);
    && !h.active && h.outcome.Succeeded?
  }

  lemma ReachesLastCycle(s: Setup, side: P.HandSide, memory: M.Memory, homing: H.Homing) returns (c: Core)
    requires !homing.active
    ensures Reachable(s, c) && AboutToSucceed(c, side) && c.user == Outside(OK) && !c.requestHoming
  {
    hide Reachable, Homes, H.Step, Apply, C.DrivesEnabled, C.QuickStopAttained, Receiving, C.Read, Report;
    var top := ReachesTrigger(s, side, memory, homing);
    ReportIsSeen(s, top, HOMED);
    var b := BeginReceiving(s, top, Report(side, HOMED));
    c := RereadReceiving(s, b);
    AttainingHomes(c.comms.homing, c.comms.rx);
  }

  // A homing can succeed, whatever the hand was constructed with: every sixteen-drive hand whose
  // drives answer as they should gets there
  lemma HomingCanSucceed(s: Setup, side: P.HandSide, memory: M.Memory, homing: H.Homing) returns (c: Core, r: Core)
    requires !homing.active
    ensures Reachable(s, c) && Enabled(c, LoopFinish(Sent)) && r == Apply(s, c, LoopFinish(Sent)) && Reachable(s, r)
    ensures ReportsSuccess(c, LoopFinish(Sent), r) && r.homingState == Succeeded && r.resultHoming
  {
    hide Reachable, Apply, H.Step, NextLifecycle, AboutToSucceed;
    c := ReachesLastCycle(s, side, memory, homing);
    r := Succeeds(s, c, side, Sent);
  }

  lemma Succeeds(s: Setup, c: Core, side: P.HandSide, tx: TxResult) returns (r: Core)
    requires Reachable(s, c) && AboutToSucceed(c, side) && !tx.Transient?
    ensures Enabled(c, LoopFinish(tx)) && r == Apply(s, c, LoopFinish(tx)) && Reachable(s, r)
    ensures ReportsSuccess(c, LoopFinish(tx), r) && r.resultHoming && r.homingState == Succeeded && Up(r)
    ensures r.requested == Running && r.user == c.user && r.requestHoming == c.requestHoming && r.links == c.links
    ensures r.lifecycle == if tx.Sent? then Running else Faulted
    ensures r.comms.side == side && r.comms.disabled == AllOf(false) && !r.comms.homing.active
    ensures tx.Sent? ==> r.checkCommunication
    ensures tx.Hard? ==> r.stopCause == TransmitFailure
  {
    hide Reachable, H.Step, NextLifecycle, FinishCycle, Inv, C.Write, ReportsSuccess, C.DrivesEnabled;
    Reached(s, c);
    r := Next(s, c, LoopFinish(tx));
    FinishKeepsOpen(s, c, tx);
    FinishKeepsSession(s, c, tx);
    WriteLeaves(c.comms, c.thread.loop.pc.cycle.frames);
    if tx.Sent? {
      FinishSent(s, c);
      RunningStays(c);
    } else {
      FinishHard(s, c);
    }
    FinishSucceeds(s, c, tx);
  }

  lemma RunningStays(c: Core)
    requires c.lifecycle == Running && c.requested == Running
    ensures NextLifecycle(c, true) == Running
  {
    hide C.DrivesEnabled, C.QuickStopAttained;
  }

  lemma FinishSucceeds(s: Setup, c: Core, tx: TxResult)
    requires Inv(s, c) && c.thread.Alive? && c.thread.loop.pc.AfterReread? && c.activeHoming && c.comms.homing.active
    requires var r := FinishCycle(c, tx);
             && r.comms.homing == H.Step(c.comms.homing, c.comms.rx) && !r.comms.homing.active && r.comms.homing.outcome.Succeeded?
    ensures var r := FinishCycle(c, tx); ReportsSuccess(c, LoopFinish(tx), r) && r.resultHoming && r.homingState == Succeeded
  {
    hide FinishCycle, Transmitted, Inv, Receiving, Follows, NextLifecycle, H.Step;
    var w := FinishShapes(s, c, tx);
  }

  // -------------------------- An earlier success handed out --------------------------

  ghost predicate IsPath(s: Setup, cores: seq<Core>, steps: seq<Step>) {
    && |cores| == |steps| + 1
    && forall k :: 0 <= k < |steps| ==> Enabled(cores[k], steps[k]) && cores[k + 1] == Apply(s, cores[k], steps[k])
  }

  lemma HomingWhileRunning(c: Core)
    requires c.requested == Running && c.lifecycle == Running && !c.destroyed
    ensures var r := StartHoming(c);
            && r == c.(staged := r.staged, mail := r.mail, user := Outside(OK), homingState := HomingState.InProgress,
                       resultHoming := false, requestHoming := true)
            && HandCore.Home(c) == r.(user := AwaitHoming)
  {
    hide PreparedForHoming, RequestControl, ControlStatus, Checked;
    assert Checked(c, Action.Home, true).OK? by { HomeIsAllowed(c); }
    PreparedIs(c);
    StartHomingIs(c);
    RequestControlIs(PreparedForHoming(c));
  }

  lemma HomeApplied(s: Setup, c: Core)
    requires Enabled(c, UserCall(CallHome))
    ensures Apply(s, c, UserCall(CallHome)) == HandCore.Home(c)
  {
    hide HandCore.Home;
  }

  // The link comes back with the first frame that is polled
  function Recovery(side: P.HandSide): RtInput {
    RtInput([], seq(J.JOINT_COUNT, _ => None), false, true, [Report(side, ENABLED)])
  }

  lemma OnePollHears(c: C.Comms, queue: seq<P.CanFrame>)
    requires !c.anyFrame && C.Read(c, queue).anyFrame
    ensures ReadUntilFrame(c, [queue]) == C.Read(c, queue)
  {
    hide C.Read;
    assert [queue][1..] == [];
  }

  lemma RetryHears(s: Setup, c: Core) returns (comms: C.Comms)
    requires c.thread.Alive?
    ensures TryReconnect(s, c, Recovery(c.comms.side)) == Recovered(s, c, comms)
    ensures comms.open && comms.controlActive && comms.side == c.comms.side
  {
    hide Recovered, C.Read, Report;
    var connected := C.Connected(C.Disconnected(c.comms));
    ReadReports(connected, ENABLED);
    OnePollHears(connected, Report(c.comms.side, ENABLED));
    comms := C.Run(C.Read(connected, Report(c.comms.side, ENABLED)));
  }

  lemma Recovering(s: Setup, c: Core) returns (r: Core)
    requires Reachable(s, c) && c.thread.Alive? && c.thread.loop.pc.Top? && !c.destroyed
    requires c.lifecycle == Faulted && c.requested != Disconnected && s.autoReconnect && !c.stopCause.ControlLoopFailure?
    ensures var step := LoopTop(Recovery(c.comms.side)); Enabled(c, step) && r == Apply(s, c, step) && Reachable(s, r)
    ensures Up(r) && r.requested == Running && r.lifecycle == Connected && r.user == c.user && r.links == c.links + 1
    ensures r.requestHoming == s.autoReconnectHome && !r.activeHoming && r.homingState == NotRun
    ensures r.resultHoming == c.resultHoming && r.checkFirstFrame == c.checkFirstFrame && r.comms.side == c.comms.side
  {
    hide Reachable, Inv, RtTop, TryReconnect, Recovered, Recovery;
    var input := Recovery(c.comms.side);
    r := Next(s, c, LoopTop(input));
    TopOfFaultedIs(s, c, input);
    RecoveryGoesOn(c.comms.side);
    var comms := RetryHears(s, c);
    RecoveredAsks(s, c, comms);
    RecoveredKeepsVerdict(s, c, comms);
  }

  lemma RecoveryGoesOn(side: P.HandSide)
    ensures !Recovery(side).giveUp
  {}

  lemma RecoveredKeepsVerdict(s: Setup, c: Core, comms: C.Comms)
    requires c.thread.Alive?
    ensures var r := Recovered(s, c, comms);
            && r.resultHoming == c.resultHoming && r.lifecycle == Connected && r.comms == comms && r.destroyed == c.destroyed
            && r.checkFirstFrame == c.checkFirstFrame && r.thread.Alive? && r.thread.loop.pc == c.thread.loop.pc
  {}

  lemma HomingWaitEnds(s: Setup, c: Core)
    requires c.user == AwaitHoming && c.requested == Running && c.lifecycle != Faulted && !IsHoming(c) && c.resultHoming
    ensures Enabled(c, UserPoll(false, LINK)) && Apply(s, c, UserPoll(false, LINK)) == c.(user := Outside(OK))
  {
    hide Checked;
  }

  // With automatic reconnect and no homing after it: a home() that is called in the last cycle of an
  // earlier homing, whose last send breaks the link, returns that one's success. Its own request is
  // never taken up, and the hand is not homed
  lemma HomeMayReturnEarlierSuccess(s: Setup, side: P.HandSide, memory: M.Memory, homing: H.Homing) returns (cores: seq<Core>)
    requires !homing.active && s.autoReconnect && !s.autoReconnectHome
    ensures var steps := [UserCall(CallHome), LoopFinish(Hard), LoopTop(Recovery(side)), UserPoll(false, LINK)];
            && IsPath(s, cores, steps) && Reachable(s, cores[0])
            && (forall m :: 1 <= m <= 3 ==> cores[m].user.AwaitHoming? && !TakesUp(cores[m], steps[m]))
            && cores[4].user == Outside(OK) && cores[4].homingState == NotRun && cores[3].links != cores[1].links
  {
    hide Reachable, Apply, AboutToSucceed, StartHoming, HandCore.Home, Recovery, ReportsSuccess;
    var c := ReachesLastCycle(s, side, memory, homing);
    AboutMeans(c, side);
    HomingWhileRunning(c);
    HomeApplied(s, c);
    var c1 := Next(s, c, UserCall(CallHome));
    AboutKept(c, c1, side);
    var c2 := Succeeds(s, c1, side, Hard);
    var c3 := Recovering(s, c2);
    HomingWaitEnds(s, c3);
    var c4 := c3.(user := Outside(OK));
    cores := [c, c1, c2, c3, c4];
  }

  lemma AboutMeans(c: Core, side: P.HandSide)
    requires AboutToSucceed(c, side)
    ensures c.requested == Running && c.lifecycle == Running && !c.destroyed && c.comms.side == side
  {
    hide H.Step;
  }

  lemma AboutKept(c: Core, r: Core, side: P.HandSide)
    requires AboutToSucceed(c, side)
    requires r == c.(staged := r.staged, mail := r.mail, user := r.user, homingState := r.homingState,
                     resultHoming := r.resultHoming, requestHoming := r.requestHoming)
    ensures AboutToSucceed(r, side)
  {
    hide H.Step;
  }

  // ------------------------ A command beside a pending homing ------------------------

  const ZERO_TARGET: Target := JointPositionTarget(seq(ACTUATOR_COUNT, _ => Some(0.0)))

  lemma CommandIsAccepted(s: Setup, c: Core)
    requires c.requested == Running && c.lifecycle == Running && !c.destroyed && c.homingState == Succeeded && c.user.Outside?
    ensures var step, r := UserCall(CallSetCommand(ZERO_TARGET)), HandCore.SetCommand(s, c, ZERO_TARGET);
            && Enabled(c, step) && Apply(s, c, step) == r && AcceptsCommand(s, c, step, r)
            && r == c.(staged := r.staged, mail := r.mail, user := Outside(OK))
            && r.staged.source == User(c.runs, c.links)
  {
    hide Checked, WithController, ControllerOf;
    assert Checked(c, Action.SetCommand, true).OK? by { CommandIsAllowed(c); }
    AcceptedStaged(c, ControllerOf(s, ZERO_TARGET), User(c.runs, c.links));
    ControllerIsFor(s, ZERO_TARGET);
    CallSetCommandIs(s, c, ZERO_TARGET);
  }

  lemma CommandIsAllowed(c: Core)
    requires c.requested == Running && c.lifecycle == Running && !c.destroyed && c.homingState == Succeeded
    ensures Checked(c, Action.SetCommand, true).OK?
  {}

  lemma StartedIsActive(c: C.Comms)
    requires c.controlActive
    ensures C.Home(c).homing.active
  {}

  // A homing asked for in the last cycle of another one that succeeds: a joint command is accepted
  // before the second sequence begins, another one while it runs, and the hand reads as homed all
  // the while
  lemma CommandMayPrecedeHoming(s: Setup, side: P.HandSide, memory: M.Memory, homing: H.Homing) returns (cores: seq<Core>)
    requires !homing.active
    ensures var steps := [UserCall(CallStartHoming), LoopFinish(Sent), UserCall(CallSetCommand(ZERO_TARGET)),
                          LoopTop(Input(Report(side, ENABLED))), UserCall(CallSetCommand(ZERO_TARGET))];
            && IsPath(s, cores, steps) && Reachable(s, cores[0])
            && cores[1].requestHoming && cores[1].homingState == HomingState.InProgress
            && AcceptsCommand(s, cores[2], steps[2], cores[3]) && TakesUp(cores[3], steps[3])
            && cores[4].comms.homing.active && AcceptsCommand(s, cores[4], steps[4], cores[5])
            && forall m :: 2 <= m <= 5 ==> StandsBeside(cores[m])
  {
    hide Reachable, Apply, AboutToSucceed, StartHoming, HandCore.Home, HandCore.SetCommand, ReportsSuccess, Receiving, Report,
         AcceptsCommand, C.Read, C.Home, AllShow;
    var c := ReachesLastCycle(s, side, memory, homing);
    AboutMeans(c, side);
    HomingWhileRunning(c);
    StartHomingApplied(s, c);
    var c1 := Next(s, c, UserCall(CallStartHoming));
    AboutKept(c, c1, side);
    var c2 := Succeeds(s, c1, side, Sent);
    CommandIsAccepted(s, c2);
    var c3 := Next(s, c2, UserCall(CallSetCommand(ZERO_TARGET)));
    ReportIsSeen(s, c3, ENABLED);
    var c4 := BeginReceiving(s, c3, Report(side, ENABLED));
    StartedIsActive(c3.comms);
    CommandIsAccepted(s, c4);
    var c5 := Next(s, c4, UserCall(CallSetCommand(ZERO_TARGET)));
    cores := [c, c1, c2, c3, c4, c5];
  }

  // ------------------------------ Stale frames on the wire ---------------------------

  // A stop that gives up in the same cycle
  lemma StopWaits(s: Setup, c: Core)
    requires c.requested == Running && c.lifecycle != Faulted && !c.destroyed && c.user.Outside?
    ensures var a := Apply(s, c, UserCall(CallStop));
            && Enabled(c, UserCall(CallStop))
            && a == c.(requested := Stopped, staged := a.staged, mail := a.mail, user := AwaitStop(ToStop))
  {
    hide Checked, ResetToIdle;
    assert Checked(c, Action.Stop, true).OK? by { StopIsAllowed(c); }
    ResetLeavesSdk(c);
  }

  lemma StopTimesOut(s: Setup, c: Core)
    requires c.user == AwaitStop(ToStop) && c.lifecycle == Running
    ensures Enabled(c, UserPoll(true, LINK))
    ensures Apply(s, c, UserPoll(true, LINK)) == c.(user := Outside(Refused(Unconfirmed(c))))
  {
    hide Checked, Unconfirmed;
  }

  lemma StopIsAllowed(c: Core)
    requires c.requested == Running && c.lifecycle != Faulted && !c.destroyed
    ensures Checked(c, Action.Stop, true).OK?
  {}

  lemma RunsAgain(s: Setup, c: Core)
    requires c.requested == Stopped && c.lifecycle == Running && !c.destroyed && c.user.Outside?
    requires c.homingState == Succeeded && c.checkCommunication
    ensures var r := Apply(s, c, UserCall(CallRun));
            && Enabled(c, UserCall(CallRun))
            && r == c.(requested := Running, runs := c.runs + 1, staged := r.staged, mail := r.mail, requestHold := true, user := AwaitEnable)
  {
    hide Checked, RequestControl, ControlStatus, HandCore.Home;
    assert Checked(c, Action.Run, true).OK? by { RunIsAllowed(c); }
    RequestControlIs(c);
    ResetLeavesSdk(c);
  }

  lemma RunIsAllowed(c: Core)
    requires c.requested == Stopped && c.lifecycle != Faulted && !c.destroyed
    ensures Checked(c, Action.Run, true).OK?
  {}

  lemma EnabledIsLoose(c: C.Comms, frames: CommandFrames)
    requires AllShow(c.rx, ENABLED) && c.disabled == AllOf(false) && !c.homing.active
    ensures !C.IsQuickStopFrame(c, C.Sent(c, frames, false))
  {
    var sent := C.Sent(c, frames, false);
    assert W.ControlWord(W.Enable, ENABLED, c.lastWord[0]) == W.ENABLE_OPERATION;
    assert sent.controlWord[0] != W.QUICK_STOP;
  }

  // A stop that times out and a new run within one cycle: the frames that its first step computed
  // from the user's command go out under the new request, for whatever the send comes to
  lemma StaleFramesMayBeSent(s: Setup, side: P.HandSide, memory: M.Memory, homing: H.Homing, tx: TxResult)
    returns (cores: seq<Core>)
    requires !homing.active
    ensures var steps := [UserCall(CallSetCommand(ZERO_TARGET)), LoopTop(Input(Report(side, ENABLED))), UserCall(CallStop),
                          UserPoll(true, LINK), UserCall(CallRun), LoopReread];
            && IsPath(s, cores, steps) && Reachable(s, cores[0])
            && AcceptsCommand(s, cores[0], steps[0], cores[1])
            && SendsLoosely(cores[6], LoopFinish(tx)) && cores[6].thread.loop.pc.cycle.source == cores[1].staged.source
            && cores[6].thread.loop.pc.cycle.source == User(cores[0].runs, cores[0].links) && cores[0].runs < cores[6].runs
  {
    hide Reachable, Apply, AboutToSucceed, HandCore.SetCommand, ReportsSuccess, Receiving, Report, AcceptsCommand, C.Read, C.Home,
         AllShow, Inv;
    var c := ReachesLastCycle(s, side, memory, homing);
    AboutMeans(c, side);
    var c0 := Succeeds(s, c, side, Sent);
    CommandIsAccepted(s, c0);
    var c1 := Next(s, c0, UserCall(CallSetCommand(ZERO_TARGET)));
    ReportIsSeen(s, c1, ENABLED);
    var c2 := BeginReceiving(s, c1, Report(side, ENABLED));
    UsersFramesBegin(s, c1, c2);
    StopWaits(s, c2);
    var c3 := Next(s, c2, UserCall(CallStop));
    StopTimesOut(s, c3);
    var c4 := Next(s, c3, UserPoll(true, LINK));
    RunsAgain(s, c4);
    var c5 := Next(s, c4, UserCall(CallRun));
    var c6 := RereadReceiving(s, c5);
    GoesOutLoosely(c6, tx);
    cores := [c0, c1, c2, c3, c4, c5, c6];
  }

  lemma UsersFramesBegin(s: Setup, c: Core, r: Core)
    requires Reachable(s, c) && Up(c) && c.requested == Running && c.lifecycle != Faulted && c.staged.source.User?
    requires r == Apply(s, c, LoopTop(Input(Report(c.comms.side, ENABLED))))
    ensures r.thread.Alive? && r.thread.loop.pc.BeforeReread? && r.thread.loop.pc.cycle.source == c.staged.source
  {
    hide Reachable, BeginCycle, ThreadInv, HomingInv, LinkInv, CommandInv, C.Home, Receiving, Report;
    Reached(s, c);
    var step := LoopTop(Input(Report(c.comms.side, ENABLED)));
    TopBegins(s, c, step);
    var w := BeginShapes(s, c, step.input);
  }

  lemma GoesOutLoosely(c: Core, tx: TxResult)
    requires c.thread.Alive? && c.thread.loop.pc.AfterReread? && c.thread.loop.pc.latest == Running && c.comms.open
    requires var k := c.thread.loop.pc.cycle; k.requested == Running && k.observed != Faulted
    requires AllShow(c.comms.rx, ENABLED) && c.comms.disabled == AllOf(false) && !c.comms.homing.active
    ensures SendsLoosely(c, LoopFinish(tx))
  {
    hide C.Sent, C.IsQuickStopFrame, AllShow;
    EnabledIsLoose(c.comms, c.thread.loop.pc.cycle.frames);
  }

  // ----------------------------- A stop that resolves nothing ------------------------

  // No socket to be had in this retry
  function Lost(): RtInput { RtInput([], seq(J.JOINT_COUNT, _ => None), false, false, []) }

  lemma StartStepsOn(h: H.Homing, disabled: Mask, rx: StateFrames)
    ensures H.Step(H.Started(h, disabled), rx).active
  {}

  // A homing is under way, and the send of its first cycle has broken the link
  ghost predicate BrokenHoming(c: Core) {
    && c.thread.Alive? && c.thread.loop.pc.Top? && c.lifecycle == Faulted && c.stopCause == TransmitFailure
    && c.requested == Running && !c.destroyed && c.user == AwaitFrame(false, NotRecorded) && c.checkFirstFrame
    && c.activeHoming && c.comms.homing.active && c.comms.anyFrame && c.comms.silent == 0 && c.thread.loop.previousReceiving
    && !c.requestHoming
  }

  lemma HomingBreaks(s: Setup, c: Core) returns (r: Core)
    requires Reachable(s, c) && Up(c) && c.requested == Running && c.lifecycle == Connected && c.requestHoming
    requires c.user == AwaitFrame(false, NotRecorded) && c.checkFirstFrame
    ensures Reachable(s, r) && BrokenHoming(r)
  {
    hide Reachable, Inv, Receiving, C.Read, AllShow, Report, H.Step, FinishCycle, C.Write;
    ReportIsSeen(s, c, ENABLED);
    var b := BeginReceiving(s, c, Report(c.comms.side, ENABLED));
    var m := RereadReceiving(s, b);
    r := Next(s, m, LoopFinish(Hard));
    Reached(s, m);
    FinishHard(s, m);
    FinishKeepsOpen(s, m, Hard);
    FinishKeepsSession(s, m, Hard);
    WriteLeaves(m.comms, m.thread.loop.pc.cycle.frames);
    StartStepsOn(c.comms.homing, c.comms.disabled, m.comms.rx);
    StaysActive(s, m, Hard);
    HardKeepsFirstFrame(s, m);
  }

  lemma HardKeepsFirstFrame(s: Setup, c: Core)
    requires Inv(s, c) && c.thread.Alive? && c.thread.loop.pc.AfterReread?
    ensures FinishCycle(c, Hard).checkFirstFrame == c.checkFirstFrame
  {
    hide FinishCycle, Transmitted, Inv, Receiving, Follows, NextLifecycle;
    var w := FinishShapes(s, c, Hard);
  }

  lemma LosesLink(s: Setup, c: Core) returns (r: Core)
    requires Reachable(s, c) && BrokenHoming(c) && s.autoReconnect
    ensures Reachable(s, r) && r == c.(comms := C.Disconnected(c.comms))
  {
    hide Reachable, Inv, RtTop, TryReconnect;
    r := Next(s, c, LoopTop(Lost()));
    TopOfFaultedIs(s, c, Lost());
    LostIs(s, c);
  }

  lemma LostIs(s: Setup, c: Core)
    requires c.thread.Alive?
    ensures !Lost().giveUp && TryReconnect(s, c, Lost()) == c.(comms := C.Disconnected(c.comms))
  {
    hide ReadUntilFrame, Recovered;
  }

  lemma StopIsAsked(s: Setup, c: Core)
    requires c.requested == Running && c.lifecycle == Connected && !c.destroyed && c.user.Outside?
    ensures var r := Apply(s, c, UserCall(CallStop));
            && Enabled(c, UserCall(CallStop))
            && r == c.(requested := Stopped, staged := r.staged, mail := r.mail, user := AwaitStop(ToStop))
  {
    hide Checked, ResetToIdle;
    assert Checked(c, Action.Stop, true).OK? by { StopIsAllowed(c); }
    ResetLeavesSdk(c);
  }

  lemma ClosedCycle(s: Setup, c: Core) returns (b: Core, m: Core, r: Core)
    requires Reachable(s, c) && c.thread.Alive? && c.thread.loop.pc.Top? && !c.comms.open && Receiving(s, c.comms)
    requires c.requested == Stopped && c.lifecycle == Connected && c.activeHoming && c.comms.homing.active && !c.requestHoming
    ensures IsPath(s, [c, b, m, r], [LoopTop(Input([])), LoopReread, LoopFinish(Sent)]) && BeginsCycle(c, LoopTop(Input([])))
    ensures b.requested == m.requested == r.requested == Stopped && r.activeHoming && r.comms.homing.active
  {
    hide Reachable, Inv, Receiving, BeginCycle, FinishCycle, C.Write, C.Read;
    var begin := LoopTop(Input([]));
    b := Next(s, c, begin);
    TopBegins(s, c, begin);
    BeginLink(s, c, Input([]));
    ReadKeeps(c.comms, []);
    var w := BeginShapes(s, c, Input([]));
    m := Next(s, b, LoopReread);
    r := Next(s, m, LoopFinish(Sent));
    StopFailsHoming(s, m, Sent);
    FinishKeepsOpen(s, m, Sent);
    CycleResolvesHoming(s, m, Sent);
  }

  // With automatic reconnect and homing: the link is recovered while connect() still waits, the
  // homing that follows breaks the link again, a retry finds no socket, and connect() writes over
  // the fault. A stop that is asked for then is read by a whole cycle, and homing is not resolved
  lemma StopMayLeaveHoming(s: Setup, side: P.HandSide, memory: M.Memory, homing: H.Homing) returns (cores: seq<Core>)
    requires !homing.active && s.autoReconnect && s.autoReconnectHome && s.lossCycles < C.UINT32_MAX
    ensures var steps := [UserPoll(false, LINK), UserCall(CallStop), LoopTop(Input([])), LoopReread, LoopFinish(Sent)];
            && IsPath(s, cores, steps) && Reachable(s, cores[0]) && cores[1].user == Outside(OK)
            && BeginsCycle(cores[2], steps[2]) && (forall m :: 2 <= m <= 5 ==> cores[m].requested == Stopped)
            && cores[5].activeHoming && cores[5].comms.homing.active
  {
    hide Reachable, Constructed, Opening, Silent, Apply, Receiving, BeginsCycle;
    var start := Opens(s, side, memory, homing);
    var heard := HearsFirstFrame(s, start, side, ENABLED);
    var silent := FirstCycleEnds(s, heard, side);
    silent := SilentCycles(s, silent, 0);
    var fault := SilenceFaults(s, silent);
    var recovered := Recovering(s, fault);
    var broken := HomingBreaks(s, recovered);
    var c0 := LosesLink(s, broken);
    FirstFramePolled(s, c0);
    var c1 := Next(s, c0, UserPoll(false, LINK));
    StopIsAsked(s, c1);
    var c2 := Next(s, c1, UserCall(CallStop));
    StaysReceiving(s, broken, c2);
    var c3, c4, c5 := ClosedCycle(s, c2);
    cores := [c0, c1, c2, c3, c4, c5];
    PathOf(s, cores, c2, c3, c4, c5);
  }

  lemma StaysReceiving(s: Setup, c: Core, r: Core)
    requires c.comms.anyFrame && c.comms.silent == 0 && r.comms == C.Disconnected(c.comms)
    ensures Receiving(s, r.comms) && !r.comms.open && r.comms.homing == c.comms.homing
  {}

  lemma PathOf(s: Setup, cores: seq<Core>, c2: Core, c3: Core, c4: Core, c5: Core)
    requires |cores| == 6 && cores[2..] == [c2, c3, c4, c5]
    requires IsPath(s, [c2, c3, c4, c5], [LoopTop(Input([])), LoopReread, LoopFinish(Sent)])
    requires IsPath(s, cores[..3], [UserPoll(false, LINK), UserCall(CallStop)])
    ensures IsPath(s, cores, [UserPoll(false, LINK), UserCall(CallStop), LoopTop(Input([])), LoopReread, LoopFinish(Sent)])
  {
    hide Apply, Enabled;
    var a, b := [UserPoll(false, LINK), UserCall(CallStop)], [LoopTop(Input([])), LoopReread, LoopFinish(Sent)];
    var steps := [UserPoll(false, LINK), UserCall(CallStop), LoopTop(Input([])), LoopReread, LoopFinish(Sent)];
    forall k | 0 <= k < 5
      ensures Enabled(cores[k], steps[k]) && cores[k + 1] == Apply(s, cores[k], steps[k])
    {
      if k < 2 {
        assert cores[k] == cores[..3][k] && cores[k + 1] == cores[..3][k + 1] && steps[k] == a[k];
      } else {
        assert cores[k] == cores[2..][k - 2] && cores[k + 1] == cores[2..][k - 2 + 1] && steps[k] == b[k - 2];
      }
    }
  }

  // ------------------------- A hold that outlives its link --------------------------

  const STOPPED_WORD: bv16 := 0x0007

  lemma ShowsStopped(c: C.Comms)
    requires AllShow(c.rx, STOPPED_WORD)
    ensures C.QuickStopAttained(c)
  {
    assert !W.Has(STOPPED_WORD, W.QUICK_STOP_ACTIVE);
  }

  // A stop() has been confirmed, and its link is up
  ghost predicate AtStop(c: Core) {
    && Up(c) && c.requested == Stopped && c.lifecycle == Stopped && c.user.Outside? && c.checkCommunication
  }

  lemma StopCycle(s: Setup, c: Core) returns (r: Core)
    requires Reachable(s, c) && Up(c) && c.requested == Stopped && c.lifecycle == Connected && c.user == AwaitStop(ToStop)
    ensures Reachable(s, r) && Up(r) && r.requested == Stopped && r.lifecycle == Stopped && r.user == c.user && r.checkCommunication
  {
    hide Reachable, Apply, Receiving, C.Read, AllShow, Report, Inv, C.QuickStopAttained, C.Write, FinishCycle;
    ReportIsSeen(s, c, STOPPED_WORD);
    var b := BeginReceiving(s, c, Report(c.comms.side, STOPPED_WORD));
    var m := RereadReceiving(s, b);
    r := Next(s, m, LoopFinish(Sent));
    assert r == FinishCycle(m, Sent) by { hide *; SentApplied(s, m); }
    Reached(s, m);
    FinishSent(s, m);
    FinishKeepsOpen(s, m, Sent);
    FinishKeepsSession(s, m, Sent);
    ShowsStopped(m.comms);
    assert NextLifecycle(m, true) == Stopped;
  }

  lemma StopIsConfirmed(s: Setup, c: Core)
    requires c.user == AwaitStop(ToStop) && c.lifecycle == Stopped
    ensures Enabled(c, UserPoll(false, LINK)) && Apply(s, c, UserPoll(false, LINK)) == c.(user := Outside(OK))
  {}

  lemma ReachesStop(s: Setup, side: P.HandSide, memory: M.Memory, homing: H.Homing) returns (c: Core)
    requires !homing.active
    ensures Reachable(s, c) && AtStop(c)
  {
    hide Reachable, Apply;
    var asked := AsksToHome(s, side, memory, homing);
    StopWaits(s, asked);
    var waiting := Next(s, asked, UserCall(CallStop));
    var stopped := StopCycle(s, waiting);
    StopIsConfirmed(s, stopped);
    c := Next(s, stopped, UserPoll(false, LINK));
  }

  lemma HomingFromStop(c: Core)
    requires c.requested == Stopped && c.lifecycle == Stopped && c.checkCommunication && !c.destroyed && c.user.Outside?
    ensures var r := StartHoming(c);
            && r == c.(requested := Running, runs := r.runs, staged := r.staged, mail := r.mail, user := Outside(OK),
                       homingState := HomingState.InProgress, resultHoming := false, requestHoming := true, requestHold := true)
  {
    hide PreparedForHoming, RequestControl, ControlStatus, Checked, ResetToIdle;
    assert Checked(c, Action.Home, true).OK? by { HomeIsAllowed(c); }
    PreparedIs(c);
    StartHomingIs(c);
    RequestControlIs(PreparedForHoming(c));
    ResetLeavesSdk(PreparedForHoming(c));
  }

  lemma LeavesAtOnce(s: Setup, c: Core)
    requires c.requested == Running && c.lifecycle == Stopped && !c.destroyed && c.user.Outside?
    ensures Enabled(c, UserCall(CallDisconnect))
    ensures var r := Apply(s, c, UserCall(CallDisconnect));
            r == c.(requested := Disconnected, staged := r.staged, mail := r.mail, user := Joining(DisconnectNow))
  {
    hide Checked, ResetToIdle;
    assert Checked(c, Action.Disconnect, true).OK? by { LeavingIsAllowed(c); }
    ResetLeavesSdk(c);
  }

  lemma LeavingIsAllowed(c: Core)
    requires c.requested == Running && c.lifecycle == Stopped && !c.destroyed
    ensures Checked(c, Action.Disconnect, true).OK?
  {}

  lemma LoopEnds(s: Setup, c: Core)
    requires c.thread.Alive? && c.thread.loop.pc.Top? && c.requested == Disconnected
    ensures Enabled(c, LoopTop(NOTHING)) && Apply(s, c, LoopTop(NOTHING)) == c.(thread := Ended)
  {
    hide BeginCycle, TryReconnect;
  }

  lemma Disconnects(s: Setup, c: Core)
    requires c.user == Joining(DisconnectNow) && c.thread == Ended
    ensures Enabled(c, UserPoll(false, LINK))
    ensures var r := Apply(s, c, UserPoll(false, LINK));
            && r.requested == c.requested && r.lifecycle == Disconnected && r.thread == NoThread && r.user == Outside(OK)
            && r.requestHold == c.requestHold && r.destroyed == c.destroyed
  {
    hide C.Disconnected, C.Stop;
  }

  lemma ConnectsAgain(s: Setup, c: Core)
    requires c.requested == Disconnected && c.lifecycle == Disconnected && c.thread == NoThread && c.user.Outside? && !c.destroyed
    ensures Enabled(c, UserCall(CallConnect(LINK)))
    ensures var r := Apply(s, c, UserCall(CallConnect(LINK)));
            r.thread.Alive? && OpensLink(c, r) && StartsSilent(r) && r.requestHold == c.requestHold
  {
    hide Checked, NewLoop, Opened, C.Disconnected, StartsSilent;
    assert Checked(c, Action.Connect, true).OK? by { ConnectIsAllowed(c); }
    OpenedFields(c);
    ConnectStartsSilent(s, c, LINK, false, NotRecorded);
  }

  lemma ConnectIsAllowed(c: Core)
    requires c.requested == Disconnected && c.lifecycle == Disconnected && !c.destroyed
    ensures Checked(c, Action.Connect, true).OK?
  {}

  // From any confirmed stop, on every hand: a start_homing() that is followed by a disconnect() before
  // the loop begins another cycle, and a connect(). The first cycle of the new link, which has brought
  // nothing in, takes the hold that was asked for on the old one: all actuators to zero
  lemma HoldMayOutliveLink(s: Setup, side: P.HandSide, memory: M.Memory, homing: H.Homing) returns (cores: seq<Core>)
    requires !homing.active
    ensures var steps := [UserCall(CallStartHoming), UserCall(CallDisconnect), LoopTop(NOTHING), UserPoll(false, LINK),
                          UserCall(CallConnect(LINK)), LoopTop(NOTHING)];
            && IsPath(s, cores, steps) && Reachable(s, cores[0]) && AtStop(cores[0])
            && cores[4].user == Outside(OK) && OpensLink(cores[4], cores[5]) && cores[5].requestHold
            && cores[6].links == cores[5].links && !Earns(cores[5], steps[5], cores[6])
            && cores[6].staged.source == Sdk && HoldsAt(cores[6].staged.command.controller, Zeros())
  {
    hide Reachable, Apply, StartHoming, StartsSilent, Earns, HoldsAt, OpensLink, Enabled;
    var c := ReachesStop(s, side, memory, homing);
    HomingFromStop(c);
    assert Enabled(c, UserCall(CallStartHoming)) by { hide *; OutsideMayCall(c, CallStartHoming); }
    StartHomingApplied(s, c);
    var c1 := Next(s, c, UserCall(CallStartHoming));
    LeavesAtOnce(s, c1);
    var c2 := Next(s, c1, UserCall(CallDisconnect));
    LoopEnds(s, c2);
    var c3 := Next(s, c2, LoopTop(NOTHING));
    Disconnects(s, c3);
    var c4 := Next(s, c3, UserPoll(false, LINK));
    ConnectsAgain(s, c4);
    var c5 := Next(s, c4, UserCall(CallConnect(LINK)));
    SilentCycleTakesHold(s, c5);
    var c6 := Next(s, c5, LoopTop(NOTHING));
    cores := [c, c1, c2, c3, c4, c5, c6];
  }

  lemma OutsideMayCall(c: Core, call: Call)
    requires c.user.Outside?
    ensures Enabled(c, UserCall(call))
  {}
}
