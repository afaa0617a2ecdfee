/** The loop and sixteen drives that follow chapter 10 of CiA DSP 402 V2.0, cycle by cycle: how soon a
    run() and a stop() are confirmed. */
module HandCoreConfirmation {
  import opened Types
  import opened Frames
  import opened ActionCheck
  import opened HandCore
  import opened HandCoreInvariant
  import opened HandCoreHistory
  import opened HandCoreSafety
  import opened HandCoreHoming
  import opened HandCoreRuns
  import W = Cia402
  import D = Drive
  import C = HandComms
  import P = Protocol
  import H = HomingSequence

  type States = d: seq<D.DriveState> | |d| == ACTUATOR_COUNT
    witness seq(ACTUATOR_COUNT, _ => D.SwitchOnDisabled)

  // One drive per actuator, and the last word that each has received
  datatype Drives = Drives(states: States, held: C.WordArray)

  // What the drives report: a drive that is enabled has no error
  ghost predicate Report(d: Drives, rx: StateFrames) {
    forall i :: 0 <= i < ACTUATOR_COUNT ==>
      D.Shows(d.states[i], rx.status[i]) && (d.states[i].OperationEnabled? ==> rx.errorCode[i] == 0)
  }

  // And what they do with the frames they are sent
  ghost predicate Obey(d: Drives, frames: CommandFrames, d': Drives) {
    forall i :: 0 <= i < ACTUATOR_COUNT ==>
      d'.held[i] == frames.controlWord[i] && D.DriveStep(d.states[i], d.held[i], frames.controlWord[i], d'.states[i])
  }

  // A whole cycle that receives the drives' report and sends its frames
  ghost predicate CycleOf(s: Setup, c: Core, d: Drives, m: Core, r: Core, d': Drives) {
    && (exists input :: Enabled(c, LoopTop(input)) && Enabled(Apply(s, c, LoopTop(input)), LoopReread)
                        && m == Apply(s, Apply(s, c, LoopTop(input)), LoopReread))
    && Enabled(m, LoopFinish(Sent)) && r == Apply(s, m, LoopFinish(Sent))
    && var k, latest := m.thread.loop.pc.cycle, m.thread.loop.pc.latest;
    && k.receiving && Report(d, m.comms.rx) && Obey(d, C.Sent(m.comms, k.frames, QuickStops(k, latest)), d')
  }

  // Cycle after cycle, with nobody else in between; `middles` are the states past the re-reads
  ghost predicate Cycles(s: Setup, cores: seq<Core>, middles: seq<Core>, drives: seq<Drives>) {
    && |cores| == |drives| == |middles| + 1 && Inv(s, cores[0])
    && forall k :: 0 <= k < |middles| ==> CycleOf(s, cores[k], drives[k], middles[k], cores[k + 1], drives[k + 1])
  }

  function AxisOf(c: Core, d: Drives, i: nat): D.Axis
    requires i < ACTUATOR_COUNT
  {
    D.Axis(d.states[i], d.held[i], c.comms.lastWord[i])
  }

  // ------------------------------- One cycle -------------------------------

  // The middle of such a cycle
  ghost predicate Amid(s: Setup, c: Core, m: Core) {
    && Inv(s, m) && m.thread.Alive? && m.thread.loop.pc.AfterReread? && m.comms.open == c.comms.open
    && m.requested == c.requested && m.lifecycle == c.lifecycle && m.comms.lastWord == c.comms.lastWord
    && m.comms.disabled == c.comms.disabled && m.thread.loop.pc.latest == c.requested
    && m.thread.loop.pc.cycle.requested == c.requested && m.thread.loop.pc.cycle.observed == c.lifecycle
    && (!c.requestHoming && !c.comms.homing.active ==> !m.comms.homing.active) && !m.requestHoming
  }

  lemma ReadKeepsWords(c: C.Comms, queue: seq<P.CanFrame>)
    ensures C.Read(c, queue).lastWord == c.lastWord && C.Home(c).lastWord == c.lastWord
  {
    hide P.Drain, C.ReceivedAny, C.SeenHigh;
  }

  lemma MiddleIs(s: Setup, c: Core, input: RtInput)
    requires Inv(s, c) && c.lifecycle != Faulted && c.comms.open && Enabled(c, LoopTop(input))
    requires Enabled(Apply(s, c, LoopTop(input)), LoopReread)
    requires var b := Apply(s, c, LoopTop(input)); b.thread.Alive? && b.thread.loop.pc.BeforeReread? && b.thread.loop.pc.cycle.receiving
    ensures Amid(s, c, Apply(s, Apply(s, c, LoopTop(input)), LoopReread))
  {
    hide Inv, Receiving, C.Read, C.Home, RtTop, BeginCycle;
    var b := Apply(s, c, LoopTop(input));
    StepKeepsInv(s, c, LoopTop(input));
    StepKeepsInv(s, b, LoopReread);
    if c.requested == Disconnected {
      EndsHere(s, c, input);
      assert false;
    }
    TopBegins(s, c, LoopTop(input));
    BeginLink(s, c, input);
    var w := BeginShapes(s, c, input);
    ReadKeepsWords(c.comms, input.queue);
    ReadKeepsWords(C.Home(c.comms), input.queue);
    ReadKeeps(c.comms, input.queue);
    ReadKeeps(C.Home(c.comms), input.queue);
    HomeDoes(c.comms);
  }

  lemma EndsHere(s: Setup, c: Core, input: RtInput)
    requires c.thread.Alive? && c.requested == Disconnected
    ensures RtTop(s, c, input).thread == Ended
  {
    hide BeginCycle, TryReconnect;
  }

  lemma CycleHasMiddle(s: Setup, c: Core, d: Drives, m: Core, r: Core, d': Drives)
    requires Inv(s, c) && c.lifecycle != Faulted && c.comms.open && CycleOf(s, c, d, m, r, d')
    ensures Amid(s, c, m) && Inv(s, r) && r == FinishCycle(m, Sent)
  {
    hide Inv, Apply, Amid, Report, Obey, C.Sent;
    var input :| Enabled(c, LoopTop(input)) && Enabled(Apply(s, c, LoopTop(input)), LoopReread)
                 && m == Apply(s, Apply(s, c, LoopTop(input)), LoopReread);
    RereadIs(s, Apply(s, c, LoopTop(input)));
    MiddleIs(s, c, input);
    assert Inv(s, m) by { hide *; MiddleHasInv(s, c, m); }
    StepKeepsInv(s, m, LoopFinish(Sent));
    SentApplied(s, m);
  }

  lemma RereadIs(s: Setup, b: Core)
    requires Enabled(b, LoopReread)
    ensures Apply(s, b, LoopReread) == RtReread(b)
  {}

  lemma MiddleHasInv(s: Setup, c: Core, m: Core)
    requires Amid(s, c, m)
    ensures Inv(s, m)
  {
    hide Inv;
  }

  // What a run() or a stop() waits with: a link that is open, and for a run no homing under way
  predicate Asked(c: Core, requested: Lifecycle) {
    && c.comms.open && c.requested == requested && c.lifecycle != Faulted
    && (requested == Running ==> !c.requestHoming && !c.comms.homing.active)
  }

  function ModeFor(requested: Lifecycle): W.Mode { if requested == Running then W.Enable else W.QuickStop }

  lemma StepHomingIs(c: C.Comms, frames: CommandFrames, requested: Lifecycle)
    requires requested == Running ==> !c.homing.active
    ensures C.StepHoming(c, frames, requested != Running).mode == ModeFor(requested)
  {
    hide H.Step, H.WordMode, H.Command;
  }

  lemma AskedOnce(s: Setup, c: Core, d: Drives, m: Core, r: Core, d': Drives, requested: Lifecycle)
    requires Inv(s, c) && Asked(c, requested) && (requested == Running || requested == Stopped) && CycleOf(s, c, d, m, r, d')
    ensures Inv(s, r) && Asked(r, requested) && r.comms.disabled == c.comms.disabled == m.comms.disabled
    ensures m.requested == requested && m.lifecycle == c.lifecycle && r.lifecycle == NextLifecycle(m, true)
    ensures forall i :: 0 <= i < ACTUATOR_COUNT && !c.comms.disabled[i] ==>
              D.Cycle(ModeFor(requested), AxisOf(c, d, i), AxisOf(r, d', i))
  {
    hide Inv, Apply, C.Sent, C.Write, NextLifecycle, FinishCycle, D.DriveStep, D.Shows, D.Cycle, C.StepHoming;
    CycleHasMiddle(s, c, d, m, r, d');
    var k := m.thread.loop.pc.cycle;
    assert QuickStops(k, m.thread.loop.pc.latest) == (requested != Running);
    FinishSent(s, m);
    FinishKeepsOpen(s, m, Sent);
    StepHomingIs(m.comms, k.frames, requested);
    WriteKeepsRest(m.comms, k.frames, requested != Running);
    NextLifecycleIs(m, true);
    forall i | 0 <= i < ACTUATOR_COUNT && !c.comms.disabled[i]
      ensures D.Cycle(ModeFor(requested), AxisOf(c, d, i), AxisOf(r, d', i))
    {
      SentIsKept(m.comms, k.frames, requested != Running, i);
      C.WriteIsLadderCycle(m.comms, k.frames, requested != Running, i, d.states[i], d.held[i], d'.states[i]);
    }
  }

  lemma SentIsKept(c: C.Comms, frames: CommandFrames, quickStop: bool, i: nat)
    requires c.open && i < ACTUATOR_COUNT
    ensures C.Sent(c, frames, quickStop).controlWord[i] == C.Write(c, frames, quickStop).lastWord[i]
  {
    hide C.StepHoming;
  }

  lemma WriteKeepsRest(c: C.Comms, frames: CommandFrames, quickStop: bool)
    ensures var r := C.Write(c, frames, quickStop); r.disabled == c.disabled && (!c.homing.active ==> !r.homing.active)
  {
    hide H.Step, H.WordMode, H.Command, C.ControlWords;
  }

  // ------------------------------ Cycle after cycle ------------------------------

  lemma {:induction false} AskedThroughout(s: Setup, cores: seq<Core>, middles: seq<Core>, drives: seq<Drives>,
                                           requested: Lifecycle, k: nat)
    requires Cycles(s, cores, middles, drives) && Asked(cores[0], requested) && (requested == Running || requested == Stopped)
    requires k < |cores|
    ensures Inv(s, cores[k]) && Asked(cores[k], requested) && cores[k].comms.disabled == cores[0].comms.disabled
  {
    hide Inv, Asked, CycleOf;
    if k > 0 {
      AskedThroughout(s, cores, middles, drives, requested, k - 1);
      AskedOnce(s, cores[k - 1], drives[k - 1], middles[k - 1], cores[k], drives[k], requested);
    }
  }

  ghost function AxisRun(cores: seq<Core>, drives: seq<Drives>, i: nat): seq<D.Axis>
    requires |cores| == |drives| && i < ACTUATOR_COUNT
  {
    seq(|cores|, k requires 0 <= k < |cores| => AxisOf(cores[k], drives[k], i))
  }

  // Every drive that takes part goes through the ladder of the word that is sent
  lemma AxesRun(s: Setup, cores: seq<Core>, middles: seq<Core>, drives: seq<Drives>, requested: Lifecycle, i: nat)
    requires Cycles(s, cores, middles, drives) && Asked(cores[0], requested) && (requested == Running || requested == Stopped)
    requires i < ACTUATOR_COUNT && !cores[0].comms.disabled[i]
    ensures D.IsRun(ModeFor(requested), AxisRun(cores, drives, i))
  {
    hide Inv, Asked, CycleOf, D.Cycle, AxisOf;
    var run := AxisRun(cores, drives, i);
    forall k | 0 < k < |run|
      ensures D.Cycle(ModeFor(requested), run[k - 1], run[k])
    {
      AskedThroughout(s, cores, middles, drives, requested, k - 1);
      AskedOnce(s, cores[k - 1], drives[k - 1], middles[k - 1], cores[k], drives[k], requested);
    }
  }

  lemma ReportedAsEnabled(d: Drives, c: C.Comms)
    requires Report(d, c.rx) && forall i :: 0 <= i < ACTUATOR_COUNT && !c.disabled[i] ==> d.states[i] == D.OperationEnabled
    ensures C.DrivesEnabled(c)
  {
    forall i | 0 <= i < ACTUATOR_COUNT && !c.disabled[i]
      ensures W.IsOperationEnabled(c.rx.status[i]) && c.rx.errorCode[i] == 0
    {
      assert D.Shows(d.states[i], c.rx.status[i]);
    }
  }

  lemma LastCycle(s: Setup, cores: seq<Core>, middles: seq<Core>, drives: seq<Drives>, requested: Lifecycle, k: nat)
    requires Cycles(s, cores, middles, drives) && Asked(cores[0], requested) && (requested == Running || requested == Stopped)
    requires k < |middles|
    ensures CycleOf(s, cores[k], drives[k], middles[k], cores[k + 1], drives[k + 1])
    ensures var m := middles[k];
            && m.requested == requested && m.lifecycle != Faulted && m.comms.disabled == cores[0].comms.disabled
            && cores[k + 1].lifecycle == NextLifecycle(m, true)
  {
    hide Inv, Asked, CycleOf, NextLifecycle;
    AskedThroughout(s, cores, middles, drives, requested, k);
    AskedOnce(s, cores[k], drives[k], middles[k], cores[k + 1], drives[k + 1], requested);
    AskedIsNoFault(cores[k], requested);
  }

  lemma AskedIsNoFault(c: Core, requested: Lifecycle)
    requires Asked(c, requested)
    ensures c.lifecycle != Faulted
  {}

  lemma DriveIsEnabled(s: Setup, cores: seq<Core>, middles: seq<Core>, drives: seq<Drives>, i: nat, k: nat)
    requires Cycles(s, cores, middles, drives) && Asked(cores[0], Running) && 6 <= k < |cores|
    requires i < ACTUATOR_COUNT && !cores[0].comms.disabled[i]
    ensures drives[k].states[i] == D.OperationEnabled
  {
    assert |cores| == |drives|;
    hide Cycles, Asked;
    AxesRun(s, cores, middles, drives, Running, i);
    D.EnableLadderConverges(AxisRun(cores, drives, i), k);
  }

  lemma ConfirmedBy(c: Core)
    requires c.lifecycle != Faulted
    ensures c.requested == Running && C.DrivesEnabled(c.comms) ==> NextLifecycle(c, true) == Running
    ensures c.requested == Stopped && C.QuickStopAttained(c.comms) ==> NextLifecycle(c, true) == Stopped
  {
    hide C.DrivesEnabled, C.QuickStopAttained;
  }

  // A run() is confirmed in the seventh whole cycle at the latest, whatever states the drives start
  // in and whatever words either side remembers, and stays confirmed
  lemma RunConfirmedInSeven(s: Setup, cores: seq<Core>, middles: seq<Core>, drives: seq<Drives>, k: nat)
    requires Cycles(s, cores, middles, drives) && Asked(cores[0], Running) && 6 <= k < |middles|
    ensures cores[k + 1].lifecycle == Running
  {
    assert |cores| == |drives|;
    hide Asked, CycleOf, C.DrivesEnabled, NextLifecycle, Cycles, Report;
    LastCycle(s, cores, middles, drives, Running, k);
    var m := middles[k];
    forall i | 0 <= i < ACTUATOR_COUNT && !m.comms.disabled[i]
      ensures drives[k].states[i] == D.OperationEnabled
    {
      DriveIsEnabled(s, cores, middles, drives, i, k);
    }
    CycleReports(s, cores[k], drives[k], m, cores[k + 1], drives[k + 1]);
    ReportedAsEnabled(drives[k], m.comms);
    ConfirmedBy(m);
  }

  lemma CycleReports(s: Setup, c: Core, d: Drives, m: Core, r: Core, d': Drives)
    requires CycleOf(s, c, d, m, r, d')
    ensures Report(d, m.comms.rx)
  {
    hide Report;
  }

  // The standard leaves bit5 open in most of the states that a quick stop comes to rest in. These
  // drives keep it low in all of them
  ghost predicate ClearsQuickStop(d: Drives, rx: StateFrames) {
    forall i :: 0 <= i < ACTUATOR_COUNT && !D.PoweredOn(d.states[i]) && d.states[i] != D.ReadyToSwitchOn ==>
      !W.Has(rx.status[i], W.QUICK_STOP_ACTIVE)
  }

  lemma DriveIsDisarmed(s: Setup, cores: seq<Core>, middles: seq<Core>, drives: seq<Drives>, i: nat, k: nat)
    requires Cycles(s, cores, middles, drives) && Asked(cores[0], Stopped) && 1 <= k < |cores|
    requires i < ACTUATOR_COUNT && !cores[0].comms.disabled[i]
    ensures !D.PoweredOn(drives[k].states[i]) && drives[k].states[i] != D.ReadyToSwitchOn
  {
    assert |cores| == |drives|;
    hide Cycles, Asked;
    AxesRun(s, cores, middles, drives, Stopped, i);
    D.QuickStopDisarms(AxisRun(cores, drives, i), k);
  }

  lemma ClearedIsAttained(d: Drives, c: C.Comms, disabled: Mask)
    requires ClearsQuickStop(d, c.rx) && Disarmed(d, disabled) && c.disabled == disabled
    ensures C.QuickStopAttained(c)
  {}

  ghost predicate Disarmed(d: Drives, disabled: Mask) {
    forall i :: 0 <= i < ACTUATOR_COUNT && !disabled[i] ==> !D.PoweredOn(d.states[i]) && d.states[i] != D.ReadyToSwitchOn
  }

  lemma DrivesAreDisarmed(s: Setup, cores: seq<Core>, middles: seq<Core>, drives: seq<Drives>, k: nat)
    requires Cycles(s, cores, middles, drives) && Asked(cores[0], Stopped) && 1 <= k < |cores|
    ensures Disarmed(drives[k], cores[0].comms.disabled)
  {
    assert |cores| == |drives|;
    hide Cycles, Asked;
    forall i | 0 <= i < ACTUATOR_COUNT && !cores[0].comms.disabled[i]
      ensures !D.PoweredOn(drives[k].states[i]) && drives[k].states[i] != D.ReadyToSwitchOn
    {
      DriveIsDisarmed(s, cores, middles, drives, i, k);
    }
  }

  // With such drives a stop() is confirmed in the second whole cycle at the latest, and stays confirmed
  lemma StopConfirmedInTwo(s: Setup, cores: seq<Core>, middles: seq<Core>, drives: seq<Drives>, k: nat)
    requires Cycles(s, cores, middles, drives) && Asked(cores[0], Stopped) && 1 <= k < |middles|
    requires ClearsQuickStop(drives[k], middles[k].comms.rx)
    ensures cores[k + 1].lifecycle == Stopped
  {
    assert |cores| == |drives|;
    hide Asked, CycleOf, C.QuickStopAttained, NextLifecycle, Cycles, ClearsQuickStop, Disarmed;
    LastCycle(s, cores, middles, drives, Stopped, k);
    DrivesAreDisarmed(s, cores, middles, drives, k);
    ClearedIsAttained(drives[k], middles[k].comms, cores[0].comms.disabled);
    ConfirmedBy(middles[k]);
  }

  // Other drives may stay in Switch On Disabled with bit5 high however often they are quick-stopped,
  // and never show the stop that the wait is for
  lemma StopMayNotShow()
    ensures D.Shows(D.SwitchOnDisabled, 0x0060) && W.Has(0x0060, W.QUICK_STOP_ACTIVE)
    ensures forall held, sent :: D.Cycle(W.QuickStop, D.Axis(D.SwitchOnDisabled, held, sent),
                                         D.Axis(D.SwitchOnDisabled, W.QUICK_STOP, W.QUICK_STOP))
  {
    assert D.Shows(D.SwitchOnDisabled, 0x0060);
    forall held, sent
      ensures D.Cycle(W.QuickStop, D.Axis(D.SwitchOnDisabled, held, sent), D.Axis(D.SwitchOnDisabled, W.QUICK_STOP, W.QUICK_STOP))
    {
      assert D.DriveStep(D.SwitchOnDisabled, held, W.ControlWord(W.QuickStop, 0x0060, sent), D.SwitchOnDisabled);
    }
  }

  // ---------------------------------- Silence ----------------------------------

  lemma ReadCounts(c: C.Comms, queue: seq<P.CanFrame>)
    ensures var r := C.Read(c, queue);
            && r.anyFrame == (c.anyFrame || (c.open && C.ReceivedAny(c.side, queue)))
            && r.silent == (if !c.open then c.silent else if C.ReceivedAny(c.side, queue) then 0
                            else if c.silent < C.UINT32_MAX then c.silent + 1 else c.silent)
  {
    hide P.Drain, C.ReceivedAny, C.SeenHigh;
  }

  // A cycle finds the link silent exactly where its queue is one more in a row without a decoded frame
  // than the loss window has, on an open link that has been heard
  lemma SilenceFaultsExactly(s: Setup, c: Core, input: RtInput)
    requires Inv(s, c) && c.thread.Alive? && c.lifecycle != Faulted
    ensures var r := BeginCycle(s, c, input);
            && (r.lifecycle == Faulted <==>
                  && c.comms.open && c.comms.anyFrame && c.comms.silent == s.lossCycles < C.UINT32_MAX
                  && !C.ReceivedAny(c.comms.side, input.queue))
            && (r.lifecycle == Faulted ==> r.stopCause == ReceiveSilence)
  {
    hide BeginCycle, C.Read, C.ReceivedAny, Inv;
    BeginLink(s, c, input);
    LinkWasJudged(s, c);
    ReadCounts(c.comms, input.queue);
    ReadCounts(C.Home(c.comms), input.queue);
  }

  lemma LinkWasJudged(s: Setup, c: Core)
    requires Inv(s, c) && c.thread.Alive?
    ensures c.comms.anyFrame ==> c.thread.loop.previousReceiving == (c.comms.silent <= s.lossCycles)
  {
    hide ThreadInv, HomingInv, StagingInv, CommandInv;
  }
}
