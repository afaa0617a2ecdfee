/** The poses that the SDK stages by itself: the hold with which it resumes, and the zero pose that a
    homing ends in. */
module HandCorePoses {
  import opened Types
  import opened Frames
  import opened ActionCheck
  import opened HandCore
  import opened HandCoreInvariant
  import opened HandCoreHistory
  import opened HandCoreSafety
  import opened HandCoreLocality
  import opened HandCoreHoming
  import C = HandComms
  import P = Protocol
  import H = HomingSequence
  import J = JointPositionController
  import M = CommandMapping

  // A command that sends every actuator to its count
  ghost predicate HoldsAt(controller: M.Controller, position: J.Counts) {
    controller.ActuatorPosition? && forall i :: 0 <= i < ACTUATOR_COUNT ==> controller.counts[i] == position[i] as real
  }

  // The position that an open link has last reported once a queue has been decoded
  ghost function Reported(c: Core, queue: seq<P.CanFrame>): seq<int> {
    match P.Newest(c.comms.side, queue, P.Position)
    case Some(Counts(counts)) => counts
    case _ => c.comms.rx.position
  }

  // A cycle that resumes with the pose its open link reports, on a link that has had a frame in
  ghost predicate ResumesReported(c: Core, step: Step, r: Core) {
    && step.LoopTop? && c.requestHold && r.comms.open && r.comms.anyFrame
    && r.comms.rx.position == Reported(c, step.input.queue)
    && r.staged.source == Sdk && HoldsAt(r.staged.command.controller, r.comms.rx.position)
  }

  ghost predicate Earns(c: Core, step: Step, r: Core) {
    ResumesReported(c, step, r) || (ReportsSuccess(c, step, r) && HoldsAt(r.staged.command.controller, Zeros()))
  }

  // What keeps a hold from being taken before the link has reported: it is asked for on a link that
  // is up, and nobody can lose that link and go on without asking again
  ghost predicate HoldInv(c: Core) {
    c.thread.Alive? ==>
      && (c.checkCommunication ==> c.comms.anyFrame)
      && (c.requestHold ==> !c.user.AwaitFrame? && (c.lifecycle == Faulted || (c.comms.open && c.comms.anyFrame)))
  }

  // Within a link session, as long as its loop lives
  ghost predicate SessionStep(c: Core, step: Step, r: Core) {
    HoldInv(r) && (Posed(r) ==> SameIntent(r.staged, c.staged) || Earns(c, step, r))
  }

  // --------------------------------- One step ----------------------------------

  lemma ReadHears(c: C.Comms, queue: seq<P.CanFrame>)
    ensures c.anyFrame ==> C.Read(c, queue).anyFrame
    ensures C.Read(c, queue).open == c.open
  {
    hide P.Drain, C.ReceivedAny, C.SeenHigh;
  }

  lemma HomeKeepsHearing(c: C.Comms)
    ensures var r := C.Home(c); r.anyFrame == c.anyFrame && r.open == c.open && r.side == c.side && r.rx == c.rx
  {}

  lemma ReadDecodes(c: C.Comms, queue: seq<P.CanFrame>)
    requires c.open
    ensures C.Read(c, queue).rx.position ==
              match P.Newest(c.side, queue, P.Position)
              case Some(Counts(counts)) => counts
              case _ => c.rx.position
  {
    hide P.Drain, C.ReceivedAny, C.SeenHigh;
    P.DrainKeepsNewest(c.side, queue, c.rx, P.Position);
  }

  lemma HeldHolds(position: J.Counts)
    ensures HoldsAt(Held(position), position)
  {}

  lemma HoldIsReported(c: Core, joints: J.Joints)
    ensures var r := TakeHold(c, joints);
            && r.comms == c.comms && !r.requestHold && r.checkCommunication == c.checkCommunication && r.user == c.user
            && (c.requestHold && c.comms.open ==> r.staged.source == Sdk && HoldsAt(r.staged.command.controller, c.comms.rx.position))
            && (!c.requestHold ==> r.staged == c.staged)
  {
    hide Held, HoldsAt;
    HeldHolds(c.comms.rx.position);
  }

  lemma BeginTakesPose(s: Setup, c: Core, input: RtInput)
    requires c.thread.Alive? && HoldInv(c) && c.lifecycle != Faulted
    ensures SessionStep(c, LoopTop(input), BeginCycle(s, c, input))
  {
    hide C.Read, C.Home, Taken, WatchLink, TakeHold, Refreshed, Compute, Held, HoldsAt, ReportsSuccess, P.Newest;
    var c1 := Taken(c);
    var c2 := Observe(c1, input.queue);
    var c3 := WatchLink(s, c2);
    TakenDoes(c);
    HomeKeepsHearing(c.comms);
    ReadHears(c1.comms, input.queue);
    if c1.comms.open {
      ReadDecodes(c1.comms, input.queue);
    }
    WatchLinkDoes(s, c2);
    HoldIsReported(c3, input.joints);
    ComputeDoes(s, TakeHold(c3, input.joints), input.joints);
  }

  // A hold that was asked for is taken by the next cycle, with the caps that are staged
  lemma CycleResumes(s: Setup, c: Core, input: RtInput)
    requires c.thread.Alive? && c.requestHold && c.comms.open
    ensures var r := BeginCycle(s, c, input);
            && !r.requestHold && r.comms.rx.position == Reported(c, input.queue)
            && r.staged.source == Sdk && HoldsAt(r.staged.command.controller, r.comms.rx.position)
            && r.staged.command.maxEffort == c.staged.command.maxEffort && r.mail == Some(r.staged)
  {
    hide C.Read, C.Home, Taken, WatchLink, TakeHold, Refreshed, Compute, Held, HoldsAt, P.Newest;
    var c1 := Taken(c);
    var c2 := Observe(c1, input.queue);
    var c3 := WatchLink(s, c2);
    TakenDoes(c);
    HomeKeepsHearing(c.comms);
    ReadHears(c1.comms, input.queue);
    ReadDecodes(c1.comms, input.queue);
    WatchLinkDoes(s, c2);
    HoldIsReported(c3, input.joints);
    TakeHoldDoes(c3, input.joints);
    ComputeDoes(s, TakeHold(c3, input.joints), input.joints);
  }

  lemma FaultedTopTakesNone(s: Setup, c: Core, input: RtInput)
    requires Inv(s, c) && c.thread.Alive? && c.thread.loop.pc.Top? && c.lifecycle == Faulted && HoldInv(c)
    requires RtTop(s, c, input).links == c.links
    ensures SessionStep(c, LoopTop(input), RtTop(s, c, input))
  {
    hide RtTop, Receiving, ThreadInv, HomingInv, StagingInv, CommandInv, Earns;
    var comms := TopOfFaulted(s, c, input);
    RecoveredCounts(s, c, comms);
  }

  lemma RecoveredCounts(s: Setup, c: Core, comms: C.Comms)
    requires c.thread.Alive?
    ensures var r := Recovered(s, c, comms);
            && r.links == c.links + 1 && !r.requestHold && !r.checkCommunication
            && r.staged.source == Sdk && r.staged.command.controller.Idle?
  {}

  // The zero pose is staged where a success is reported, and nowhere else as a cycle ends
  lemma ResolvedPose(t: Core)
    ensures var r := WatchHoming(t);
            && r.requestHold == t.requestHold && r.checkCommunication == t.checkCommunication && r.user == t.user
            && (r.staged == t.staged
                || (r.homedLink == Some(t.links) && r.resultHoming && t.activeHoming && !t.comms.homing.active
                    && t.comms.homing.outcome.Succeeded?
                    && r.staged.source == Sdk && HoldsAt(r.staged.command.controller, Zeros())))
  {
    hide WithController, Constant, HoldsAt;
    var reported := t.(resultHoming := true, activeHoming := false, homingState := Succeeded, homedLink := Some(t.links));
    ZeroIsStaged(reported);
  }

  lemma ZeroIsStaged(c: Core)
    ensures var r := WithController(c, M.ActuatorPosition(Constant(0.0)), Sdk);
            && r == c.(staged := r.staged, mail := r.mail)
            && r.staged.source == Sdk && HoldsAt(r.staged.command.controller, Zeros())
  {}

  lemma FinishTakesPose(s: Setup, c: Core, tx: TxResult)
    requires Inv(s, c) && c.thread.Alive? && c.thread.loop.pc.AfterReread? && HoldInv(c)
    ensures SessionStep(c, LoopFinish(tx), FinishCycle(c, tx))
  {
    hide FinishCycle, Transmitted, C.DrivesEnabled, C.QuickStopAttained, H.Step, Follows, ThreadInv, StagingInv,
         CommandInv, WatchHoming;
    var w := FinishShapes(s, c, tx);
    var t := Transmitted(c, tx);
    TransmittedStep(s, c, tx);
    NextLifecycleIs(t, c.thread.loop.pc.cycle.receiving);
    ResolvedPose(WatchDrives(t, c.thread.loop.pc.cycle.receiving));
    assert FinishCycle(c, tx)
        == WatchHoming(WatchDrives(t, c.thread.loop.pc.cycle.receiving)).(thread := Alive(c.thread.loop.(pc := Top))) by {
      hide *;
      FinishIs(c, tx);
    }
  }

  // A homing that succeeds always ends in the zero pose, with the caps that are staged
  lemma SuccessTakesZero(s: Setup, c: Core, tx: TxResult)
    requires Inv(s, c) && c.thread.Alive? && c.thread.loop.pc.AfterReread?
    requires ReportsSuccess(c, LoopFinish(tx), FinishCycle(c, tx))
    ensures var r := FinishCycle(c, tx);
            && r.staged.source == Sdk && HoldsAt(r.staged.command.controller, Zeros())
            && r.staged.command.maxEffort == c.staged.command.maxEffort && r.mail == Some(r.staged)
  {
    hide FinishCycle, Transmitted, H.Step, Follows, ThreadInv, StagingInv, CommandInv, LinkInv, WatchHoming, HoldsAt, NextLifecycle;
    var w := FinishShapes(s, c, tx);
    SuccessStagesZero(WatchDrives(Transmitted(c, tx), c.thread.loop.pc.cycle.receiving));
    FinishIs(c, tx);
  }

  lemma SuccessStagesZero(t: Core)
    requires t.activeHoming && !t.comms.homing.active && t.comms.homing.outcome.Succeeded?
    ensures var r := WatchHoming(t);
            && r.staged.source == Sdk && HoldsAt(r.staged.command.controller, Zeros())
            && r.staged.command.maxEffort == t.staged.command.maxEffort && r.mail == Some(r.staged)
  {
    hide WithController, Constant, HoldsAt;
    var reported := t.(resultHoming := true, activeHoming := false, homingState := Succeeded, homedLink := Some(t.links));
    ZeroIsStaged(reported);
    WithControllerDoes(reported, M.ActuatorPosition(Constant(0.0)), Sdk);
  }

  lemma FinishIs(c: Core, tx: TxResult)
    requires c.thread.Alive? && c.thread.loop.pc.AfterReread?
    ensures FinishCycle(c, tx) ==
      WatchHoming(WatchDrives(Transmitted(c, tx), c.thread.loop.pc.cycle.receiving)).(thread := Alive(c.thread.loop.(pc := Top)))
  {
    hide Transmitted, WatchDrives, WatchHoming;
  }

  lemma UserTakesNone(s: Setup, c: Core, step: Step)
    requires Inv(s, c) && Enabled(c, step) && c.thread.Alive? && (step.UserCall? || step.UserPoll?) && HoldInv(c)
    ensures SessionStep(c, step, Apply(s, c, step))
  {
    UserKeepsLoop(s, c, step);
    OpenInControl(s, c);
    hide Inv, Apply, Earns;
  }

  lemma StepTakesPose(s: Setup, c: Core, step: Step)
    requires Inv(s, c) && Enabled(c, step) && HoldInv(c) && c.thread.Alive?
    requires var r := Apply(s, c, step); r.thread.Alive? && r.links == c.links
    ensures SessionStep(c, step, Apply(s, c, step))
  {
    hide Inv, HoldInv, SessionStep, RtTop, FinishCycle, ApplyCall, ApplyPoll;
    match step
    case LoopTop(input) =>
      if c.lifecycle == Faulted {
        FaultedTopTakesNone(s, c, input);
      } else {
        BeginTakesPose(s, c, input);
        TopOnlyBegins(s, c, input);
      }
    case LoopReread => RereadTakesNone(s, c);
    case LoopFinish(tx) => FinishTakesPose(s, c, tx);
    case LoopThrow =>
    case UserCall(_) => UserTakesNone(s, c, step);
    case UserPoll(_, _) => UserTakesNone(s, c, step);
  }

  lemma TopOnlyBegins(s: Setup, c: Core, input: RtInput)
    requires c.thread.Alive? && c.lifecycle != Faulted && RtTop(s, c, input).thread.Alive?
    ensures RtTop(s, c, input) == BeginCycle(s, c, input)
  {
    hide BeginCycle;
  }

  lemma RereadTakesNone(s: Setup, c: Core)
    requires c.thread.Alive? && c.thread.loop.pc.BeforeReread? && HoldInv(c)
    ensures SessionStep(c, LoopReread, RtReread(c))
  {}

  // -------------------------------- Opening a link --------------------------------

  predicate OpensLink(c: Core, r: Core) { r.thread.Alive? && r.links != c.links }

  lemma RefusalsStartNoLoop(c: Core, failed: Core, reconnecting: bool, cause: StopCause, code: ErrorCode)
    requires failed.thread == c.thread
    ensures ConnectRefused(c, reconnecting, cause, code).thread == c.thread
    ensures ConnectRefused(c.(comms := c.comms.(open := false)), reconnecting, cause, code).thread == c.thread
    ensures ConnectRefused(failed, reconnecting, cause, code).thread == c.thread
  {
    hide ConnectRefused;
    RefusalKeepsThread(c, reconnecting, cause, code);
    RefusalKeepsThread(c.(comms := c.comms.(open := false)), reconnecting, cause, code);
    RefusalKeepsThread(failed, reconnecting, cause, code);
  }

  lemma ConnectOpens(c: Core, link: LinkInput, reconnecting: bool, cause: StopCause)
    requires !c.thread.Alive? && OpensLink(c, HandCore.Connect(c, link, reconnecting, cause))
    ensures HandCore.Connect(c, link, reconnecting, cause)
            == Opened(c).(thread := Alive(NewLoop()), user := AwaitFrame(reconnecting, cause))
  {
    hide Checked, NewLoop, Opened, C.Disconnected, ConnectRefused;
    OpenedFields(c);
    var onLink := Opened(c);
    var failed := onLink.(requested := Disconnected, lifecycle := Disconnected, comms := C.Disconnected(onLink.comms));
    var allowed := Checked(c, Action.Connect, true);
    if !allowed.OK? {
      RefusalsStartNoLoop(c, failed, reconnecting, cause, allowed.code);
    }
    RefusalsStartNoLoop(c, failed, reconnecting, cause, InterfaceUnavailable);
    RefusalsStartNoLoop(c, failed, reconnecting, cause, ControlLoopFault);
  }

  lemma OpenedFields(c: Core)
    ensures var r := Opened(c);
            && r.thread == c.thread && r.links == c.links + 1 && r.requested == Connected && r.lifecycle == c.lifecycle
            && r.comms.open && !r.comms.anyFrame && r.comms.rx == NoState() && !r.checkCommunication
            && r.requestHold == c.requestHold && r.staged == c.staged
  {}

  // Opened again after a fault, by a reconnect() or a retry, the link has no old pose and no old hold
  ghost predicate OpensClean(r: Core) { !r.requestHold && r.staged.source == Sdk && r.staged.command.controller.Idle? }

  ghost predicate StartsSilent(r: Core) {
    && r.requested == Connected && r.lifecycle != Faulted && r.comms.open && !r.comms.anyFrame && r.comms.rx == NoState()
    && !r.checkCommunication && r.thread == Alive(NewLoop()) && r.user.AwaitFrame?
  }

  lemma ConnectStartsSilent(s: Setup, c: Core, link: LinkInput, reconnecting: bool, cause: StopCause)
    requires !c.thread.Alive? && c.lifecycle != Faulted && OpensLink(c, HandCore.Connect(c, link, reconnecting, cause))
    ensures var r := HandCore.Connect(c, link, reconnecting, cause);
            StartsSilent(r) && r.requestHold == c.requestHold && r.staged == c.staged
  {
    hide HandCore.Connect, Opened, NewLoop;
    ConnectOpens(c, link, reconnecting, cause);
    OpenedFields(c);
  }

  lemma ReconnectOpensClean(s: Setup, c: Core, link: LinkInput)
    requires c.user == Joining(ReconnectNow) && !c.thread.Alive? && OpensLink(c, Joined(c, link))
    ensures OpensClean(Joined(c, link)) && StartsSilent(Joined(c, link))
  {
    hide HandCore.Connect, ResetToIdle, C.Disconnected, C.Stop, StartsSilent;
    var u := ResetFaultState(Closed(Unthreaded(c)));
    ResetLeavesSdk(u);
    ConnectStartsSilent(s, ResetToIdle(u), link, true, Unthreaded(c).stopCause);
  }

  lemma DoneStartsNoLoop(c: Core, reconnecting: bool, cause: StopCause)
    ensures ConnectionFailed(c, reconnecting, cause).thread == c.thread
    ensures DisconnectionDone(c).thread == c.thread && Closed(c).thread == c.thread
  {
    hide C.Disconnected, C.Stop;
  }

  lemma JoinedOpens(c: Core, link: LinkInput)
    requires c.user.Joining? && !c.thread.Alive? && Joined(c, link).thread.Alive?
    ensures c.user == Joining(ReconnectNow)
  {
    hide Reconnection, ConnectionFailed, DisconnectionDone, Closed, Unthreaded;
    assert Unthreaded(c).thread.NoThread? by { hide *; UnthreadedIs(c); }
    assert Closed(Unthreaded(c)).(user := Outside(OK)).thread == Closed(Unthreaded(c)).thread;
    if c.user.next.ConnectFailed? {
      DoneStartsNoLoop(Unthreaded(c), c.user.next.reconnecting, c.user.next.cause);
    } else {
      DoneStartsNoLoop(Unthreaded(c), false, NotRecorded);
    }
  }

  lemma UnthreadedIs(c: Core)
    ensures Unthreaded(c).thread.NoThread?
  {}

  lemma CallOpens(s: Setup, c: Core, call: Call)
    requires Inv(s, c) && c.user.Outside? && OpensLink(c, ApplyCall(s, c, call))
    ensures !c.thread.Alive? && call.CallConnect? && ApplyCall(s, c, call) == HandCore.Connect(c, call.link, false, NotRecorded)
  {
    hide Inv, HandCore.Connect, HandCore.Disconnect, HandCore.Reconnect, Close, HandCore.Run, HandCore.Stop, HandCore.Home,
         StartHoming, HandCore.SetCommand, SetMaxEffort, SetControllerConfig;
    if c.thread.Alive? {
      assert ThreadInv(c) by { hide *; ThreadsFit(s, c); }
      CallKeepsLoop(s, c, call);
    } else {
      match call
      case CallConnect(_) =>
      case CallRun => RunKeepsLoop(s, c);
      case CallHome => HomeKeepsLoop(c);
      case CallStartHoming => StartHomingKeepsLoop(c);
      case _ => PlainKeepsHoming(s, c, call);
    }
  }

  lemma ThreadsFit(s: Setup, c: Core)
    requires Inv(s, c)
    ensures ThreadInv(c)
  {
    hide ThreadInv, LinkInv, HomingInv, StagingInv, CommandInv;
  }

  lemma PollOpens(s: Setup, c: Core, timeout: bool, link: LinkInput)
    requires Enabled(c, UserPoll(timeout, link)) && OpensLink(c, ApplyPoll(c, timeout, link))
    ensures !c.thread.Alive? && c.user == Joining(ReconnectNow) && ApplyPoll(c, timeout, link) == Joined(c, link)
  {
    hide PollFirstFrame, PollStop, PollEnable, PollHoming, Joined;
    match c.user
    case AwaitFrame(_, _) => PollFirstFrameKeepsLoop(c, timeout);
    case AwaitStop(_) => PollStopKeepsLoop(c, timeout);
    case AwaitEnable => PollEnableKeepsLoop(c, timeout);
    case AwaitHoming => PollHomingKeepsLoop(c);
    case Joining(_) => JoinedOpens(c, link);
  }

  lemma LoopOpens(s: Setup, c: Core, step: Step)
    requires Inv(s, c) && Enabled(c, step) && !step.UserCall? && !step.UserPoll? && OpensLink(c, Apply(s, c, step))
    ensures var r := Apply(s, c, step); OpensClean(r) && !r.checkCommunication
  {
    hide Inv, BeginCycle, FinishCycle, RtTop, TryReconnect, Recovered;
    match step
    case LoopTop(input) =>
      if c.lifecycle == Faulted {
        var comms := TopOfFaulted(s, c, input);
        RecoveredCounts(s, c, comms);
      } else {
        TopOnlyBegins(s, c, input);
        BeginKeepsLinks(s, c, input);
      }
    case LoopReread =>
    case LoopThrow =>
    case LoopFinish(tx) => FinishKeepsOpen(s, c, tx);
  }

  lemma BeginKeepsLinks(s: Setup, c: Core, input: RtInput)
    requires c.thread.Alive?
    ensures BeginCycle(s, c, input).links == c.links
  {
    hide BeginCycle, C.Home, Receiving;
    var w := BeginShapes(s, c, input);
  }

  // A link is opened with what a connect() finds, and clean otherwise
  lemma StepOpens(s: Setup, c: Core, step: Step)
    requires Inv(s, c) && Enabled(c, step) && OpensLink(c, Apply(s, c, step))
    ensures var r := Apply(s, c, step);
            && !r.checkCommunication
            && (OpensClean(r) || (step.UserCall? && step.call.CallConnect? && StartsSilent(r)))
  {
    hide Inv, HandCore.Connect, Joined, ApplyCall, ApplyPoll, OpensClean;
    if step.UserCall? {
      CallOpens(s, c, step.call);
      assert c.lifecycle != Faulted by { ConnectNeedsNoFault(s, c, step.call.link); }
      ConnectStartsSilent(s, c, step.call.link, false, NotRecorded);
    } else if step.UserPoll? {
      PollOpens(s, c, step.timeout, step.link);
      ReconnectOpensClean(s, c, step.link);
    } else {
      LoopOpens(s, c, step);
    }
  }

  lemma ConnectNeedsNoFault(s: Setup, c: Core, link: LinkInput)
    requires Inv(s, c) && !c.thread.Alive? && OpensLink(c, HandCore.Connect(c, link, false, NotRecorded))
    ensures c.lifecycle != Faulted
  {
    hide HandCore.Connect, LinkInv, HomingInv, StagingInv, CommandInv, NewLoop, Opened;
    ConnectOpens(c, link, false, NotRecorded);
    if c.lifecycle == Faulted {
      RefusedConnectWaitsNot(c, link);
    }
  }

  lemma RefusedConnectWaitsNot(c: Core, link: LinkInput)
    requires c.lifecycle == Faulted && c.requested != Faulted
    ensures !HandCore.Connect(c, link, false, NotRecorded).user.AwaitFrame?
  {
    assert !Checked(c, Action.Connect, true).OK? by {
      if Checked(c, Action.Connect, true).OK? {
        AllowedMeans(c, Action.Connect, true);
      }
    }
    hide Checked, Opened;
  }

  // ---------------------------------- Whole sessions ----------------------------------

  // From the opening in step o up to state k one loop runs on one link
  ghost predicate InSession(cores: seq<Core>, o: nat, k: nat) {
    && o < k < |cores| && OpensLink(cores[o], cores[o + 1])
    && forall m :: o < m <= k ==> cores[m].thread.Alive? && cores[m].links == cores[k].links
  }

  // A pose of the SDK that was earned in its session, and has been staged ever since
  ghost predicate Earned(cores: seq<Core>, steps: seq<Step>, o: nat, k: nat)
    requires |cores| == |steps| + 1 && k < |cores|
  {
    exists h: nat :: o < h < k && EarnedAt(cores, steps, h, k)
  }

  ghost predicate EarnedAt(cores: seq<Core>, steps: seq<Step>, h: nat, k: nat)
    requires |cores| == |steps| + 1 && h < k < |cores|
  {
    Earns(cores[h], steps[h], cores[h + 1]) && StagedSince(cores, h, k)
  }

  // What a link has to be opened with
  ghost predicate OpensWithout(r: Core) { !r.requestHold && !Posed(r) }

  lemma {:induction false} PosesAreEarned(s: Setup, cores: seq<Core>, steps: seq<Step>, o: nat, k: nat)
    requires IsRun(s, cores, steps) && InSession(cores, o, k) && OpensWithout(cores[o + 1])
    ensures |cores| == |steps| + 1 && HoldInv(cores[k]) && (Posed(cores[k]) ==> Earned(cores, steps, o, k))
    decreases k
  {
    hide IsRun, HoldInv, Posed, Earns, Earned, SameIntent, OpensLink;
    RunLength(s, cores, steps);
    if k == o + 1 {
      OpeningHolds(s, cores, steps, o);
    } else {
      PosesAreEarned(s, cores, steps, o, k - 1);
      SessionStepAt(s, cores, steps, k - 1);
      if Posed(cores[k]) {
        if Earns(cores[k - 1], steps[k - 1], cores[k]) {
          JustEarned(cores, steps, o, k);
        } else {
          StillPosed(cores[k - 1], cores[k]);
          EarnedLonger(cores, steps, o, k);
        }
      }
    }
  }

  lemma JustEarned(cores: seq<Core>, steps: seq<Step>, o: nat, k: nat)
    requires |cores| == |steps| + 1 && o + 1 < k < |cores| && Earns(cores[k - 1], steps[k - 1], cores[k])
    ensures Earned(cores, steps, o, k)
  {
    hide Earns;
    assert EarnedAt(cores, steps, k - 1, k);
  }

  lemma EarnedLonger(cores: seq<Core>, steps: seq<Step>, o: nat, k: nat)
    requires |cores| == |steps| + 1 && 0 < k < |cores| && Earned(cores, steps, o, k - 1)
    requires SameIntent(cores[k].staged, cores[k - 1].staged)
    ensures Earned(cores, steps, o, k)
  {
    hide EarnedAt, SameIntent;
    var h: nat :| o < h < k - 1 && EarnedAt(cores, steps, h, k - 1);
    SinceLonger(cores, steps, h, k);
  }

  lemma StillPosed(c: Core, r: Core)
    requires Posed(r) && SameIntent(r.staged, c.staged)
    ensures Posed(c)
  {}

  lemma SinceLonger(cores: seq<Core>, steps: seq<Step>, h: nat, k: nat)
    requires |cores| == |steps| + 1 && h + 1 < k < |cores| && EarnedAt(cores, steps, h, k - 1)
    requires SameIntent(cores[k].staged, cores[k - 1].staged)
    ensures EarnedAt(cores, steps, h, k)
  {
    hide Earns;
  }

  lemma OpeningHolds(s: Setup, cores: seq<Core>, steps: seq<Step>, o: nat)
    requires IsRun(s, cores, steps) && o < |steps| && OpensLink(cores[o], cores[o + 1]) && OpensWithout(cores[o + 1])
    ensures HoldInv(cores[o + 1]) && !Posed(cores[o + 1])
  {
    hide Inv, Apply, OpensClean, StartsSilent, Posed, Constructed;
    AlwaysInv(s, cores, steps, o);
    assert Enabled(cores[o], steps[o]) && cores[o + 1] == Apply(s, cores[o], steps[o]);
    StepOpens(s, cores[o], steps[o]);
  }

  lemma SessionStepAt(s: Setup, cores: seq<Core>, steps: seq<Step>, k: nat)
    requires IsRun(s, cores, steps) && k < |steps| && HoldInv(cores[k])
    requires cores[k].thread.Alive? && cores[k + 1].thread.Alive? && cores[k + 1].links == cores[k].links
    ensures HoldInv(cores[k + 1])
    ensures Posed(cores[k + 1]) ==> SameIntent(cores[k + 1].staged, cores[k].staged) || Earns(cores[k], steps[k], cores[k + 1])
  {
    hide Inv, Apply, Posed, Constructed, HoldInv, Earns, SameIntent;
    AlwaysInv(s, cores, steps, k);
    assert Enabled(cores[k], steps[k]) && cores[k + 1] == Apply(s, cores[k], steps[k]);
    StepTakesPose(s, cores[k], steps[k]);
  }

  // ----------------------------- Exactly which sessions -----------------------------

  // A run that goes on from another one
  ghost predicate Continues(s: Setup, cores: seq<Core>, steps: seq<Step>, more: seq<Core>, moreSteps: seq<Step>) {
    IsRun(s, more, moreSteps) && cores <= more && steps <= moreSteps
  }

  // However the session that the last step has opened goes on, it earns the poses of the SDK
  ghost predicate EarnsItsPoses(s: Setup, cores: seq<Core>, steps: seq<Step>)
    requires steps != []
  {
    forall more, moreSteps, k :: Continues(s, cores, steps, more, moreSteps) && InSession(more, |steps| - 1, k) && Posed(more[k]) ==>
      |more| == |moreSteps| + 1 && Earned(more, moreSteps, |steps| - 1, k)
  }

  const NOTHING: RtInput := RtInput([], seq(J.JOINT_COUNT, _ => None), false, false, [])

  lemma NothingIsHeard(c: C.Comms)
    ensures C.Read(c, []).anyFrame == c.anyFrame && C.Read(c, []).rx == c.rx
  {
    hide C.SeenHigh;
  }

  lemma SilentBegin(s: Setup, c: Core)
    requires c.thread.Alive? && c.requestHold && c.comms.open && !c.comms.anyFrame && c.requested == Connected
    ensures var r := BeginCycle(s, c, NOTHING);
            && r.thread.Alive? && Posed(r) && !r.comms.anyFrame
            && r.staged.source == Sdk && HoldsAt(r.staged.command.controller, c.comms.rx.position)
  {
    hide C.Read, C.Home, Taken, WatchLink, TakeHold, Refreshed, Compute, Held;
    var c1 := Taken(c);
    var c2 := Observe(c1, []);
    var c3 := WatchLink(s, c2);
    TakenDoes(c);
    NothingIsHeard(c.comms);
    ReadHears(c.comms, []);
    WatchLinkDoes(s, c2);
    HoldIsReported(c3, NOTHING.joints);
    ComputeDoes(s, TakeHold(c3, NOTHING.joints), NOTHING.joints);
  }

  // An old hold, on a link that has reported nothing yet
  lemma SilentCycleTakesHold(s: Setup, c: Core)
    requires StartsSilent(c) && c.requestHold
    ensures Enabled(c, LoopTop(NOTHING))
    ensures var r := Apply(s, c, LoopTop(NOTHING));
            && r.thread.Alive? && r.links == c.links && Posed(r) && !Earns(c, LoopTop(NOTHING), r)
            && r.staged.source == Sdk && HoldsAt(r.staged.command.controller, Zeros())
  {
    hide BeginCycle, Posed, ReportsSuccess, HoldsAt;
    SilentBegin(s, c);
    BeginKeepsLinks(s, c, NOTHING);
    TopBegins(s, c, LoopTop(NOTHING));
    OnlyFinishReports(c, LoopTop(NOTHING), BeginCycle(s, c, NOTHING));
  }

  lemma OnlyFinishReports(c: Core, step: Step, r: Core)
    ensures ReportsSuccess(c, step, r) ==> step.LoopFinish?
  {}

  // One more cycle on a link opened with an old hold, if nothing comes in, stages what nobody reported
  lemma OldHoldIsTaken(s: Setup, cores: seq<Core>, steps: seq<Step>)
    requires IsRun(s, cores, steps) && steps != [] && OpensLink(cores[|steps| - 1], cores[|steps|])
    requires cores[|steps|].requestHold
    ensures !EarnsItsPoses(s, cores, steps)
  {
    hide Inv, Apply, OpensClean, StartsSilent, Constructed, Enabled, Earns, Posed;
    var o := |steps| - 1;
    AlwaysInv(s, cores, steps, o);
    assert Enabled(cores[o], steps[o]) && cores[o + 1] == Apply(s, cores[o], steps[o]);
    StepOpens(s, cores[o], steps[o]);
    assert StartsSilent(cores[o + 1]) by { hide *; CleanHasNoHold(cores[o + 1]); }
    SilentCycleTakesHold(s, cores[o + 1]);
    var r := Apply(s, cores[o + 1], LoopTop(NOTHING));
    var more, moreSteps := cores + [r], steps + [LoopTop(NOTHING)];
    assert Continues(s, cores, steps, more, moreSteps);
    assert InSession(more, o, o + 2);
    assert !Earned(more, moreSteps, o, o + 2);
  }

  lemma CleanHasNoHold(r: Core)
    ensures OpensClean(r) ==> !r.requestHold && !Posed(r)
  {}

  lemma OldPoseIsThere(s: Setup, cores: seq<Core>, steps: seq<Step>)
    requires IsRun(s, cores, steps) && steps != [] && OpensLink(cores[|steps| - 1], cores[|steps|])
    requires Posed(cores[|steps|])
    ensures !EarnsItsPoses(s, cores, steps)
  {
    hide Apply, Constructed, Enabled, Posed, Earns, IsRun;
    RunLength(s, cores, steps);
    var o := |steps| - 1;
    assert Continues(s, cores, steps, cores, steps);
    assert InSession(cores, o, o + 1);
    assert !Earned(cores, steps, o, o + 1);
  }

  // A link session earns every pose that the SDK stages in it, exactly where no hold and no pose is
  // left over as it is opened. A reconnect() and a retry see to that, a connect() does not
  lemma EarnsItsPosesIff(s: Setup, cores: seq<Core>, steps: seq<Step>)
    requires IsRun(s, cores, steps) && steps != [] && OpensLink(cores[|steps| - 1], cores[|steps|])
    ensures EarnsItsPoses(s, cores, steps) <==> !cores[|steps|].requestHold && !Posed(cores[|steps|])
    ensures !(Last(steps).UserCall? && Last(steps).call.CallConnect?) ==> EarnsItsPoses(s, cores, steps)
  {
    hide Inv, Apply, OpensClean, StartsSilent, Constructed, Enabled, Earns, Posed, OpensLink, Earned;
    var o := |steps| - 1;
    AlwaysInv(s, cores, steps, o);
    assert Enabled(cores[o], steps[o]) && cores[o + 1] == Apply(s, cores[o], steps[o]);
    StepOpens(s, cores[o], steps[o]);
    CleanHasNoHold(cores[o + 1]);
    if cores[o + 1].requestHold {
      OldHoldIsTaken(s, cores, steps);
    } else if Posed(cores[o + 1]) {
      OldPoseIsThere(s, cores, steps);
    } else {
      forall more, moreSteps, k | Continues(s, cores, steps, more, moreSteps) && InSession(more, o, k) && Posed(more[k])
        ensures |more| == |moreSteps| + 1 && Earned(more, moreSteps, o, k)
      {
        assert more[o + 1] == cores[o + 1] && |more| == |moreSteps| + 1;
        PosesAreEarned(s, more, moreSteps, o, k);
      }
    }
  }
}
