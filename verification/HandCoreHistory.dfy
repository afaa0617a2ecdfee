/** What a run of the hand's state machine can say about its past: where a staged command, a
    confirmed lifecycle and a homing success come from. */
module HandCoreHistory {
  import opened Types
  import opened Frames
  import opened ActionCheck
  import opened HandCore
  import opened HandCoreInvariant
  import C = HandComms
  import P = Protocol
  import H = HomingSequence
  import J = JointPositionController
  import M = CommandMapping

  // Two commands that differ in their effort cap only
  ghost predicate SameIntent(a: Staged, b: Staged) {
    a.source == b.source && a.command.controller == b.command.controller
  }

  // The SDK has staged a command of its own that moves the hand
  ghost predicate Posed(c: Core) { c.staged.source.Sdk? && !c.staged.command.controller.Idle? }

  // What holds between two states when no command is accepted and no cycle ends: a user's command
  // is at most lost, nothing is confirmed, requests for Running are counted, and no cycle gets past
  // its re-read
  ghost predicate Quiet(c: Core, r: Core) {
    && (r.staged == c.staged || r.staged.source.Sdk? || SameIntent(r.staged, c.staged))
    && c.runs <= r.runs && (r.requested == Running ==> c.requested == Running || c.runs < r.runs)
    && c.links <= r.links && r.homedLink == c.homedLink
    && (r.lifecycle == Running ==> c.lifecycle == Running) && (r.lifecycle == Stopped ==> c.lifecycle == Stopped)
    && (r.homingState == Succeeded ==> c.homingState == Succeeded)
    && (r.thread.Alive? && r.thread.loop.pc.AfterReread? ==> r.thread == c.thread)
  }

  lemma QuietTwice(a: Core, b: Core, c: Core)
    requires Quiet(a, b) && Quiet(b, c)
    ensures Quiet(a, c)
  {}

  // -------------------------------- The loop -----------------------------------

  lemma BeginIsQuiet(s: Setup, c: Core, input: RtInput)
    requires c.thread.Alive?
    ensures Quiet(c, BeginCycle(s, c, input))
  {
    hide BeginCycle, C.Home;
    var w := BeginShapes(s, c, input);
  }

  lemma ResetIsQuiet(c: Core)
    ensures Quiet(c, ResetToIdle(c))
  {}

  lemma RecoveredIsQuiet(s: Setup, c: Core, comms: C.Comms)
    requires c.thread.Alive? && c.thread.loop.pc.Top?
    ensures Quiet(c, Recovered(s, c, comms))
  {}

  lemma TopIsQuiet(s: Setup, c: Core, input: RtInput)
    requires c.thread.Alive? && c.thread.loop.pc.Top?
    ensures Quiet(c, RtTop(s, c, input))
  {
    hide BeginCycle, TryReconnect, Quiet;
    BeginIsQuiet(s, c, input);
    TryReconnectIsQuiet(s, c, input);
    EndIsQuiet(c);
  }

  lemma EndIsQuiet(c: Core)
    ensures Quiet(c, c.(thread := Ended))
  {}

  lemma LinkIsQuiet(c: Core, comms: C.Comms, txTransient: bool)
    ensures Quiet(c, c.(comms := comms)) && Quiet(c, c.(comms := comms, txTransient := txTransient))
  {}

  lemma TryReconnectIsQuiet(s: Setup, c: Core, input: RtInput)
    requires c.thread.Alive? && c.thread.loop.pc.Top?
    ensures Quiet(c, TryReconnect(s, c, input))
  {
    hide Recovered, ReadUntilFrame, Quiet, C.Disconnected, C.Connected, C.Run;
    var polled := ReadUntilFrame(C.Connected(C.Disconnected(c.comms)), input.polls);
    LinkIsQuiet(c, C.Disconnected(c.comms), false);
    LinkIsQuiet(c, C.Disconnected(polled), false);
    RecoveredIsQuiet(s, c, C.Run(polled));
  }

  // -------------------------------- The user -----------------------------------

  // Steps that only move the user's thread, the request away from Running, or the link
  predicate Idles(c: Core, r: Core) {
    && r.staged == c.staged && r.runs == c.runs && r.links == c.links && r.homedLink == c.homedLink
    && (r.requested == c.requested || r.requested != Running)
    && (r.lifecycle == c.lifecycle || (r.lifecycle != Running && r.lifecycle != Stopped))
    && r.homingState == c.homingState && r.thread == c.thread
  }

  lemma IdlesIsQuiet(c: Core, r: Core)
    requires Idles(c, r)
    ensures Quiet(c, r)
  {}

  lemma RefusedIsQuiet(c: Core, reconnecting: bool, cause: StopCause, code: ErrorCode)
    ensures Quiet(c, ConnectRefused(c, reconnecting, cause, code))
  {
    hide Quiet;
    IdlesIsQuiet(c, ConnectRefused(c, reconnecting, cause, code));
  }

  lemma OpenedIsQuiet(c: Core, comms: C.Comms, thread: Thread, user: UserPc)
    ensures !(thread.Alive? && thread.loop.pc.AfterReread?) ==> Quiet(c, Opened(c).(thread := thread, user := user))
    ensures Quiet(c, Opened(c).(requested := Disconnected, lifecycle := Disconnected, comms := comms))
  {
    hide C.Connected, C.Run;
  }

  lemma NewLoopIsAtTop()
    ensures NewLoop().pc.Top?
  {}

  lemma ConnectIsQuiet(c: Core, link: LinkInput, reconnecting: bool, cause: StopCause)
    ensures Quiet(c, HandCore.Connect(c, link, reconnecting, cause))
  {
    hide Checked, Quiet, Opened, ConnectRefused, C.Disconnected, NewLoop;
    var allowed := Checked(c, Action.Connect, true);
    var closed := c.(comms := c.comms.(open := false));
    if !allowed.OK? {
      RefusedIsQuiet(c, reconnecting, cause, allowed.code);
    } else if c.requested == Connected && c.lifecycle == Connected {
      IdlesIsQuiet(c, c.(user := Outside(OK)));
    } else if !link.opens {
      LinkIsQuiet(c, closed.comms, false);
      RefusedIsQuiet(closed, reconnecting, cause, InterfaceUnavailable);
      QuietTwice(c, closed, ConnectRefused(closed, reconnecting, cause, InterfaceUnavailable));
    } else {
      var comms := C.Disconnected(Opened(c).comms);
      NewLoopIsAtTop();
      OpenedIsQuiet(c, comms, Alive(NewLoop()), AwaitFrame(reconnecting, cause));
      var failed := Opened(c).(requested := Disconnected, lifecycle := Disconnected, comms := comms);
      RefusedIsQuiet(failed, reconnecting, cause, ControlLoopFault);
      QuietTwice(c, failed, ConnectRefused(failed, reconnecting, cause, ControlLoopFault));
    }
  }

  lemma RunningIsQuiet(c: Core)
    ensures Quiet(c, RequestRunning(c)) && Quiet(c, c.(requestHold := true))
  {}

  lemma RequestControlIsQuiet(c: Core)
    ensures Quiet(c, RequestControl(c))
  {
    hide Quiet, RequestRunning, ResetToIdle;
    var r := ResetToIdle(c);
    var h := r.(requestHold := true);
    StayingIsQuiet(c);
    RunningIsQuiet(c);
    ResetIsQuiet(c);
    RunningIsQuiet(r);
    RunningIsQuiet(h);
    QuietTwice(c, r, h);
    QuietTwice(c, h, RequestRunning(h));
  }

  lemma UserMoves(c: Core, user: UserPc)
    ensures Quiet(c, c.(user := user))
  {}

  lemma HomingRequestIsQuiet(c: Core)
    ensures Quiet(c, c.(resultHoming := false, requestHoming := true, user := Outside(OK)))
    ensures Quiet(c, c.(homingState := HomingState.InProgress))
  {}

  lemma PreparationIsQuiet(c: Core)
    ensures Quiet(c, PreparedForHoming(c))
  {
    hide Quiet, ResetToIdle;
    var p := c.(homingState := HomingState.InProgress);
    HomingRequestIsQuiet(c);
    ResetIsQuiet(p);
    QuietTwice(c, p, ResetToIdle(p));
  }

  lemma HomingRequestedIsQuiet(c: Core, status: Status)
    ensures Quiet(c, HomingRequested(c, status))
  {
    hide Quiet;
    UserMoves(c, Outside(status));
    HomingRequestIsQuiet(c);
  }

  lemma StartHomingIsQuiet(c: Core)
    ensures Quiet(c, StartHoming(c))
  {
    hide Checked, RequestControl, ControlStatus, PreparedForHoming, HomingRequested, Quiet;
    if !Checked(c, Action.Home, true).OK? {
      UserMoves(c, Outside(Checked(c, Action.Home, true)));
    } else {
      var p := PreparedForHoming(c);
      var r, status := RequestControl(p), ControlStatus(p);
      PreparationIsQuiet(c);
      RequestControlIsQuiet(p);
      HomingRequestedIsQuiet(r, status);
      QuietTwice(c, p, r);
      QuietTwice(c, r, HomingRequested(r, status));
    }
  }

  lemma HomeIsQuiet(c: Core)
    ensures Quiet(c, HandCore.Home(c))
  {
    hide StartHoming, Quiet;
    var r := StartHoming(c);
    StartHomingIsQuiet(c);
    UserMoves(r, AwaitHoming);
    QuietTwice(c, r, r.(user := AwaitHoming));
  }

  lemma EnableControlIsQuiet(c: Core)
    ensures Quiet(c, EnableControl(c))
  {
    hide RequestControl, ControlStatus, Quiet;
    var r, status := RequestControl(c), ControlStatus(c);
    var user := if !status.OK? then Outside(status) else AwaitEnable;
    RequestControlIsQuiet(c);
    UserMoves(r, user);
    QuietTwice(c, r, r.(user := user));
  }

  lemma RunIsQuiet(s: Setup, c: Core)
    ensures Quiet(c, HandCore.Run(s, c))
  {
    hide Checked, EnableControl, HandCore.Home, Quiet;
    UserMoves(c, Outside(Checked(c, Action.Run, true)));
    UserMoves(c, Outside(OK));
    HomeIsQuiet(c);
    EnableControlIsQuiet(c);
  }

  lemma LeaveIsQuiet(c: Core, next: AfterJoin)
    ensures Quiet(c, LeaveLoop(c, next))
  {}

  lemma StoppedIsQuiet(c: Core, user: UserPc)
    ensures Quiet(c, c.(requested := Stopped, user := user)) && Quiet(c, ResetToIdle(c).(requested := Stopped, user := user))
  {}

  lemma DisconnectIsQuiet(c: Core)
    ensures Quiet(c, HandCore.Disconnect(c))
  {
    hide Checked, ResetToIdle, LeaveLoop, Quiet;
    UserMoves(c, Outside(Checked(c, Action.Disconnect, true)));
    UserMoves(c, Outside(OK));
    ResetIsQuiet(c);
    var r := ResetToIdle(c);
    StoppedIsQuiet(c, AwaitStop(ToDisconnect));
    LeaveIsQuiet(r, DisconnectNow);
    QuietTwice(c, r, LeaveLoop(r, DisconnectNow));
  }

  lemma DestroyedIsQuiet(c: Core)
    ensures Quiet(c, c.(destroyed := true))
  {}

  lemma CloseIsQuiet(c: Core)
    ensures Quiet(c, Close(c))
  {
    hide LeaveLoop, Quiet, ControlRequested, ResetToIdle;
    var d := c.(destroyed := true);
    UserMoves(c, Outside(OK));
    DestroyedIsQuiet(c);
    StoppedIsQuiet(d, AwaitStop(ToClose));
    LeaveIsQuiet(d, CloseNow);
    QuietTwice(c, d, Close(c));
  }

  lemma StopIsQuiet(c: Core)
    ensures Quiet(c, HandCore.Stop(c))
  {
    hide Checked, ResetToIdle, Quiet;
    UserMoves(c, Outside(Checked(c, Action.Stop, true)));
    UserMoves(c, Outside(OK));
    StoppedIsQuiet(c, AwaitStop(ToStop));
  }

  lemma ReconnectIsQuiet(c: Core)
    ensures Quiet(c, HandCore.Reconnect(c))
  {
    hide Checked, LeaveLoop, Quiet;
    UserMoves(c, Outside(Checked(c, Action.Reconnect, true)));
    LeaveIsQuiet(c, ReconnectNow);
  }

  lemma CapsAreQuiet(c: Core, caps: J.Active)
    ensures var staged := c.staged.(command := c.staged.command.(maxEffort := caps));
            Quiet(c, c.(staged := staged, mail := Some(staged), user := Outside(OK)))
  {}

  lemma ConfigIsQuiet(c: Core, config: M.Config)
    ensures Quiet(c, c.(stagedConfig := config, mailConfig := Some(config), user := Outside(OK)))
  {}

  lemma SetMaxEffortIsQuiet(c: Core, limit: M.Raw)
    ensures Quiet(c, SetMaxEffort(c, limit))
  {
    hide M.Finite, Quiet, M.BoundedEffort, M.Values;
    UserMoves(c, Outside(Refused(WrongCallOrder)));
    UserMoves(c, Outside(Refused(InvalidArgument)));
    if M.Finite(limit) {
      CapsAreQuiet(c, M.BoundedEffort(M.Values(limit)));
    }
  }

  lemma SetControllerConfigIsQuiet(c: Core, config: ConfigInput)
    ensures Quiet(c, SetControllerConfig(c, config))
  {
    hide ValidConfig, Quiet, ConfigOf;
    UserMoves(c, Outside(Refused(WrongCallOrder)));
    UserMoves(c, Outside(Refused(InvalidArgument)));
    if ValidConfig(config) {
      ConfigIsQuiet(c, ConfigOf(config));
    }
  }

  lemma CallIsQuiet(s: Setup, c: Core, call: Call)
    requires !call.CallSetCommand?
    ensures Quiet(c, ApplyCall(s, c, call))
  {
    hide Quiet, HandCore.Connect, HandCore.Disconnect, HandCore.Reconnect, Close, HandCore.Run, HandCore.Stop, HandCore.Home,
         StartHoming, HandCore.SetCommand, SetMaxEffort, SetControllerConfig;
    match call
    case CallConnect(link) => ConnectIsQuiet(c, link, false, NotRecorded);
    case CallDisconnect => DisconnectIsQuiet(c);
    case CallReconnect => ReconnectIsQuiet(c);
    case CallClose => CloseIsQuiet(c);
    case CallRun => RunIsQuiet(s, c);
    case CallStop => StopIsQuiet(c);
    case CallHome => HomeIsQuiet(c);
    case CallStartHoming => StartHomingIsQuiet(c);
    case CallSetMaxEffort(limit) => SetMaxEffortIsQuiet(c, limit);
    case CallSetControllerConfig(config) => SetControllerConfigIsQuiet(c, config);
  }

  lemma ClosedIsQuiet(c: Core)
    ensures Quiet(c, Closed(c)) && Quiet(c, Unthreaded(c)) && Quiet(c, ResetFaultState(c))
  {}

  lemma ReconnectionIsQuiet(c: Core, link: LinkInput)
    ensures Quiet(c, Reconnection(c, link))
  {
    hide Closed, ResetFaultState, ResetToIdle, HandCore.Connect, Quiet;
    var c1 := Closed(c);
    var c2 := ResetFaultState(c1);
    var c3 := ResetToIdle(c2);
    ClosedIsQuiet(c);
    ClosedIsQuiet(c1);
    ResetIsQuiet(c2);
    ConnectIsQuiet(c3, link, true, c.stopCause);
    QuietTwice(c, c1, c2);
    QuietTwice(c, c2, c3);
    QuietTwice(c, c3, Reconnection(c, link));
  }

  lemma DoneIsQuiet(c: Core, reconnecting: bool, cause: StopCause)
    ensures Quiet(c, ConnectionFailed(c, reconnecting, cause)) && Quiet(c, DisconnectionDone(c))
    ensures Quiet(c, Closed(c).(user := Outside(OK)))
  {
    hide Quiet, C.Disconnected, C.Stop;
    IdlesIsQuiet(c, ConnectionFailed(c, reconnecting, cause));
    IdlesIsQuiet(c, DisconnectionDone(c));
    IdlesIsQuiet(c, Closed(c).(user := Outside(OK)));
  }

  lemma JoinedIsQuiet(c: Core, link: LinkInput)
    requires c.user.Joining? && !c.thread.Alive?
    ensures Quiet(c, Joined(c, link))
  {
    hide Reconnection, ConnectionFailed, DisconnectionDone, Closed, Unthreaded, Quiet;
    var u := Unthreaded(c);
    ClosedIsQuiet(c);
    ReconnectionIsQuiet(u, link);
    if c.user.next.ConnectFailed? {
      DoneIsQuiet(u, c.user.next.reconnecting, c.user.next.cause);
    } else {
      DoneIsQuiet(u, false, NotRecorded);
    }
    QuietTwice(c, u, Joined(c, link));
  }

  lemma PollStopIsQuiet(c: Core, timeout: bool)
    requires c.user.AwaitStop?
    ensures Quiet(c, PollStop(c, timeout))
  {
    hide Quiet, StopRefusal, LeaveLoop;
    StayingIsQuiet(c);
    UserMoves(c, Outside(OK));
    UserMoves(c, Outside(StopRefusal(c, Action.Stop)));
    UserMoves(c, Outside(StopRefusal(c, Action.Disconnect)));
    LeaveIsQuiet(c, DisconnectNow);
    LeaveIsQuiet(c, CloseNow);
  }

  lemma StayingIsQuiet(c: Core)
    ensures Quiet(c, c)
  {}

  lemma PollFirstFrameIsQuiet(c: Core, timeout: bool)
    requires c.user.AwaitFrame?
    ensures Quiet(c, PollFirstFrame(c, timeout))
  {
    hide Quiet, LeaveLoop;
    StayingIsQuiet(c);
    IdlesIsQuiet(c, c.(lifecycle := Connected, user := Outside(OK)));
    LeaveIsQuiet(c, ConnectFailed(c.user.reconnecting, c.user.cause));
  }

  lemma PollHomingIsQuiet(c: Core)
    ensures Quiet(c, PollHoming(c))
  {
    hide Quiet, HomingResult;
    StayingIsQuiet(c);
    UserMoves(c, Outside(HomingResult(c)));
  }

  lemma PollEnableIsQuiet(c: Core, timeout: bool)
    ensures Quiet(c, PollEnable(c, timeout))
  {
    hide Quiet, Unconfirmed, ResetToIdle;
    IdlesIsQuiet(c, c);
    IdlesIsQuiet(c, c.(lifecycle := c.lifecycle, user := Outside(OK)));
    StoppedIsQuiet(c, Outside(Refused(Unconfirmed(c))));
  }

  lemma PollIsQuiet(s: Setup, c: Core, timeout: bool, link: LinkInput)
    requires Enabled(c, UserPoll(timeout, link))
    ensures Quiet(c, ApplyPoll(c, timeout, link))
  {
    hide Quiet, PollFirstFrame, PollStop, PollEnable, PollHoming, Joined;
    match c.user
    case AwaitFrame(_, _) => PollFirstFrameIsQuiet(c, timeout);
    case AwaitStop(_) => PollStopIsQuiet(c, timeout);
    case AwaitEnable => PollEnableIsQuiet(c, timeout);
    case AwaitHoming => PollHomingIsQuiet(c);
    case Joining(_) => JoinedIsQuiet(c, link);
  }

  // ------------------------------ The end of a cycle -----------------------------

  // What a homing success has behind it: a sequence that was running as the cycle ended, and ended
  // successfully in this very cycle
  ghost predicate ReportsSuccess(c: Core, step: Step, r: Core) {
    && step.LoopFinish? && c.activeHoming && c.comms.homing.active
    && !r.activeHoming && !r.comms.homing.active && r.comms.homing.outcome.Succeeded?
    && r.comms.homing == H.Step(c.comms.homing, c.comms.rx)
    && r.homingState == Succeeded && r.homedLink == Some(c.links)
  }

  // What the drives have shown as the lifecycle changes
  ghost predicate ConfirmsRunning(s: Setup, c: Core, step: Step, r: Core) {
    && step.LoopFinish? && Enabled(c, step) && c.thread.loop.pc.cycle.receiving && Receiving(s, c.comms)
    && c.requested == Running && C.DrivesEnabled(c.comms)
  }

  ghost predicate ConfirmsStopped(s: Setup, c: Core, step: Step, r: Core) {
    && step.LoopFinish? && Enabled(c, step) && c.thread.loop.pc.cycle.receiving && Receiving(s, c.comms)
    && c.requested == Stopped && C.QuickStopAttained(c.comms)
  }

  lemma FinishHistory(s: Setup, c: Core, tx: TxResult)
    requires Inv(s, c) && c.thread.Alive? && c.thread.loop.pc.AfterReread?
    ensures var r := FinishCycle(c, tx);
            && (r.staged == c.staged || r.staged.source.Sdk?)
            && r.runs == c.runs && r.links == c.links && r.requested == c.requested
            && (r.homedLink == c.homedLink || ReportsSuccess(c, LoopFinish(tx), r))
            && (r.homingState == Succeeded ==> c.homingState == Succeeded || ReportsSuccess(c, LoopFinish(tx), r))
            && (r.lifecycle == Running ==> c.lifecycle == Running || ConfirmsRunning(s, c, LoopFinish(tx), r))
            && (r.lifecycle == Stopped ==> c.lifecycle == Stopped || ConfirmsStopped(s, c, LoopFinish(tx), r))
  {
    hide FinishCycle, Transmitted, C.DrivesEnabled, C.QuickStopAttained, H.Step, Follows, Receiving,
         ThreadInv, StagingInv, CommandInv;
    var w := FinishShapes(s, c, tx);
    var t := Transmitted(c, tx);
    TransmittedStep(s, c, tx);
    SameEvidence(c.comms, t.comms);
    NextLifecycleIs(t, c.thread.loop.pc.cycle.receiving);
  }

  lemma TransmittedComms(c: Core, tx: TxResult)
    requires c.thread.Alive? && c.thread.loop.pc.AfterReread?
    ensures var k := c.thread.loop.pc.cycle;
            Transmitted(c, tx).comms ==
              if ControlSession(k.requested, k.observed) then C.Write(c.comms, k.frames, QuickStops(k, c.thread.loop.pc.latest))
              else c.comms
  {
    hide C.Write, TransmitFaults, TransientAfter, QuickStops;
  }

  lemma WriteSteps(c: C.Comms, frames: CommandFrames, quickStop: bool)
    requires c.homing.active ==> c.homing.outcome.InProgress?
    ensures var w := C.Write(c, frames, quickStop);
            && w.rx == c.rx && w.disabled == c.disabled && w.seenHigh == c.seenHigh
            && (c.homing.active && !w.homing.active ==> w.homing.outcome == c.homing.outcome || w.homing == H.Step(c.homing, c.rx))
  {
    hide C.Write, H.Step;
    WriteDoes(c, frames, quickStop);
  }

  lemma TransmittedStep(s: Setup, c: Core, tx: TxResult)
    requires Inv(s, c) && c.thread.Alive? && c.thread.loop.pc.AfterReread?
    ensures var t := Transmitted(c, tx);
            && t.comms.rx == c.comms.rx && t.comms.disabled == c.comms.disabled && t.comms.seenHigh == c.comms.seenHigh
            && (c.comms.homing.active && !t.comms.homing.active ==>
                  t.comms.homing.outcome == c.comms.homing.outcome || t.comms.homing == H.Step(c.comms.homing, c.comms.rx))
  {
    hide C.Write, Transmitted, H.Step, Follows, LinkInv, ThreadInv, StagingInv, CommandInv, QuickStops;
    var k, latest := c.thread.loop.pc.cycle, c.thread.loop.pc.latest;
    TransmittedComms(c, tx);
    WriteSteps(c.comms, k.frames, QuickStops(k, latest));
  }

  lemma SameEvidence(a: C.Comms, b: C.Comms)
    requires a.rx == b.rx && a.disabled == b.disabled && a.seenHigh == b.seenHigh
    ensures C.DrivesEnabled(a) == C.DrivesEnabled(b) && C.QuickStopAttained(a) == C.QuickStopAttained(b)
  {}

  // --------------------------------- Any step -----------------------------------

  ghost predicate AreValues(raw: M.Raw, values: J.Active) { forall i :: 0 <= i < ACTUATOR_COUNT ==> raw[i] == Some(values[i]) }

  // A controller of the kind of the target, with the values given, or what the workspace clamp makes of
  // them for both kinds of joint targets
  ghost predicate IsFor(s: Setup, t: Target, controller: M.Controller) {
    match t
    case IdleTarget => controller.Idle?
    case JointPositionTarget(raw) => controller.JointPosition? && M.Finite(raw) && controller.joints == s.clamp(M.Values(raw))
    case JointImpedanceTarget(raw) => controller.JointImpedance? && M.Finite(raw) && controller.joints == s.clamp(M.Values(raw))
    case ActuatorPositionTarget(raw) => controller.ActuatorPosition? && AreValues(raw, controller.counts)
    case ActuatorEffortTarget(raw) => controller.ActuatorEffort? && AreValues(raw, controller.percent)
  }

  lemma ControllerIsFor(s: Setup, t: Target)
    requires ValidTarget(t)
    ensures IsFor(s, t, ControllerOf(s, t))
  {
    hide M.FitsInt32;
  }

  ghost predicate AcceptsCommand(s: Setup, c: Core, step: Step, r: Core) {
    && step.UserCall? && step.call.CallSetCommand?
    && var t := step.call.target;
    && ValidTarget(t) && Checked(c, Action.SetCommand, !t.IdleTarget?).OK?
    && IsFor(s, t, r.staged.command.controller) && r.staged.source == User(c.runs, c.links)
  }

  // How one step may change what the history is about
  ghost predicate HistoryStep(s: Setup, c: Core, step: Step, r: Core) {
    && (r.staged.source.User? ==> SameIntent(r.staged, c.staged) || AcceptsCommand(s, c, step, r))
    && c.runs <= r.runs && (r.requested == Running ==> c.requested == Running || c.runs < r.runs)
    && c.links <= r.links
    && (r.homedLink == c.homedLink || ReportsSuccess(c, step, r))
    && (r.homingState == Succeeded ==> c.homingState == Succeeded || ReportsSuccess(c, step, r))
    && (r.lifecycle == Running ==> c.lifecycle == Running || ConfirmsRunning(s, c, step, r))
    && (r.lifecycle == Stopped ==> c.lifecycle == Stopped || ConfirmsStopped(s, c, step, r))
  }

  lemma QuietHistory(s: Setup, c: Core, step: Step, r: Core)
    requires Quiet(c, r)
    ensures HistoryStep(s, c, step, r)
  {
    hide AcceptsCommand, ReportsSuccess, ConfirmsRunning, ConfirmsStopped;
  }

  lemma FinishIsHistory(s: Setup, c: Core, tx: TxResult)
    requires Inv(s, c) && c.thread.Alive? && c.thread.loop.pc.AfterReread?
    ensures HistoryStep(s, c, LoopFinish(tx), FinishCycle(c, tx))
  {
    hide FinishCycle, AcceptsCommand, ReportsSuccess, ConfirmsRunning, ConfirmsStopped, Inv;
    FinishHistory(s, c, tx);
  }

  lemma AcceptedStaged(c: Core, controller: M.Controller, source: Source)
    ensures var r := WithController(c, controller, source).(user := Outside(OK));
            && r == c.(staged := r.staged, mail := r.mail, user := r.user)
            && r.staged.command.controller == controller && r.staged.source == source
  {}

  lemma SetCommandHistory(s: Setup, c: Core, t: Target)
    ensures HistoryStep(s, c, UserCall(CallSetCommand(t)), HandCore.SetCommand(s, c, t))
  {
    hide Checked, ValidTarget, WithController, ControllerOf, Quiet, HistoryStep, IsFor;
    var allowed := Checked(c, Action.SetCommand, !t.IdleTarget?);
    var step := UserCall(CallSetCommand(t));
    UserMoves(c, Outside(allowed));
    QuietHistory(s, c, step, c.(user := Outside(allowed)));
    UserMoves(c, Outside(OK));
    QuietHistory(s, c, step, c.(user := Outside(OK)));
    if allowed.OK? && ValidTarget(t) {
      var source := User(c.runs, c.links);
      AcceptedStaged(c, ControllerOf(s, t), source);
      ControllerIsFor(s, t);
      AcceptanceHistory(s, c, t, WithController(c, ControllerOf(s, t), source).(user := Outside(OK)));
    }
  }

  lemma AcceptanceHistory(s: Setup, c: Core, t: Target, r: Core)
    requires ValidTarget(t) && Checked(c, Action.SetCommand, !t.IdleTarget?).OK?
    requires r == c.(staged := r.staged, mail := r.mail, user := r.user)
    requires IsFor(s, t, r.staged.command.controller) && r.staged.source == User(c.runs, c.links)
    ensures HistoryStep(s, c, UserCall(CallSetCommand(t)), r)
  {
    hide Checked, ValidTarget, IsFor, ReportsSuccess, ConfirmsRunning, ConfirmsStopped;
  }

  lemma RereadHistory(s: Setup, c: Core)
    requires c.thread.Alive? && c.thread.loop.pc.BeforeReread?
    ensures HistoryStep(s, c, LoopReread, RtReread(c))
  {
    hide AcceptsCommand, ReportsSuccess, ConfirmsRunning, ConfirmsStopped;
  }

  lemma ThrewIsQuiet(c: Core)
    requires c.thread.Alive?
    ensures Quiet(c, Threw(c))
  {
    hide C.Write;
  }

  lemma StepHistory(s: Setup, c: Core, step: Step)
    requires Inv(s, c) && Enabled(c, step)
    ensures HistoryStep(s, c, step, Apply(s, c, step))
  {
    hide Inv, HistoryStep, Quiet, RtTop, RtReread, FinishCycle, Threw, ApplyPoll, ApplyCall;
    var r := Apply(s, c, step);
    match step
    case LoopTop(input) => TopIsQuiet(s, c, input); QuietHistory(s, c, step, r);
    case LoopReread => RereadHistory(s, c);
    case LoopFinish(tx) => FinishIsHistory(s, c, tx);
    case LoopThrow => ThrewIsQuiet(c); QuietHistory(s, c, step, r);
    case UserPoll(timeout, link) => PollIsQuiet(s, c, timeout, link); QuietHistory(s, c, step, r);
    case UserCall(call) =>
      if call.CallSetCommand? {
        SetCommandHistory(s, c, call.target);
        CallSetCommandIs(s, c, call.target);
      } else {
        CallIsQuiet(s, c, call);
        QuietHistory(s, c, step, r);
      }
  }

  lemma CallSetCommandIs(s: Setup, c: Core, target: Target)
    ensures ApplyCall(s, c, CallSetCommand(target)) == HandCore.SetCommand(s, c, target)
  {}
}
