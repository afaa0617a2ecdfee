/** What the steps of one thread leave alone: while a loop lives, the user's steps change neither
    the loop nor the link nor the homing under way, and never the outcome of one. */
module HandCoreLocality {
  import opened Types
  import opened Frames
  import opened ActionCheck
  import opened HandCore
  import opened HandCoreInvariant
  import opened HandCoreHistory
  import C = HandComms
  import P = Protocol
  import H = HomingSequence
  import J = JointPositionController
  import M = CommandMapping

  // What belongs to the loop. Of homing the user may only ask for one, which takes back the last
  // verdict and reads as in progress; a hold is asked for on a link that is up, and no pose is staged
  ghost predicate KeepsLoop(c: Core, r: Core) {
    && r.thread == c.thread && r.comms == c.comms && r.txTransient == c.txTransient && r.memory == c.memory
    && r.trail == c.trail && r.links == c.links && r.homedLink == c.homedLink && r.stopCause == c.stopCause
    && r.checkFirstFrame == c.checkFirstFrame && r.checkCommunication == c.checkCommunication
    && r.activeHoming == c.activeHoming && (c.requestHoming ==> r.requestHoming)
    && (r.homingState == c.homingState || r.homingState == HomingState.InProgress)
    && (r.resultHoming ==> c.resultHoming)
    && (r.requestHold ==> c.requestHold || c.checkCommunication) && (Posed(r) ==> SameIntent(r.staged, c.staged))
    && (r.user.AwaitFrame? ==> c.user.AwaitFrame?) && (r.lifecycle == c.lifecycle || c.user.AwaitFrame?)
  }

  // Nor does a step that asks for nothing change anything about homing, or make a request for Running
  ghost predicate KeepsHoming(c: Core, r: Core) {
    && KeepsLoop(c, r) && (r.requested == Running ==> c.requested == Running)
    && r.requestHoming == c.requestHoming && r.homingState == c.homingState && r.resultHoming == c.resultHoming
  }

  lemma KeepsLoopTwice(a: Core, b: Core, c: Core)
    requires KeepsLoop(a, b) && KeepsLoop(b, c)
    ensures KeepsLoop(a, c)
  {}

  lemma ResetKeepsLoop(c: Core)
    ensures var r := ResetToIdle(c); KeepsLoop(c, r) && (c.checkCommunication ==> KeepsLoop(c, r.(requestHold := true)))
  {}

  lemma MovingKeepsLoop(c: Core, requested: Lifecycle, runs: nat, user: UserPc)
    requires user.AwaitFrame? ==> c.user.AwaitFrame?
    ensures KeepsLoop(c, c.(requested := requested, runs := runs, user := user))
  {}

  lemma MovingKeepsHoming(c: Core, requested: Lifecycle, lifecycle: Lifecycle, user: UserPc)
    requires requested == Running ==> c.requested == Running
    requires (user.AwaitFrame? ==> c.user.AwaitFrame?) && (lifecycle == c.lifecycle || c.user.AwaitFrame?)
    ensures KeepsHoming(c, c.(requested := requested, lifecycle := lifecycle, user := user))
  {}

  lemma LeavingKeepsAll(c: Core, requested: Lifecycle, user: UserPc)
    requires (requested == Running ==> c.requested == Running) && !user.AwaitFrame?
    ensures KeepsHoming(c, ResetToIdle(c).(requested := requested, user := user))
  {}

  lemma DestroyingKeepsAll(c: Core, requested: Lifecycle, user: UserPc)
    requires (requested == Running ==> c.requested == Running) && !user.AwaitFrame?
    ensures KeepsHoming(c, c.(destroyed := true, requested := requested, user := user))
  {}

  lemma RequestControlKeepsLoop(c: Core)
    ensures KeepsLoop(c, RequestControl(c))
  {
    hide KeepsLoop, ResetToIdle;
    RequestControlIs(c);
    ResetKeepsLoop(c);
    var h := ResetToIdle(c).(requestHold := true);
    MovingKeepsLoop(c, c.requested, c.runs, c.user);
    MovingKeepsLoop(c, Running, c.runs + 1, c.user);
    if c.checkCommunication {
      MovingKeepsLoop(h, Running, h.runs + 1, h.user);
      KeepsLoopTwice(c, h, RequestRunning(h));
    }
  }

  lemma EnableControlKeepsLoop(c: Core)
    ensures KeepsLoop(c, EnableControl(c))
  {
    hide KeepsLoop, RequestControl, ControlStatus;
    var r, status := RequestControl(c), ControlStatus(c);
    RequestControlKeepsLoop(c);
    var user := if !status.OK? then Outside(status) else AwaitEnable;
    MovingKeepsLoop(r, r.requested, r.runs, user);
    KeepsLoopTwice(c, r, r.(user := user));
  }

  lemma PreparationKeepsLoop(c: Core)
    ensures KeepsLoop(c, PreparedForHoming(c)) && PreparedForHoming(c).homingState == HomingState.InProgress
  {
    hide ResetToIdle;
    ResetLeavesSdk(c.(homingState := HomingState.InProgress));
  }

  lemma HomingRequestedKeepsLoop(c: Core, status: Status)
    ensures KeepsLoop(c, HomingRequested(c, status)) && HomingRequested(c, status).homingState == c.homingState
    ensures HomingRequested(c, status).requestHoming == (c.requestHoming || status.OK?)
  {}

  lemma ControlKeepsHoming(c: Core)
    ensures RequestControl(c).homingState == c.homingState && RequestControl(c).requestHoming == c.requestHoming
  {
    hide ResetToIdle;
    RequestControlIs(c);
    ResetLeavesSdk(c);
  }

  // A new request is never left with a verdict of an old one
  ghost predicate AsksOnlyInProgress(c: Core, r: Core) {
    r.requestHoming && !c.requestHoming ==> r.homingState == HomingState.InProgress
  }

  lemma StartHomingKeepsLoop(c: Core)
    ensures KeepsLoop(c, StartHoming(c)) && AsksOnlyInProgress(c, StartHoming(c))
  {
    hide KeepsLoop, Checked, PreparedForHoming, RequestControl, ControlStatus, HomingRequested;
    var allowed := Checked(c, Action.Home, true);
    StartHomingIs(c);
    if !allowed.OK? {
      MovingKeepsLoop(c, c.requested, c.runs, Outside(allowed));
    } else {
      var p := PreparedForHoming(c);
      var r, status := RequestControl(p), ControlStatus(p);
      PreparationKeepsLoop(c);
      RequestControlKeepsLoop(p);
      ControlKeepsHoming(p);
      HomingRequestedKeepsLoop(r, status);
      KeepsLoopTwice(c, p, r);
      KeepsLoopTwice(c, r, HomingRequested(r, status));
    }
  }

  lemma HomeKeepsLoop(c: Core)
    ensures KeepsLoop(c, HandCore.Home(c)) && AsksOnlyInProgress(c, HandCore.Home(c))
  {
    hide KeepsLoop, StartHoming;
    var r := StartHoming(c);
    StartHomingKeepsLoop(c);
    MovingKeepsLoop(r, r.requested, r.runs, AwaitHoming);
    KeepsLoopTwice(c, r, r.(user := AwaitHoming));
  }

  lemma SettingKeepsHoming(c: Core, staged: Staged, config: M.Config)
    requires staged.source.User? || SameIntent(staged, c.staged)
    ensures KeepsHoming(c, c.(staged := staged, mail := Some(staged), user := Outside(OK)))
    ensures KeepsHoming(c, c.(stagedConfig := config, mailConfig := Some(config), user := Outside(OK)))
  {}

  lemma SetCommandKeepsHoming(s: Setup, c: Core, t: Target)
    ensures KeepsHoming(c, HandCore.SetCommand(s, c, t))
  {
    hide KeepsHoming, Checked, ValidTarget, ControllerOf;
    MovingKeepsHoming(c, c.requested, c.lifecycle, Outside(Checked(c, Action.SetCommand, !t.IdleTarget?)));
    MovingKeepsHoming(c, c.requested, c.lifecycle, Outside(OK));
    if ValidTarget(t) {
      var staged := Staged(c.staged.command.(controller := ControllerOf(s, t)), User(c.runs, c.links));
      SettingKeepsHoming(c, staged, c.stagedConfig);
    }
  }

  lemma ConnectKeepsHoming(c: Core, link: LinkInput)
    requires ThreadInv(c) && c.user.Outside? && c.thread.Alive?
    ensures KeepsHoming(c, HandCore.Connect(c, link, false, NotRecorded))
  {
    hide KeepsHoming, Checked, Opened;
    var allowed := Checked(c, Action.Connect, true);
    MovingKeepsHoming(c, c.requested, c.lifecycle, Outside(allowed));
    if allowed.OK? && !(c.requested == Connected && c.lifecycle == Connected) {
      ConnectProceeds(c);
    }
  }

  lemma RunKeepsLoop(s: Setup, c: Core)
    ensures KeepsLoop(c, HandCore.Run(s, c)) && AsksOnlyInProgress(c, HandCore.Run(s, c))
  {
    hide KeepsLoop, Checked, HandCore.Home, EnableControl;
    MovingKeepsLoop(c, c.requested, c.runs, Outside(Checked(c, Action.Run, true)));
    MovingKeepsLoop(c, c.requested, c.runs, Outside(OK));
    HomeKeepsLoop(c);
    EnableControlKeepsLoop(c);
    EnableAsksNothing(c);
  }

  lemma EnableAsksNothing(c: Core)
    ensures EnableControl(c).requestHoming == c.requestHoming && EnableControl(c).homingState == c.homingState
  {
    hide RequestControl, ControlStatus;
    ControlKeepsHoming(c);
  }

  lemma GoingKeepsHoming(c: Core, next: AfterJoin)
    ensures KeepsHoming(c, c.(user := Outside(OK)))
    ensures forall action: Action :: KeepsHoming(c, c.(user := Outside(Checked(c, action, true))))
    ensures KeepsHoming(c, LeaveLoop(c, next))
  {
    hide KeepsHoming, Checked;
    forall action: Action ensures KeepsHoming(c, c.(user := Outside(Checked(c, action, true)))) {
      MovingKeepsHoming(c, c.requested, c.lifecycle, Outside(Checked(c, action, true)));
    }
    MovingKeepsHoming(c, c.requested, c.lifecycle, Outside(OK));
    MovingKeepsHoming(c, Disconnected, c.lifecycle, Joining(next));
  }

  lemma DisconnectKeepsHoming(c: Core)
    ensures KeepsHoming(c, HandCore.Disconnect(c)) && KeepsHoming(c, HandCore.Stop(c))
  {
    hide KeepsHoming, Checked, ResetToIdle;
    GoingKeepsHoming(c, DisconnectNow);
    LeavingKeepsAll(c, Stopped, AwaitStop(ToDisconnect));
    LeavingKeepsAll(c, Stopped, AwaitStop(ToStop));
    LeavingKeepsAll(c, Disconnected, Joining(DisconnectNow));
  }

  lemma CloseKeepsHoming(c: Core)
    ensures KeepsHoming(c, Close(c)) && KeepsHoming(c, HandCore.Reconnect(c))
  {
    hide KeepsHoming, Checked;
    GoingKeepsHoming(c, ReconnectNow);
    DestroyingKeepsAll(c, Stopped, AwaitStop(ToClose));
    DestroyingKeepsAll(c, Disconnected, Joining(CloseNow));
  }

  lemma SettersKeepHoming(c: Core, limit: M.Raw, config: ConfigInput)
    ensures KeepsHoming(c, SetMaxEffort(c, limit)) && KeepsHoming(c, SetControllerConfig(c, config))
  {
    hide KeepsHoming, M.Finite, M.Values, M.BoundedEffort, ValidConfig, ConfigOf;
    MovingKeepsHoming(c, c.requested, c.lifecycle, Outside(Refused(WrongCallOrder)));
    MovingKeepsHoming(c, c.requested, c.lifecycle, Outside(Refused(InvalidArgument)));
    if M.Finite(limit) {
      var caps := M.BoundedEffort(M.Values(limit));
      SettingKeepsHoming(c, c.staged.(command := c.staged.command.(maxEffort := caps)), c.stagedConfig);
    }
    if ValidConfig(config) {
      SettingKeepsHoming(c, c.staged, ConfigOf(config));
    }
  }

  // What a call that is neither a homing nor a connection comes to
  predicate IsPlain(call: Call) { !call.CallRun? && !call.CallHome? && !call.CallStartHoming? && !call.CallConnect? }

  lemma PlainKeepsHoming(s: Setup, c: Core, call: Call)
    requires IsPlain(call)
    ensures KeepsHoming(c, ApplyCall(s, c, call))
  {
    hide KeepsHoming, HandCore.Disconnect, HandCore.Reconnect, Close, HandCore.Stop, HandCore.SetCommand, SetMaxEffort,
         SetControllerConfig;
    DisconnectKeepsHoming(c);
    CloseKeepsHoming(c);
    match call
    case CallDisconnect =>
    case CallReconnect =>
    case CallClose =>
    case CallStop =>
    case CallSetCommand(target) => SetCommandKeepsHoming(s, c, target);
    case CallSetMaxEffort(limit) => SettersKeepHoming(c, limit, ConfigInput(true, None, None, limit, limit));
    case CallSetControllerConfig(config) => SettersKeepHoming(c, config.stiffness, config);
  }

  lemma CallKeepsLoop(s: Setup, c: Core, call: Call)
    requires ThreadInv(c) && c.user.Outside? && c.thread.Alive?
    ensures KeepsLoop(c, ApplyCall(s, c, call))
  {
    hide KeepsLoop, HandCore.Connect, HandCore.Disconnect, HandCore.Reconnect, Close, HandCore.Run, HandCore.Stop,
         HandCore.Home, StartHoming, HandCore.SetCommand, SetMaxEffort, SetControllerConfig, ThreadInv;
    match call
    case CallConnect(link) => ConnectKeepsHoming(c, link);
    case CallRun => RunKeepsLoop(s, c);
    case CallHome => HomeKeepsLoop(c);
    case CallStartHoming => StartHomingKeepsLoop(c);
    case _ => PlainKeepsHoming(s, c, call);
  }

  lemma PollFirstFrameKeepsLoop(c: Core, timeout: bool)
    requires c.user.AwaitFrame?
    ensures KeepsHoming(c, PollFirstFrame(c, timeout))
  {
    hide KeepsHoming;
    MovingKeepsHoming(c, c.requested, c.lifecycle, c.user);
    MovingKeepsHoming(c, c.requested, Connected, Outside(OK));
    MovingKeepsHoming(c, Disconnected, c.lifecycle, Joining(ConnectFailed(c.user.reconnecting, c.user.cause)));
  }

  lemma StopReachedKeepsHoming(c: Core)
    requires c.user.AwaitStop?
    ensures KeepsHoming(c, StopReached(c))
  {
    hide KeepsHoming;
    GoingKeepsHoming(c, DisconnectNow);
    GoingKeepsHoming(c, CloseNow);
  }

  lemma StopMissedKeepsHoming(c: Core)
    requires c.user.AwaitStop?
    ensures KeepsHoming(c, StopMissed(c))
  {
    hide KeepsHoming, StopRefusal;
    GoingKeepsHoming(c, CloseNow);
    MovingKeepsHoming(c, c.requested, c.lifecycle, Outside(StopRefusal(c, Action.Stop)));
    MovingKeepsHoming(c, c.requested, c.lifecycle, Outside(StopRefusal(c, Action.Disconnect)));
  }

  lemma PollStopKeepsLoop(c: Core, timeout: bool)
    requires c.user.AwaitStop?
    ensures KeepsHoming(c, PollStop(c, timeout))
  {
    hide KeepsHoming, StopReached, StopMissed;
    StopReachedKeepsHoming(c);
    StopMissedKeepsHoming(c);
    MovingKeepsHoming(c, c.requested, c.lifecycle, c.user);
  }

  lemma PollEnableKeepsLoop(c: Core, timeout: bool)
    ensures KeepsHoming(c, PollEnable(c, timeout))
  {
    hide KeepsHoming, Unconfirmed, ResetToIdle;
    MovingKeepsHoming(c, c.requested, c.lifecycle, c.user);
    MovingKeepsHoming(c, c.requested, c.lifecycle, Outside(OK));
    LeavingKeepsAll(c, Stopped, Outside(Refused(Unconfirmed(c))));
  }

  lemma PollHomingKeepsLoop(c: Core)
    ensures KeepsHoming(c, PollHoming(c))
  {
    hide KeepsHoming, HomingResult;
    MovingKeepsHoming(c, c.requested, c.lifecycle, c.user);
    MovingKeepsHoming(c, c.requested, c.lifecycle, Outside(HomingResult(c)));
  }

  lemma PollKeepsLoop(s: Setup, c: Core, timeout: bool, link: LinkInput)
    requires Enabled(c, UserPoll(timeout, link)) && c.thread.Alive?
    ensures KeepsHoming(c, ApplyPoll(c, timeout, link))
  {
    hide KeepsHoming, PollFirstFrame, PollStop, PollEnable, PollHoming, Joined;
    match c.user
    case AwaitFrame(_, _) => PollFirstFrameKeepsLoop(c, timeout);
    case AwaitStop(_) => PollStopKeepsLoop(c, timeout);
    case AwaitEnable => PollEnableKeepsLoop(c, timeout);
    case AwaitHoming => PollHomingKeepsLoop(c);
    case Joining(_) =>
  }

  // Running is only ever requested by a run() or a homing
  predicate AsksToRun(step: Step) {
    step.UserCall? && (step.call.CallRun? || step.call.CallHome? || step.call.CallStartHoming?)
  }

  lemma OnlyRunAsks(s: Setup, c: Core, step: Step)
    requires Inv(s, c) && Enabled(c, step) && c.thread.Alive? && (step.UserCall? || step.UserPoll?)
    requires c.requested != Running && Apply(s, c, step).requested == Running
    ensures AsksToRun(step)
  {
    hide ApplyCall, ApplyPoll, LinkInv, HomingInv, StagingInv, CommandInv, ThreadInv, KeepsLoop;
    if step.UserPoll? {
      PollKeepsLoop(s, c, step.timeout, step.link);
    } else if IsPlain(step.call) {
      PlainKeepsHoming(s, c, step.call);
    } else if step.call.CallConnect? {
      ConnectKeepsHoming(c, step.call.link);
      ConnectIsCalled(s, c, step.call);
    }
  }

  lemma ConnectIsCalled(s: Setup, c: Core, call: Call)
    requires call.CallConnect?
    ensures ApplyCall(s, c, call) == HandCore.Connect(c, call.link, false, NotRecorded)
  {
    hide HandCore.Connect;
  }

  // Whatever the user does, the living loop finds everything of its own as it left it
  lemma UserKeepsLoop(s: Setup, c: Core, step: Step)
    requires Inv(s, c) && Enabled(c, step) && c.thread.Alive? && (step.UserCall? || step.UserPoll?)
    ensures KeepsLoop(c, Apply(s, c, step))
  {
    hide KeepsLoop, ApplyCall, ApplyPoll, LinkInv, HomingInv, StagingInv, CommandInv, ThreadInv;
    if step.UserCall? {
      CallKeepsLoop(s, c, step.call);
    } else {
      PollKeepsLoop(s, c, step.timeout, step.link);
      assert KeepsLoop(c, Apply(s, c, step)) by { hide KeepsLoop, ApplyPoll; }
    }
  }

  // --------------------------- Homing, with or without a loop -------------------------

  // The user never makes a success of homing, nor puts a request beside one
  ghost predicate AsksAfresh(c: Core, r: Core) {
    && (r.homingState == Succeeded ==> c.homingState == Succeeded) && (r.activeHoming ==> c.activeHoming)
    && AsksOnlyInProgress(c, r)
  }

  lemma AskingIsAfresh(c: Core, r: Core)
    requires KeepsLoop(c, r) && AsksOnlyInProgress(c, r)
    ensures AsksAfresh(c, r)
  {}

  lemma AskingNothingIsAfresh(c: Core, r: Core)
    requires KeepsHoming(c, r)
    ensures AsksAfresh(c, r)
  {}

  // What a connection does to homing: nothing, or it starts unhomed
  predicate IsFresh(c: Core, r: Core) {
    && r.requestHoming == c.requestHoming && r.activeHoming == c.activeHoming
    && (r.homingState == c.homingState || r.homingState == NotRun)
  }

  lemma FreshTwice(a: Core, b: Core, c: Core)
    requires IsFresh(a, b) && IsFresh(b, c)
    ensures IsFresh(a, c)
  {}

  lemma RefusedIsFresh(c: Core, reconnecting: bool, cause: StopCause, code: ErrorCode)
    ensures IsFresh(c, ConnectRefused(c, reconnecting, cause, code))
  {}

  lemma LinkIsFresh(c: Core, comms: C.Comms)
    ensures IsFresh(c, c.(comms := comms))
  {}

  lemma OpenedIsFresh(c: Core, comms: C.Comms, thread: Thread, user: UserPc)
    ensures IsFresh(c, Opened(c).(thread := thread, user := user))
    ensures IsFresh(c, Opened(c).(requested := Disconnected, lifecycle := Disconnected, comms := comms))
  {
    hide C.Connected, C.Run;
  }

  lemma ConnectIsFresh(c: Core, link: LinkInput, reconnecting: bool, cause: StopCause)
    ensures IsFresh(c, HandCore.Connect(c, link, reconnecting, cause))
  {
    hide Checked, IsFresh, Opened, ConnectRefused, C.Disconnected, NewLoop;
    var allowed := Checked(c, Action.Connect, true);
    var closed := c.comms.(open := false);
    LinkIsFresh(c, closed);
    RefusedIsFresh(c, reconnecting, cause, if allowed.OK? then InterfaceUnavailable else allowed.code);
    RefusedIsFresh(c.(comms := closed), reconnecting, cause, InterfaceUnavailable);
    FreshTwice(c, c.(comms := closed), ConnectRefused(c.(comms := closed), reconnecting, cause, InterfaceUnavailable));
    var comms := C.Disconnected(Opened(c).comms);
    OpenedIsFresh(c, comms, Alive(NewLoop()), AwaitFrame(reconnecting, cause));
    var failed := Opened(c).(requested := Disconnected, lifecycle := Disconnected, comms := comms);
    RefusedIsFresh(failed, reconnecting, cause, ControlLoopFault);
    FreshTwice(c, failed, ConnectRefused(failed, reconnecting, cause, ControlLoopFault));
    UserIsFresh(c, Outside(OK));
  }

  lemma UserIsFresh(c: Core, user: UserPc)
    ensures IsFresh(c, c.(user := user))
  {}

  lemma FreshIsAfresh(c: Core, r: Core)
    requires IsFresh(c, r)
    ensures AsksAfresh(c, r)
  {}

  lemma CallAsksAfresh(s: Setup, c: Core, call: Call)
    ensures AsksAfresh(c, ApplyCall(s, c, call))
  {
    hide KeepsLoop, KeepsHoming, AsksOnlyInProgress, HandCore.Connect, HandCore.Disconnect, HandCore.Reconnect, Close,
         HandCore.Run, HandCore.Stop, HandCore.Home, StartHoming, HandCore.SetCommand, SetMaxEffort, SetControllerConfig,
         AsksAfresh;
    match call
    case CallConnect(link) =>
      ConnectIsFresh(c, link, false, NotRecorded);
      FreshIsAfresh(c, HandCore.Connect(c, link, false, NotRecorded));
    case CallRun => RunKeepsLoop(s, c); AskingIsAfresh(c, HandCore.Run(s, c));
    case CallHome => HomeKeepsLoop(c); AskingIsAfresh(c, HandCore.Home(c));
    case CallStartHoming => StartHomingKeepsLoop(c); AskingIsAfresh(c, StartHoming(c));
    case _ => PlainKeepsHoming(s, c, call); AskingNothingIsAfresh(c, ApplyCall(s, c, call));
  }

  lemma ResettingIsAfresh(c: Core)
    ensures var r := ResetToIdle(ResetFaultState(Closed(Unthreaded(c))));
            AsksAfresh(c, r) && !r.requestHoming && !r.activeHoming
    ensures IsFresh(c, Closed(Unthreaded(c)).(user := Outside(OK))) && IsFresh(c, DisconnectionDone(Unthreaded(c)))
  {
    hide C.Disconnected, C.Stop;
  }

  lemma FailedConnectionIsFresh(c: Core, reconnecting: bool, cause: StopCause)
    ensures IsFresh(c, ConnectionFailed(Unthreaded(c), reconnecting, cause))
  {
    hide C.Disconnected;
  }

  lemma JoinedAsksAfresh(c: Core, link: LinkInput)
    requires c.user.Joining? && !c.thread.Alive?
    ensures AsksAfresh(c, Joined(c, link))
  {
    hide HandCore.Connect, ResetToIdle, ResetFaultState, Closed, Unthreaded, DisconnectionDone, ConnectionFailed;
    ResettingIsAfresh(c);
    match c.user.next
    case ConnectFailed(reconnecting, cause) => FailedConnectionIsFresh(c, reconnecting, cause);
    case ReconnectNow =>
      ConnectIsFresh(ResetToIdle(ResetFaultState(Closed(Unthreaded(c)))), link, true, Unthreaded(c).stopCause);
    case _ =>
  }

  lemma PollAsksAfresh(c: Core, timeout: bool, link: LinkInput)
    requires Enabled(c, UserPoll(timeout, link))
    ensures AsksAfresh(c, ApplyPoll(c, timeout, link))
  {
    hide KeepsHoming, KeepsLoop, PollFirstFrame, PollStop, PollEnable, PollHoming, Joined, AsksAfresh;
    match c.user
    case AwaitFrame(_, _) => PollFirstFrameKeepsLoop(c, timeout); AskingNothingIsAfresh(c, PollFirstFrame(c, timeout));
    case AwaitStop(_) => PollStopKeepsLoop(c, timeout); AskingNothingIsAfresh(c, PollStop(c, timeout));
    case AwaitEnable => PollEnableKeepsLoop(c, timeout); AskingNothingIsAfresh(c, PollEnable(c, timeout));
    case AwaitHoming => PollHomingKeepsLoop(c); AskingNothingIsAfresh(c, PollHoming(c));
    case Joining(_) => JoinedAsksAfresh(c, link);
  }

  lemma UserAsksAfresh(s: Setup, c: Core, step: Step)
    requires Enabled(c, step) && (step.UserCall? || step.UserPoll?)
    ensures AsksAfresh(c, Apply(s, c, step))
  {
    hide AsksAfresh, ApplyCall, ApplyPoll;
    if step.UserCall? {
      CallAsksAfresh(s, c, step.call);
    } else {
      PollAsksAfresh(c, step.timeout, step.link);
    }
  }
}
