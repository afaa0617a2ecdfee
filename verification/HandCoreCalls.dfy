/** What the public calls and the polls of their waits promise, and exactly when connect() and
    start_homing() leave something else behind. */
module HandCoreCalls {
  import opened Types
  import opened Frames
  import opened ActionCheck
  import opened HandCore
  import opened HandCoreInvariant
  import opened HandCoreHistory
  import opened HandCoreLocality
  import opened HandCoreSafety
  import opened HandCoreHoming
  import C = HandComms
  import P = Protocol
  import H = HomingSequence
  import J = JointPositionController
  import M = CommandMapping

  // ---------------------------------- connect() -------------------------------------

  // A fault was found between the start of the loop in step i and step m
  ghost predicate FaultIn(cores: seq<Core>, i: nat, m: nat)
    requires m < |cores|
  {
    exists q :: i < q <= m && cores[q].lifecycle == Faulted
  }

  // What a connect() that waits for its first frame can rely on
  ghost predicate Connecting(cores: seq<Core>, i: nat, m: nat)
    requires i < m < |cores|
  {
    var c := cores[m];
    if FaultIn(cores, i, m) then c.lifecycle == Faulted || c.requested == Running
    else c.thread.Alive? && c.requested == Connected && c.comms.open
  }

  lemma FaultGrows(cores: seq<Core>, i: nat, m: nat)
    requires i < m && m + 1 < |cores|
    ensures FaultIn(cores, i, m + 1) <==> FaultIn(cores, i, m) || cores[m + 1].lifecycle == Faulted
    ensures cores[m].lifecycle == Faulted ==> FaultIn(cores, i, m)
  {}

  lemma FinishKeepsFault(s: Setup, c: Core, tx: TxResult)
    requires Inv(s, c) && c.thread.Alive? && c.thread.loop.pc.AfterReread?
    ensures c.lifecycle == Faulted ==> FinishCycle(c, tx).lifecycle == Faulted
  {
    hide FinishCycle, Transmitted, Inv, Receiving, Follows, NextLifecycle;
    var w := FinishShapes(s, c, tx);
    NextLifecycleIs(Transmitted(c, tx), c.thread.loop.pc.cycle.receiving);
  }

  lemma BegunKeeps(s: Setup, c: Core, step: Step)
    requires BeginsCycle(c, step) && Enabled(c, step)
    ensures var r := Apply(s, c, step); r.thread.Alive? && r.requested == c.requested && r.comms.open == c.comms.open
  {
    hide BeginCycle, Receiving;
    TopBegins(s, c, step);
    var w := BeginShapes(s, c, step.input);
  }

  // A retry that recovers the link asks for Running
  lemma RetriedKeeps(s: Setup, c: Core, step: Step)
    requires Enabled(c, step) && step.LoopTop? && c.lifecycle == Faulted
    ensures var r := Apply(s, c, step); r.requested == Running || r.lifecycle == Faulted
  {
    hide RtTop, Recovered;
    var comms := TopOfFaulted(s, c, step.input);
    RecoveredAsks(s, c, comms);
  }

  // How the loop may change what a connect() waits for
  ghost predicate MovesOn(c: Core, r: Core) {
    if c.lifecycle == Faulted then r.lifecycle == Faulted || r.requested == Running
    else r.requested == c.requested && (r.lifecycle == Faulted || (r.thread.Alive? && r.comms.open == c.comms.open))
  }

  lemma TopMovesOn(s: Setup, c: Core, step: Step)
    requires Enabled(c, step) && step.LoopTop? && c.requested != Disconnected
    ensures MovesOn(c, Apply(s, c, step))
  {
    hide RtTop;
    if c.lifecycle == Faulted {
      RetriedKeeps(s, c, step);
    } else {
      BegunKeeps(s, c, step);
    }
  }

  lemma LoopMovesOn(s: Setup, c: Core, step: Step)
    requires Inv(s, c) && Enabled(c, step) && !step.UserCall? && !step.UserPoll? && c.requested != Disconnected
    ensures MovesOn(c, Apply(s, c, step))
  {
    hide Inv, FinishCycle, RtTop, C.Write;
    match step
    case LoopTop(_) => TopMovesOn(s, c, step);
    case LoopReread =>
    case LoopThrow =>
    case LoopFinish(tx) =>
      FinishKeepsOpen(s, c, tx);
      FinishKeepsFault(s, c, tx);
  }

  lemma LoopConnects(s: Setup, cores: seq<Core>, steps: seq<Step>, i: nat, m: nat)
    requires IsRun(s, cores, steps) && i < m < |steps| && Connecting(cores, i, m)
    requires !steps[m].UserCall? && !steps[m].UserPoll? && cores[m].requested != Disconnected
    ensures Connecting(cores, i, m + 1)
  {
    hide Inv, Apply, Constructed, FaultIn;
    AlwaysInv(s, cores, steps, m);
    FaultGrows(cores, i, m);
    assert Enabled(cores[m], steps[m]) && cores[m + 1] == Apply(s, cores[m], steps[m]);
    LoopMovesOn(s, cores[m], steps[m]);
  }

  // A user who waits in connect() changes nothing until the wait ends
  lemma FrameWaitChangesNothing(s: Setup, c: Core, step: Step)
    requires Enabled(c, step) && (step.UserCall? || step.UserPoll?) && c.user.AwaitFrame? && Apply(s, c, step).user.AwaitFrame?
    ensures Apply(s, c, step) == c
  {}

  lemma ConnectWaits(c: Core, link: LinkInput, reconnecting: bool, cause: StopCause)
    requires !c.user.AwaitFrame? && HandCore.Connect(c, link, reconnecting, cause).user.AwaitFrame?
    ensures Checked(c, Action.Connect, true).OK? && !(c.requested == Connected && c.lifecycle == Connected)
    ensures HandCore.Connect(c, link, reconnecting, cause)
            == Opened(c).(thread := Alive(NewLoop()), user := AwaitFrame(reconnecting, cause))
  {
    hide Checked, NewLoop, Opened, C.Disconnected, ConnectRefused;
    var unlinked, onLink := c.(comms := c.comms.(open := false)), Opened(c);
    var failed := onLink.(requested := Disconnected, lifecycle := Disconnected, comms := C.Disconnected(onLink.comms));
    forall code: ErrorCode
      ensures !ConnectRefused(c, reconnecting, cause, code).user.AwaitFrame?
      ensures !ConnectRefused(unlinked, reconnecting, cause, code).user.AwaitFrame?
      ensures !ConnectRefused(failed, reconnecting, cause, code).user.AwaitFrame?
    {
      RefusalReturns(c, reconnecting, cause, code);
      RefusalReturns(unlinked, reconnecting, cause, code);
      RefusalReturns(failed, reconnecting, cause, code);
    }
  }

  lemma RefusalReturns(c: Core, reconnecting: bool, cause: StopCause, code: ErrorCode)
    ensures ConnectRefused(c, reconnecting, cause, code).user == Outside(Refused(code))
  {}

  lemma OpenedDoes(c: Core)
    ensures var r := Opened(c); r.requested == Connected && r.comms.open && r.lifecycle == c.lifecycle
  {}

  // A loop that has just been started, with nothing in
  predicate IsStarted(r: Core) { r.thread.Alive? && r.requested == Connected && r.comms.open && r.lifecycle == Disconnected }

  lemma ConnectStarts(s: Setup, c: Core, link: LinkInput, reconnecting: bool, cause: StopCause)
    requires Inv(s, c) && AtConnect(c) && HandCore.Connect(c, link, reconnecting, cause).user.AwaitFrame?
    ensures IsStarted(HandCore.Connect(c, link, reconnecting, cause))
  {
    hide Checked, NewLoop, LinkInv, HomingInv, StagingInv, CommandInv, HandCore.Connect, Opened;
    ConnectWaits(c, link, reconnecting, cause);
    ConnectProceeds(c);
    OpenedDoes(c);
  }

  // The steps that start a loop: a connect(), and a reconnect() that has joined the old one
  predicate StartsLoop(c: Core, step: Step) {
    (step.UserCall? && step.call.CallConnect?) || (step.UserPoll? && c.user == Joining(ReconnectNow))
  }

  lemma ReconnectStarts(s: Setup, c: Core, link: LinkInput)
    requires Inv(s, c) && c.user == Joining(ReconnectNow) && !c.thread.Alive? && Joined(c, link).user.AwaitFrame?
    ensures IsStarted(Joined(c, link))
  {
    hide Inv, HandCore.Connect, ResetToIdle, Closed, ResetFaultState;
    ThreadGoneKeepsInv(s, c);
    var u := Unthreaded(c);
    ClosedKeepsInv(s, u);
    FaultResetKeepsInv(s, Closed(u));
    var r := ResetFaultState(Closed(u));
    ResetKeepsInv(s, r);
    ResetLeavesSdk(r);
    StaysAtConnect(u);
    ConnectStarts(s, ResetToIdle(r), link, true, u.stopCause);
  }

  lemma StaysAtConnect(c: Core)
    requires AfterThread(c) && c.user == Joining(ReconnectNow)
    ensures AtConnect(ResetToIdle(ResetFaultState(Closed(c))))
  {
    hide C.Disconnected, C.Stop;
  }

  lemma StepStarts(s: Setup, c: Core, step: Step)
    requires Inv(s, c) && Enabled(c, step) && StartsLoop(c, step) && Apply(s, c, step).user.AwaitFrame?
    ensures IsStarted(Apply(s, c, step))
  {
    hide Inv, HandCore.Connect, Joined, IsStarted;
    if step.UserCall? {
      ConnectStarts(s, c, step.call.link, false, NotRecorded);
    } else {
      ReconnectStarts(s, c, step.link);
    }
  }

  lemma {:induction false} StillConnecting(s: Setup, cores: seq<Core>, steps: seq<Step>, i: nat, m: nat)
    requires IsRun(s, cores, steps) && i < m <= |steps| && StartsLoop(cores[i], steps[i])
    requires forall q :: i < q <= m ==> cores[q].user.AwaitFrame?
    ensures Connecting(cores, i, m)
    decreases m
  {
    hide Inv, Apply, Constructed, StartsLoop;
    var c, step := cores[m - 1], steps[m - 1];
    AlwaysInv(s, cores, steps, m - 1);
    assert Enabled(c, step) && cores[m] == Apply(s, c, step);
    if m == i + 1 {
      StepStarts(s, c, step);
    } else {
      hide Connecting;
      StillConnecting(s, cores, steps, i, m - 1);
      if step.UserCall? || step.UserPoll? {
        FrameWaitChangesNothing(s, c, step);
        ConnectingKept(cores, i, m - 1);
      } else {
        FrameWaitIsRequested(s, c);
        LoopConnects(s, cores, steps, i, m - 1);
      }
    }
  }

  lemma FrameWaitIsRequested(s: Setup, c: Core)
    requires Inv(s, c) && c.user.AwaitFrame?
    ensures c.requested != Disconnected
  {}

  lemma ConnectingKept(cores: seq<Core>, i: nat, m: nat)
    requires i < m && m + 1 < |cores| && cores[m + 1] == cores[m] && Connecting(cores, i, m)
    ensures Connecting(cores, i, m + 1)
  {
    FaultGrows(cores, i, m);
  }

  lemma FrameWaitEnds(s: Setup, c: Core, step: Step)
    requires Enabled(c, step) && step.UserPoll? && c.user.AwaitFrame? && Apply(s, c, step).user == Outside(OK)
    ensures Apply(s, c, step) == c.(lifecycle := Connected, user := Outside(OK))
  {}

  // connect() or reconnect() that returns success leaves a living loop on an open link, with Connected
  // requested and no fault written over, exactly where no fault has been found since it started the
  // loop. After one, either the fault is written over or the link was recovered and Running is requested
  lemma ConnectHidesOnlyFaults(s: Setup, cores: seq<Core>, steps: seq<Step>, i: nat, j: nat)
    requires IsRun(s, cores, steps) && i < j < |steps| && StartsLoop(cores[i], steps[i])
    requires forall m :: i < m <= j ==> cores[m].user.AwaitFrame?
    requires steps[j].UserPoll? && cores[j + 1].user == Outside(OK)
    ensures |cores| == |steps| + 1 && cores[j + 1].lifecycle == Connected
    ensures cores[j + 1].thread.Alive? && cores[j + 1].requested == Connected && cores[j].lifecycle != Faulted
            <==> !FaultIn(cores, i, j)
    ensures !FaultIn(cores, i, j) ==> cores[j + 1].comms.open
  {
    hide Inv, Apply, Constructed, StartsLoop;
    StillConnecting(s, cores, steps, i, j);
    assert Enabled(cores[j], steps[j]) && cores[j + 1] == Apply(s, cores[j], steps[j]);
    FrameWaitEnds(s, cores[j], steps[j]);
  }

  // -------------------------------- start_homing() ----------------------------------

  // A homing call that is refused leaves the homing state at InProgress exactly where the call is
  // allowed but nothing is received and Running is not confirmed, or where it was there before. It
  // neither asks for a homing nor stops one, so nothing is under way exactly where nothing was
  lemma RefusedHomingReadsInProgress(c: Core)
    ensures var r, allowed := StartHoming(c), Checked(c, Action.Home, true).OK?;
            && r.user.Outside?
            && (r.user.last.Refused? && r.homingState == HomingState.InProgress <==>
                  if allowed then !c.checkCommunication && !ControlConfirmed(c) else c.homingState == HomingState.InProgress)
            && (r.user.last.Refused? ==> r.requestHoming == c.requestHoming && r.activeHoming == c.activeHoming
                                         && r.requested == c.requested)
  {
    hide Checked, PreparedForHoming, RequestControl, ControlStatus, HomingRequested;
    StartHomingIs(c);
    if Checked(c, Action.Home, true).OK? {
      var p := PreparedForHoming(c);
      PreparedIs(c);
      RequestControlIs(p);
      RequestedIs(RequestControl(p), ControlStatus(p), p);
    }
  }

  lemma PreparedIs(c: Core)
    ensures var p := PreparedForHoming(c);
            && p == c.(homingState := HomingState.InProgress, staged := p.staged, mail := p.mail)
  {}

  lemma RequestedIs(r: Core, status: Status, p: Core)
    requires status.OK? || r == p
    ensures var h := HomingRequested(r, status);
            && h.user == Outside(status) && h.homingState == r.homingState
            && (!status.OK? ==> h == p.(user := Outside(status)))
  {}

  // ---------------------------------- Every call ------------------------------------

  predicate IsIdle(staged: Staged) { staged.source == Sdk && staged.command.controller.Idle? }

  // A pending request in Running with nothing else to move the hand, and no verdict of an old one
  predicate IsAsked(c: Core) {
    c.requested == Running && c.requestHoming && !c.resultHoming && c.homingState == HomingState.InProgress && IsIdle(c.staged)
  }

  // What a caller may rely on when a call has come back, or has come to its wait
  ghost predicate CallPromise(s: Setup, c: Core, call: Call, r: Core) {
    match call
    case CallConnect(_) =>
      && (r.thread != c.thread ==> c.thread.NoThread?)
      && (r.user.AwaitFrame? ==> r.thread.Alive? && r.requested == Connected && r.comms.open && r.lifecycle == Disconnected)
    case CallDisconnect =>
      && (r.user == Outside(OK) ==> r.lifecycle == Disconnected)
      && (!r.user.Outside? ==> IsIdle(r.staged) && (r.requested == Stopped || r.requested == Disconnected))
    case CallReconnect => r.user == Joining(ReconnectNow) <==> c.lifecycle == Faulted && !c.destroyed
    case CallClose => r.destroyed && (r.user == Outside(OK) <==> c.destroyed)
    case CallRun =>
      && (r.user == Outside(OK) ==> r.requested == Running && r.lifecycle == Running)
      && (r.user == Outside(OK) || r.user == AwaitEnable ==> s.autoHome ==> r.homingState == Succeeded)
      && (r.user == AwaitHoming ==> IsAsked(r))
    case CallStop =>
      && (r.user == Outside(OK) ==> r.requested == Stopped && r.lifecycle == Stopped)
      && (r.user.AwaitStop? ==> r.requested == Stopped && IsIdle(r.staged))
    case CallHome => r.user == AwaitHoming ==> IsAsked(r)
    case CallStartHoming => r.user == Outside(OK) ==> IsAsked(r)
    case CallSetCommand(target) => CommandPromise(s, c, target, r)
    case CallSetMaxEffort(limit) => EffortPromise(c, limit, r)
    case CallSetControllerConfig(config) => ConfigPromise(c, config, r)
  }

  // Every value is a finite number, and a count one of 32 bits
  ghost predicate IsValidTarget(target: Target) {
    match target
    case IdleTarget => true
    case ActuatorPositionTarget(raw) =>
      forall i :: 0 <= i < ACTUATOR_COUNT ==> raw[i].Some? && -2147483648.0 <= raw[i].value <= 2147483647.0
    case _ => forall i :: 0 <= i < ACTUATOR_COUNT ==> target.raw[i].Some?
  }

  // Every value is a finite number and none is negative
  ghost predicate IsValidConfig(given: ConfigInput) {
    && given.cutoffFreq.Some? && given.cutoffFreq.value >= 0.0 && given.deadband.Some? && given.deadband.value >= 0.0
    && forall i :: 0 <= i < ACTUATOR_COUNT ==>
         given.stiffness[i].Some? && given.stiffness[i].value >= 0.0 && given.damping[i].Some? && given.damping[i].value >= 0.0
  }

  lemma ValidityIs(target: Target, given: ConfigInput)
    ensures ValidTarget(target) <==> IsValidTarget(target)
    ensures ValidConfig(given) <==> IsValidConfig(given)
  {}

  // A command that is allowed and valid always takes the place of the staged one, with the effort cap
  // that is staged; any other leaves what is staged as it is, without an error where it is only invalid
  ghost predicate CommandPromise(s: Setup, c: Core, target: Target, r: Core) {
    var allowed := !c.destroyed && c.requested == Running && c.lifecycle == Running
                   && (target.IdleTarget? || c.homingState == Succeeded);
    && r == c.(staged := r.staged, mail := r.mail, user := r.user)
    && (r.user == Outside(OK) <==> allowed) && r.user.Outside?
    && if allowed && IsValidTarget(target) then
         && IsFor(s, target, r.staged.command.controller) && r.staged.command.maxEffort == c.staged.command.maxEffort
         && r.staged.source == User(c.runs, c.links) && r.mail == Some(r.staged)
       else r.staged == c.staged && r.mail == c.mail
  }

  // The nearest caps between 0 and 2000
  ghost predicate AreCapsFor(limit: M.Raw, caps: J.Active) {
    forall i :: 0 <= i < ACTUATOR_COUNT ==>
      && limit[i].Some?
      && caps[i] == if limit[i].value < 0.0 then 0.0 else if limit[i].value > 2000.0 then 2000.0 else limit[i].value
  }

  ghost predicate EffortPromise(c: Core, limit: M.Raw, r: Core) {
    && r == c.(staged := r.staged, mail := r.mail, user := r.user) && SameIntent(c.staged, r.staged) && r.user.Outside?
    && (r.user == Outside(OK) <==> !c.destroyed && M.Finite(limit))
    && if r.user == Outside(OK) then AreCapsFor(limit, r.staged.command.maxEffort) && r.mail == Some(r.staged)
       else r.staged == c.staged && r.mail == c.mail
  }

  ghost predicate IsConfigured(given: ConfigInput, config: M.Config) {
    && config.position.filterEnabled == given.filterEnabled
    && given.cutoffFreq == Some(config.position.cutoffFreq) && given.deadband == Some(config.position.deadband)
    && AreValues(given.stiffness, config.gains.stiffness) && AreValues(given.damping, config.gains.damping)
  }

  ghost predicate ConfigPromise(c: Core, given: ConfigInput, r: Core) {
    && r == c.(stagedConfig := r.stagedConfig, mailConfig := r.mailConfig, user := r.user) && r.user.Outside?
    && (r.user == Outside(OK) <==> !c.destroyed && IsValidConfig(given))
    && if r.user == Outside(OK) then IsConfigured(given, r.stagedConfig) && r.mailConfig == Some(r.stagedConfig)
       else r.stagedConfig == c.stagedConfig && r.mailConfig == c.mailConfig
  }

  lemma ConnectPromise(s: Setup, c: Core, link: LinkInput)
    requires Inv(s, c) && c.user.Outside?
    ensures var r := HandCore.Connect(c, link, false, NotRecorded);
            && (r.thread != c.thread ==> c.thread.NoThread?)
            && (r.user.AwaitFrame? ==> r.thread.Alive? && r.requested == Connected && r.comms.open && r.lifecycle == Disconnected)
  {
    hide Inv, HandCore.Connect;
    OneLoopAtATime(s, c, link, false, NotRecorded);
    if HandCore.Connect(c, link, false, NotRecorded).user.AwaitFrame? {
      ConnectStarts(s, c, link, false, NotRecorded);
    }
  }

  lemma MovesTo(c: Core, requested: Lifecycle, user: UserPc)
    ensures var r := c.(requested := requested, user := user); r.requested == requested && r.user == user && r.staged == c.staged
  {}

  lemma DisconnectPromise(c: Core)
    requires c.user.Outside?
    ensures var r := HandCore.Disconnect(c);
            && (r.user == Outside(OK) ==> r.lifecycle == Disconnected)
            && (!r.user.Outside? ==> IsIdle(r.staged) && (r.requested == Stopped || r.requested == Disconnected))
  {
    hide Checked, ResetToIdle, ControlRequested;
    ResetLeavesSdk(c);
    if Checked(c, Action.Disconnect, true).OK? {
      MovesTo(ResetToIdle(c), Stopped, AwaitStop(ToDisconnect));
      MovesTo(ResetToIdle(c), Disconnected, Joining(DisconnectNow));
    }
  }

  lemma StopPromise(c: Core)
    requires c.user.Outside?
    ensures var r := HandCore.Stop(c);
            && (r.user == Outside(OK) ==> r.requested == Stopped && r.lifecycle == Stopped)
            && (r.user.AwaitStop? ==> r.requested == Stopped && IsIdle(r.staged))
  {
    hide Checked, ResetToIdle;
    ResetLeavesSdk(c);
    if Checked(c, Action.Stop, true).OK? {
      MovesTo(ResetToIdle(c), Stopped, AwaitStop(ToStop));
    }
  }

  lemma ClosePromise(c: Core)
    requires c.user.Outside?
    ensures Close(c).destroyed && (Close(c).user == Outside(OK) <==> c.destroyed)
  {
    hide ControlRequested;
    if !c.destroyed {
      MovesTo(c.(destroyed := true), Stopped, AwaitStop(ToClose));
      MovesTo(c.(destroyed := true), Disconnected, Joining(CloseNow));
    }
  }

  lemma ReconnectPromise(c: Core)
    requires c.user.Outside? && c.requested != Faulted
    ensures HandCore.Reconnect(c).user == Joining(ReconnectNow) <==> c.lifecycle == Faulted && !c.destroyed
  {
    assert Checked(c, Action.Reconnect, true).OK? <==> c.lifecycle == Faulted && !c.destroyed;
    hide Checked;
  }

  lemma HomingPromise(c: Core)
    requires c.user.Outside?
    ensures StartHoming(c).user == Outside(OK) ==> IsAsked(StartHoming(c))
    ensures HandCore.Home(c).user == AwaitHoming ==> IsAsked(HandCore.Home(c))
    ensures HandCore.Home(c).user != Outside(OK) && HandCore.Home(c).user != AwaitEnable
  {
    hide Checked, PreparedForHoming, RequestControl, ControlStatus;
    StartHomingIs(c);
    ControlRuns(PreparedForHoming(c));
    PreparedIsIdle(c);
  }

  lemma EnablePromise(c: Core)
    ensures EnableControl(c).user != Outside(OK) && EnableControl(c).user != AwaitHoming
    ensures EnableControl(c).homingState == c.homingState
  {
    hide RequestControl, ControlStatus;
    ControlKeepsHoming(c);
  }

  lemma RunPromise(s: Setup, c: Core)
    requires c.user.Outside?
    ensures var r := HandCore.Run(s, c);
            && (r.user == Outside(OK) ==> r.requested == Running && r.lifecycle == Running)
            && (r.user == Outside(OK) || r.user == AwaitEnable ==> s.autoHome ==> r.homingState == Succeeded)
            && (r.user == AwaitHoming ==> IsAsked(r))
  {
    hide Checked, HandCore.Home, EnableControl, StartHoming, IsAsked;
    HomingPromise(c);
    EnablePromise(c);
    Returns(c, Checked(c, Action.Run, true));
    Returns(c, OK);
  }

  lemma Returns(c: Core, status: Status)
    ensures var r := c.(user := Outside(status));
            && r.user == Outside(status) && r.requested == c.requested && r.lifecycle == c.lifecycle
            && r.homingState == c.homingState && r.staged == c.staged
  {}

  lemma SetCommandPromise(s: Setup, c: Core, t: Target)
    requires c.user.Outside? && c.requested != Faulted
    ensures CommandPromise(s, c, t, HandCore.SetCommand(s, c, t))
  {
    ValidityIs(t, ConfigInput(true, None, None, NO_VALUES, NO_VALUES));
    hide ValidTarget, IsValidTarget, ControllerOf, WithController, IsFor, Checked;
    var allowed := Checked(c, Action.SetCommand, !t.IdleTarget?);
    SetCommandIsAllowed(c, !t.IdleTarget?);
    Answers(c, allowed);
    Answers(c, OK);
    if ValidTarget(t) {
      ControllerIsFor(s, t);
      Stages(c, ControllerOf(s, t), User(c.runs, c.links));
    }
  }

  const NO_VALUES: M.Raw := seq(ACTUATOR_COUNT, _ => None)

  lemma SetCommandIsAllowed(c: Core, requireHomed: bool)
    ensures Checked(c, Action.SetCommand, requireHomed).OK? <==>
            !c.destroyed && c.requested == Running && c.lifecycle == Running && (requireHomed ==> c.homingState == Succeeded)
  {}

  lemma Answers(c: Core, status: Status)
    ensures var r := c.(user := Outside(status));
            && r == c.(staged := r.staged, mail := r.mail, user := r.user)
            && r == c.(stagedConfig := r.stagedConfig, mailConfig := r.mailConfig, user := r.user)
            && r.staged == c.staged && r.mail == c.mail && r.stagedConfig == c.stagedConfig && r.mailConfig == c.mailConfig
            && r.user == Outside(status)
  {}

  lemma Stages(c: Core, controller: M.Controller, source: Source)
    ensures var r := WithController(c, controller, source).(user := Outside(OK));
            && r == c.(staged := r.staged, mail := r.mail, user := r.user) && r.user == Outside(OK) && r.mail == Some(r.staged)
            && r.staged == Staged(c.staged.command.(controller := controller), source)
  {}

  lemma SetMaxEffortPromise(c: Core, limit: M.Raw)
    ensures EffortPromise(c, limit, SetMaxEffort(c, limit))
  {
    hide M.BoundedEffort, M.Finite, M.Values, AreCapsFor;
    Answers(c, Refused(WrongCallOrder));
    Answers(c, Refused(InvalidArgument));
    if M.Finite(limit) {
      BoundedAreCaps(limit);
      StagesCaps(c, M.BoundedEffort(M.Values(limit)));
    }
  }

  lemma BoundedAreCaps(limit: M.Raw)
    requires M.Finite(limit)
    ensures AreCapsFor(limit, M.BoundedEffort(M.Values(limit)))
  {}

  lemma StagesCaps(c: Core, caps: J.Active)
    ensures var staged := c.staged.(command := c.staged.command.(maxEffort := caps));
            var r := c.(staged := staged, mail := Some(staged), user := Outside(OK));
            && r == c.(staged := r.staged, mail := r.mail, user := r.user) && SameIntent(c.staged, r.staged)
            && r.user == Outside(OK) && r.mail == Some(r.staged) && r.staged.command.maxEffort == caps
  {}

  lemma SetControllerConfigPromise(c: Core, config: ConfigInput)
    ensures ConfigPromise(c, config, SetControllerConfig(c, config))
  {
    ValidityIs(IdleTarget, config);
    hide ConfigOf, ValidConfig, IsValidConfig, IsConfigured;
    Answers(c, Refused(WrongCallOrder));
    Answers(c, Refused(InvalidArgument));
    if ValidConfig(config) {
      ConfigIsConfigured(config);
      StagesConfig(c, ConfigOf(config));
    }
  }

  lemma ConfigIsConfigured(config: ConfigInput)
    requires ValidConfig(config)
    ensures IsConfigured(config, ConfigOf(config))
  {}

  lemma StagesConfig(c: Core, config: M.Config)
    ensures var r := c.(stagedConfig := config, mailConfig := Some(config), user := Outside(OK));
            && r == c.(stagedConfig := r.stagedConfig, mailConfig := r.mailConfig, user := r.user)
            && r.user == Outside(OK) && r.mailConfig == Some(r.stagedConfig) && r.stagedConfig == config
  {}

  // Every call keeps its promise
  lemma CallKeepsPromise(s: Setup, c: Core, call: Call)
    requires Inv(s, c) && c.user.Outside?
    ensures CallPromise(s, c, call, ApplyCall(s, c, call))
  {
    assert c.requested != Faulted;
    hide Inv, HandCore.Connect, HandCore.Disconnect, HandCore.Reconnect, Close, HandCore.Run, HandCore.Stop, HandCore.Home,
         StartHoming, HandCore.SetCommand, SetMaxEffort, SetControllerConfig, IsAsked, IsIdle, CommandPromise, EffortPromise, ConfigPromise;
    match call
    case CallConnect(link) => ConnectPromise(s, c, link);
    case CallDisconnect => DisconnectPromise(c);
    case CallReconnect => ReconnectPromise(c);
    case CallClose => ClosePromise(c);
    case CallRun => RunPromise(s, c);
    case CallStop => StopPromise(c);
    case CallHome => HomingPromise(c);
    case CallStartHoming => HomingPromise(c);
    case CallSetCommand(target) => SetCommandPromise(s, c, target);
    case CallSetMaxEffort(limit) => SetMaxEffortPromise(c, limit);
    case CallSetControllerConfig(config) => SetControllerConfigPromise(c, config);
  }

  // What a caller may rely on when a wait comes back
  ghost predicate PollPromise(c: Core, r: Core) {
    match c.user
    case AwaitFrame(_, _) => r.user == Outside(OK) ==> c.checkFirstFrame && r.lifecycle == Connected && r.requested == c.requested
    case AwaitStop(goal) =>
      && (goal.ToStop? && r.user == Outside(OK) ==> r.lifecycle == Stopped)
      && (goal.ToDisconnect? && r.user.Joining? ==> r.lifecycle == Stopped)
    case AwaitEnable =>
      && (r.user == Outside(OK) ==> r.lifecycle == Running)
      && (r.user.Outside? && r.user.last.Refused? ==> r.requested == Stopped && IsIdle(r.staged))
    case AwaitHoming => r.user == Outside(OK) ==> r.resultHoming && r.requested == Running && r.lifecycle != Faulted && !IsHoming(r)
    case Joining(next) =>
      && (next.DisconnectNow? ==>
            && r.user == Outside(OK) && r.lifecycle == Disconnected && r.thread.NoThread? && !r.comms.open
            && !r.checkFirstFrame && !r.checkCommunication)
      && (next.ReconnectNow? && r.user.Outside? && r.user.last.Refused? ==> r.lifecycle == Faulted)
    case Outside(_) => true
  }

  lemma StopWaitPromise(c: Core, timeout: bool)
    requires c.user.AwaitStop?
    ensures PollPromise(c, PollStop(c, timeout))
  {
    hide StopRefusal;
    StopWaitSucceeds(c, timeout);
    Returns(c, OK);
    Returns(c, StopRefusal(c, Action.Stop));
    Returns(c, StopRefusal(c, Action.Disconnect));
    MovesTo(c, Disconnected, Joining(DisconnectNow));
    MovesTo(c, Disconnected, Joining(CloseNow));
  }

  lemma EnableWaitPromise(c: Core, timeout: bool)
    requires c.user.AwaitEnable?
    ensures PollPromise(c, PollEnable(c, timeout))
  {
    hide ResetToIdle, Unconfirmed;
    ResetLeavesSdk(c);
  }

  lemma HomingWaitPromise(c: Core)
    requires c.user.AwaitHoming?
    ensures PollPromise(c, PollHoming(c))
  {
    hide Checked;
  }

  lemma RefusedFaults(c: Core, cause: StopCause, code: ErrorCode)
    ensures ConnectRefused(c, true, cause, code).lifecycle == Faulted
  {}

  lemma RefusedReconnectFaults(c: Core, link: LinkInput, cause: StopCause)
    ensures var r := HandCore.Connect(c, link, true, cause); r.user.Outside? && r.user.last.Refused? ==> r.lifecycle == Faulted
  {
    hide Checked, Opened, C.Disconnected, NewLoop, ConnectRefused;
    var allowed := Checked(c, Action.Connect, true);
    var failed := Opened(c).(requested := Disconnected, lifecycle := Disconnected, comms := C.Disconnected(Opened(c).comms));
    if !allowed.OK? {
      RefusedFaults(c, cause, allowed.code);
    }
    RefusedFaults(c.(comms := c.comms.(open := false)), cause, InterfaceUnavailable);
    RefusedFaults(failed, cause, ControlLoopFault);
  }

  lemma DisconnectionPromise(c: Core)
    ensures var r := DisconnectionDone(Unthreaded(c));
            && r.user == Outside(OK) && r.lifecycle == Disconnected && r.thread.NoThread? && !r.comms.open
            && !r.checkFirstFrame && !r.checkCommunication
  {}

  lemma JoinPromise(c: Core, link: LinkInput)
    requires c.user.Joining? && !c.thread.Alive?
    ensures PollPromise(c, Joined(c, link))
  {
    hide HandCore.Connect, ResetToIdle, ResetFaultState, ConnectionFailed, DisconnectionDone, Closed, Unthreaded;
    RefusedReconnectFaults(ResetToIdle(ResetFaultState(Closed(Unthreaded(c)))), link, Unthreaded(c).stopCause);
    DisconnectionPromise(c);
  }

  // Every poll keeps its promise
  lemma PollKeepsPromise(s: Setup, c: Core, timeout: bool, link: LinkInput)
    requires Enabled(c, UserPoll(timeout, link))
    ensures PollPromise(c, ApplyPoll(c, timeout, link))
  {
    hide PollStop, PollEnable, PollHoming, Joined, StopRefusal;
    match c.user
    case AwaitFrame(_, _) => Returns(c.(lifecycle := Connected), OK);
    case AwaitStop(_) => StopWaitPromise(c, timeout);
    case AwaitEnable => EnableWaitPromise(c, timeout);
    case AwaitHoming => HomingWaitPromise(c);
    case Joining(_) => JoinPromise(c, link);
  }

  // ---------------------------- Who is refused, who waits ---------------------------

  // The gate that a call has to pass; the other three look at the object itself
  function ActionOf(call: Call): Option<Action> {
    match call
    case CallConnect(_) => Some(Action.Connect)
    case CallDisconnect => Some(Action.Disconnect)
    case CallReconnect => Some(Action.Reconnect)
    case CallRun => Some(Action.Run)
    case CallStop => Some(Action.Stop)
    case CallHome => Some(Action.Home)
    case CallStartHoming => Some(Action.Home)
    case CallSetCommand(_) => Some(Action.SetCommand)
    case _ => None
  }

  predicate NeedsHoming(call: Call) { !(call.CallSetCommand? && call.target.IdleTarget?) }

  predicate Refuses(c: Core, call: Call) {
    ActionOf(call).Some? && !Checked(c, ActionOf(call).value, NeedsHoming(call)).OK?
  }

  // A refused call leaves everything as it is and names its reason
  lemma RefusedCallsChangeNothing(s: Setup, c: Core, call: Call)
    requires Refuses(c, call)
    ensures ApplyCall(s, c, call) == c.(user := Outside(Checked(c, ActionOf(call).value, NeedsHoming(call))))
  {
    hide Checked;
  }

  // Where control can be asked for, it is: Running is requested, and from a stop with Idle staged and the
  // hold of the measured pose asked for
  ghost predicate AsksControl(c: Core, r: Core) {
    && r.requested == Running && (!ControlConfirmed(c) && c.requested == Stopped ==> r.requestHold && IsIdle(r.staged))
    && (ControlConfirmed(c) || c.requested != Stopped ==> r.requestHold == c.requestHold)
  }

  // What becomes of a call that passes its gate
  ghost predicate Proceeds(s: Setup, c: Core, call: Call, r: Core) {
    var reachable := ControlConfirmed(c) || c.checkCommunication;
    match call
    case CallConnect(link) =>
      r.user == if c.requested == Connected && c.lifecycle == Connected then Outside(OK)
                else if !link.opens then Outside(Refused(InterfaceUnavailable))
                else if !link.threadStarts then Outside(Refused(ControlLoopFault))
                else AwaitFrame(false, NotRecorded)
    case CallDisconnect =>
      r.user == if c.lifecycle == Disconnected then Outside(OK)
                else if ControlRequested(c) && c.lifecycle != Stopped then AwaitStop(ToDisconnect) else Joining(DisconnectNow)
    case CallClose =>
      && r.user == (if c.destroyed then Outside(OK)
                    else if ControlRequested(c) && c.lifecycle != Stopped then AwaitStop(ToClose) else Joining(CloseNow))
      && (r.user.AwaitStop? ==> r.requested == Stopped) && (r.user.Joining? ==> r.requested == Disconnected)
    case CallStop => r.user == if c.requested == Stopped && c.lifecycle == Stopped then Outside(OK) else AwaitStop(ToStop)
    case CallHome =>
      if reachable then r.user == AwaitHoming && IsAsked(r) && AsksControl(c, r) else r.user == Outside(Refused(CommunicationLost))
    case CallStartHoming =>
      if reachable then r.user == Outside(OK) && IsAsked(r) && AsksControl(c, r) else r.user == Outside(Refused(CommunicationLost))
    case CallRun =>
      if s.autoHome && c.homingState != Succeeded then
        if reachable then r.user == AwaitHoming && IsAsked(r) && AsksControl(c, r) else r.user == Outside(Refused(CommunicationLost))
      else if ControlConfirmed(c) then r.user == Outside(OK)
      else if reachable then r.user == AwaitEnable && AsksControl(c, r) else r.user == Outside(Refused(CommunicationLost))
    case _ => true
  }

  lemma ConnectGoesOn(s: Setup, c: Core, link: LinkInput)
    requires !Refuses(c, CallConnect(link))
    ensures Proceeds(s, c, CallConnect(link), HandCore.Connect(c, link, false, NotRecorded))
  {
    hide Checked, NewLoop, Opened, C.Disconnected, ConnectRefused;
    var onLink := Opened(c);
    var failed := onLink.(requested := Disconnected, lifecycle := Disconnected, comms := C.Disconnected(onLink.comms));
    RefusalReturns(c.(comms := c.comms.(open := false)), false, NotRecorded, InterfaceUnavailable);
    RefusalReturns(failed, false, NotRecorded, ControlLoopFault);
    Returns(c, OK);
  }

  lemma DisconnectProceeds(s: Setup, c: Core)
    requires !Refuses(c, CallDisconnect)
    ensures Proceeds(s, c, CallDisconnect, HandCore.Disconnect(c))
  {
    hide Checked, ResetToIdle;
    MovesTo(ResetToIdle(c), Stopped, AwaitStop(ToDisconnect));
    MovesTo(ResetToIdle(c), Disconnected, Joining(DisconnectNow));
  }

  lemma CloseProceeds(s: Setup, c: Core)
    ensures Proceeds(s, c, CallClose, Close(c))
  {
    MovesTo(c.(destroyed := true), Stopped, AwaitStop(ToClose));
    MovesTo(c.(destroyed := true), Disconnected, Joining(CloseNow));
    Returns(c, OK);
  }

  lemma StopProceeds(s: Setup, c: Core)
    requires !Refuses(c, CallStop)
    ensures Proceeds(s, c, CallStop, HandCore.Stop(c))
  {
    hide Checked, ResetToIdle;
    MovesTo(ResetToIdle(c), Stopped, AwaitStop(ToStop));
  }

  lemma ControlIsAsked(c: Core)
    requires ControlConfirmed(c) || c.checkCommunication
    ensures AsksControl(c, RequestControl(c))
    ensures IsIdle(c.staged) ==> IsIdle(RequestControl(c).staged)
  {
    hide ResetToIdle;
    RequestControlIs(c);
    ResetLeavesSdk(c);
  }

  lemma PreparedAsks(c: Core)
    requires ControlConfirmed(c) || c.checkCommunication
    ensures var r := RequestControl(PreparedForHoming(c));
            AsksControl(c, r) && IsIdle(r.staged) && r.homingState == HomingState.InProgress
  {
    hide RequestControl, PreparedForHoming;
    var p := PreparedForHoming(c);
    PreparedIs(c);
    PreparedIsIdle(c);
    ControlIsAsked(p);
  }

  lemma AskedFor(r: Core)
    requires r.requested == Running && IsIdle(r.staged) && r.homingState == HomingState.InProgress
    ensures var h := HomingRequested(r, OK);
            && h.user == Outside(OK) && IsAsked(h) && IsAsked(h.(user := AwaitHoming))
            && h.requestHold == r.requestHold && h.requested == r.requested && h.staged == r.staged
            && h.(user := AwaitHoming).requestHold == r.requestHold && h.(user := AwaitHoming).staged == r.staged
  {}

  lemma StartHomingProceeds(s: Setup, c: Core)
    requires !Refuses(c, CallStartHoming)
    ensures Proceeds(s, c, CallStartHoming, StartHoming(c)) && Proceeds(s, c, CallHome, HandCore.Home(c))
  {
    hide Checked, PreparedForHoming, RequestControl, HomingRequested, IsAsked;
    var p := PreparedForHoming(c);
    StartHomingIs(c);
    PreparedIs(c);
    RequestControlIs(p);
    if ControlConfirmed(c) || c.checkCommunication {
      PreparedAsks(c);
      AskedFor(RequestControl(p));
    } else {
      RequestedIs(p, ControlStatus(p), p);
    }
  }

  lemma RunProceeds(s: Setup, c: Core)
    requires !Refuses(c, CallRun)
    ensures Proceeds(s, c, CallRun, HandCore.Run(s, c))
  {
    assert Checked(c, Action.Run, true) == Checked(c, Action.Home, true);
    hide Checked, EnableControl, HandCore.Home, AsksControl, IsAsked;
    StartHomingProceeds(s, c);
    if !ControlConfirmed(c) {
      EnableProceeds(c);
    }
    Returns(c, OK);
  }

  lemma EnableProceeds(c: Core)
    requires !ControlConfirmed(c)
    ensures var r := EnableControl(c);
            if c.checkCommunication then r.user == AwaitEnable && AsksControl(c, r) else r.user == Outside(Refused(CommunicationLost))
  {
    hide RequestControl;
    RequestControlIs(c);
    Returns(c, Refused(CommunicationLost));
    if c.checkCommunication {
      ControlIsAsked(c);
      Waits(RequestControl(c), AwaitEnable);
    }
  }

  lemma Waits(c: Core, user: UserPc)
    ensures var r := c.(user := user);
            r.user == user && r.requested == c.requested && r.requestHold == c.requestHold && r.staged == c.staged
  {}

  // Every call that passes its gate does what it is for, or is refused for want of communication
  lemma AllowedCallsProceed(s: Setup, c: Core, call: Call)
    requires c.user.Outside? && !Refuses(c, call)
    ensures Proceeds(s, c, call, ApplyCall(s, c, call))
  {
    hide HandCore.Connect, HandCore.Disconnect, HandCore.Reconnect, Close, HandCore.Run, HandCore.Stop, HandCore.Home,
         StartHoming, HandCore.SetCommand, SetMaxEffort, SetControllerConfig, Checked, IsAsked, AsksControl;
    match call
    case CallConnect(link) => ConnectGoesOn(s, c, link);
    case CallDisconnect => DisconnectProceeds(s, c);
    case CallClose => CloseProceeds(s, c);
    case CallStop => StopProceeds(s, c);
    case CallHome => StartHomingProceeds(s, c);
    case CallStartHoming => StartHomingProceeds(s, c);
    case CallRun => RunProceeds(s, c);
    case _ =>
  }

  // ---------------------------------- When waits end --------------------------------

  // What a fault is called, and what blames the link where it is down and the drives where it is up
  function FaultOf(c: Core): ErrorCode {
    if c.destroyed then WrongCallOrder
    else if c.stopCause.ReceiveSilence? || c.stopCause.TransmitFailure? then CommunicationLost else ControlLoopFault
  }

  function Blame(c: Core): ErrorCode { if !c.checkCommunication then CommunicationLost else HardwareFault }

  // Behind the old thread the link is closed, and a reconnect() that got no frame leaves the fault as it was
  ghost predicate JoinEnds(c: Core, next: AfterJoin, r: Core) {
    match next
    case ConnectFailed(reconnecting, cause) =>
      && r.user == Outside(Refused(CommunicationLost)) && r.thread.NoThread? && !r.comms.open
      && r.lifecycle == (if reconnecting then Faulted else Disconnected) && (reconnecting ==> r.stopCause == cause)
    case ReconnectNow => true
    case _ =>
      && r.user == Outside(OK) && r.thread.NoThread? && !r.comms.open && !r.comms.controlActive && r.lifecycle == Disconnected
  }

  // Each wait ends in success exactly where what it waits for is there, and otherwise with a fault or
  // the time, but for the wait for a homing, which has no time limit
  ghost predicate WaitEnds(c: Core, timeout: bool, r: Core) {
    match c.user
    case AwaitFrame(reconnecting, cause) =>
      if c.checkFirstFrame then r.user == Outside(OK)
      else if timeout then r.user == Joining(ConnectFailed(reconnecting, cause)) else r == c
    case AwaitStop(goal) =>
      if c.lifecycle == Stopped then
        r.user == if goal.ToStop? then Outside(OK) else Joining(if goal.ToClose? then CloseNow else DisconnectNow)
      else if c.lifecycle == Faulted || timeout then
        r.user == if goal.ToClose? then Joining(CloseNow)
                  else Outside(Refused(if c.lifecycle == Faulted then FaultOf(c) else Blame(c)))
      else r == c
    case AwaitEnable =>
      if c.lifecycle == Running then r.user == Outside(OK)
      else if c.lifecycle == Faulted || timeout then r.user == Outside(Refused(Blame(c))) && r.requested == Stopped
      else r == c
    case AwaitHoming =>
      if c.requested == Running && c.lifecycle != Faulted && IsHoming(c) then r == c
      else r.user == Outside(if c.lifecycle == Faulted then Refused(FaultOf(c))
                             else if c.requested != Running then Refused(WrongCallOrder)
                             else if c.resultHoming then OK else Refused(HardwareFault))
    case Joining(next) => JoinEnds(c, next, r)
    case Outside(_) => true
  }

  lemma PollsEndWaits(s: Setup, c: Core, timeout: bool, link: LinkInput)
    requires Enabled(c, UserPoll(timeout, link))
    ensures WaitEnds(c, timeout, ApplyPoll(c, timeout, link))
  {
    hide PollFirstFrame, PollStop, PollEnable, PollHoming, Joined;
    match c.user
    case AwaitFrame(_, _) => FrameWaitOutcome(c, timeout);
    case AwaitStop(_) => StopWaitOutcome(c, timeout);
    case AwaitEnable => EnableWaitOutcome(c, timeout);
    case AwaitHoming => HomingWaitOutcome(c, timeout);
    case Joining(_) => JoinOutcome(c, link);
  }

  lemma JoinOutcome(c: Core, link: LinkInput)
    requires c.user.Joining? && !c.thread.Alive?
    ensures JoinEnds(c, c.user.next, Joined(c, link))
  {
    hide Reconnection, ConnectionFailed, DisconnectionDone, Closed, Unthreaded;
    DoneLeaves(c);
    if c.user.next.ConnectFailed? {
      FailedLeaves(c, c.user.next.reconnecting, c.user.next.cause);
    }
  }

  lemma DoneLeaves(c: Core)
    ensures JoinEnds(c, DisconnectNow, DisconnectionDone(Unthreaded(c)))
    ensures JoinEnds(c, CloseNow, Closed(Unthreaded(c)).(user := Outside(OK)))
  {
    hide Closed, Unthreaded;
    ClosedIs(c);
    DoneIs(Closed(Unthreaded(c)));
  }

  lemma ClosedIs(c: Core)
    ensures var r := Closed(Unthreaded(c));
            r.thread.NoThread? && r.lifecycle == Disconnected && !r.comms.open && !r.comms.controlActive
  {
    hide C.Stop;
  }

  lemma DoneIs(c: Core)
    ensures var r := c.(checkFirstFrame := false, checkCommunication := false, user := Outside(OK));
            r.user == Outside(OK) && r.thread == c.thread && r.lifecycle == c.lifecycle && r.comms == c.comms
    ensures var r := c.(user := Outside(OK));
            r.user == Outside(OK) && r.thread == c.thread && r.lifecycle == c.lifecycle && r.comms == c.comms
  {}

  lemma FailedLeaves(c: Core, reconnecting: bool, cause: StopCause)
    ensures JoinEnds(c, ConnectFailed(reconnecting, cause), ConnectionFailed(Unthreaded(c), reconnecting, cause))
  {}

  lemma FrameWaitOutcome(c: Core, timeout: bool)
    requires c.user.AwaitFrame?
    ensures WaitEnds(c, timeout, PollFirstFrame(c, timeout))
  {
    MovesTo(c, Disconnected, Joining(ConnectFailed(c.user.reconnecting, c.user.cause)));
  }

  lemma StopWaitOutcome(c: Core, timeout: bool)
    requires c.user.AwaitStop?
    ensures WaitEnds(c, timeout, PollStop(c, timeout))
  {
    hide StopRefusal, FaultOf, Blame;
    StopRefusalIs(c, Action.Stop);
    StopRefusalIs(c, Action.Disconnect);
    Returns(c, OK);
    Returns(c, StopRefusal(c, Action.Stop));
    Returns(c, StopRefusal(c, Action.Disconnect));
    MovesTo(c, Disconnected, Joining(DisconnectNow));
    MovesTo(c, Disconnected, Joining(CloseNow));
  }

  lemma StopRefusalIs(c: Core, action: Action)
    requires action == Action.Stop || action == Action.Disconnect
    ensures StopRefusal(c, action) == Refused(if c.lifecycle == Faulted then FaultOf(c) else Blame(c))
  {}

  lemma EnableWaitOutcome(c: Core, timeout: bool)
    requires c.user.AwaitEnable?
    ensures WaitEnds(c, timeout, PollEnable(c, timeout))
  {
    hide ResetToIdle;
    MovesTo(ResetToIdle(c), Stopped, Outside(Refused(Unconfirmed(c))));
    Returns(c, OK);
  }

  lemma HomingResultIs(c: Core)
    ensures HomingResult(c) ==
      if c.lifecycle == Faulted then Refused(FaultOf(c))
      else if c.requested != Running then Refused(WrongCallOrder)
      else if c.resultHoming then OK else Refused(HardwareFault)
  {}

  lemma HomingWaitOutcome(c: Core, timeout: bool)
    requires c.user.AwaitHoming?
    ensures WaitEnds(c, timeout, PollHoming(c))
  {
    HomingResultIs(c);
    hide HomingResult, FaultOf;
    Returns(c, HomingResult(c));
  }
}
