/** One cycle of the control loop from its first step to its last, whatever the user does in between:
    what a fault that it finds, or a request that it reads again, comes to. */
module HandCoreCycles {
  import opened Types
  import opened Frames
  import opened ActionCheck
  import opened HandCore
  import opened HandCoreInvariant
  import opened HandCoreHistory
  import opened HandCoreLocality
  import opened HandCoreSafety
  import C = HandComms
  import P = Protocol
  import H = HomingSequence
  import J = JointPositionController
  import M = CommandMapping

  // Steps b to k are one cycle: it begins at b, and nothing between b and k ends it
  ghost predicate IsCycle(cores: seq<Core>, steps: seq<Step>, b: nat, k: nat)
    requires |cores| == |steps| + 1
  {
    && b < k < |steps| && BeginsCycle(cores[b], steps[b])
    && (steps[k].LoopFinish? || steps[k].LoopThrow?)
    && forall m :: b < m < k ==> !steps[m].LoopFinish? && !steps[m].LoopThrow?
  }

  // In the middle of a cycle: past the first step, before the last one
  ghost predicate MidCycle(start: Core, c: Core, reread: Option<Lifecycle>)
    requires start.thread.Alive? && start.thread.loop.pc.BeforeReread?
  {
    && c.thread.Alive? && c.comms == start.comms && c.txTransient == start.txTransient && c.memory == start.memory
    && c.trail == start.trail && c.links == start.links && c.activeHoming == start.activeHoming
    && c.thread.loop == start.thread.loop.(pc := c.thread.loop.pc)
    && c.thread.loop.pc == match reread
       case None => start.thread.loop.pc
       case Some(latest) => AfterReread(start.thread.loop.pc.cycle, latest)
  }

  lemma MidCycleKept(start: Core, c: Core, r: Core, reread: Option<Lifecycle>)
    requires start.thread.Alive? && start.thread.loop.pc.BeforeReread? && MidCycle(start, c, reread) && KeepsLoop(c, r)
    ensures MidCycle(start, r, reread)
  {}

  // When the request was read again, if it was
  ghost predicate RereadIn(cores: seq<Core>, steps: seq<Step>, b: nat, m: nat, latest: Lifecycle)
    requires |cores| == |steps| + 1 && m <= |steps|
  {
    exists q :: b < q < m && steps[q].LoopReread? && cores[q].requested == latest
  }

  lemma BegunIsMid(s: Setup, c: Core, step: Step)
    requires Inv(s, c) && BeginsCycle(c, step) && Enabled(c, step)
    ensures var r := Apply(s, c, step); r.thread.Alive? && r.thread.loop.pc.BeforeReread? && MidCycle(r, r, None)
  {
    hide BeginCycle, WatchedShape, Inv;
    TopBegins(s, c, step);
    var w := BeginShapes(s, c, step.input);
  }

  lemma RereadIsMid(start: Core, c: Core)
    requires start.thread.Alive? && start.thread.loop.pc.BeforeReread? && MidCycle(start, c, None)
    ensures MidCycle(start, RtReread(c), Some(c.requested))
  {}

  // Up to its last step a cycle keeps what it began with, and has read the request again at most once
  lemma {:induction false} InCycle(s: Setup, cores: seq<Core>, steps: seq<Step>, b: nat, k: nat, m: nat)
    returns (reread: Option<Lifecycle>)
    requires IsRun(s, cores, steps) && IsCycle(cores, steps, b, k) && b < m <= k
    ensures cores[b + 1].thread.Alive? && cores[b + 1].thread.loop.pc.BeforeReread?
    ensures MidCycle(cores[b + 1], cores[m], reread)
    ensures reread.Some? ==> RereadIn(cores, steps, b, m, reread.value)
    decreases m
  {
    hide Inv, Apply, KeepsLoop, MidCycle, BeginsCycle;
    AlwaysInv(s, cores, steps, m - 1);
    if m == b + 1 {
      BegunIsMid(s, cores[b], steps[b]);
      return None;
    }
    var before := InCycle(s, cores, steps, b, k, m - 1);
    var c, step := cores[m - 1], steps[m - 1];
    if step.UserCall? || step.UserPoll? {
      assert c.thread.Alive? by { MidIsAlive(cores[b + 1], c, before); }
      UserKeepsLoop(s, c, step);
      MidCycleKept(cores[b + 1], c, cores[m], before);
      return before;
    }
    assert step.LoopReread? && before == None by { MidIsAlive(cores[b + 1], c, before); }
    RereadIsMid(cores[b + 1], c);
    assert cores[m] == RtReread(c) by { RereadApplies(s, c, step); }
    assert RereadIn(cores, steps, b, m, c.requested);
    return Some(c.requested);
  }

  lemma MidIsAlive(start: Core, c: Core, reread: Option<Lifecycle>)
    requires start.thread.Alive? && start.thread.loop.pc.BeforeReread? && MidCycle(start, c, reread)
    ensures c.thread.Alive? && (if reread.Some? then c.thread.loop.pc.AfterReread? else c.thread.loop.pc.BeforeReread?)
  {}

  lemma RereadApplies(s: Setup, c: Core, step: Step)
    requires Enabled(c, step) && step.LoopReread?
    ensures Apply(s, c, step) == RtReread(c)
  {}

  // ----------------------------------- Silence -------------------------------------

  // A drop is only ever found on an open link: nothing is read on a closed one
  lemma DropNeedsOpenLink(s: Setup, c: Core, input: RtInput)
    requires Inv(s, c) && c.thread.Alive? && c.lifecycle != Faulted && BeginCycle(s, c, input).lifecycle == Faulted
    ensures c.comms.open
  {
    hide C.Read, C.Home, Taken, TakeHold, Refreshed, Receiving, Compute, ThreadInv, HomingInv, StagingInv, CommandInv;
    var c1 := Taken(c);
    var c2 := Observe(c1, input.queue);
    TakenDoes(c);
    HomeDoes(c.comms);
    RefreshedDoes(c.thread.loop, c.mail, c.mailConfig);
    ReadKeeps(c1.comms, input.queue);
    TakeHoldDoes(WatchLink(s, c2), input.joints);
    ComputeDoes(s, Watched(s, c, input), input.joints);
  }

  lemma BegunFaulted(s: Setup, c: Core, step: Step)
    requires Inv(s, c) && BeginsCycle(c, step) && Enabled(c, step) && Apply(s, c, step).lifecycle == Faulted
    ensures var r := Apply(s, c, step);
            r.comms.open && r.thread.Alive? && r.thread.loop.pc.BeforeReread? && r.thread.loop.pc.cycle.observed == Faulted
  {
    hide BeginCycle, C.Home, Receiving, Inv;
    TopBegins(s, c, step);
    DropNeedsOpenLink(s, c, step.input);
    var w := BeginShapes(s, c, step.input);
  }

  // A silence is answered in the cycle that finds it, whatever the user does meanwhile: its last
  // step, be it an exception, puts a quick stop on the wire and leaves homing inactive. Unless it is
  // an exception, what was running is resolved as failed and the link is reported as down
  lemma SilenceStopsInTheSameCycle(s: Setup, cores: seq<Core>, steps: seq<Step>, b: nat, k: nat)
    requires IsRun(s, cores, steps) && IsCycle(cores, steps, b, k) && cores[b + 1].lifecycle == Faulted
    ensures var sent := OnWire(cores[k], steps[k]); sent.Some? && C.IsQuickStopFrame(cores[k].comms, sent.value)
    ensures !cores[k + 1].comms.homing.active
    ensures steps[k].LoopFinish? ==>
              && !cores[k + 1].activeHoming && !cores[k + 1].checkCommunication
              && (cores[k].activeHoming ==> cores[k + 1].homingState == HomingState.Failed && !cores[k + 1].resultHoming)
  {
    hide Apply, Inv, OnWire, C.IsQuickStopFrame, BeginsCycle;
    AlwaysInv(s, cores, steps, b);
    AlwaysInv(s, cores, steps, k);
    BegunFaulted(s, cores[b], steps[b]);
    var reread := InCycle(s, cores, steps, b, k, k);
    FaultedCycleQuickStops(s, cores[k], steps[k]);
  }

  lemma FaultedCycleQuickStops(s: Setup, c: Core, step: Step)
    requires Inv(s, c) && Enabled(c, step) && c.thread.Alive? && c.comms.open && (step.LoopFinish? || step.LoopThrow?)
    requires !c.thread.loop.pc.Top? && c.thread.loop.pc.cycle.observed == Faulted
    ensures var sent := OnWire(c, step); sent.Some? && C.IsQuickStopFrame(c.comms, sent.value)
    ensures var r := Apply(s, c, step);
            && !r.comms.homing.active
            && (step.LoopFinish? ==> !r.activeHoming && !r.checkCommunication
                                     && (c.activeHoming ==> r.homingState == HomingState.Failed && !r.resultHoming))
  {
    hide FinishCycle, Transmitted, C.Sent, C.IsQuickStopFrame, C.Write, Receiving, Follows, NextLifecycle,
         ThreadInv, StagingInv, CommandInv;
    var k := c.thread.loop.pc.cycle;
    if step.LoopFinish? {
      C.QuickStopWins(c.comms, k.frames);
      var w := FinishShapes(s, c, step.tx);
      TransmittedComms(c, step.tx);
      WriteDoes(c.comms, k.frames, true);
    } else {
      C.QuickStopWins(c.comms, NoCommand());
      WriteDoes(c.comms, NoCommand(), true);
    }
  }

  // ---------------------------- A user's frames on the wire --------------------------

  // A confirmed Running, and nobody waiting to write over it
  ghost predicate InControl(c: Core) { c.thread.Alive? && c.lifecycle == Running && !c.user.AwaitFrame? }

  // What a user does to it: requests for Running are only made where Running is not requested
  ghost predicate AsksAnew(c: Core, r: Core) {
    r.lifecycle == c.lifecycle && !r.user.AwaitFrame? && (r.runs == c.runs || (c.requested != Running && r.requested == Running))
  }

  lemma StagingAsksNothing(c: Core, requested: Lifecycle, user: UserPc)
    requires !user.AwaitFrame? && c.lifecycle == Running
    ensures AsksAnew(c, c.(user := user)) && AsksAnew(c, c.(requested := requested, user := user))
    ensures AsksAnew(c, ResetToIdle(c).(requested := requested, user := user))
    ensures AsksAnew(c, c.(destroyed := true, requested := requested, user := user))
  {}

  lemma ControlAsksAnew(c: Core)
    requires InControl(c)
    ensures AsksAnew(c, RequestControl(c)) && AsksAnew(c, EnableControl(c))
  {
    hide ResetToIdle;
    RequestControlIs(c);
    ResetLeavesSdk(c);
  }

  lemma HomingAsksAnew(c: Core)
    requires InControl(c)
    ensures AsksAnew(c, StartHoming(c)) && AsksAnew(c, HandCore.Home(c))
  {
    hide RequestControl, ControlStatus, Checked, ResetToIdle;
    StartHomingIs(c);
    ResetLeavesSdk(c.(homingState := HomingState.InProgress));
    ControlAsksAnew(PreparedForHoming(c));
    StagingAsksNothing(c, c.requested, Outside(Checked(c, Action.Home, true)));
  }

  lemma RunAsksAnew(s: Setup, c: Core)
    requires InControl(c)
    ensures AsksAnew(c, HandCore.Run(s, c))
  {
    hide AsksAnew, Checked, HandCore.Home, EnableControl;
    StagingAsksNothing(c, c.requested, Outside(Checked(c, Action.Run, true)));
    StagingAsksNothing(c, c.requested, Outside(OK));
    HomingAsksAnew(c);
    ControlAsksAnew(c);
  }

  lemma LeavingAsksAnew(c: Core)
    requires InControl(c)
    ensures AsksAnew(c, HandCore.Disconnect(c)) && AsksAnew(c, Close(c)) && AsksAnew(c, HandCore.Stop(c))
    ensures AsksAnew(c, HandCore.Reconnect(c))
  {
    hide AsksAnew, Checked, ResetToIdle;
    forall action: Action ensures AsksAnew(c, c.(user := Outside(Checked(c, action, true)))) {
      StagingAsksNothing(c, c.requested, Outside(Checked(c, action, true)));
    }
    StagingAsksNothing(c, c.requested, Outside(OK));
    StagingAsksNothing(c, Stopped, AwaitStop(ToDisconnect));
    StagingAsksNothing(c, Stopped, AwaitStop(ToClose));
    StagingAsksNothing(c, Stopped, AwaitStop(ToStop));
    StagingAsksNothing(c, Disconnected, Joining(DisconnectNow));
    StagingAsksNothing(c, Disconnected, Joining(CloseNow));
    StagingAsksNothing(c, Disconnected, Joining(ReconnectNow));
  }

  lemma SettingAsksNothing(c: Core, staged: Staged, config: M.Config)
    requires c.lifecycle == Running
    ensures AsksAnew(c, c.(staged := staged, mail := Some(staged), user := Outside(OK)))
    ensures AsksAnew(c, c.(stagedConfig := config, mailConfig := Some(config), user := Outside(OK)))
  {}

  lemma SetCommandAsksNothing(s: Setup, c: Core, t: Target)
    requires InControl(c)
    ensures AsksAnew(c, HandCore.SetCommand(s, c, t))
  {
    hide AsksAnew, Checked, ValidTarget, ControllerOf;
    StagingAsksNothing(c, c.requested, Outside(Checked(c, Action.SetCommand, !t.IdleTarget?)));
    StagingAsksNothing(c, c.requested, Outside(OK));
    if ValidTarget(t) {
      SettingAsksNothing(c, Staged(c.staged.command.(controller := ControllerOf(s, t)), User(c.runs, c.links)), c.stagedConfig);
    }
  }

  lemma SettersAskNothing(c: Core, limit: M.Raw, config: ConfigInput)
    requires InControl(c)
    ensures AsksAnew(c, SetMaxEffort(c, limit)) && AsksAnew(c, SetControllerConfig(c, config))
  {
    hide AsksAnew, M.Finite, M.Values, M.BoundedEffort, ValidConfig, ConfigOf;
    StagingAsksNothing(c, c.requested, Outside(Refused(WrongCallOrder)));
    StagingAsksNothing(c, c.requested, Outside(Refused(InvalidArgument)));
    if M.Finite(limit) {
      SettingAsksNothing(c, c.staged.(command := c.staged.command.(maxEffort := M.BoundedEffort(M.Values(limit)))), c.stagedConfig);
    }
    if ValidConfig(config) {
      SettingAsksNothing(c, c.staged, ConfigOf(config));
    }
  }

  lemma ConnectAsksNothing(c: Core, link: LinkInput)
    requires ThreadInv(c) && c.user.Outside? && InControl(c)
    ensures AsksAnew(c, HandCore.Connect(c, link, false, NotRecorded))
  {
    hide AsksAnew, Checked, Opened;
    var allowed := Checked(c, Action.Connect, true);
    StagingAsksNothing(c, c.requested, Outside(allowed));
    if allowed.OK? {
      ConnectProceeds(c);
    }
  }

  lemma CallAsksAnew(s: Setup, c: Core, call: Call)
    requires ThreadInv(c) && c.user.Outside? && InControl(c)
    ensures AsksAnew(c, ApplyCall(s, c, call))
  {
    hide AsksAnew, InControl, ThreadInv, HandCore.Connect, HandCore.Disconnect, HandCore.Reconnect, Close, HandCore.Run,
         HandCore.Stop, HandCore.Home, StartHoming, HandCore.SetCommand, SetMaxEffort, SetControllerConfig;
    LeavingAsksAnew(c);
    HomingAsksAnew(c);
    match call
    case CallConnect(link) => ConnectAsksNothing(c, link);
    case CallRun => RunAsksAnew(s, c);
    case CallSetCommand(target) => SetCommandAsksNothing(s, c, target);
    case CallSetMaxEffort(limit) => SettersAskNothing(c, limit, ConfigInput(true, None, None, limit, limit));
    case CallSetControllerConfig(config) => SettersAskNothing(c, config.stiffness, config);
    case _ =>
  }

  lemma PollStopAsksAnew(c: Core, timeout: bool)
    requires c.user.AwaitStop? && InControl(c)
    ensures AsksAnew(c, PollStop(c, timeout))
  {
    hide AsksAnew, StopRefusal;
    StagingAsksNothing(c, c.requested, c.user);
    StagingAsksNothing(c, c.requested, Outside(StopRefusal(c, Action.Stop)));
    StagingAsksNothing(c, c.requested, Outside(StopRefusal(c, Action.Disconnect)));
    StagingAsksNothing(c, Disconnected, Joining(CloseNow));
  }

  lemma PollEnableAsksAnew(c: Core, timeout: bool)
    requires InControl(c)
    ensures AsksAnew(c, PollEnable(c, timeout))
  {
    hide AsksAnew, Unconfirmed, ResetToIdle;
    StagingAsksNothing(c, c.requested, Outside(OK));
  }

  lemma PollHomingAsksAnew(c: Core)
    requires c.user.AwaitHoming? && InControl(c)
    ensures AsksAnew(c, PollHoming(c))
  {
    hide AsksAnew, HomingResult;
    StagingAsksNothing(c, c.requested, c.user);
    StagingAsksNothing(c, c.requested, Outside(HomingResult(c)));
  }

  lemma PollAsksAnew(c: Core, timeout: bool, link: LinkInput)
    requires Enabled(c, UserPoll(timeout, link)) && InControl(c)
    ensures AsksAnew(c, ApplyPoll(c, timeout, link))
  {
    hide AsksAnew, PollStop, PollEnable, PollHoming, Joined;
    match c.user
    case AwaitStop(_) => PollStopAsksAnew(c, timeout);
    case AwaitEnable => PollEnableAsksAnew(c, timeout);
    case AwaitHoming => PollHomingAsksAnew(c);
    case _ =>
  }

  lemma UserAsksAnew(s: Setup, c: Core, step: Step)
    requires Inv(s, c) && Enabled(c, step) && (step.UserCall? || step.UserPoll?) && InControl(c)
    ensures InControl(Apply(s, c, step)) && AsksAnew(c, Apply(s, c, step))
  {
    UserKeepsLoop(s, c, step);
    assert ThreadInv(c);
    hide KeepsHoming, Inv, ApplyCall, ApplyPoll, ThreadInv;
    if step.UserCall? {
      CallAsksAnew(s, c, step.call);
    } else {
      PollAsksAnew(c, step.timeout, step.link);
    }
  }

  // A user's frames are under way in a cycle that began in control, and no newer request for Running
  // has been made since it began
  ghost predicate StillCurrent(cores: seq<Core>, b: nat, m: nat)
    requires b < m < |cores|
  {
    InControl(cores[m]) && (NoRequestBetween(cores, b, m) ==> cores[m].runs == cores[b].runs)
  }

  lemma BegunInControl(s: Setup, c: Core, step: Step)
    requires Inv(s, c) && BeginsCycle(c, step) && Enabled(c, step)
    requires var r := Apply(s, c, step);
             r.thread.Alive? && r.thread.loop.pc.BeforeReread? && r.thread.loop.pc.cycle.source.User? && r.lifecycle != Faulted
    ensures InControl(Apply(s, c, step)) && Apply(s, c, step).runs == c.runs
    ensures c.staged.source == User(c.runs, c.links) && c.requested == Running
    ensures Apply(s, c, step).thread.loop.pc.cycle.source == c.staged.source
  {
    hide BeginCycle, Receiving, ThreadInv, HomingInv, LinkInv, C.Home;
    TopBegins(s, c, step);
    CycleTakesStaged(s, c, step.input);
    UsersWhileRunning(s, c);
    var w := BeginShapes(s, c, step.input);
  }

  lemma {:induction false} CurrentInCycle(s: Setup, cores: seq<Core>, steps: seq<Step>, b: nat, k: nat, m: nat)
    requires IsRun(s, cores, steps) && IsCycle(cores, steps, b, k) && b < m <= k
    requires StillCurrent(cores, b, b + 1)
    ensures StillCurrent(cores, b, m)
    decreases m
  {
    hide Inv, Apply, BeginsCycle, MidCycle, KeepsLoop, Constructed;
    if b + 1 < m {
      CurrentInCycle(s, cores, steps, b, k, m - 1);
      AlwaysInv(s, cores, steps, m - 1);
      var c, step := cores[m - 1], steps[m - 1];
      assert Enabled(c, step) && cores[m] == Apply(s, c, step);
      var reread := InCycle(s, cores, steps, b, k, m - 1);
      if step.UserCall? || step.UserPoll? {
        UserAsksAnew(s, c, step);
      } else {
        MidIsAlive(cores[b + 1], c, reread);
        RereadApplies(s, c, step);
      }
    }
  }

  lemma LooseIsNotFaulted(s: Setup, c: Core, step: Step)
    requires SendsLoosely(c, step)
    ensures step.LoopFinish? && c.thread.loop.pc.cycle.observed != Faulted
  {
    LooseNeedsRunning(c, step);
    hide C.Sent, C.IsQuickStopFrame;
    C.QuickStopWins(c.comms, c.thread.loop.pc.cycle.frames);
  }

  lemma ObservedIsLifecycle(s: Setup, c: Core, step: Step)
    requires Inv(s, c) && BeginsCycle(c, step) && Enabled(c, step)
    ensures var r := Apply(s, c, step);
            r.thread.Alive? && r.thread.loop.pc.BeforeReread? && r.thread.loop.pc.cycle.observed == r.lifecycle
  {
    hide BeginCycle, Receiving, Inv;
    TopBegins(s, c, step);
    var w := BeginShapes(s, c, step.input);
  }

  // Between its first and its last step a cycle sees the request leave Running and come back
  ghost predicate AskedAnew(cores: seq<Core>, steps: seq<Step>, b: nat, k: nat)
    requires |cores| == |steps| + 1 && k <= |steps|
  {
    exists m :: b < m < k && AsksToRun(steps[m]) && cores[m].requested != Running && cores[m + 1].requested == Running
  }

  // Frames that go out other than as a quick stop, and were computed from a user's command, use one
  // that was current when their cycle began. It is still the latest - no request for Running has been
  // made since it was accepted - exactly where the user has not, within the cycle, withdrawn the
  // request and called run(), home() or start_homing() again, which its stamp shows
  lemma UserFramesSentAreCurrent(s: Setup, cores: seq<Core>, steps: seq<Step>, b: nat, k: nat)
    requires IsRun(s, cores, steps) && IsCycle(cores, steps, b, k) && SendsLoosely(cores[k], steps[k])
    requires cores[k].thread.Alive? && cores[k].thread.loop.pc.AfterReread? && cores[k].thread.loop.pc.cycle.source.User?
    ensures var source := cores[k].thread.loop.pc.cycle.source;
            exists j :: 0 <= j < b && IsCurrent(s, cores, steps, j, b)
                        && (NoRequestBetween(cores, j, k) <==> !AskedAnew(cores, steps, b, k))
                        && (NoRequestBetween(cores, j, k) <==> source.run == cores[k].runs)
  {
    hide Inv, Apply, BeginsCycle, SendsLoosely, MidCycle, IsCurrent, Constructed, NoRequestBetween, AskedAnew;
    var reread := InCycle(s, cores, steps, b, k, k);
    AlwaysInv(s, cores, steps, b);
    assert Enabled(cores[b], steps[b]) && cores[b + 1] == Apply(s, cores[b], steps[b]);
    MidHasCycle(cores[b + 1], cores[k], reread);
    LooseIsNotFaulted(s, cores[k], steps[k]);
    ObservedIsLifecycle(s, cores[b], steps[b]);
    BegunInControl(s, cores[b], steps[b]);
    CurrentInCycle(s, cores, steps, b, k, k) by { assert StillCurrent(cores, b, b + 1); }
    UserFramesAreCurrent(s, cores, steps, b);
    var j :| 0 <= j < b && IsCurrent(s, cores, steps, j, b);
    CurrentIff(s, cores, steps, j, b, k);
    AskedAnewIff(s, cores, steps, j, b, k);
  }

  // Nobody else makes a request for Running in the middle of a cycle
  lemma MidStepAsks(s: Setup, cores: seq<Core>, steps: seq<Step>, b: nat, k: nat, m: nat)
    requires IsRun(s, cores, steps) && IsCycle(cores, steps, b, k) && b <= m < k
    requires cores[m].requested != Running && cores[m + 1].requested == Running
    ensures b < m && AsksToRun(steps[m])
  {
    hide Inv, Apply, BeginsCycle, MidCycle, Constructed;
    AlwaysInv(s, cores, steps, m);
    var c, step := cores[m], steps[m];
    assert Enabled(c, step) && cores[m + 1] == Apply(s, c, step);
    if m == b {
      BeginKeepsRequest(s, c, step);
    } else {
      var reread := InCycle(s, cores, steps, b, k, m);
      MidIsAlive(cores[b + 1], c, reread);
      if step.UserCall? || step.UserPoll? {
        OnlyRunAsks(s, c, step);
      } else {
        RereadApplies(s, c, step);
      }
    }
  }

  lemma BeginKeepsRequest(s: Setup, c: Core, step: Step)
    requires Inv(s, c) && BeginsCycle(c, step) && Enabled(c, step)
    ensures Apply(s, c, step).requested == c.requested
  {
    hide BeginCycle, Receiving, Inv;
    TopBegins(s, c, step);
    var w := BeginShapes(s, c, step.input);
  }

  lemma RequestsBeforeAreSeen(s: Setup, cores: seq<Core>, steps: seq<Step>, j: nat, b: nat, m: nat)
    requires |cores| == |steps| + 1 && j <= m < |steps| && j < b && b < |cores| && IsCurrent(s, cores, steps, j, b)
    requires cores[m].requested != Running && cores[m + 1].requested == Running
    ensures b <= m
  {
    hide AcceptedAt, StagedSince, HomedAt, StartsHoming, Recovers, InControl;
  }

  lemma RequestIsAskedAnew(s: Setup, cores: seq<Core>, steps: seq<Step>, j: nat, b: nat, k: nat, m: nat)
    requires IsRun(s, cores, steps) && IsCycle(cores, steps, b, k) && j < b && IsCurrent(s, cores, steps, j, b)
    requires j <= m < k && cores[m].requested != Running && cores[m + 1].requested == Running
    ensures |cores| == |steps| + 1 && AskedAnew(cores, steps, b, k)
  {
    assert |cores| == |steps| + 1;
    hide IsRun, IsCurrent, BeginsCycle, MidCycle, AsksToRun;
    RequestsBeforeAreSeen(s, cores, steps, j, b, m);
    MidStepAsks(s, cores, steps, b, k, m);
  }

  lemma AskedAnewIsSeen(cores: seq<Core>, steps: seq<Step>, j: nat, b: nat, k: nat)
    requires |cores| == |steps| + 1 && j < b < k <= |steps| && AskedAnew(cores, steps, b, k)
    ensures !NoRequestBetween(cores, j, k)
  {
    hide AsksToRun;
  }

  lemma RequestBetween(cores: seq<Core>, j: nat, k: nat) returns (m: nat)
    requires k < |cores| && !NoRequestBetween(cores, j, k)
    ensures j <= m < k && cores[m + 1].requested == Running && cores[m].requested != Running
  {
    m :| j <= m < k && cores[m + 1].requested == Running && cores[m].requested != Running;
  }

  lemma AskedAnewIff(s: Setup, cores: seq<Core>, steps: seq<Step>, j: nat, b: nat, k: nat)
    requires IsRun(s, cores, steps) && IsCycle(cores, steps, b, k) && j < b && IsCurrent(s, cores, steps, j, b)
    ensures NoRequestBetween(cores, j, k) <==> !AskedAnew(cores, steps, b, k)
  {
    assert |cores| == |steps| + 1 && b < k < |steps|;
    hide IsRun, IsCurrent, IsCycle, AskedAnew, NoRequestBetween;
    if !NoRequestBetween(cores, j, k) {
      var m := RequestBetween(cores, j, k);
      RequestIsAskedAnew(s, cores, steps, j, b, k, m);
    } else if AskedAnew(cores, steps, b, k) {
      AskedAnewIsSeen(cores, steps, j, b, k);
    }
  }

  lemma MidHasCycle(start: Core, c: Core, reread: Option<Lifecycle>)
    requires start.thread.Alive? && start.thread.loop.pc.BeforeReread? && MidCycle(start, c, reread)
    requires c.thread.Alive? && c.thread.loop.pc.AfterReread?
    ensures c.thread.loop.pc.cycle == start.thread.loop.pc.cycle
  {}

  lemma CurrentIff(s: Setup, cores: seq<Core>, steps: seq<Step>, j: nat, b: nat, k: nat)
    requires IsRun(s, cores, steps) && j < b < k < |steps| && IsCurrent(s, cores, steps, j, b) && StillCurrent(cores, b, k)
    ensures |cores| == |steps| + 1 && (NoRequestBetween(cores, j, k) <==> cores[b].runs == cores[k].runs)
  {
    hide IsRun, AcceptedAt, StagedSince, HomedAt, InControl, StartsHoming, Recovers;
    CountsGrow(s, cores, steps, j, k);
  }
}
