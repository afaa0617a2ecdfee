/** The safety of whole runs of the hand's state machine. */
module HandCoreSafety {
  import opened Types
  import opened Frames
  import opened ActionCheck
  import opened HandCore
  import opened HandCoreInvariant
  import opened HandCoreHistory
  import C = HandComms
  import P = Protocol
  import H = HomingSequence
  import History = HomingHistory
  import J = JointPositionController
  import M = CommandMapping
  import G = JointClamp
  import T = JointTargets
  import R = TableReach

  // ----------------------------- User commands ---------------------------------

  ghost predicate AcceptedAt(s: Setup, cores: seq<Core>, steps: seq<Step>, j: nat, staged: Staged)
    requires |cores| == |steps| + 1
  {
    j < |steps| && AcceptsCommand(s, cores[j], steps[j], cores[j + 1]) && SameIntent(staged, cores[j + 1].staged)
  }

  // The same command, but for its effort cap, has been staged from step j on
  ghost predicate StagedSince(cores: seq<Core>, j: nat, k: nat)
    requires k < |cores|
  {
    forall m :: j < m <= k ==> SameIntent(cores[m].staged, cores[k].staged)
  }

  // A call that starts a homing, and a cycle that brings the link back
  predicate StartsHoming(s: Setup, c: Core, step: Step) {
    && step.UserCall? && Checked(c, Action.Home, true).OK?
    && (step.call.CallHome? || step.call.CallStartHoming?
        || (step.call.CallRun? && Checked(c, Action.Run, true).OK? && s.autoHome && c.homingState != Succeeded))
  }

  predicate Recovers(s: Setup, c: Core, step: Step) {
    step.LoopTop? && Enabled(c, step) && c.lifecycle == Faulted && Apply(s, c, step).links != c.links
  }

  ghost predicate HomedAt(cores: seq<Core>, steps: seq<Step>, h: nat, link: nat)
    requires |cores| == |steps| + 1
  {
    h < |steps| && ReportsSuccess(cores[h], steps[h], cores[h + 1]) && cores[h].links == link
  }

  ghost predicate NoRequestBetween(cores: seq<Core>, j: nat, k: nat)
    requires k < |cores|
  {
    forall m :: j <= m < k ==> cores[m + 1].requested == Running ==> cores[m].requested == Running
  }

  lemma HistoryAt(s: Setup, cores: seq<Core>, steps: seq<Step>, k: nat)
    requires IsRun(s, cores, steps) && k < |steps|
    ensures HistoryStep(s, cores[k], steps[k], cores[k + 1])
  {
    hide Inv, Apply, HistoryStep, Constructed;
    AlwaysInv(s, cores, steps, k);
    StepHistory(s, cores[k], steps[k]);
  }

  lemma StartIsSdk(s: Setup, cores: seq<Core>, steps: seq<Step>)
    requires IsRun(s, cores, steps)
    ensures !cores[0].staged.source.User? && cores[0].homedLink == None
  {
    hide Apply;
  }

  // A staged user command was accepted by a set_command(), and has been staged ever since
  lemma {:induction false} StagedWasAccepted(s: Setup, cores: seq<Core>, steps: seq<Step>, k: nat)
    requires IsRun(s, cores, steps) && k <= |steps| && cores[k].staged.source.User?
    ensures exists j :: 0 <= j < k && AcceptedAt(s, cores, steps, j, cores[k].staged) && StagedSince(cores, j, k)
  {
    hide IsRun, AcceptsCommand, ReportsSuccess, ConfirmsRunning, ConfirmsStopped;
    if k == 0 {
      StartIsSdk(s, cores, steps);
      assert false;
    } else {
      RunLength(s, cores, steps);
      HistoryAt(s, cores, steps, k - 1);
      if AcceptsCommand(s, cores[k - 1], steps[k - 1], cores[k]) {
        assert AcceptedAt(s, cores, steps, k - 1, cores[k].staged) && StagedSince(cores, k - 1, k);
      } else {
        StagedWasAccepted(s, cores, steps, k - 1);
        var j :| 0 <= j < k - 1 && AcceptedAt(s, cores, steps, j, cores[k - 1].staged) && StagedSince(cores, j, k - 1);
        assert AcceptedAt(s, cores, steps, j, cores[k].staged) && StagedSince(cores, j, k);
      }
    }
  }

  lemma RunLength(s: Setup, cores: seq<Core>, steps: seq<Step>)
    requires IsRun(s, cores, steps)
    ensures |cores| == |steps| + 1
  {}

  // A recorded homing was reported by a cycle of that link session
  lemma {:induction false} HomedWasReported(s: Setup, cores: seq<Core>, steps: seq<Step>, k: nat)
    requires IsRun(s, cores, steps) && k <= |steps| && cores[k].homedLink.Some?
    ensures exists h :: 0 <= h < k && HomedAt(cores, steps, h, cores[k].homedLink.value)
  {
    hide IsRun, AcceptsCommand, ReportsSuccess, ConfirmsRunning, ConfirmsStopped;
    if k == 0 {
      StartIsSdk(s, cores, steps);
      assert false;
    } else {
      RunLength(s, cores, steps);
      HistoryAt(s, cores, steps, k - 1);
      if ReportsSuccess(cores[k - 1], steps[k - 1], cores[k]) {
        ReportedLink(cores[k - 1], steps[k - 1], cores[k]);
        assert HomedAt(cores, steps, k - 1, cores[k].homedLink.value);
      } else {
        HomedWasReported(s, cores, steps, k - 1);
      }
    }
  }

  lemma ReportedLink(c: Core, step: Step, r: Core)
    requires ReportsSuccess(c, step, r)
    ensures r.homedLink == Some(c.links)
  {}

  // Requests for Running and link sessions are counted upwards
  lemma {:induction false} CountsGrow(s: Setup, cores: seq<Core>, steps: seq<Step>, j: nat, k: nat)
    requires IsRun(s, cores, steps) && j <= k <= |steps|
    ensures |cores| == |steps| + 1 && cores[j].runs <= cores[k].runs && cores[j].links <= cores[k].links
    ensures cores[j].runs == cores[k].runs ==> NoRequestBetween(cores, j, k)
    decreases k
  {
    hide IsRun, AcceptsCommand, ReportsSuccess, ConfirmsRunning, ConfirmsStopped;
    RunLength(s, cores, steps);
    if j < k {
      CountsGrow(s, cores, steps, j, k - 1);
      HistoryAt(s, cores, steps, k - 1);
    }
  }

  // The loop's own copy is what is staged, once the cycle has taken its input
  lemma CycleTakesStaged(s: Setup, c: Core, input: RtInput)
    requires Inv(s, c) && c.thread.Alive?
    ensures var r := BeginCycle(s, c, input);
            && r.thread.Alive? && r.thread.loop.pc.BeforeReread? && r.thread.loop.active == c.staged
            && r.thread.loop.pc.cycle.requested == c.requested
            && (r.thread.loop.pc.cycle.source.User? ==> c.requested == Running && r.thread.loop.pc.cycle.source == c.staged.source)
  {
    hide BeginCycle, ThreadInv, HomingInv, CommandInv, LinkInv, C.Home, Receiving;
    var w := BeginShapes(s, c, input);
  }

  predicate BeginsCycle(c: Core, step: Step) {
    step.LoopTop? && c.thread.Alive? && c.requested != Disconnected && c.lifecycle != Faulted
  }

  // What stands behind frames that are computed from a user's command in cycle k: the command was
  // accepted in this link session and after the latest request for Running, no homing has been
  // started and no link recovered since, and, unless it is Idle, a homing had succeeded in this
  // session before
  ghost predicate IsCurrent(s: Setup, cores: seq<Core>, steps: seq<Step>, j: nat, k: nat)
    requires |cores| == |steps| + 1
  {
    && j < k < |steps|
    && AcceptedAt(s, cores, steps, j, cores[k].staged) && StagedSince(cores, j, k)
    && NoRequestBetween(cores, j, k) && cores[j].runs == cores[k].runs && cores[j].links == cores[k].links
    && (forall m :: j < m < k ==> !StartsHoming(s, cores[m], steps[m]) && !Recovers(s, cores[m], steps[m]))
    && (!cores[k].staged.command.controller.Idle? ==> exists h :: 0 <= h < j && HomedAt(cores, steps, h, cores[k].links))
  }

  lemma UserFramesAreCurrent(s: Setup, cores: seq<Core>, steps: seq<Step>, k: nat)
    requires IsRun(s, cores, steps) && k < |steps| && BeginsCycle(cores[k], steps[k])
    ensures var r := cores[k + 1];
            && r.thread.Alive? && r.thread.loop.pc.BeforeReread?
            && (r.thread.loop.pc.cycle.source.User? ==>
                  && r.thread.loop.active == cores[k].staged && cores[k].requested == Running
                  && exists j :: 0 <= j < k && IsCurrent(s, cores, steps, j, k))
  {
    hide Inv, Apply, Constructed, BeginCycle, AcceptsCommand, ReportsSuccess, IsCurrent, AcceptedAt;
    var c, input := cores[k], steps[k].input;
    AlwaysInv(s, cores, steps, k);
    assert cores[k + 1] == BeginCycle(s, c, input) by { TopBegins(s, c, steps[k]); }
    CycleTakesStaged(s, c, input);
    if cores[k + 1].thread.loop.pc.cycle.source.User? {
      StagedWasAccepted(s, cores, steps, k);
      var j :| 0 <= j < k && AcceptedAt(s, cores, steps, j, cores[k].staged) && StagedSince(cores, j, k);
      AcceptedIsCurrent(s, cores, steps, j, k);
    }
  }

  lemma TopBegins(s: Setup, c: Core, step: Step)
    requires BeginsCycle(c, step) && Enabled(c, step)
    ensures Apply(s, c, step) == BeginCycle(s, c, step.input)
  {
    hide BeginCycle;
  }

  lemma UsersWhileRunning(s: Setup, c: Core)
    requires Inv(s, c) && c.staged.source.User? && c.requested == Running
    ensures c.staged.source == User(c.runs, c.links)
  {}

  lemma AcceptanceNeedsHoming(s: Setup, c: Core, step: Step, r: Core)
    requires Inv(s, c) && AcceptsCommand(s, c, step, r)
    ensures r.staged.source == User(c.runs, c.links)
    ensures r.staged.command.controller.Idle? || c.homedLink == Some(c.links)
  {
    AllowedMeans(c, Action.SetCommand, !step.call.target.IdleTarget?);
  }

  lemma AcceptedIsCurrent(s: Setup, cores: seq<Core>, steps: seq<Step>, j: nat, k: nat)
    requires IsRun(s, cores, steps) && j < k < |steps|
    requires AcceptedAt(s, cores, steps, j, cores[k].staged) && StagedSince(cores, j, k)
    requires cores[k].staged.source.User? && cores[k].requested == Running
    ensures IsCurrent(s, cores, steps, j, k)
  {
    hide Inv, IsRun, AcceptsCommand, HomedAt, StartsHoming, Recovers;
    RunLength(s, cores, steps);
    AlwaysInv(s, cores, steps, k);
    AlwaysInv(s, cores, steps, j);
    UsersWhileRunning(s, cores[k]);
    AcceptanceNeedsHoming(s, cores[j], steps[j], cores[j + 1]);
    CountsGrow(s, cores, steps, j, k);
    forall m | j < m < k
      ensures !StartsHoming(s, cores[m], steps[m]) && !Recovers(s, cores[m], steps[m])
    {
      StagedIsNotCleared(s, cores, steps, m);
    }
    if !cores[k].staged.command.controller.Idle? {
      HomedWasReported(s, cores, steps, j);
    }
  }

  lemma StagedIsNotCleared(s: Setup, cores: seq<Core>, steps: seq<Step>, m: nat)
    requires IsRun(s, cores, steps) && m < |steps| && cores[m + 1].staged.source.User?
    ensures !StartsHoming(s, cores[m], steps[m]) && !Recovers(s, cores[m], steps[m])
  {
    hide Apply, StartsHoming, Recovers, Constructed;
    if StartsHoming(s, cores[m], steps[m]) {
      HomingStartClears(s, cores[m], steps[m]);
    }
    if Recovers(s, cores[m], steps[m]) {
      RecoveringClears(s, cores[m], steps[m]);
    }
  }

  // Outside a request for Running no user command is staged, so none comes through a stop, a
  // disconnect, a failed run, or a reconnect. Only close(), after which nothing is ever executed,
  // and a reconnect() still waiting for the old loop leave one behind
  lemma NothingOutlivesRunning(s: Setup, cores: seq<Core>, steps: seq<Step>, k: nat)
    requires IsRun(s, cores, steps) && k <= |steps|
    requires cores[k].requested != Running && !cores[k].destroyed && cores[k].user != Joining(ReconnectNow)
    ensures cores[k].staged.source == Sdk
  {
    AlwaysInv(s, cores, steps, k);
    hide IsRun;
  }

  // No command comes through the start of a homing or the recovery of a link
  lemma HomingClears(c: Core)
    requires Checked(c, Action.Home, true).OK?
    ensures StartHoming(c).staged.source == Sdk && StartHoming(c).staged.command.controller.Idle?
  {
    hide Checked, PreparedForHoming, RequestControl, ControlStatus, HomingRequested;
    StartHomingIs(c);
    var p := PreparedForHoming(c);
    PreparedIsIdle(c);
    AskingStagesNothing(RequestControl(p), ControlStatus(p));
  }

  lemma AskingStagesNothing(c: Core, status: Status)
    ensures HomingRequested(c, status).staged == c.staged
  {
    var refused, asked := c.(user := Outside(status)), c.(resultHoming := false, requestHoming := true, user := Outside(OK));
    assert refused.staged == asked.staged == c.staged;
  }

  lemma HomeClears(c: Core)
    requires Checked(c, Action.Home, true).OK?
    ensures HandCore.Home(c).staged.source == Sdk
  {
    hide Checked, StartHoming;
    HomingClears(c);
  }

  lemma PreparedIsIdle(c: Core)
    ensures var r := RequestControl(PreparedForHoming(c));
            r.staged.source == Sdk && r.staged.command.controller.Idle? && r.homingState == HomingState.InProgress
  {
    hide ResetToIdle;
    ResetLeavesSdk(c.(homingState := HomingState.InProgress));
    RequestControlIs(PreparedForHoming(c));
    ResetLeavesSdk(PreparedForHoming(c));
  }

  lemma HomingStartClears(s: Setup, c: Core, step: Step)
    requires Enabled(c, step) && StartsHoming(s, c, step)
    ensures Apply(s, c, step).staged.source == Sdk
  {
    hide Checked, StartHoming, HandCore.Home;
    HomingClears(c);
    HomeClears(c);
  }

  lemma RecoveryClears(s: Setup, c: Core, comms: C.Comms)
    requires c.thread.Alive?
    ensures Recovered(s, c, comms).staged.source == Sdk && Recovered(s, c, comms).staged.command.controller.Idle?
  {
    hide ResetFaultState;
  }

  // A retry brings the link back or leaves everything but the link as it was
  lemma RetryIs(s: Setup, c: Core, input: RtInput) returns (comms: C.Comms)
    requires c.thread.Alive?
    ensures var r := TryReconnect(s, c, input);
            r == Recovered(s, c, comms) || r == c.(comms := r.comms, txTransient := r.txTransient)
  {
    hide Recovered, ReadUntilFrame, C.Disconnected, C.Connected, C.Run;
    comms := C.Run(ReadUntilFrame(C.Connected(C.Disconnected(c.comms)), input.polls));
  }

  lemma TopOfFaultedIs(s: Setup, c: Core, input: RtInput)
    requires c.thread.Alive? && c.lifecycle == Faulted
    ensures RtTop(s, c, input) ==
              if c.requested == Disconnected || !s.autoReconnect || c.stopCause.ControlLoopFailure? || input.giveUp
              then c.(thread := Ended) else TryReconnect(s, c, input)
  {
    hide TryReconnect, BeginCycle;
  }

  lemma TopOfFaulted(s: Setup, c: Core, input: RtInput) returns (comms: C.Comms)
    requires c.thread.Alive? && c.lifecycle == Faulted
    ensures var r := RtTop(s, c, input);
            r == Recovered(s, c, comms) || r == c.(comms := r.comms, txTransient := r.txTransient, thread := r.thread)
  {
    hide Recovered, TryReconnect, RtTop;
    TopOfFaultedIs(s, c, input);
    comms := RetryIs(s, c, input);
  }

  lemma RecoveringClears(s: Setup, c: Core, step: Step)
    requires Enabled(c, step) && Recovers(s, c, step)
    ensures Apply(s, c, step).staged.source == Sdk
  {
    hide Recovered, RtTop;
    var comms := TopOfFaulted(s, c, step.input);
    RecoveryClears(s, c, comms);
  }

  // ------------------------------ Confirmed states ------------------------------

  // The lifecycle gets to Running or Stopped only at the end of a receiving cycle, with the
  // matching request and the matching evidence of the drives
  lemma {:induction false} RunningIsConfirmed(s: Setup, cores: seq<Core>, steps: seq<Step>, i: nat, j: nat)
    requires IsRun(s, cores, steps) && i <= j <= |steps|
    requires cores[i].lifecycle != Running && cores[j].lifecycle == Running
    ensures |cores| == |steps| + 1
    ensures exists m :: i <= m < j && ConfirmsRunning(s, cores[m], steps[m], cores[m + 1])
    decreases j
  {
    hide IsRun, AcceptsCommand, ReportsSuccess, ConfirmsRunning, ConfirmsStopped;
    RunLength(s, cores, steps);
    HistoryAt(s, cores, steps, j - 1);
    if !ConfirmsRunning(s, cores[j - 1], steps[j - 1], cores[j]) {
      RunningIsConfirmed(s, cores, steps, i, j - 1);
    }
  }

  lemma {:induction false} StoppedIsConfirmed(s: Setup, cores: seq<Core>, steps: seq<Step>, i: nat, j: nat)
    requires IsRun(s, cores, steps) && i <= j <= |steps|
    requires cores[i].lifecycle != Stopped && cores[j].lifecycle == Stopped
    ensures |cores| == |steps| + 1
    ensures exists m :: i <= m < j && ConfirmsStopped(s, cores[m], steps[m], cores[m + 1])
    decreases j
  {
    hide IsRun, AcceptsCommand, ReportsSuccess, ConfirmsRunning, ConfirmsStopped;
    RunLength(s, cores, steps);
    HistoryAt(s, cores, steps, j - 1);
    if !ConfirmsStopped(s, cores[j - 1], steps[j - 1], cores[j]) {
      StoppedIsConfirmed(s, cores, steps, i, j - 1);
    }
  }

  // A wait that comes back with success has seen the lifecycle it waited for
  lemma EnableWaitSucceeds(c: Core, timeout: bool)
    ensures c.user.AwaitEnable? && PollEnable(c, timeout).user == Outside(OK) ==> c.lifecycle == Running
  {
    hide ResetToIdle, Unconfirmed;
  }

  lemma StopWaitSucceeds(c: Core, timeout: bool)
    requires c.user.AwaitStop?
    ensures c.user == AwaitStop(ToStop) && PollStop(c, timeout).user == Outside(OK) ==> c.lifecycle == Stopped
    ensures c.user == AwaitStop(ToDisconnect) && PollStop(c, timeout).user.Joining? ==> c.lifecycle == Stopped
  {
    hide StopRefusal, LeaveLoop;
    RefusalIsNoSuccess(c, Action.Stop);
  }

  lemma RefusalIsNoSuccess(c: Core, action: Action)
    ensures StopRefusal(c, action).Refused?
  {
    hide Checked;
  }

  lemma WaitSucceeds(s: Setup, c: Core, step: Step)
    requires Enabled(c, step) && step.UserPoll?
    ensures c.user.AwaitEnable? && Apply(s, c, step).user == Outside(OK) ==> c.lifecycle == Running
    ensures c.user == AwaitStop(ToStop) && Apply(s, c, step).user == Outside(OK) ==> c.lifecycle == Stopped
    ensures c.user == AwaitStop(ToDisconnect) && Apply(s, c, step).user.Joining? ==> c.lifecycle == Stopped
  {
    hide PollStop, PollEnable, Joined, PollFirstFrame, PollHoming, RtTop, RtReread, FinishCycle, Threw, ApplyCall;
    EnableWaitSucceeds(c, step.timeout);
    if c.user.AwaitStop? {
      StopWaitSucceeds(c, step.timeout);
    }
  }

  // A run() that had to wait, and was not entered with a lifecycle that already read Running,
  // returns success only after the drives were seen enabled
  lemma RunSawDrivesEnabled(s: Setup, cores: seq<Core>, steps: seq<Step>, i: nat, j: nat)
    requires IsRun(s, cores, steps) && i < j < |steps|
    requires cores[i].lifecycle != Running && steps[i].UserCall? && cores[i + 1].user.AwaitEnable?
    requires cores[j].user.AwaitEnable? && steps[j].UserPoll? && cores[j + 1].user == Outside(OK)
    ensures exists m :: i < m < j && ConfirmsRunning(s, cores[m], steps[m], cores[m + 1])
  {
    hide Apply, ConfirmsRunning, Constructed, Enabled;
    WaitSucceeds(s, cores[j], steps[j]);
    RunningIsConfirmed(s, cores, steps, i, j);
    var m :| i <= m < j && ConfirmsRunning(s, cores[m], steps[m], cores[m + 1]);
    assert m != i by { ConfirmedByLoop(s, cores[m], steps[m], cores[m + 1]); }
  }

  lemma ConfirmedByLoop(s: Setup, c: Core, step: Step, r: Core)
    requires ConfirmsRunning(s, c, step, r) || ConfirmsStopped(s, c, step, r)
    ensures step.LoopFinish?
  {}

  // The same for stop(), and for a disconnect() on its way to closing the link
  lemma StopSawQuickStop(s: Setup, cores: seq<Core>, steps: seq<Step>, i: nat, j: nat)
    requires IsRun(s, cores, steps) && i < j < |steps|
    requires cores[i].lifecycle != Stopped && steps[i].UserCall?
    requires cores[i + 1].user == cores[j].user && steps[j].UserPoll?
    requires (cores[j].user == AwaitStop(ToStop) && cores[j + 1].user == Outside(OK))
          || (cores[j].user == AwaitStop(ToDisconnect) && cores[j + 1].user.Joining?)
    ensures exists m :: i < m < j && ConfirmsStopped(s, cores[m], steps[m], cores[m + 1])
  {
    hide Apply, ConfirmsStopped, Constructed, Enabled;
    WaitSucceeds(s, cores[j], steps[j]);
    StoppedIsConfirmed(s, cores, steps, i, j);
    var m :| i <= m < j && ConfirmsStopped(s, cores[m], steps[m], cores[m + 1]);
    assert m != i by { ConfirmedByLoop(s, cores[m], steps[m], cores[m + 1]); }
  }

  // -------------------------------- Transmission ---------------------------------

  // What a step puts on the wire
  function OnWire(c: Core, step: Step): Option<CommandFrames>
    requires Enabled(c, step)
  {
    if !c.comms.open then None
    else match step
      case LoopFinish(_) =>
        var k := c.thread.loop.pc.cycle;
        if ControlSession(k.requested, k.observed) then
          Some(C.Sent(c.comms, k.frames, QuickStops(k, c.thread.loop.pc.latest)))
        else None
      case LoopThrow => Some(C.Sent(c.comms, NoCommand(), true))
      case _ => None
  }

  // A transmission with any other word than a quick stop
  predicate SendsLoosely(c: Core, step: Step) {
    && Enabled(c, step) && OnWire(c, step).Some?
    && !C.IsQuickStopFrame(c.comms, OnWire(c, step).value)
  }

  lemma LooseNeedsRunning(c: Core, step: Step)
    requires SendsLoosely(c, step)
    ensures step.LoopFinish? && c.thread.loop.pc.latest == Running
  {
    hide C.Sent, C.IsQuickStopFrame;
    if step.LoopFinish? {
      var k := c.thread.loop.pc.cycle;
      if QuickStops(k, c.thread.loop.pc.latest) {
        C.QuickStopWins(c.comms, k.frames);
      }
    } else {
      C.QuickStopWins(c.comms, NoCommand());
    }
  }

  // Whether a cycle is past its re-read and read Running
  predicate Committed(c: Core) { c.thread.Alive? && c.thread.loop.pc.AfterReread? && c.thread.loop.pc.latest == Running }

  lemma QuietDoesNotCommit(c: Core, r: Core)
    requires Quiet(c, r)
    ensures Committed(r) ==> Committed(c)
  {}

  lemma CommitsWhileRunning(s: Setup, c: Core, step: Step)
    requires Enabled(c, step) && Committed(Apply(s, c, step))
    ensures !step.LoopFinish? && (c.requested == Running || Committed(c))
  {
    hide Quiet, RtTop, Threw, ApplyCall, ApplyPoll, FinishCycle, HandCore.SetCommand;
    match step
    case LoopTop(input) => TopIsQuiet(s, c, input); QuietDoesNotCommit(c, RtTop(s, c, input));
    case LoopReread =>
    case LoopFinish(tx) => FinishEnds(c, tx);
    case LoopThrow => ThrewIsQuiet(c); QuietDoesNotCommit(c, Threw(c));
    case UserPoll(timeout, link) =>
      PollIsQuiet(s, c, timeout, link);
      QuietDoesNotCommit(c, ApplyPoll(c, timeout, link));
    case UserCall(call) =>
      if call.CallSetCommand? {
        CallSetCommandIs(s, c, call.target);
        SetCommandKeepsThread(s, c, call.target);
      } else {
        CallIsQuiet(s, c, call);
        QuietDoesNotCommit(c, ApplyCall(s, c, call));
      }
  }

  lemma SetCommandKeepsThread(s: Setup, c: Core, t: Target)
    ensures HandCore.SetCommand(s, c, t).thread == c.thread
  {
    hide Checked, ControllerOf, ValidTarget, WithController;
    if Checked(c, Action.SetCommand, !t.IdleTarget?).OK? {
      if ValidTarget(t) {
        StagingKeepsThread(c, ControllerOf(s, t), User(c.runs, c.links));
      }
    }
  }

  lemma StagingKeepsThread(c: Core, controller: M.Controller, source: Source)
    ensures WithController(c, controller, source).thread == c.thread
  {}

  lemma FinishEnds(c: Core, tx: TxResult)
    requires c.thread.Alive? && c.thread.loop.pc.AfterReread?
    ensures FinishCycle(c, tx).thread == Alive(c.thread.loop.(pc := Top))
  {
    hide WatchHoming, WatchDrives, Transmitted;
  }

  // After a loose transmission has been made, no cycle is committed until Running is requested
  lemma {:induction false} NothingCommits(s: Setup, cores: seq<Core>, steps: seq<Step>, i: nat, k: nat)
    requires IsRun(s, cores, steps) && i < k <= |steps| && steps[i].LoopFinish?
    requires forall m :: i <= m <= k ==> cores[m].requested != Running
    ensures !Committed(cores[k])
    decreases k
  {
    hide Apply, Committed, Constructed;
    if Committed(cores[k]) {
      CommitsWhileRunning(s, cores[k - 1], steps[k - 1]);
      if i < k - 1 {
        NothingCommits(s, cores, steps, i, k - 1);
      }
      assert false;
    }
  }

  // From the moment the request leaves Running, at most one more transmission - by the cycle that
  // was already past its re-read - carries anything but quick stops, until Running is requested again
  lemma AtMostOneLooseSend(s: Setup, cores: seq<Core>, steps: seq<Step>, i: nat, k: nat)
    requires IsRun(s, cores, steps) && i < k < |steps|
    requires forall m :: i <= m <= k ==> cores[m].requested != Running
    ensures !(SendsLoosely(cores[i], steps[i]) && SendsLoosely(cores[k], steps[k]))
  {
    hide Apply, SendsLoosely, Constructed;
    if SendsLoosely(cores[i], steps[i]) && SendsLoosely(cores[k], steps[k]) {
      LooseNeedsRunning(cores[i], steps[i]);
      LooseNeedsRunning(cores[k], steps[k]);
      assert Committed(cores[k]) by { LooseIsCommitted(cores[k], steps[k]); }
      NothingCommits(s, cores, steps, i, k);
    }
  }

  lemma LooseIsCommitted(c: Core, step: Step)
    requires SendsLoosely(c, step)
    ensures Committed(c)
  {
    LooseNeedsRunning(c, step);
    hide C.Sent, C.IsQuickStopFrame;
  }

  // And that one only if its cycle was past the re-read when the request left Running
  lemma {:induction false} OnlyACommittedCycleSendsLoosely(s: Setup, cores: seq<Core>, steps: seq<Step>, i: nat, k: nat)
    requires IsRun(s, cores, steps) && i <= k <= |steps|
    requires forall m :: i <= m <= k ==> cores[m].requested != Running
    ensures Committed(cores[k]) ==> Committed(cores[i])
    ensures k < |steps| && SendsLoosely(cores[k], steps[k]) ==> Committed(cores[i])
    decreases k
  {
    hide Apply, Committed, SendsLoosely, Constructed;
    if k < |steps| && SendsLoosely(cores[k], steps[k]) {
      LooseIsCommitted(cores[k], steps[k]);
    }
    if i < k && Committed(cores[k]) {
      CommitsWhileRunning(s, cores[k - 1], steps[k - 1]);
      OnlyACommittedCycleSendsLoosely(s, cores, steps, i, k - 1);
    }
  }

  // ----------------------------------- Homing ------------------------------------

  // The trail of a running homing is a run of the homing machine, so it has taken fewer than 11000 steps
  lemma HomingIsBounded(s: Setup, cores: seq<Core>, steps: seq<Step>, k: nat)
    requires IsRun(s, cores, steps) && k <= |steps| && cores[k].comms.homing.active
    ensures var c := cores[k]; Follows(c.comms.disabled, c.trail, c.comms.homing) && |c.trail.seen| < H.LONGEST_RUN
  {
    AlwaysInv(s, cores, steps, k);
    hide IsRun;
    H.EndsInTime(cores[k].comms.disabled, cores[k].trail.states, cores[k].trail.seen, |cores[k].trail.seen|);
  }

  // A request that a cycle takes up in Running starts a new sequence, whatever came before
  lemma RequestStartsSequence(s: Setup, c: Core, input: RtInput)
    requires Inv(s, c) && c.thread.Alive? && c.thread.loop.pc.Top? && c.lifecycle != Faulted
    requires c.requestHoming && c.requested == Running
    ensures var r := BeginCycle(s, c, input);
            && !r.requestHoming && r.activeHoming && r.trail == Trail([r.comms.homing], [])
            && r.comms.homing == H.Started(c.comms.homing, c.comms.disabled)
  {
    hide BeginCycle, Receiving, Follows, ThreadInv, StagingInv, CommandInv;
    assert c.comms.controlActive;
    var w := BeginShapes(s, c, input);
  }

  // Every cycle that ends leaves homing either still running or resolved, and counts itself
  lemma CycleResolvesHoming(s: Setup, c: Core, tx: TxResult)
    requires Inv(s, c) && c.thread.Alive? && c.thread.loop.pc.AfterReread? && c.activeHoming
    ensures var r := FinishCycle(c, tx);
            if r.activeHoming then r.comms.homing.active && r.homingState == c.homingState
            else if ReportsSuccess(c, LoopFinish(tx), r) then r.resultHoming && r.homingState == Succeeded
            else !r.resultHoming && r.homingState == HomingState.Failed
    ensures c.comms.open && c.comms.homing.active && !QuickStops(c.thread.loop.pc.cycle, c.thread.loop.pc.latest) ==>
              FinishCycle(c, tx).trail.seen == c.trail.seen + [c.comms.rx]
  {
    hide FinishCycle, Transmitted, Follows, H.Step, Receiving, NextLifecycle, ThreadInv, StagingInv, CommandInv;
    var w := FinishShapes(s, c, tx);
    TransmittedStep(s, c, tx);
    TransmittedTrail(c, tx);
  }

  lemma TransmittedTrail(c: Core, tx: TxResult)
    requires c.thread.Alive? && c.thread.loop.pc.AfterReread?
    ensures var k := c.thread.loop.pc.cycle;
            ControlSession(k.requested, k.observed) ==>
              Transmitted(c, tx).trail == TrailAfter(c, QuickStops(k, c.thread.loop.pc.latest))
  {
    hide C.Write, TransmitFaults, TransientAfter, QuickStops, TrailAfter;
  }

  // A stop that the cycle has read - requested or by a fault - ends a running homing as failed
  // exactly where the link is open or the sequence is over anyway: on a link that a retry has closed
  // nothing is written, so nothing is cancelled
  lemma StopFailsHoming(s: Setup, c: Core, tx: TxResult)
    requires Inv(s, c) && c.thread.Alive? && c.thread.loop.pc.AfterReread? && c.activeHoming
    requires QuickStops(c.thread.loop.pc.cycle, c.thread.loop.pc.latest)
    ensures var r := FinishCycle(c, tx);
            && (!r.activeHoming <==> c.comms.open || !c.comms.homing.active)
            && (!r.activeHoming ==> r.homingState == HomingState.Failed && !r.resultHoming && !r.comms.homing.active)
  {
    hide FinishCycle, Transmitted, C.Write, Receiving, Follows, NextLifecycle, ThreadInv, StagingInv, CommandInv;
    var k := c.thread.loop.pc.cycle;
    var w := FinishShapes(s, c, tx);
    TransmittedComms(c, tx);
    WriteDoes(c.comms, k.frames, true);
  }

  // Success is reported once per sequence, by the cycle in which that sequence succeeds: never for
  // an earlier one
  lemma {:induction false} SuccessIsFresh(s: Setup, cores: seq<Core>, steps: seq<Step>, i: nat, j: nat)
    requires IsRun(s, cores, steps) && i <= j <= |steps|
    requires cores[i].homingState != Succeeded && cores[j].homingState == Succeeded
    ensures |cores| == |steps| + 1
    ensures exists m :: i <= m < j && ReportsSuccess(cores[m], steps[m], cores[m + 1])
    decreases j
  {
    hide IsRun, AcceptsCommand, ReportsSuccess, ConfirmsRunning, ConfirmsStopped;
    RunLength(s, cores, steps);
    HistoryAt(s, cores, steps, j - 1);
    if !ReportsSuccess(cores[j - 1], steps[j - 1], cores[j]) {
      SuccessIsFresh(s, cores, steps, i, j - 1);
    }
  }

  // What the drives themselves have shown in the sequence on the trail: the sequence came to the
  // trigger through a disable stage and a re-enable stage, somebody was present, and everybody
  // present is not disabled, answered in the enable window and raised bit12 without ever raising bit13
  ghost predicate HomedByDrives(disabled: Mask, t: Trail) {
    && H.IsRun(disabled, t.states, t.seen)
    && var present := Last(t.states).present;
    && Any(present)
    && History.WasCleared(t.states, t.seen, |t.seen|, present)
    && History.NoErrorYet(t.states, t.seen, |t.seen|)
    && forall i :: 0 <= i < ACTUATOR_COUNT && present[i] ==>
         !disabled[i] && History.SeenEnabled(t.states, t.seen, |t.seen|, i) && History.Rose(t.states, t.seen, |t.seen|, i)
  }

  lemma SucceededByDrives(disabled: Mask, t: Trail, h: H.Homing)
    requires Follows(disabled, t, h) && h.outcome.Succeeded?
    ensures HomedByDrives(disabled, t)
  {
    hide History.Rose, History.SeenEnabled, History.WasCleared, History.NoErrorYet, H.Step, Any;
    History.SuccessIsEarned(disabled, t.states, t.seen, |t.seen|);
    History.AlwaysPrepared(disabled, t.states, t.seen, |t.seen|);
    History.AlwaysMatches(disabled, t.states, t.seen, |t.seen|);
  }

  lemma ReportedByDrives(s: Setup, c: Core, step: Step)
    requires Inv(s, c) && Enabled(c, step) && ReportsSuccess(c, step, Apply(s, c, step))
    ensures var r := Apply(s, c, step); HomedByDrives(r.comms.disabled, r.trail)
  {
    hide FinishCycle, Transmitted, Follows, H.Step, Receiving, NextLifecycle, ThreadInv, LinkInv, StagingInv, CommandInv,
         HomedByDrives;
    var w := FinishShapes(s, c, step.tx);
    var r := Apply(s, c, step);
    SucceededByDrives(r.comms.disabled, r.trail, r.comms.homing);
  }

  // Every homing success that stands in this link session was shown by the drives themselves, in
  // the frames received since its request was taken up
  lemma HomedLinkWasShown(s: Setup, cores: seq<Core>, steps: seq<Step>, k: nat)
    requires IsRun(s, cores, steps) && k <= |steps| && cores[k].homingState == Succeeded
    ensures exists h :: 0 <= h < k && HomedAt(cores, steps, h, cores[k].links)
                        && HomedByDrives(cores[h + 1].comms.disabled, cores[h + 1].trail)
  {
    hide Apply, ReportsSuccess, HomedByDrives;
    assert cores[k].homedLink == Some(cores[k].links) by { AlwaysInv(s, cores, steps, k); }
    HomedWasReported(s, cores, steps, k);
    var h :| 0 <= h < k && HomedAt(cores, steps, h, cores[k].links);
    AlwaysInv(s, cores, steps, h);
    ReportedByDrives(s, cores[h], steps[h]);
  }

  // Frames computed from a user's command other than Idle come after such a success
  lemma MovesFollowShownHoming(s: Setup, cores: seq<Core>, steps: seq<Step>, k: nat)
    requires IsRun(s, cores, steps) && k < |steps| && BeginsCycle(cores[k], steps[k])
    requires !cores[k].staged.command.controller.Idle?
    ensures var r := cores[k + 1];
            && r.thread.Alive? && r.thread.loop.pc.BeforeReread?
            && (r.thread.loop.pc.cycle.source.User? ==>
                  exists h :: 0 <= h < k && HomedAt(cores, steps, h, cores[k].links)
                              && HomedByDrives(cores[h + 1].comms.disabled, cores[h + 1].trail))
  {
    hide Inv, Apply, Constructed, AcceptedAt, BeginsCycle, ReportsSuccess, HomedByDrives;
    UserFramesAreCurrent(s, cores, steps, k);
    if cores[k + 1].thread.loop.pc.cycle.source.User? {
      var j :| 0 <= j < k && IsCurrent(s, cores, steps, j, k);
      var h :| 0 <= h < j && HomedAt(cores, steps, h, cores[k].links);
      AlwaysInv(s, cores, steps, h);
      ReportedByDrives(s, cores[h], steps[h]);
    }
  }

  // ------------------------------ Staging and bounds ------------------------------

  // Whenever no step is under way and the loop lives, what is staged is pending or is the loop's
  lemma StagedIsPendingOrActive(s: Setup, cores: seq<Core>, steps: seq<Step>, k: nat)
    requires IsRun(s, cores, steps) && k <= |steps| && cores[k].thread.Alive?
    ensures var c := cores[k];
            && c.staged == (if c.mail.Some? then c.mail.value else c.thread.loop.active)
            && c.stagedConfig == (if c.mailConfig.Some? then c.mailConfig.value else c.thread.loop.activeConfig)
  {
    AlwaysInv(s, cores, steps, k);
    hide IsRun;
  }

  // The staged cap is within [0, 2000] at all times
  lemma CapIsBounded(s: Setup, cores: seq<Core>, steps: seq<Step>, k: nat, i: nat)
    requires IsRun(s, cores, steps) && k <= |steps| && i < ACTUATOR_COUNT
    ensures 0.0 <= cores[k].staged.command.maxEffort[i] <= M.EFFORT_LIMIT as real
  {
    AlwaysInv(s, cores, steps, k);
    hide IsRun;
  }

  predicate TorqueBounded(frames: CommandFrames) {
    forall i :: 0 <= i < ACTUATOR_COUNT ==>
      -frames.maxEffort[i] <= frames.targetEffort[i] <= frames.maxEffort[i] <= M.EFFORT_LIMIT
  }

  lemma ComputedTorqueIsBounded(s: Setup, c: Core, joints: J.Joints)
    requires c.thread.Alive? && M.GoodCaps(c.thread.loop.active.command.maxEffort)
    ensures var r := Compute(s, c, joints);
            r.thread.Alive? && r.thread.loop.pc.BeforeReread? && TorqueBounded(r.thread.loop.pc.cycle.frames)
  {
    hide Compute, M.ToFrames, M.GoodCaps, SeenBy, TorqueBounded;
    var l := c.thread.loop;
    var input, seen := InputOf(c, l.active), SeenBy(c.comms, joints);
    ComputedFramesAre(s, c, joints);
    InputCapsAreGood(c, l.active);
    MappedTorqueIsBounded(s, c.memory, input.command, l.activeConfig, seen);
    NoTorqueIsBounded();
  }

  lemma ComputedFramesAre(s: Setup, c: Core, joints: J.Joints)
    requires c.thread.Alive?
    ensures var r := Compute(s, c, joints);
            && r.thread.Alive? && r.thread.loop.pc.BeforeReread?
            && r.thread.loop.pc.cycle.frames ==
                 if ControlSession(c.requested, c.lifecycle) then
                   M.ToFrames(s.plant, c.memory, InputOf(c, c.thread.loop.active).command, c.thread.loop.activeConfig, SeenBy(c.comms, joints))
                 else NoCommand()
  {
    hide M.ToFrames, M.Next, SeenBy, Receiving, InputOf, NoCommand;
  }

  lemma InputCapsAreGood(c: Core, active: Staged)
    requires M.GoodCaps(active.command.maxEffort)
    ensures M.GoodCaps(InputOf(c, active).command.maxEffort)
  {}

  lemma MappedTorqueIsBounded(s: Setup, m: M.Memory, command: M.Command, config: M.Config, seen: M.Observed)
    requires M.GoodCaps(command.maxEffort)
    ensures TorqueBounded(M.ToFrames(s.plant, m, command, config, seen))
  {
    hide M.ToFrames, M.GoodCaps;
    forall i | 0 <= i < ACTUATOR_COUNT
      ensures var f := M.ToFrames(s.plant, m, command, config, seen);
              -f.maxEffort[i] <= f.targetEffort[i] <= f.maxEffort[i] <= M.EFFORT_LIMIT
    {
      M.TorqueIsBounded(s.plant, m, command, config, seen, i);
    }
  }

  lemma NoTorqueIsBounded()
    ensures TorqueBounded(NoCommand())
  {}

  // Whatever a cycle computes, from whatever command and in whatever mode, each torque is within
  // the cap beside it, and the cap within its limit
  lemma CycleTorqueIsBounded(s: Setup, cores: seq<Core>, steps: seq<Step>, k: nat)
    requires IsRun(s, cores, steps) && k < |steps| && BeginsCycle(cores[k], steps[k])
    ensures var r := cores[k + 1];
            r.thread.Alive? && r.thread.loop.pc.BeforeReread? && TorqueBounded(r.thread.loop.pc.cycle.frames)
  {
    hide Inv, Apply, Constructed, BeginCycle, TorqueBounded;
    var c, input := cores[k], steps[k].input;
    AlwaysInv(s, cores, steps, k);
    assert cores[k + 1] == BeginCycle(s, c, input) by { TopBegins(s, c, steps[k]); }
    BegunTorqueIsBounded(s, c, input);
  }

  lemma BegunTorqueIsBounded(s: Setup, c: Core, input: RtInput)
    requires Inv(s, c) && c.thread.Alive?
    ensures var r := BeginCycle(s, c, input);
            r.thread.Alive? && r.thread.loop.pc.BeforeReread? && TorqueBounded(r.thread.loop.pc.cycle.frames)
  {
    hide Watched, Compute, TorqueBounded, M.GoodCaps, C.Home, Receiving, ThreadInv, HomingInv, CommandInv, LinkInv;
    WatchedDoes(s, c, input);
    ComputedTorqueIsBounded(s, Watched(s, c, input), input.joints);
  }

  ghost predicate Clamped(n: G.Numerics, h: T.Limits, controller: M.Controller)
    requires T.HasOrder(h)
  {
    controller.JointPosition? || controller.JointImpedance? ==>
      && T.ThumbWithinLimits(n, h, controller.joints)
      && forall i :: 0 <= i < ACTUATOR_COUNT && T.IsDistal(i) ==> T.LongWithinLimits(n, h, controller.joints, i)
  }

  // With the workspace clamp switched on, every joint target of a user that is staged, and so every
  // one a cycle computes frames from, is one the hand can reach
  lemma StagedJointsAreReachable(s: Setup, cores: seq<Core>, steps: seq<Step>, k: nat, n: G.Numerics, h: T.Limits)
    requires IsRun(s, cores, steps) && k <= |steps| && T.ExactHand(n, h)
    requires forall t: J.Active :: s.clamp(t) == T.ClampAll(n, h, t)
    requires cores[k].staged.source.User?
    ensures Clamped(n, h, cores[k].staged.command.controller)
  {
    hide IsRun, T.ExactHand, T.ClampAll, AcceptsCommand, T.ThumbWithinLimits, T.LongWithinLimits;
    StagedWasAccepted(s, cores, steps, k);
    RunLength(s, cores, steps);
    var j :| 0 <= j < k && AcceptedAt(s, cores, steps, j, cores[k].staged);
    AcceptedJointsAreReachable(s, cores[j], steps[j], cores[j + 1], n, h);
  }

  lemma AcceptedJointsAreReachable(s: Setup, c: Core, step: Step, r: Core, n: G.Numerics, h: T.Limits)
    requires T.ExactHand(n, h) && AcceptsCommand(s, c, step, r)
    requires forall t: J.Active :: s.clamp(t) == T.ClampAll(n, h, t)
    ensures Clamped(n, h, r.staged.command.controller)
  {
    hide T.ClampAll, T.ThumbWithinLimits, T.LongWithinLimits, T.GoodLimits, Checked, G.GoodNumerics;
    var controller := r.staged.command.controller;
    if controller.JointPosition? || controller.JointImpedance? {
      var values := M.Values(step.call.target.raw);
      assert controller.joints == T.ClampAll(n, h, values);
      T.ThumbEndsWithinLimits(n, h, values);
      forall i | 0 <= i < ACTUATOR_COUNT && T.IsDistal(i)
        ensures T.LongWithinLimits(n, h, controller.joints, i)
      {
        T.LongEndsWithinLimits(n, h, values, i);
      }
    }
  }

  ghost predicate NearlyClamped(n: G.Numerics, h: T.Limits, controller: M.Controller)
    requires T.HasOrder(h)
  {
    controller.JointPosition? || controller.JointImpedance? ==>
      && R.ThumbNearlyWithinLimits(n, h, controller.joints)
      && forall i :: 0 <= i < ACTUATOR_COUNT && T.IsDistal(i) ==> R.LongNearlyWithinLimits(n, h, controller.joints, i)
  }

  // On the tables as they are, at any slack of the comparisons
  lemma StagedJointsAreNearlyReachable(s: Setup, cores: seq<Core>, steps: seq<Step>, k: nat, n: G.Numerics, h: T.Limits)
    requires IsRun(s, cores, steps) && k <= |steps| && R.UsableHand(n, h)
    requires forall t: J.Active :: s.clamp(t) == T.ClampAll(n, h, t)
    requires cores[k].staged.source.User?
    ensures NearlyClamped(n, h, cores[k].staged.command.controller)
  {
    hide IsRun, R.UsableHand, T.ClampAll, AcceptsCommand, R.ThumbNearlyWithinLimits, R.LongNearlyWithinLimits;
    StagedWasAccepted(s, cores, steps, k);
    RunLength(s, cores, steps);
    var j :| 0 <= j < k && AcceptedAt(s, cores, steps, j, cores[k].staged);
    AcceptedJointsAreNearlyReachable(s, cores[j], steps[j], cores[j + 1], n, h);
  }

  lemma AcceptedJointsAreNearlyReachable(s: Setup, c: Core, step: Step, r: Core, n: G.Numerics, h: T.Limits)
    requires R.UsableHand(n, h) && AcceptsCommand(s, c, step, r)
    requires forall t: J.Active :: s.clamp(t) == T.ClampAll(n, h, t)
    ensures NearlyClamped(n, h, r.staged.command.controller)
  {
    hide T.ClampAll, R.ThumbNearlyWithinLimits, R.LongNearlyWithinLimits, R.UsableCurves, Checked, G.GoodNumerics;
    var controller := r.staged.command.controller;
    if controller.JointPosition? || controller.JointImpedance? {
      var values := M.Values(step.call.target.raw);
      assert controller.joints == T.ClampAll(n, h, values);
      R.ThumbEndsNearlyWithinLimits(n, h, values);
      forall i | 0 <= i < ACTUATOR_COUNT && T.IsDistal(i)
        ensures R.LongNearlyWithinLimits(n, h, controller.joints, i)
      {
        R.LongEndsNearlyWithinLimits(n, h, values, i);
      }
    }
  }

  // ------------------------------ When a link comes back ----------------------------

  lemma {:induction false} PollsHearAny(c: C.Comms, polls: seq<seq<P.CanFrame>>)
    requires c.open
    ensures ReadUntilFrame(c, polls).anyFrame <==> c.anyFrame || exists k :: 0 <= k < |polls| && C.ReceivedAny(c.side, polls[k])
    decreases |polls|
  {
    hide C.ReceivedAny, C.Read;
    if polls != [] && !c.anyFrame {
      FirstPoll(c, polls[0]);
      PollsHearAny(C.Read(c, polls[0]), polls[1..]);
      if k :| 0 <= k < |polls| && C.ReceivedAny(c.side, polls[k]) && k > 0 {
        assert polls[1..][k - 1] == polls[k];
      }
    }
  }

  lemma FirstPoll(c: C.Comms, queue: seq<P.CanFrame>)
    requires c.open && !c.anyFrame
    ensures var r := C.Read(c, queue); r.open && r.side == c.side && r.anyFrame == C.ReceivedAny(c.side, queue)
  {
    hide P.Drain, C.ReceivedAny, C.SeenHigh;
  }

  // A faulted loop ends where no reconnect is wanted, allowed or in time. Otherwise it tries again, and the
  // link is back exactly where the socket opens and one of the polls brings a frame
  lemma RetryRecoversExactly(s: Setup, c: Core, input: RtInput)
    requires c.thread.Alive? && c.thread.loop.pc.Top? && c.lifecycle == Faulted
    ensures var r := RtTop(s, c, input);
            var ends := c.requested == Disconnected || !s.autoReconnect || c.stopCause == ControlLoopFailure || input.giveUp;
            && (r.thread == Ended <==> ends)
            && (r.links != c.links <==>
                  !ends && input.linkOpens && exists k :: 0 <= k < |input.polls| && C.ReceivedAny(c.comms.side, input.polls[k]))
            && (r.links != c.links ==> r.links == c.links + 1 && r.requested == Running && r.lifecycle == Connected)
            && (r.links == c.links && !ends ==> r.lifecycle == Faulted && !r.comms.open)
  {
    hide RtTop, TryReconnect, C.ReceivedAny;
    TopOfFaultedIs(s, c, input);
    RetryLeaves(s, c, input);
    EndedKeepsLink(c);
  }

  lemma EndedKeepsLink(c: Core)
    ensures var r := c.(thread := Ended); r.links == c.links && r.thread == Ended
  {}

  lemma RetryLeaves(s: Setup, c: Core, input: RtInput)
    requires c.thread.Alive? && c.thread.loop.pc.Top? && c.lifecycle == Faulted
    ensures var r := TryReconnect(s, c, input);
            var back := input.linkOpens && exists k :: 0 <= k < |input.polls| && C.ReceivedAny(c.comms.side, input.polls[k]);
            && r.thread.Alive? && r.links == (if back then c.links + 1 else c.links)
            && (if back then r.requested == Running && r.lifecycle == Connected else r.lifecycle == Faulted && !r.comms.open)
  {
    hide Recovered, ReadUntilFrame, C.ReceivedAny;
    var connected := C.Connected(C.Disconnected(c.comms));
    PollsHearAny(connected, input.polls);
    RecoveryLeaves(s, c, C.Run(ReadUntilFrame(connected, input.polls)));
  }

  lemma RecoveryLeaves(s: Setup, c: Core, comms: C.Comms)
    requires c.thread.Alive?
    ensures var r := Recovered(s, c, comms);
            r.thread.Alive? && r.links == c.links + 1 && r.requested == Running && r.lifecycle == Connected
  {}

  // ------------------------------ What sending tells --------------------------------

  // The frames are out, or wait behind a queue that is only full; on a closed link the last send decides
  predicate Delivered(c: Core, tx: TxResult) { if c.comms.open then !tx.Hard? else c.txTransient }

  // A cycle reports the link as up exactly where it has received and its frames were delivered, and faults
  // for want of delivery exactly where it was sending under a request for Running
  lemma SendIsJudged(s: Setup, c: Core, tx: TxResult)
    requires Inv(s, c) && c.thread.Alive? && c.thread.loop.pc.AfterReread?
    ensures var r, k, latest := FinishCycle(c, tx), c.thread.loop.pc.cycle, c.thread.loop.pc.latest;
            var session := k.requested == Running || k.requested == Stopped || k.observed == Faulted;
            var fails := session && !Delivered(c, tx) && latest == Running && k.observed != Faulted;
            && (r.checkCommunication <==> k.receiving && (session ==> Delivered(c, tx)))
            && (r.lifecycle == Faulted <==> c.lifecycle == Faulted || fails)
            && r.stopCause == if fails then TransmitFailure else c.stopCause
  {
    hide FinishCycle, Inv, NextLifecycle, Transmitted;
    var w := FinishShapes(s, c, tx);
    NextLifecycleIs(Transmitted(c, tx), c.thread.loop.pc.cycle.receiving);
    TransmitJudges(c, tx);
  }

  // Where a cycle leaves the lifecycle: a fault stays, then the drives decide on what is requested, and a
  // link that has had its first frame is connected
  lemma LifecycleFollowsEvidence(s: Setup, c: Core, tx: TxResult)
    requires Inv(s, c) && c.thread.Alive? && c.thread.loop.pc.AfterReread?
    ensures var r, receiving := FinishCycle(c, tx), c.thread.loop.pc.cycle.receiving;
            r.lifecycle != Faulted ==>
              r.lifecycle ==
                if receiving && c.requested == Running && C.DrivesEnabled(c.comms) then Running
                else if receiving && c.requested == Stopped && C.QuickStopAttained(c.comms) then Stopped
                else if c.lifecycle == Disconnected && c.comms.anyFrame then Connected
                else c.lifecycle
  {
    hide FinishCycle, Inv, Transmitted, C.DrivesEnabled, C.QuickStopAttained, Follows, H.Step;
    var w := FinishShapes(s, c, tx);
    var t := Transmitted(c, tx);
    TransmittedStep(s, c, tx);
    SameEvidence(c.comms, t.comms);
    NextLifecycleIs(t, c.thread.loop.pc.cycle.receiving);
  }

  lemma TransmitJudges(c: Core, tx: TxResult)
    requires c.thread.Alive? && c.thread.loop.pc.AfterReread?
    ensures var t, k, latest := Transmitted(c, tx), c.thread.loop.pc.cycle, c.thread.loop.pc.latest;
            var session := k.requested == Running || k.requested == Stopped || k.observed == Faulted;
            var fails := session && !Delivered(c, tx) && latest == Running && k.observed != Faulted;
            && (t.checkCommunication <==> k.receiving && (session ==> Delivered(c, tx)))
            && t.lifecycle == (if fails then Faulted else c.lifecycle)
            && t.stopCause == if fails then TransmitFailure else c.stopCause
  {
    hide C.Write, TrailAfter, QuickStops;
  }
}
