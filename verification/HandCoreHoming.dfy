/** Homing over whole runs: every request comes to a verdict in time, a stop to a failure, and what
    home() returns is about its own request. */
module HandCoreHoming {
  import opened Types
  import opened Frames
  import opened ActionCheck
  import opened HandCore
  import opened HandCoreInvariant
  import opened HandCoreHistory
  import opened HandCoreLocality
  import opened HandCoreSafety
  import opened HandCoreCycles
  import C = HandComms
  import P = Protocol
  import H = HomingSequence
  import J = JointPositionController
  import M = CommandMapping

  // ----------------------------- From request to verdict ----------------------------

  // A cycle takes up a homing request
  predicate TakesUp(c: Core, step: Step) {
    BeginsCycle(c, step) && c.requestHoming && c.requested == Running
  }

  // A cycle ends with the verdict about the homing under way
  ghost predicate Resolves(c: Core, step: Step, r: Core) {
    && step.LoopFinish? && c.activeHoming && !r.activeHoming
    && if ReportsSuccess(c, step, r) then r.resultHoming && r.homingState == Succeeded
       else !r.resultHoming && r.homingState == HomingState.Failed
  }

  // Between i and j the loop lives, finds no fault and takes up no other request
  ghost predicate Undisturbed(cores: seq<Core>, steps: seq<Step>, i: nat, j: nat)
    requires |cores| == |steps| + 1 && j <= |steps|
  {
    && (forall m :: i < m <= j ==> cores[m].thread.Alive? && cores[m].lifecycle != Faulted)
    && (forall m :: i < m < j ==> !TakesUp(cores[m], steps[m]))
  }

  // The cycles that end between i and j
  function Cycles(steps: seq<Step>, i: nat, j: nat): nat
    requires j <= |steps|
    decreases j
  {
    if j <= i then 0 else Cycles(steps, i, j - 1) + if steps[j - 1].LoopFinish? then 1 else 0
  }

  ghost predicate ResolvedIn(cores: seq<Core>, steps: seq<Step>, i: nat, j: nat)
    requires |cores| == |steps| + 1 && j <= |steps|
  {
    exists m :: i < m < j && Resolves(cores[m], steps[m], cores[m + 1])
  }

  // The homing that was taken up is under way, and has been written in every one of n cycles
  ghost predicate UnderWay(c: Core, n: nat) {
    c.thread.Alive? && c.comms.open && c.comms.homing.active && c.activeHoming && |c.trail.seen| == n
  }

  lemma TakeUpStarts(s: Setup, c: Core, step: Step)
    requires Inv(s, c) && TakesUp(c, step) && Enabled(c, step)
    requires var r := Apply(s, c, step); r.thread.Alive? && r.lifecycle != Faulted
    ensures UnderWay(Apply(s, c, step), 0)
  {
    hide BeginCycle, Receiving, Follows, StagingInv, CommandInv;
    TopBegins(s, c, step);
    var w := BeginShapes(s, c, step.input);
    HomeDoes(c.comms);
  }

  lemma BeginStaysUnderWay(s: Setup, c: Core, step: Step, n: nat)
    requires Inv(s, c) && UnderWay(c, n) && Enabled(c, step) && step.LoopTop? && c.lifecycle != Faulted && !TakesUp(c, step)
    requires Apply(s, c, step).thread.Alive?
    ensures UnderWay(Apply(s, c, step), n)
  {
    hide BeginCycle, Inv, Receiving;
    if c.requested == Disconnected {
      EndedAtTop(s, c, step);
      assert false;
    }
    TopBegins(s, c, step);
    var w := BeginShapes(s, c, step.input);
  }

  lemma EndedAtTop(s: Setup, c: Core, step: Step)
    requires Enabled(c, step) && step.LoopTop? && c.requested == Disconnected
    ensures !Apply(s, c, step).thread.Alive?
  {
    hide BeginCycle, TryReconnect;
  }

  lemma RereadStaysUnderWay(s: Setup, c: Core, step: Step, n: nat)
    requires UnderWay(c, n) && Enabled(c, step) && step.LoopReread?
    ensures UnderWay(Apply(s, c, step), n)
  {
    RereadApplies(s, c, step);
  }

  lemma FinishStaysOrResolves(s: Setup, c: Core, step: Step, n: nat)
    requires Inv(s, c) && UnderWay(c, n) && Enabled(c, step) && step.LoopFinish?
    ensures var r := Apply(s, c, step); UnderWay(r, n + 1) || Resolves(c, step, r)
  {
    hide FinishCycle, Transmitted, ReportsSuccess, Inv;
    var r := FinishCycle(c, step.tx);
    CycleResolvesHoming(s, c, step.tx);
    if QuickStops(c.thread.loop.pc.cycle, c.thread.loop.pc.latest) {
      StopFailsHoming(s, c, step.tx);
    }
    FinishKeepsOpen(s, c, step.tx);
  }

  lemma FinishKeepsOpen(s: Setup, c: Core, tx: TxResult)
    requires Inv(s, c) && c.thread.Alive? && c.thread.loop.pc.AfterReread?
    ensures var r := FinishCycle(c, tx); r.comms.open == c.comms.open && r.thread.Alive? && r.requestHoming == c.requestHoming
    ensures var r := FinishCycle(c, tx); r.links == c.links && r.requested == c.requested && r.user == c.user
    ensures !c.activeHoming ==> var r := FinishCycle(c, tx);
              !r.activeHoming && r.resultHoming == c.resultHoming && r.homingState == c.homingState
  {
    hide FinishCycle, Transmitted, Inv, Receiving, Follows, NextLifecycle;
    var w := FinishShapes(s, c, tx);
  }

  lemma StepStaysUnderWay(s: Setup, c: Core, step: Step, n: nat)
    requires Inv(s, c) && UnderWay(c, n) && Enabled(c, step) && c.lifecycle != Faulted && !TakesUp(c, step)
    requires var r := Apply(s, c, step); r.thread.Alive?
    ensures var r := Apply(s, c, step);
            UnderWay(r, if step.LoopFinish? then n + 1 else n) || Resolves(c, step, r)
  {
    hide Inv, Apply, Resolves, TakesUp, KeepsLoop;
    match step
    case LoopTop(_) => BeginStaysUnderWay(s, c, step, n);
    case LoopReread => RereadStaysUnderWay(s, c, step, n);
    case LoopFinish(_) => FinishStaysOrResolves(s, c, step, n);
    case LoopThrow => assert false by { ThrowEnds(s, c, step); }
    case UserCall(_) => UserKeepsLoop(s, c, step); UnderWayKept(c, Apply(s, c, step), n);
    case UserPoll(_, _) => UserKeepsLoop(s, c, step); UnderWayKept(c, Apply(s, c, step), n);
  }

  lemma UnderWayKept(c: Core, r: Core, n: nat)
    requires UnderWay(c, n) && KeepsLoop(c, r)
    ensures UnderWay(r, n)
  {}

  lemma ThrowEnds(s: Setup, c: Core, step: Step)
    requires Enabled(c, step) && step.LoopThrow?
    ensures !Apply(s, c, step).thread.Alive?
  {
    hide C.Write;
  }

  lemma {:induction false} UnderWayUntilResolved(s: Setup, cores: seq<Core>, steps: seq<Step>, i: nat, j: nat)
    requires IsRun(s, cores, steps) && i < j <= |steps| && TakesUp(cores[i], steps[i]) && Undisturbed(cores, steps, i, j)
    ensures UnderWay(cores[j], Cycles(steps, i, j)) || ResolvedIn(cores, steps, i, j)
    decreases j
  {
    hide Inv, Apply, UnderWay, TakesUp, Resolves;
    AlwaysInv(s, cores, steps, j - 1);
    assert Enabled(cores[j - 1], steps[j - 1]) && cores[j] == Apply(s, cores[j - 1], steps[j - 1]);
    assert cores[j].thread.Alive? && cores[j].lifecycle != Faulted;
    if j == i + 1 {
      TakeUpStarts(s, cores[i], steps[i]);
      assert !steps[i].LoopFinish? by { hide *; TakeUpIsTop(cores[i], steps[i]); }
    } else {
      UnderWayUntilResolved(s, cores, steps, i, j - 1);
      if !ResolvedIn(cores, steps, i, j - 1) {
        StepStaysUnderWay(s, cores[j - 1], steps[j - 1], Cycles(steps, i, j - 1));
      }
    }
  }

  lemma TakeUpIsTop(c: Core, step: Step)
    requires TakesUp(c, step)
    ensures step.LoopTop?
  {}

  lemma UnderWayIsShort(s: Setup, cores: seq<Core>, steps: seq<Step>, k: nat, n: nat)
    requires IsRun(s, cores, steps) && k <= |steps| && UnderWay(cores[k], n)
    ensures n < H.LONGEST_RUN
  {
    hide IsRun, Follows;
    HomingIsBounded(s, cores, steps, k);
  }

  // Every homing request that a cycle has taken up in Running comes to a verdict before 11000 more
  // cycles have ended, unless the loop faults or another request is taken up first: to a success
  // of this very sequence, or to a failure
  lemma HomingResolvesInTime(s: Setup, cores: seq<Core>, steps: seq<Step>, i: nat, j: nat)
    requires IsRun(s, cores, steps) && i < j <= |steps| && TakesUp(cores[i], steps[i]) && Undisturbed(cores, steps, i, j)
    requires Cycles(steps, i, j) >= H.LONGEST_RUN
    ensures |cores| == |steps| + 1 && ResolvedIn(cores, steps, i, j)
  {
    hide IsRun, UnderWay, TakesUp, Undisturbed;
    RunLength(s, cores, steps);
    UnderWayUntilResolved(s, cores, steps, i, j);
    if UnderWay(cores[j], Cycles(steps, i, j)) {
      UnderWayIsShort(s, cores, steps, j, Cycles(steps, i, j));
    }
  }

  // The first cycle that begins after the request has left Running, if it ends, finds homing resolved
  // or resolves it to a failure
  lemma StopResolvesHoming(s: Setup, cores: seq<Core>, steps: seq<Step>, i: nat, b: nat, k: nat)
    requires IsRun(s, cores, steps) && i < b && IsCycle(cores, steps, b, k) && steps[k].LoopFinish?
    requires TakesUp(cores[i], steps[i]) && Undisturbed(cores, steps, i, k)
    requires forall m :: b <= m < k ==> cores[m].requested != Running
    ensures ResolvedIn(cores, steps, i, k) || Resolves(cores[k], steps[k], cores[k + 1])
    ensures !ResolvedIn(cores, steps, i, k) ==> !cores[k + 1].activeHoming && cores[k + 1].homingState == HomingState.Failed
  {
    hide Inv, Apply, TakesUp, Undisturbed, BeginsCycle, Resolves, MidCycle, Constructed;
    UnderWayUntilResolved(s, cores, steps, i, k);
    if !ResolvedIn(cores, steps, i, k) {
      var reread := InCycle(s, cores, steps, b, k, k);
      AlwaysInv(s, cores, steps, k);
      assert Enabled(cores[k], steps[k]);
      var latest := cores[k].thread.loop.pc.latest;
      assert latest != Running by { RereadOf(cores, steps, b, k, reread); }
      StoppedFinish(s, cores[k], steps[k], Cycles(steps, i, k));
    }
  }

  lemma RereadOf(cores: seq<Core>, steps: seq<Step>, b: nat, k: nat, reread: Option<Lifecycle>)
    requires |cores| == |steps| + 1 && b < k < |steps|
    requires cores[b + 1].thread.Alive? && cores[b + 1].thread.loop.pc.BeforeReread? && MidCycle(cores[b + 1], cores[k], reread)
    requires reread.Some? ==> RereadIn(cores, steps, b, k, reread.value)
    requires steps[k].LoopFinish? && Enabled(cores[k], steps[k])
    ensures reread.Some? && cores[k].thread.loop.pc.latest == reread.value
    ensures exists q :: b < q < k && steps[q].LoopReread? && cores[q].requested == reread.value
  {}

  lemma StoppedFinish(s: Setup, c: Core, step: Step, n: nat)
    requires Inv(s, c) && Enabled(c, step) && step.LoopFinish? && UnderWay(c, n) && c.thread.loop.pc.latest != Running
    ensures var r := Apply(s, c, step); Resolves(c, step, r) && !r.activeHoming && r.homingState == HomingState.Failed
  {
    hide FinishCycle, Inv, ReportsSuccess;
    StopFailsHoming(s, c, step.tx);
    if ReportsSuccess(c, step, FinishCycle(c, step.tx)) {
      SuccessReads(c, step, FinishCycle(c, step.tx));
    }
  }

  lemma SuccessReads(c: Core, step: Step, r: Core)
    requires ReportsSuccess(c, step, r)
    ensures r.homingState == Succeeded
  {}

  // ------------------------------- What home() returns ------------------------------

  // A sequence that was taken up after step i has succeeded before step j
  ghost predicate OwnSuccess(cores: seq<Core>, steps: seq<Step>, i: nat, j: nat)
    requires |cores| == |steps| + 1 && j <= |steps|
  {
    exists t, h :: i < t < h < j && TakesUp(cores[t], steps[t]) && ReportsSuccess(cores[h], steps[h], cores[h + 1])
  }

  ghost predicate TakenUpIn(cores: seq<Core>, steps: seq<Step>, i: nat, j: nat)
    requires |cores| == |steps| + 1 && j <= |steps|
  {
    exists t :: i < t < j && TakesUp(cores[t], steps[t])
  }

  // Where a home() called at step i can be at step m: its request is pending, or taken up and under
  // way, or resolved. After a recovery that does not ask for a homing of its own, it is void
  ghost predicate Asked(s: Setup, cores: seq<Core>, steps: seq<Step>, i: nat, m: nat)
    requires |cores| == |steps| + 1 && i < m <= |steps|
  {
    var c := cores[m];
    && c.requested == Running && c.links >= cores[i + 1].links
    && if c.links != cores[i + 1].links && !s.autoReconnectHome then !IsHoming(c) && c.homingState == NotRun
       else c.requestHoming || if c.activeHoming then TakenUpIn(cores, steps, i, m)
            else c.resultHoming ==> c.homingState == Succeeded && OwnSuccess(cores, steps, i, m)
  }

  // What a step of the loop may do to the homing of a user who waits in home()
  ghost predicate Waits(s: Setup, c: Core, step: Step, r: Core) {
    && r.requested == Running && r.user == c.user
    && if r.links != c.links then
         r.links > c.links && r.requestHoming == s.autoReconnectHome && !r.activeHoming && r.homingState == NotRun
       else if TakesUp(c, step) then
         !r.requestHoming && r.activeHoming
       else
         && r.requestHoming == c.requestHoming
         && ((r.activeHoming == c.activeHoming && r.resultHoming == c.resultHoming && r.homingState == c.homingState)
             || Resolves(c, step, r))
  }

  lemma TopWaits(s: Setup, c: Core, step: Step)
    requires Inv(s, c) && Enabled(c, step) && step.LoopTop? && c.requested == Running
    ensures Waits(s, c, step, Apply(s, c, step))
  {
    hide RtTop, Recovered, Inv, BeginCycle, Receiving;
    if c.lifecycle == Faulted {
      var comms := TopOfFaulted(s, c, step.input);
      RecoveredAsks(s, c, comms);
    } else {
      TopBegins(s, c, step);
      var w := BeginShapes(s, c, step.input);
    }
  }

  lemma RecoveredAsks(s: Setup, c: Core, comms: C.Comms)
    requires c.thread.Alive?
    ensures var r := Recovered(s, c, comms);
            && r.requested == Running && r.user == c.user && r.links == c.links + 1
            && r.requestHoming == s.autoReconnectHome && !r.activeHoming && r.homingState == NotRun
  {}

  lemma LoopWaits(s: Setup, c: Core, step: Step)
    requires Inv(s, c) && Enabled(c, step) && !step.UserCall? && !step.UserPoll? && c.requested == Running
    ensures Waits(s, c, step, Apply(s, c, step))
  {
    hide Inv, FinishCycle, RtTop, Resolves, C.Write, ReportsSuccess;
    match step
    case LoopTop(_) => TopWaits(s, c, step);
    case LoopReread =>
    case LoopThrow =>
    case LoopFinish(tx) =>
      FinishKeepsOpen(s, c, tx);
      if c.activeHoming {
        FinishVerdict(s, c, step);
      }
  }

  lemma FinishVerdict(s: Setup, c: Core, step: Step)
    requires Inv(s, c) && Enabled(c, step) && step.LoopFinish? && c.activeHoming
    ensures var r := FinishCycle(c, step.tx);
            || (r.activeHoming && r.resultHoming == c.resultHoming && r.homingState == c.homingState)
            || Resolves(c, step, r)
  {
    hide FinishCycle, Transmitted, Inv, Receiving, Follows, NextLifecycle, ReportsSuccess, H.Step;
    CycleResolvesHoming(s, c, step.tx);
    var w := FinishShapes(s, c, step.tx);
  }

  // A user who waits in home() changes nothing until the wait ends
  lemma WaitingChangesNothing(s: Setup, c: Core, step: Step)
    requires Enabled(c, step) && (step.UserCall? || step.UserPoll?) && c.user.AwaitHoming? && Apply(s, c, step).user.AwaitHoming?
    ensures Apply(s, c, step) == c
  {
    hide HomingResult;
  }

  lemma HomeAsks(c: Core)
    requires HandCore.Home(c).user.AwaitHoming? && c.user.Outside?
    ensures var r := HandCore.Home(c); r.requestHoming && r.requested == Running
  {
    hide Checked, PreparedForHoming, RequestControl, ControlStatus;
    StartHomingIs(c);
    ControlRuns(PreparedForHoming(c));
    var p := PreparedForHoming(c);
  }

  lemma ControlRuns(c: Core)
    ensures ControlStatus(c).OK? ==> RequestControl(c).requested == Running
  {
    hide ResetToIdle;
    RequestControlIs(c);
  }

  // A home(), or a run() that homes first
  predicate CallsHome(step: Step) { step.UserCall? && (step.call.CallHome? || step.call.CallRun?) }

  lemma RunHomes(s: Setup, c: Core)
    requires HandCore.Run(s, c).user.AwaitHoming?
    ensures HandCore.Run(s, c) == HandCore.Home(c)
  {
    hide HandCore.Home, Checked, RequestControl, ControlStatus;
  }

  lemma CallAsks(s: Setup, c: Core, step: Step)
    requires Enabled(c, step) && CallsHome(step) && Apply(s, c, step).user.AwaitHoming?
    ensures var r := Apply(s, c, step); r.requestHoming && r.requested == Running
  {
    hide HandCore.Home, HandCore.Run;
    if step.call.CallRun? {
      RunHomes(s, c);
    }
    HomeAsks(c);
  }

  lemma WaitStep(s: Setup, cores: seq<Core>, steps: seq<Step>, i: nat, m: nat)
    requires IsRun(s, cores, steps) && i < m < |steps| && Asked(s, cores, steps, i, m)
    requires cores[m].user.AwaitHoming? && cores[m + 1].user.AwaitHoming?
    ensures Asked(s, cores, steps, i, m + 1)
  {
    hide Inv, Apply, Constructed, BeginsCycle, ReportsSuccess, OwnSuccess;
    var c, step, r := cores[m], steps[m], cores[m + 1];
    AlwaysInv(s, cores, steps, m);
    TakenGrows(cores, steps, i, m);
    if step.UserCall? || step.UserPoll? {
      WaitingChangesNothing(s, c, step);
    } else {
      LoopWaits(s, c, step);
      if TakesUp(c, step) {
        assert TakenUpIn(cores, steps, i, m + 1);
      }
      if ReportsSuccess(c, step, r) && TakenUpIn(cores, steps, i, m) {
        SucceededNow(cores, steps, i, m);
      }
    }
  }

  lemma SucceededNow(cores: seq<Core>, steps: seq<Step>, i: nat, m: nat)
    requires |cores| == |steps| + 1 && m < |steps|
    requires TakenUpIn(cores, steps, i, m) && ReportsSuccess(cores[m], steps[m], cores[m + 1])
    ensures OwnSuccess(cores, steps, i, m + 1)
  {
    hide TakesUp, ReportsSuccess;
    var t :| i < t < m && TakesUp(cores[t], steps[t]);
  }

  lemma TakenGrows(cores: seq<Core>, steps: seq<Step>, i: nat, m: nat)
    requires |cores| == |steps| + 1 && m < |steps|
    ensures TakenUpIn(cores, steps, i, m) ==> TakenUpIn(cores, steps, i, m + 1)
    ensures OwnSuccess(cores, steps, i, m) ==> OwnSuccess(cores, steps, i, m + 1)
  {
    hide TakesUp, ReportsSuccess;
  }

  lemma {:induction false} StillAsked(s: Setup, cores: seq<Core>, steps: seq<Step>, i: nat, m: nat)
    requires IsRun(s, cores, steps) && i < m <= |steps| && CallsHome(steps[i])
    requires forall q :: i < q <= m ==> cores[q].user.AwaitHoming?
    ensures Asked(s, cores, steps, i, m)
    decreases m
  {
    hide Inv, Apply, Constructed, Asked, CallsHome;
    if m == i + 1 {
      assert Enabled(cores[i], steps[i]) && cores[m] == Apply(s, cores[i], steps[i]);
      CallAsks(s, cores[i], steps[i]);
      assert Asked(s, cores, steps, i, m) by { hide *; JustAsked(s, cores, steps, i); }
    } else {
      StillAsked(s, cores, steps, i, m - 1);
      WaitStep(s, cores, steps, i, m - 1);
    }
  }

  lemma JustAsked(s: Setup, cores: seq<Core>, steps: seq<Step>, i: nat)
    requires |cores| == |steps| + 1 && i < |steps| && cores[i + 1].requestHoming && cores[i + 1].requested == Running
    ensures Asked(s, cores, steps, i, i + 1)
  {}

  lemma OKIsResult(s: Setup, c: Core, step: Step)
    requires Enabled(c, step) && step.UserPoll? && c.user.AwaitHoming? && c.requested == Running
    requires Apply(s, c, step).user == Outside(OK)
    ensures Apply(s, c, step) == c.(user := Outside(OK)) && c.resultHoming && !IsHoming(c)
  {
    hide Checked;
  }

  // home() that returns success: a sequence taken up after the call has succeeded, and the hand
  // counts as homed, exactly where the link was not recovered during the wait or the recovery asks
  // for a homing itself. Otherwise the success is the one of an earlier sequence
  lemma HomeReturnsOwnSuccess(s: Setup, cores: seq<Core>, steps: seq<Step>, i: nat, j: nat)
    requires IsRun(s, cores, steps) && i < j < |steps| && CallsHome(steps[i])
    requires forall m :: i < m <= j ==> cores[m].user.AwaitHoming?
    requires steps[j].UserPoll? && cores[j + 1].user == Outside(OK)
    ensures |cores| == |steps| + 1
    ensures cores[j + 1].homingState == Succeeded && OwnSuccess(cores, steps, i, j)
            <==> cores[j].links == cores[i + 1].links || s.autoReconnectHome
  {
    hide Inv, Apply, Constructed, CallsHome, OwnSuccess, TakenUpIn;
    StillAsked(s, cores, steps, i, j);
    OKIsResult(s, cores[j], steps[j]);
  }

  // Without automatic reconnect no link is recovered
  lemma LoopKeepsSession(s: Setup, c: Core, step: Step)
    requires Inv(s, c) && Enabled(c, step) && !step.UserCall? && !step.UserPoll? && !s.autoReconnect
    ensures Apply(s, c, step).links == c.links
  {
    hide Inv, FinishCycle, RtTop, C.Write, TryReconnect, BeginCycle, Receiving;
    match step
    case LoopTop(input) =>
      if c.lifecycle == Faulted {
        TopOfFaultedIs(s, c, input);
      } else if c.requested == Disconnected {
        EndsAtTop(s, c, input);
      } else {
        TopBegins(s, c, step);
        var w := BeginShapes(s, c, input);
      }
    case LoopReread =>
    case LoopThrow =>
    case LoopFinish(tx) => FinishKeepsOpen(s, c, tx);
  }

  lemma {:induction false} SessionLasts(s: Setup, cores: seq<Core>, steps: seq<Step>, i: nat, j: nat)
    requires IsRun(s, cores, steps) && i < j <= |steps| && !s.autoReconnect
    requires forall m :: i < m <= j ==> cores[m].user.AwaitHoming?
    ensures cores[j].links == cores[i + 1].links
    decreases j
  {
    hide Inv, Apply, Constructed;
    if i + 1 < j {
      SessionLasts(s, cores, steps, i, j - 1);
      AlwaysInv(s, cores, steps, j - 1);
      var c, step := cores[j - 1], steps[j - 1];
      assert Enabled(c, step) && cores[j] == Apply(s, c, step);
      if step.UserCall? || step.UserPoll? {
        WaitingChangesNothing(s, c, step);
      } else {
        LoopKeepsSession(s, c, step);
      }
    }
  }

  // So a hand that is not configured to reconnect by itself, or to home when it does, is homed by a
  // sequence of its own whenever home() returns success. In the one other configuration it may not be
  lemma HomeIsHonest(s: Setup, cores: seq<Core>, steps: seq<Step>, i: nat, j: nat)
    requires IsRun(s, cores, steps) && i < j < |steps| && CallsHome(steps[i])
    requires forall m :: i < m <= j ==> cores[m].user.AwaitHoming?
    requires steps[j].UserPoll? && cores[j + 1].user == Outside(OK)
    requires !s.autoReconnect || s.autoReconnectHome
    ensures |cores| == |steps| + 1 && cores[j + 1].homingState == Succeeded && OwnSuccess(cores, steps, i, j)
  {
    hide IsRun, CallsHome, OwnSuccess;
    RunLength(s, cores, steps);
    HomeReturnsOwnSuccess(s, cores, steps, i, j);
    if !s.autoReconnect {
      SessionLasts(s, cores, steps, i, j);
    }
  }

  // ------------------------- A success beside another homing ------------------------

  // The hand reads as homed while a homing is pending or under way
  predicate StandsBeside(c: Core) { c.homingState == Succeeded && IsHoming(c) }

  lemma UserLeavesNoneBeside(s: Setup, c: Core, step: Step)
    requires Enabled(c, step) && (step.UserCall? || step.UserPoll?) && !StandsBeside(c)
    ensures !StandsBeside(Apply(s, c, step))
  {
    hide Apply;
    UserAsksAfresh(s, c, step);
  }

  lemma TopLeavesNoneBeside(s: Setup, c: Core, step: Step)
    requires Enabled(c, step) && step.LoopTop? && !StandsBeside(c)
    ensures !StandsBeside(Apply(s, c, step))
  {
    hide RtTop, Recovered, BeginCycle, Receiving;
    if c.lifecycle == Faulted {
      var comms := TopOfFaulted(s, c, step.input);
      RecoveredAsks(s, c, comms);
    } else if c.requested == Disconnected {
      EndsAtTop(s, c, step.input);
    } else {
      TopBegins(s, c, step);
      var w := BeginShapes(s, c, step.input);
    }
  }

  lemma EndsAtTop(s: Setup, c: Core, input: RtInput)
    requires c.thread.Alive? && c.requested == Disconnected
    ensures RtTop(s, c, input) == c.(thread := Ended)
  {
    hide TryReconnect, BeginCycle;
  }

  // The one way into such a state: a cycle reports success while the next request is pending
  lemma StandsBesideIff(s: Setup, c: Core, step: Step)
    requires Inv(s, c) && Enabled(c, step) && !StandsBeside(c)
    ensures var r := Apply(s, c, step); StandsBeside(r) <==> ReportsSuccess(c, step, r) && c.requestHoming
  {
    hide Inv, FinishCycle, RtTop, ApplyCall, ApplyPoll, C.Write, ReportsSuccess;
    match step
    case LoopTop(_) => TopLeavesNoneBeside(s, c, step); OnlyFinishReports(c, step, Apply(s, c, step));
    case LoopReread => OnlyFinishReports(c, step, Apply(s, c, step));
    case LoopThrow => OnlyFinishReports(c, step, Apply(s, c, step));
    case LoopFinish(tx) =>
      FinishKeepsOpen(s, c, tx);
      if c.activeHoming {
        FinishVerdict(s, c, step);
        OnlyFinishReports(c, step, FinishCycle(c, tx));
      } else {
        OnlyFinishReports(c, step, FinishCycle(c, tx));
      }
    case _ => UserLeavesNoneBeside(s, c, step); OnlyFinishReports(c, step, Apply(s, c, step));
  }

  lemma OnlyFinishReports(c: Core, step: Step, r: Core)
    ensures ReportsSuccess(c, step, r) ==> step.LoopFinish? && c.activeHoming && !r.activeHoming && r.homingState == Succeeded
  {}

  // Cycle m reported success while a request was pending, and it has stood beside a homing since
  ghost predicate MetRequest(cores: seq<Core>, steps: seq<Step>, m: nat, k: nat)
    requires |cores| == |steps| + 1 && m < k <= |steps|
  {
    && ReportsSuccess(cores[m], steps[m], cores[m + 1]) && cores[m].requestHoming
    && forall q :: m < q <= k ==> StandsBeside(cores[q])
  }

  // So wherever the hand reads as homed beside another homing, it has done so ever since such a cycle
  lemma {:induction false} StandingBesideHasCause(s: Setup, cores: seq<Core>, steps: seq<Step>, k: nat)
    requires IsRun(s, cores, steps) && k <= |steps| && StandsBeside(cores[k])
    ensures |cores| == |steps| + 1
    ensures exists m :: 0 <= m < k && MetRequest(cores, steps, m, k)
    decreases k
  {
    hide Inv, Apply, ReportsSuccess, StandsBeside;
    if k == 0 {
      NoneBesideAtStart(s, cores, steps);
      assert false;
    } else if StandsBeside(cores[k - 1]) {
      StandingBesideHasCause(s, cores, steps, k - 1);
      var m :| 0 <= m < k - 1 && MetRequest(cores, steps, m, k - 1);
      assert MetRequest(cores, steps, m, k);
    } else {
      AlwaysInv(s, cores, steps, k - 1);
      StandsBesideIff(s, cores[k - 1], steps[k - 1]);
      assert MetRequest(cores, steps, k - 1, k);
    }
  }

  lemma NoneBesideAtStart(s: Setup, cores: seq<Core>, steps: seq<Step>)
    requires IsRun(s, cores, steps)
    ensures !StandsBeside(cores[0])
  {
    hide Apply;
  }
}
