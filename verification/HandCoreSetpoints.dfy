/** From the staged command and the received frames to the setpoints of a cycle: what every actuator of a
    running hand is sent. */
module HandCoreSetpoints {
  import opened Types
  import opened Frames
  import opened ActionCheck
  import opened HandCore
  import opened HandCoreInvariant
  import opened HandCoreHistory
  import opened HandCoreSafety
  import opened HandCorePoses
  import W = Cia402
  import C = HandComms
  import P = Protocol
  import H = HomingSequence
  import J = JointPositionController
  import I = JointImpedanceController
  import M = CommandMapping

  // ---------------------------------- Health -----------------------------------

  // An actuator that takes part, reports no error and shows Operation Enabled
  predicate Healthy(comms: C.Comms, i: nat)
    requires i < ACTUATOR_COUNT
  {
    comms.open && !comms.disabled[i] && comms.rx.errorCode[i] == 0 && comms.rx.status[i] & 0x006F == 0x0027
  }

  // What the mapping looks at comes from the decoded frames: their positions, their status words and
  // their error codes; on a closed link nobody is healthy
  lemma SeenIsDecoded(comms: C.Comms, joints: J.Joints, i: nat)
    requires i < ACTUATOR_COUNT
    ensures var seen := SeenBy(comms, joints);
            && (M.Masked(seen, i) <==> !Healthy(comms, i)) && seen.joints == joints
            && seen.position[i] == if comms.open then comms.rx.position[i] else 0
  {}

  // ---------------------------------- One cycle ---------------------------------

  // In Running a cycle computes with what is staged as it begins
  lemma RunningComputes(s: Setup, c: Core, input: RtInput)
    requires Inv(s, c) && c.thread.Alive? && c.requested == Running
    ensures var r := BeginCycle(s, c, input);
            && r.thread.Alive? && r.thread.loop.pc.BeforeReread?
            && r.thread.loop.pc.cycle.frames ==
                 M.ToFrames(s.plant, c.memory, c.staged.command, c.stagedConfig, SeenBy(r.comms, input.joints))
            && r.memory == M.Next(s.plant, c.memory, c.staged.command, c.stagedConfig, SeenBy(r.comms, input.joints))
  {
    hide Watched, Compute, C.Home, Receiving, ThreadInv, HomingInv, CommandInv, LinkInv, M.ToFrames, M.Next, SeenBy;
    var w := Watched(s, c, input);
    WatchedDoes(s, c, input);
    WatchedKeepsMemory(s, c, input);
    RunningFrames(s, w, input.joints);
  }

  lemma WatchedKeepsMemory(s: Setup, c: Core, input: RtInput)
    requires c.thread.Alive?
    ensures Watched(s, c, input).memory == c.memory
  {
    hide C.Read, C.Home, Taken, TakeHold, WatchLink;
    TakenDoes(c);
    WatchLinkDoes(s, Observe(Taken(c), input.queue));
    TakeHoldDoes(WatchLink(s, Observe(Taken(c), input.queue)), input.joints);
  }

  lemma RunningFrames(s: Setup, w: Core, joints: J.Joints)
    requires w.thread.Alive? && w.requested == Running
    ensures var r, l := Compute(s, w, joints), w.thread.loop;
            && r.comms == w.comms && r.thread.Alive? && r.thread.loop.pc.BeforeReread?
            && r.thread.loop.pc.cycle.frames == M.ToFrames(s.plant, w.memory, l.active.command, l.activeConfig, SeenBy(w.comms, joints))
            && r.memory == M.Next(s.plant, w.memory, l.active.command, l.activeConfig, SeenBy(w.comms, joints))
  {
    hide M.ToFrames, M.Next, SeenBy, Receiving;
  }

  // The setpoint that cycle frames hold for one actuator: a healthy one is served by the staged command,
  // any other holds its position or gets no torque, and the mode and the cap are the same for both
  ghost predicate GetsItsSetpoint(s: Setup, c: Core, comms: C.Comms, joints: J.Joints, f: CommandFrames, i: nat)
    requires i < ACTUATOR_COUNT
  {
    && f.mode[i] == (if M.PositionMode(c.staged.command) then CSP else CST)
    && I.IsTruncation(c.staged.command.maxEffort[i], f.maxEffort[i])
    && if Healthy(comms, i) then
         M.IsServed(s.plant, c.memory, c.staged.command, c.stagedConfig, SeenBy(comms, joints), f, i)
       else
         f.targetEffort[i] == 0 && (f.mode[i] == CSP ==> f.targetPosition[i] == if comms.open then comms.rx.position[i] else 0)
  }

  lemma RunningCycleServes(s: Setup, c: Core, input: RtInput, i: nat)
    requires Inv(s, c) && c.thread.Alive? && c.requested == Running && i < ACTUATOR_COUNT
    ensures var r := BeginCycle(s, c, input);
            && r.thread.Alive? && r.thread.loop.pc.BeforeReread?
            && GetsItsSetpoint(s, c, r.comms, input.joints, r.thread.loop.pc.cycle.frames, i)
  {
    hide BeginCycle, Inv, M.ToFrames, SeenBy, GetsItsSetpoint;
    RunningComputes(s, c, input);
    CapsAreGood(s, c, i);
    FramesServe(s, c, BeginCycle(s, c, input).comms, input.joints, i);
  }

  lemma FramesServe(s: Setup, c: Core, comms: C.Comms, joints: J.Joints, i: nat)
    requires i < ACTUATOR_COUNT && c.staged.command.maxEffort[i] >= 0.0
    ensures GetsItsSetpoint(s, c, comms, joints,
                            M.ToFrames(s.plant, c.memory, c.staged.command, c.stagedConfig, SeenBy(comms, joints)), i)
  {
    hide M.ToFrames, M.IsServed, SeenBy, M.Masked, Healthy, I.IsTruncation;
    var seen := SeenBy(comms, joints);
    SeenIsDecoded(comms, joints, i);
    CapIsTruncated(s, c, seen, i);
    M.ModeFollowsCommand(s.plant, c.memory, c.staged.command, c.stagedConfig, seen, i);
    if Healthy(comms, i) {
      M.UnmaskedIsServed(s.plant, c.memory, c.staged.command, c.stagedConfig, seen, i);
    } else {
      MaskedIsHeld(s, c, seen, i);
    }
  }

  lemma CapsAreGood(s: Setup, c: Core, i: nat)
    requires Inv(s, c) && i < ACTUATOR_COUNT
    ensures c.staged.command.maxEffort[i] >= 0.0
  {
    hide LinkInv, HomingInv, CommandInv, ThreadInv;
  }

  lemma CapIsTruncated(s: Setup, c: Core, seen: M.Observed, i: nat)
    requires i < ACTUATOR_COUNT
    ensures I.IsTruncation(c.staged.command.maxEffort[i],
                           M.ToFrames(s.plant, c.memory, c.staged.command, c.stagedConfig, seen).maxEffort[i])
  {
    hide M.ToFrames;
    M.MaxEffortOf(s.plant, c.memory, c.staged.command, c.stagedConfig, seen);
  }

  lemma MaskedIsHeld(s: Setup, c: Core, seen: M.Observed, i: nat)
    requires i < ACTUATOR_COUNT && M.Masked(seen, i)
    ensures var f := M.ToFrames(s.plant, c.memory, c.staged.command, c.stagedConfig, seen);
            f.targetEffort[i] == 0 && (f.mode[i] == CSP ==> f.targetPosition[i] == seen.position[i])
  {
    hide M.ToFrames;
    M.MaskedIsHarmless(s.plant, c.memory, c.staged.command, c.stagedConfig, seen, i);
  }

  // ---------------------------------- Whole runs --------------------------------

  // From the call to the setpoints: a cycle of a running hand that computes from a user's command serves
  // the target of the set_command() that staged it, the raw values of actuator targets and the clamp of
  // joint targets, in the mode of its kind
  lemma FramesFollowTarget(s: Setup, cores: seq<Core>, steps: seq<Step>, k: nat, i: nat)
    requires IsRun(s, cores, steps) && k < |steps| && BeginsCycle(cores[k], steps[k])
    requires cores[k].requested == Running && cores[k].staged.source.User? && i < ACTUATOR_COUNT
    ensures var c, r := cores[k], cores[k + 1];
            && r.thread.Alive? && r.thread.loop.pc.BeforeReread?
            && GetsItsSetpoint(s, c, r.comms, steps[k].input.joints, r.thread.loop.pc.cycle.frames, i)
            && exists j :: 0 <= j < k && steps[j].UserCall? && steps[j].call.CallSetCommand?
                           && IsFor(s, steps[j].call.target, c.staged.command.controller)
                           && r.thread.loop.pc.cycle.frames.mode[i] == ModeOf(steps[j].call.target)
  {
    hide Inv, Apply, Constructed, BeginCycle, GetsItsSetpoint, IsFor, Checked, ValidTarget;
    var c, input := cores[k], steps[k].input;
    AlwaysInv(s, cores, steps, k);
    assert Enabled(c, steps[k]) && cores[k + 1] == Apply(s, c, steps[k]);
    TopBegins(s, c, steps[k]);
    RunningCycleServes(s, c, input, i);
    StagedWasAccepted(s, cores, steps, k);
    var j :| 0 <= j < k && AcceptedAt(s, cores, steps, j, c.staged) && StagedSince(cores, j, k);
    ModeIsSet(s, c, cores[k + 1].comms, input.joints, cores[k + 1].thread.loop.pc.cycle.frames, i, steps[j].call.target);
  }

  // Both kinds of positions go out in position mode, everything else in torque mode
  function ModeOf(t: Target): int { if t.JointPositionTarget? || t.ActuatorPositionTarget? then 8 else 10 }

  lemma ModeIsSet(s: Setup, c: Core, comms: C.Comms, joints: J.Joints, f: CommandFrames, i: nat, t: Target)
    requires i < ACTUATOR_COUNT && GetsItsSetpoint(s, c, comms, joints, f, i) && IsFor(s, t, c.staged.command.controller)
    ensures f.mode[i] == ModeOf(t)
  {
    hide M.IsServed, SeenBy;
  }

  // A hold moves nobody: as long as the hand is where it was when the hold was taken, a running cycle that
  // computes from it sends every actuator to the count that it has, healthy or not
  lemma HoldKeepsStill(s: Setup, c: Core, input: RtInput, position: J.Counts, i: nat)
    requires Inv(s, c) && c.thread.Alive? && c.requested == Running && i < ACTUATOR_COUNT
    requires HoldsAt(c.staged.command.controller, position)
    requires BeginCycle(s, c, input).comms.open && BeginCycle(s, c, input).comms.rx.position[i] == position[i]
    ensures var r := BeginCycle(s, c, input);
            && r.thread.Alive? && r.thread.loop.pc.BeforeReread?
            && r.thread.loop.pc.cycle.frames.mode[i] == CSP && r.thread.loop.pc.cycle.frames.targetPosition[i] == position[i]
  {
    hide BeginCycle, Inv, SeenBy;
    RunningCycleServes(s, c, input, i);
    WholeIsTruncation(position[i], BeginCycle(s, c, input).thread.loop.pc.cycle.frames.targetPosition[i]);
  }

  lemma WholeIsTruncation(a: int, n: int)
    ensures I.IsTruncation(a as real, n) ==> n == a
  {}

  // Resuming from a stop, in the two cycles that it takes: the first one stages the pose that the link
  // reports, the second one sends it
  lemma ResumeKeepsStill(s: Setup, c: Core, input: RtInput, next: Core, nextInput: RtInput, i: nat)
    requires Inv(s, c) && c.thread.Alive? && c.requestHold && c.comms.open && i < ACTUATOR_COUNT
    requires Inv(s, next) && next.thread.Alive? && next.requested == Running
    requires SameIntent(next.staged, BeginCycle(s, c, input).staged)
    requires var r := BeginCycle(s, next, nextInput);
             r.comms.open && r.comms.rx.position[i] == BeginCycle(s, c, input).comms.rx.position[i]
    ensures var resumed, r := BeginCycle(s, c, input), BeginCycle(s, next, nextInput);
            && resumed.comms.rx.position == Reported(c, input.queue)
            && r.thread.Alive? && r.thread.loop.pc.BeforeReread? && r.thread.loop.pc.cycle.frames.mode[i] == CSP
            && r.thread.loop.pc.cycle.frames.targetPosition[i] == Reported(c, input.queue)[i]
  {
    hide BeginCycle, Inv, HoldsAt, Reported;
    CycleResumes(s, c, input);
    var resumed := BeginCycle(s, c, input);
    assert HoldsAt(next.staged.command.controller, resumed.comms.rx.position);
    HoldKeepsStill(s, next, nextInput, resumed.comms.rx.position, i);
  }

  // Outside Running nothing that is staged reaches the frames: no actuator is given any torque
  lemma NoTorqueOutsideRunning(s: Setup, c: Core, input: RtInput, i: nat)
    requires c.thread.Alive? && c.requested != Running && i < ACTUATOR_COUNT
    ensures var r := BeginCycle(s, c, input);
            && r.thread.Alive? && r.thread.loop.pc.BeforeReread?
            && r.thread.loop.pc.cycle.frames.targetEffort[i] == 0 && r.thread.loop.pc.cycle.frames.maxEffort[i] == 0
            && r.thread.loop.pc.cycle.frames.mode[i] != CSP
  {
    hide Watched, Compute, C.Home, Receiving, M.ToFrames, SeenBy;
    var w := Watched(s, c, input);
    WatchedDoes(s, c, input);
    ComputedFramesAre(s, w, input.joints);
    NoEffortIsTorqueFree(s, w.memory, w.thread.loop.activeConfig, SeenBy(w.comms, input.joints), i);
  }

  lemma NoEffortIsTorqueFree(s: Setup, m: M.Memory, config: M.Config, seen: M.Observed, i: nat)
    requires i < ACTUATOR_COUNT
    ensures var f := M.ToFrames(s.plant, m, NoEffortCommand(), config, seen);
            f.targetEffort[i] == 0 && f.maxEffort[i] == 0 && f.mode[i] == CST
  {}

  // A new hand is disconnected and homed by nothing, and has staged Idle, the full rated current as its cap,
  // a filter of 10 Hz with a twentieth of a degree, and soft gains with a little damping everywhere
  lemma NewHandIs(side: P.HandSide, disabled: Mask, memory: M.Memory, homing: H.Homing, i: nat)
    requires i < ACTUATOR_COUNT
    ensures var c := Constructed(side, disabled, memory, homing);
            && c.requested == c.lifecycle == Disconnected && c.homingState == NotRun && c.thread.NoThread? && !c.comms.open
            && c.staged.command.controller.Idle? && c.staged.command.maxEffort[i] == 1000.0
            && c.stagedConfig.position == J.Config(true, 10.0, 0.000873)
            && c.stagedConfig.gains.stiffness[i] == (if i in {4, 5, 7, 8, 10, 11, 13, 14} then 0.01 else 0.02)
            && c.stagedConfig.gains.damping[i] == 0.00001
  {
    assert DEFAULT_STIFFNESS[i] == if i in {4, 5, 7, 8, 10, 11, 13, 14} then 0.01 else 0.02;
  }
}
