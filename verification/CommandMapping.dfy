/** The joint impedance law of cpp/src/hand_core/controllers/joint_impedance_controller.cpp. */
module JointImpedanceController {
  import opened Types
  import opened Frames
  import J = JointPositionController

  // static_cast from double to an integer drops the fraction
  function Truncated(r: real): (n: int)
    ensures (r >= 0.0 ==> 0 <= n && n as real <= r < n as real + 1.0) && (r <= 0.0 ==> n <= 0 && r <= n as real && n as real - 1.0 < r)
  {
    if r >= 0.0 then r.Floor else -((-r).Floor)
  }

  // std::clamp
  function Clamp(v: real, lo: real, hi: real): real { if v < lo then lo else if hi < v then hi else v }

  datatype Gains = Gains(stiffness: J.Active, damping: J.Active)

  // The encoder counts of the cycle before, none right after a reset
  type Previous = Option<J.Counts>

  function Velocity(previous: Previous, position: J.Counts, period: real, i: nat): real
    requires i < ACTUATOR_COUNT && period > 0.0
  {
    match previous
    case None => 0.0
    case Some(p) => (position[i] - p[i]) as real / period
  }

  function PdEffort(stiffness: real, error: real, damping: real, velocity: real): real {
    stiffness * error - damping * velocity
  }

  function Effort(desired: J.Counts, gains: Gains, previous: Previous, position: J.Counts, period: real, i: nat): real
    requires i < ACTUATOR_COUNT && period > 0.0
  {
    PdEffort(gains.stiffness[i], desired[i] as real - position[i] as real, gains.damping[i], Velocity(previous, position, period, i))
  }

  // Clipped on both sides before it is rounded towards zero
  function CappedEffort(effort: real, cap: real): int { Truncated(Clamp(effort, -cap, cap)) }

  function Filled(frames: CommandFrames, desired: J.Counts, gains: Gains, previous: Previous, position: J.Counts,
                  period: real, caps: J.Active): CommandFrames
    requires period > 0.0
  {
    frames.(mode := seq(ACTUATOR_COUNT, _ => CST),
            targetEffort := seq(ACTUATOR_COUNT, i requires 0 <= i < ACTUATOR_COUNT =>
              CappedEffort(Effort(desired, gains, previous, position, period, i), caps[i])))
  }

  // Whatever is asked for, the magnitude stays within the cap, truncated as the cap itself is
  lemma EffortIsCapped(effort: real, cap: real)
    requires cap >= 0.0
    ensures -Truncated(cap) <= CappedEffort(effort, cap) <= Truncated(cap)
    ensures -cap <= effort <= cap ==> CappedEffort(effort, cap) == Truncated(effort)
  {
    var v := Clamp(effort, -cap, cap);
    TruncationIsMonotone(v, cap);
    TruncationIsMonotone(-cap, v);
    assert Truncated(-cap) == -Truncated(cap);
  }

  lemma TruncationIsMonotone(a: real, b: real)
    requires a <= b
    ensures Truncated(a) <= Truncated(b)
  {}

  // The number without its fraction
  predicate IsTruncation(r: real, n: int) {
    (r >= 0.0 ==> 0 <= n && n as real <= r < n as real + 1.0) && (r <= 0.0 ==> n <= 0 && n as real - 1.0 < r <= n as real)
  }

  // What is asked for where the cap allows it, and the cap in its direction beyond
  predicate IsCapped(effort: real, cap: real, n: int) {
    && (-cap <= effort <= cap ==> IsTruncation(effort, n))
    && (effort > cap ==> IsTruncation(cap, n)) && (effort < -cap ==> IsTruncation(-cap, n))
  }

  lemma CappedEffortIs(effort: real, cap: real)
    requires cap >= 0.0
    ensures IsCapped(effort, cap, CappedEffort(effort, cap))
  {}

  // The effort of one actuator, within its cap: the pull of what is left to the target and the damping of
  // the motion since the cycle before
  ghost predicate IsImpedance(desired: J.Counts, gains: Gains, previous: Previous, position: J.Counts, period: real,
                              cap: real, i: nat, n: int)
    requires i < ACTUATOR_COUNT && period > 0.0
  {
    var speed := match previous case Some(last) => (position[i] - last[i]) as real / period case None => 0.0;
    IsCapped(PdEffort(gains.stiffness[i], (desired[i] - position[i]) as real, gains.damping[i], speed), cap, n)
  }

  lemma EffortIs(desired: J.Counts, gains: Gains, previous: Previous, position: J.Counts, period: real,
                 cap: real, i: nat)
    requires i < ACTUATOR_COUNT && period > 0.0 && cap >= 0.0
    ensures IsImpedance(desired, gains, previous, position, period, cap, i,
                        CappedEffort(Effort(desired, gains, previous, position, period, i), cap))
  {
    hide IsCapped, CappedEffort, PdEffort;
    assert (desired[i] - position[i]) as real == desired[i] as real - position[i] as real;
    CappedEffortIs(Effort(desired, gains, previous, position, period, i), cap);
  }

  // Stiffness pulls towards the target in proportion to the error, and damping takes energy out of
  // every motion, in proportion to its square
  lemma PullsAndDamps(stiffness: real, error: real, damping: real, velocity: real)
    requires stiffness >= 0.0 && damping >= 0.0
    ensures var pull := PdEffort(stiffness, error, damping, 0.0);
            var brake := PdEffort(stiffness, error, damping, velocity) - pull;
            && pull == stiffness * error && pull * error >= 0.0
            && brake == -(damping * velocity) && brake * velocity <= 0.0
  {
    NotNegative(stiffness, error);
    NotNegative(damping, velocity);
  }

  lemma NotNegative(gain: real, a: real)
    requires gain >= 0.0
    ensures gain * a * a >= 0.0
  {
    assert a * a >= 0.0;
    assert gain * a * a == gain * (a * a);
  }

  // The same of the effort that is sent: at rest it is never directed away from the target, and a motion
  // never raises it in its own direction
  lemma SentEffortPullsAndDamps(stiffness: real, error: real, damping: real, velocity: real, cap: real)
    requires stiffness >= 0.0 && damping >= 0.0 && cap >= 0.0
    ensures var rest, moving := CappedEffort(PdEffort(stiffness, error, damping, 0.0), cap),
                                CappedEffort(PdEffort(stiffness, error, damping, velocity), cap);
            && (error >= 0.0 ==> rest >= 0) && (error <= 0.0 ==> rest <= 0)
            && (stiffness * error >= 1.0 && cap >= 1.0 ==> rest > 0) && (stiffness * error <= -1.0 && cap >= 1.0 ==> rest < 0)
            && (velocity >= 0.0 ==> moving <= rest) && (velocity <= 0.0 ==> moving >= rest)
  {
    var pull, effort := PdEffort(stiffness, error, damping, 0.0), PdEffort(stiffness, error, damping, velocity);
    hide PdEffort, CappedEffort;
    PullAndBrake(stiffness, error, damping, velocity);
    CappedEffortIs(pull, cap);
    if velocity >= 0.0 {
      CapIsMonotone(effort, pull, cap);
    }
    if velocity <= 0.0 {
      CapIsMonotone(pull, effort, cap);
    }
  }

  lemma PullAndBrake(stiffness: real, error: real, damping: real, velocity: real)
    requires stiffness >= 0.0 && damping >= 0.0
    ensures var pull, effort := PdEffort(stiffness, error, damping, 0.0), PdEffort(stiffness, error, damping, velocity);
            && pull == stiffness * error && (error >= 0.0 ==> pull >= 0.0) && (error <= 0.0 ==> pull <= 0.0)
            && (velocity >= 0.0 ==> effort <= pull) && (velocity <= 0.0 ==> effort >= pull)
  {}

  lemma CapIsMonotone(a: real, b: real, cap: real)
    requires a <= b && cap >= 0.0
    ensures CappedEffort(a, cap) <= CappedEffort(b, cap)
  {
    TruncationIsMonotone(Clamp(a, -cap, cap), Clamp(b, -cap, cap));
  }

  class JointImpedanceController {
    const period: real
    var previousPositionCount: J.Counts
    var havePrevious: bool

    ghost function State(): Previous
      reads this
    {
      if havePrevious then Some(previousPositionCount) else None
    }

    constructor (period: real)
      ensures this.period == period && State() == None
    {
      this.period := period;
      previousPositionCount := Zeros();
      havePrevious := false;
    }

    // Forgets the last position, so that the next effort has no damping
    method ResetVelocity()
      modifies this
      ensures State() == None
    {
      havePrevious := false;
    }

    method ComputeFrames(ik: J.InverseKinematics, target: J.Active, gains: Gains, position: J.Counts, caps: J.Active,
                         frames: CommandFrames)
      returns (out: CommandFrames)
      requires period > 0.0
      modifies this
      ensures State() == Some(position)
      ensures out == Filled(frames, ik(target), gains, old(State()), position, period, caps)
    {
      var desired := ik(target);
      var mode, effort := frames.mode, frames.targetEffort;
      for i := 0 to ACTUATOR_COUNT
        invariant |mode| == |effort| == ACTUATOR_COUNT
        invariant forall j :: 0 <= j < i ==>
          mode[j] == CST && effort[j] == CappedEffort(Effort(desired, gains, State(), position, period, j), caps[j])
      {
        hide CappedEffort, PdEffort;
        var error := desired[i] as real - position[i] as real;
        var velocity := if havePrevious then (position[i] - previousPositionCount[i]) as real / period else 0.0;
        mode := mode[i := CST];
        effort := effort[i := CappedEffort(PdEffort(gains.stiffness[i], error, gains.damping[i], velocity), caps[i])];
      }
      out := frames.(mode := mode, targetEffort := effort);
      ghost var spec := Filled(frames, desired, gains, State(), position, period, caps);
      assert mode == spec.mode && effort == spec.targetEffort;
      previousPositionCount := position;
      havePrevious := true;
    }
  }
}

/** How a command becomes the setpoints of the wire: command_to_frames of
    cpp/src/hand_core/threads/hand_core_control_thread.cpp. */
module CommandMapping {
  import opened Types
  import opened Frames
  import J = JointPositionController
  import I = JointImpedanceController

  const EFFORT_LIMIT: int := 2000
  const INT16_MAX: int := 32767
  const INT32_MIN: int := -0x8000_0000
  const INT32_MAX: int := 0x7FFF_FFFF

  datatype Controller =
    | Idle
    | JointPosition(joints: J.Active)
    | JointImpedance(joints: J.Active)
    | ActuatorPosition(counts: J.Active)
    | ActuatorEffort(percent: J.Active)

  datatype Command = Command(controller: Controller, maxEffort: J.Active)
  datatype Config = Config(position: J.Config, gains: I.Gains)

  // What the mapping looks at in the observed state; a fault or a missing enable masks an actuator
  datatype Observed = Observed(position: J.Counts, joints: J.Joints, fault: Mask, enabled: Mask)

  // What the two controllers remember between cycles
  datatype Memory = Memory(bank: J.Bank, previous: I.Previous)

  datatype Plant = Plant(ik: J.InverseKinematics, response: J.Response, period: real)

  function MaxEffort(caps: J.Active): seq<int> {
    seq(ACTUATOR_COUNT, i requires 0 <= i < ACTUATOR_COUNT => I.Truncated(caps[i]))
  }

  function WithMode(frames: CommandFrames, mode: int): CommandFrames {
    frames.(mode := seq(ACTUATOR_COUNT, _ => mode))
  }

  function DirectPosition(frames: CommandFrames, counts: J.Active): CommandFrames {
    WithMode(frames, CSP).(targetPosition := seq(ACTUATOR_COUNT, i requires 0 <= i < ACTUATOR_COUNT => I.Truncated(counts[i])))
  }

  function DirectEffort(frames: CommandFrames, percent: J.Active, caps: J.Active): CommandFrames {
    WithMode(frames, CST).(targetEffort := seq(ACTUATOR_COUNT, i requires 0 <= i < ACTUATOR_COUNT =>
      I.CappedEffort(percent[i], caps[i])))
  }

  function NextBank(p: Plant, m: Memory, c: Command, config: Config, seen: Observed): J.Bank {
    if c.controller.JointPosition? then J.Computed(m.bank, p.response, config.position, c.controller.joints, seen.joints)
    else J.WasReset(m.bank)
  }

  // The memory of the controller that is not in use is wiped, so that it restarts clean
  function Next(p: Plant, m: Memory, c: Command, config: Config, seen: Observed): Memory {
    Memory(NextBank(p, m, c, config, seen), if c.controller.JointImpedance? then Some(seen.position) else None)
  }

  function Unmasked(p: Plant, m: Memory, c: Command, config: Config, seen: Observed): CommandFrames
    requires p.period > 0.0
  {
    var frames := NoCommand().(maxEffort := MaxEffort(c.maxEffort));
    match c.controller
    case ActuatorPosition(counts) => DirectPosition(frames, counts)
    case ActuatorEffort(percent) => DirectEffort(frames, percent, c.maxEffort)
    case JointPosition(_) => WithMode(frames, CSP).(targetPosition := p.ik(J.Output(NextBank(p, m, c, config, seen))))
    case JointImpedance(joints) =>
      I.Filled(frames, p.ik(joints), config.gains, m.previous, seen.position, p.period, c.maxEffort)
    case Idle => WithMode(frames, CST).(targetEffort := Zeros())
  }

  predicate Masked(seen: Observed, i: nat)
    requires i < ACTUATOR_COUNT
  {
    seen.fault[i] || !seen.enabled[i]
  }

  // A masked actuator holds its measured position, or gets no torque
  function WithMask(frames: CommandFrames, seen: Observed): CommandFrames {
    frames.(
      targetPosition := seq(ACTUATOR_COUNT, i requires 0 <= i < ACTUATOR_COUNT =>
        if Masked(seen, i) && frames.mode[i] == CSP then seen.position[i] else frames.targetPosition[i]),
      targetEffort := seq(ACTUATOR_COUNT, i requires 0 <= i < ACTUATOR_COUNT =>
        if Masked(seen, i) && frames.mode[i] != CSP then 0 else frames.targetEffort[i]))
  }

  function ToFrames(p: Plant, m: Memory, c: Command, config: Config, seen: Observed): CommandFrames
    requires p.period > 0.0
  {
    WithMask(Unmasked(p, m, c, config, seen), seen)
  }

  // --------------------------------- Acceptance --------------------------------

  // A number of the public interface: None is a NaN or an infinity
  type Raw = r: seq<Option<real>> | |r| == ACTUATOR_COUNT witness seq(ACTUATOR_COUNT, _ => None)

  predicate Finite(raw: Raw) { forall i :: 0 <= i < ACTUATOR_COUNT ==> raw[i].Some? }

  function Values(raw: Raw): (v: J.Active)
    requires Finite(raw)
    ensures forall i :: 0 <= i < ACTUATOR_COUNT ==> raw[i] == Some(v[i])
  {
    seq(ACTUATOR_COUNT, i requires 0 <= i < ACTUATOR_COUNT => raw[i].value)
  }

  predicate FitsInt32(v: J.Active) {
    forall i :: 0 <= i < ACTUATOR_COUNT ==> INT32_MIN as real <= v[i] <= INT32_MAX as real
  }

  // set_max_effort bounds the cap before anything downstream sees it
  function BoundedEffort(limit: J.Active): (caps: J.Active)
    ensures GoodCaps(caps)
    ensures forall i :: 0 <= i < ACTUATOR_COUNT && 0.0 <= limit[i] <= EFFORT_LIMIT as real ==> caps[i] == limit[i]
  {
    seq(ACTUATOR_COUNT, i requires 0 <= i < ACTUATOR_COUNT => I.Clamp(limit[i], 0.0, EFFORT_LIMIT as real))
  }

  predicate GoodCaps(caps: J.Active) { forall i :: 0 <= i < ACTUATOR_COUNT ==> 0.0 <= caps[i] <= EFFORT_LIMIT as real }

  // --------------------------------- Guarantees --------------------------------

  predicate PositionMode(c: Command) { c.controller.JointPosition? || c.controller.ActuatorPosition? }

  lemma ModeFollowsCommand(p: Plant, m: Memory, c: Command, config: Config, seen: Observed, i: nat)
    requires p.period > 0.0 && i < ACTUATOR_COUNT
    ensures ToFrames(p, m, c, config, seen).mode[i] == if PositionMode(c) then CSP else CST
  {}

  lemma MaxEffortOf(p: Plant, m: Memory, c: Command, config: Config, seen: Observed)
    requires p.period > 0.0
    ensures ToFrames(p, m, c, config, seen).maxEffort == MaxEffort(c.maxEffort)
  {
    hide J.Computed, I.Effort;
  }

  // Every torque that leaves the mapping is within the cap that goes with it, and fits the wire
  lemma TorqueIsBounded(p: Plant, m: Memory, c: Command, config: Config, seen: Observed, i: nat)
    requires p.period > 0.0 && i < ACTUATOR_COUNT && GoodCaps(c.maxEffort)
    ensures var f := ToFrames(p, m, c, config, seen);
            && -f.maxEffort[i] <= f.targetEffort[i] <= f.maxEffort[i]
            && 0 <= f.maxEffort[i] <= EFFORT_LIMIT <= INT16_MAX
            && f.maxEffort[i] as real <= c.maxEffort[i]
  {
    hide J.Computed, I.Effort;
    var cap := c.maxEffort[i];
    MaxEffortOf(p, m, c, config, seen);
    match c.controller
    case ActuatorEffort(percent) => I.EffortIsCapped(percent[i], cap);
    case JointImpedance(joints) =>
      I.EffortIsCapped(I.Effort(p.ik(joints), config.gains, m.previous, seen.position, p.period, i), cap);
    case Idle =>
    case JointPosition(_) =>
    case ActuatorPosition(_) =>
  }

  // A faulted or not enabled actuator is neither pushed nor moved
  lemma MaskedIsHarmless(p: Plant, m: Memory, c: Command, config: Config, seen: Observed, i: nat)
    requires p.period > 0.0 && i < ACTUATOR_COUNT && (seen.fault[i] || !seen.enabled[i])
    ensures var f := ToFrames(p, m, c, config, seen);
            && ((f.mode[i] == CSP && f.targetPosition[i] == seen.position[i])
                || (f.mode[i] == CST && f.targetEffort[i] == 0))
            && f.targetEffort[i] == 0
  {
    hide J.Computed, I.Filled;
    ModeFollowsCommand(p, m, c, config, seen, i);
  }

  // What an actuator that is neither faulted nor disabled gets, by the kind of the command
  ghost predicate IsServed(p: Plant, m: Memory, c: Command, config: Config, seen: Observed, f: CommandFrames, i: nat)
    requires p.period > 0.0 && i < ACTUATOR_COUNT
  {
    match c.controller
    case Idle => f.mode[i] == CST && f.targetEffort[i] == 0
    case ActuatorPosition(counts) => f.mode[i] == CSP && I.IsTruncation(counts[i], f.targetPosition[i])
    case ActuatorEffort(percent) => f.mode[i] == CST && I.IsCapped(percent[i], c.maxEffort[i], f.targetEffort[i])
    case JointPosition(joints) =>
      && f.mode[i] == CSP
      && f.targetPosition[i] ==
           p.ik(J.Output(J.Used(m.bank, p.response, J.Follow(config.position, joints, seen.joints))))[i]
    case JointImpedance(joints) =>
      && f.mode[i] == CST
      && I.IsImpedance(p.ik(joints), config.gains, m.previous, seen.position, p.period, c.maxEffort[i], i, f.targetEffort[i])
  }

  lemma UnmaskedIsServed(p: Plant, m: Memory, c: Command, config: Config, seen: Observed, i: nat)
    requires p.period > 0.0 && i < ACTUATOR_COUNT && !Masked(seen, i) && c.maxEffort[i] >= 0.0
    ensures IsServed(p, m, c, config, seen, ToFrames(p, m, c, config, seen), i)
  {
    hide J.Computed, J.Output, I.CappedEffort, I.Truncated, I.Effort, I.IsImpedance, I.IsCapped;
    var f, cap := ToFrames(p, m, c, config, seen), c.maxEffort[i];
    match c.controller
    case Idle =>
    case ActuatorPosition(counts) => assert f.targetPosition[i] == I.Truncated(counts[i]);
    case ActuatorEffort(percent) => I.CappedEffortIs(percent[i], cap);
    case JointPosition(joints) =>
    case JointImpedance(joints) =>
      I.EffortIs(p.ik(joints), config.gains, m.previous, seen.position, p.period, cap, i);
  }

  // An accepted actuator position reaches an enabled drive as the nearest count towards zero, and
  // the count fits the 32 bits of the setpoint
  lemma CountsArrive(p: Plant, m: Memory, c: Command, config: Config, seen: Observed, i: nat)
    requires p.period > 0.0 && i < ACTUATOR_COUNT && c.controller.ActuatorPosition? && FitsInt32(c.controller.counts)
    requires !Masked(seen, i)
    ensures var n, r := ToFrames(p, m, c, config, seen).targetPosition[i], c.controller.counts[i];
            && INT32_MIN <= n <= INT32_MAX
            && (r >= 0.0 ==> n as real <= r < n as real + 1.0) && (r <= 0.0 ==> n as real - 1.0 < r <= n as real)
  {
    var r := c.controller.counts[i];
    assert ToFrames(p, m, c, config, seen).targetPosition[i] == I.Truncated(r);
  }

  // Leaving joint position control for one cycle is enough to start from the measured pose again,
  // and leaving impedance control is enough to lose the old velocity
  lemma ReentryStartsClean(p: Plant, m: Memory, c: Command, config: Config, seen: Observed, i: nat,
                           target: real, measured: real, position: J.Counts)
    requires i < ACTUATOR_COUNT && p.period > 0.0
    ensures var m' := Next(p, m, c, config, seen);
            && (!c.controller.JointPosition? ==> J.Reference(m'.bank[i], target, Some(measured)) == measured)
            && (!c.controller.JointImpedance? ==> I.Velocity(m'.previous, position, p.period, i) == 0.0)
  {}

  // ------------------------------------ Runs ------------------------------------

  datatype Input = Input(command: Command, config: Config, seen: Observed)

  // What the controllers remember after some cycles, and what those asked of the position controller
  function Remembered(p: Plant, m: Memory, inputs: seq<Input>): Memory
    decreases |inputs|
  {
    if inputs == [] then m
    else
      var last := Last(inputs);
      Next(p, Remembered(p, m, inputs[..|inputs| - 1]), last.command, last.config, last.seen)
  }

  function UseOf(input: Input): J.Use {
    match input.command.controller
    case JointPosition(joints) => J.Follow(input.config.position, joints, input.seen.joints)
    case _ => J.Leave
  }

  function UsesOf(inputs: seq<Input>): (uses: seq<J.Use>)
    ensures |uses| == |inputs|
  {
    seq(|inputs|, k requires 0 <= k < |inputs| => UseOf(inputs[k]))
  }

  lemma {:induction false} RememberedIsAfter(p: Plant, m: Memory, inputs: seq<Input>)
    ensures Remembered(p, m, inputs).bank == J.After(m.bank, p.response, UsesOf(inputs))
    decreases |inputs|
  {
    if inputs != [] {
      hide J.Computed, J.WasReset;
      var before := inputs[..|inputs| - 1];
      RememberedIsAfter(p, m, before);
      assert UsesOf(inputs)[..|inputs| - 1] == UsesOf(before);
    }
  }

  // The joints that the inverse kinematics gets in a joint position cycle stay within the span of what
  // has entered each filter, over whole runs of commands of any kind
  lemma SentJointsStayInHull(p: Plant, m: Memory, inputs: seq<Input>, i: nat, lo: real, hi: real)
    requires J.GoodResponse(p.response) && i < ACTUATOR_COUNT && m.bank[i].held.None?
    requires inputs != [] && Last(inputs).command.controller.JointPosition?
    requires forall k, v :: 0 <= k < |inputs| && J.Enters(m.bank[i], J.EventsOf(p.response, UsesOf(inputs), i), k, v) ==>
               J.Between(v, lo, hi)
    ensures J.Between(J.Output(Remembered(p, m, inputs).bank)[i], lo, hi)
  {
    hide J.After, J.Enters, J.EventsOf, J.Output, J.Between, J.GoodResponse, Remembered;
    RememberedIsAfter(p, m, inputs);
    J.JointsStayInHull(m.bank, p.response, UsesOf(inputs), i, lo, hi);
  }

  // What the impedance controller takes for the speed: the motion since the cycle before, where that one
  // was an impedance cycle too, and none where it was not
  lemma SpeedIsMeasured(p: Plant, m: Memory, inputs: seq<Input>)
    requires inputs != []
    ensures var last := Last(inputs);
            Remembered(p, m, inputs).previous == if last.command.controller.JointImpedance? then Some(last.seen.position) else None
  {
    hide J.Computed, J.WasReset;
  }

  // Over whole runs: the last of two impedance cycles in a row sends the pull towards its target less the
  // damping of the motion between them, within the cap
  lemma ImpedanceOverRuns(p: Plant, m: Memory, inputs: seq<Input>, last: Input, i: nat)
    requires p.period > 0.0 && i < ACTUATOR_COUNT && inputs != []
    requires last.command.controller.JointImpedance? && !Masked(last.seen, i) && last.command.maxEffort[i] >= 0.0
    ensures var before, gains := Last(inputs), last.config.gains;
            var error := (p.ik(last.command.controller.joints)[i] - last.seen.position[i]) as real;
            var speed := if before.command.controller.JointImpedance?
                         then (last.seen.position[i] - before.seen.position[i]) as real / p.period else 0.0;
            I.IsCapped(I.PdEffort(gains.stiffness[i], error, gains.damping[i], speed), last.command.maxEffort[i],
                       ToFrames(p, Remembered(p, m, inputs), last.command, last.config, last.seen).targetEffort[i])
  {
    hide Remembered, ToFrames, I.PdEffort, I.IsCapped;
    SpeedIsMeasured(p, m, inputs);
    UnmaskedIsServed(p, Remembered(p, m, inputs), last.command, last.config, last.seen, i);
  }

  // Over whole runs: a joint position cycle sends the inverse kinematics of the targets as they have been
  // filtered since the controller was entered
  lemma JointsOverRuns(p: Plant, m: Memory, inputs: seq<Input>, last: Input, i: nat)
    requires p.period > 0.0 && i < ACTUATOR_COUNT
    requires last.command.controller.JointPosition? && !Masked(last.seen, i)
    ensures ToFrames(p, Remembered(p, m, inputs), last.command, last.config, last.seen).targetPosition[i]
         == p.ik(J.Output(J.After(m.bank, p.response, UsesOf(inputs + [last]))))[i]
  {
    hide Remembered, J.Output, J.Computed, J.After;
    var all := inputs + [last];
    assert all[..|all| - 1] == inputs;
    RememberedIsAfter(p, m, all);
    LastIsNext(p, m, all);
    assert ToFrames(p, Remembered(p, m, inputs), last.command, last.config, last.seen).targetPosition[i]
        == p.ik(J.Output(NextBank(p, Remembered(p, m, inputs), last.command, last.config, last.seen)))[i];
  }

  lemma LastIsNext(p: Plant, m: Memory, inputs: seq<Input>)
    requires inputs != []
    ensures var last := Last(inputs);
            Remembered(p, m, inputs) == Next(p, Remembered(p, m, inputs[..|inputs| - 1]), last.command, last.config, last.seen)
  {}

  // ------------------------------------ Class -----------------------------------

  class CommandMapper {
    const ik: J.InverseKinematics
    const position: J.JointPositionController
    const impedance: I.JointImpedanceController

    ghost predicate Valid()
      reads this, position
    {
      position.Valid() && impedance.period > 0.0
    }

    ghost function State(): Memory
      requires Valid()
      reads this, position, position.held, position.section, impedance
    {
      Memory(position.State(), impedance.State())
    }

    ghost function Setup(): Plant
      reads this
    {
      Plant(ik, position.response, impedance.period)
    }

    constructor (ik: J.InverseKinematics, response: J.Response, period: real)
      requires period > 0.0
      ensures Valid() && fresh({position, impedance}) && fresh(position.held) && fresh(position.section)
      ensures Setup() == Plant(ik, response, period)
    {
      this.ik := ik;
      position := new J.JointPositionController(response);
      impedance := new I.JointImpedanceController(period);
    }

    // The setpoints of the controller the command selects
    method Fill(command: Command, config: Config, seen: Observed) returns (frames: CommandFrames)
      requires Valid()
      modifies position, position.held, position.section, impedance
      ensures Valid() && frames == Unmasked(Setup(), old(State()), command, config, seen)
      ensures position.State() == if command.controller.JointPosition?
                                  then NextBank(Setup(), old(State()), command, config, seen) else old(position.State())
      ensures command.controller.JointImpedance? ==> impedance.State() == Some(seen.position)
    {
      hide J.Computed, I.Filled, J.Output;
      frames := NoCommand().(maxEffort := MaxEffort(command.maxEffort));
      match command.controller
      case ActuatorPosition(counts) =>
        frames := DirectPosition(frames, counts);
      case ActuatorEffort(percent) =>
        frames := DirectEffort(frames, percent, command.maxEffort);
      case JointPosition(joints) =>
        frames := position.ComputeFrames(ik, config.position, joints, seen.joints, frames);
      case JointImpedance(joints) =>
        frames := impedance.ComputeFrames(ik, joints, config.gains, seen.position, command.maxEffort, frames);
      case Idle =>
        frames := WithMode(frames, CST).(targetEffort := Zeros());
    }

    method Mask(frames: CommandFrames, seen: Observed) returns (out: CommandFrames)
      ensures out == WithMask(frames, seen)
    {
      var targetPosition, targetEffort := frames.targetPosition, frames.targetEffort;
      for i := 0 to ACTUATOR_COUNT
        invariant |targetPosition| == |targetEffort| == ACTUATOR_COUNT
        invariant forall j :: 0 <= j < ACTUATOR_COUNT ==>
          targetPosition[j] == if j < i && Masked(seen, j) && frames.mode[j] == CSP then seen.position[j] else frames.targetPosition[j]
        invariant forall j :: 0 <= j < ACTUATOR_COUNT ==>
          targetEffort[j] == if j < i && Masked(seen, j) && frames.mode[j] != CSP then 0 else frames.targetEffort[j]
      {
        if !Masked(seen, i) {
          continue;
        }
        if frames.mode[i] == CSP {
          targetPosition := targetPosition[i := seen.position[i]];
        } else {
          targetEffort := targetEffort[i := 0];
        }
      }
      out := frames.(targetPosition := targetPosition, targetEffort := targetEffort);
      ghost var spec := WithMask(frames, seen);
      assert targetPosition == spec.targetPosition && targetEffort == spec.targetEffort;
    }

    method CommandToFrames(command: Command, config: Config, seen: Observed) returns (frames: CommandFrames)
      requires Valid()
      modifies position, position.held, position.section, impedance
      ensures Valid() && frames == ToFrames(Setup(), old(State()), command, config, seen)
      ensures State() == Next(Setup(), old(State()), command, config, seen)
    {
      hide Unmasked, WithMask, J.Computed, J.WasReset;
      frames := Fill(command, config, seen);
      if !command.controller.JointPosition? {
        position.ResetFilter();
      }
      if !command.controller.JointImpedance? {
        impedance.ResetVelocity();
      }
      frames := Mask(frames, seen);
    }
  }
}
