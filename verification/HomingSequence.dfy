/** The homing state machine of cpp/src/hand_core/comms/state_machine/homing_sequence.cpp. */
module HomingSequence {
  import opened Types
  import opened Frames
  import C = Cia402

  const PRELOAD_EFFORT: int := -800
  const MAX_EFFORT: int := 1000
  const PRELOAD_CYCLES: nat := 2000
  const SETTLE_CYCLES: nat := 1000
  const EDGE_CYCLES: nat := 1000
  const ENABLE_TIMEOUT_CYCLES: nat := 2000
  const CLEAR_TIMEOUT_CYCLES: nat := 2000
  const TRIGGER_TIMEOUT_CYCLES: nat := 2000

  datatype Outcome = InProgress | Succeeded | EnableTimeout | ClearTimeout | HomingError | TriggerTimeout
  datatype Phase = Preparing | PreloadingToHardStop | SettingOrigin
  datatype Stage = Enable | ClearDisable | ClearReEnable | Preload | Settle | TriggerWait

  function PhaseOf(stage: Stage): Phase {
    match stage
    case Enable => Preparing
    case ClearDisable => Preparing
    case ClearReEnable => Preparing
    case Preload => PreloadingToHardStop
    case Settle => SettingOrigin
    case TriggerWait => SettingOrigin
  }

  // What the user is told about a failure
  function FailurePhase(outcome: Outcome): Phase {
    if outcome.TriggerTimeout? || outcome.HomingError? then SettingOrigin else Preparing
  }

  datatype Homing = Homing(
    active: bool, stage: Stage, cycle: nat, outcome: Outcome,
    disabled: Mask, present: Mask, inProgressSeen: Mask, attained: Mask, failed: Mask,
    failedStage: Stage, failedStatus: seq<bv16>, failedPosition: seq<int>)

  // ------------------------------ Status tests -------------------------------

  predicate Enabled(rx: StateFrames, i: nat)
    requires i < ACTUATOR_COUNT
  {
    C.Has(rx.status[i], C.OPERATION_ENABLED)
  }

  predicate Attained(rx: StateFrames, i: nat)
    requires i < ACTUATOR_COUNT
  {
    C.Has(rx.status[i], C.HOMING_ATTAINED)
  }

  predicate Error(rx: StateFrames, i: nat)
    requires i < ACTUATOR_COUNT
  {
    C.Has(rx.status[i], C.HOMING_ERROR)
  }

  predicate AllPresentEnabled(rx: StateFrames, present: Mask) {
    forall i :: 0 <= i < ACTUATOR_COUNT && present[i] ==> Enabled(rx, i)
  }

  predicate NoPresentEnabled(rx: StateFrames, present: Mask) {
    forall i :: 0 <= i < ACTUATOR_COUNT && present[i] ==> !Enabled(rx, i)
  }

  predicate AllPresentClear(rx: StateFrames, present: Mask) {
    forall i :: 0 <= i < ACTUATOR_COUNT && present[i] ==> !Attained(rx, i)
  }

  // Who is to blame when the disable and the re-enable stage run out of cycles
  function StillEnabled(rx: StateFrames, present: Mask): Mask {
    seq(ACTUATOR_COUNT, i requires 0 <= i < ACTUATOR_COUNT => present[i] && Enabled(rx, i))
  }

  function NotCleared(rx: StateFrames, present: Mask): Mask {
    seq(ACTUATOR_COUNT, i requires 0 <= i < ACTUATOR_COUNT =>
      present[i] && (!Enabled(rx, i) || Attained(rx, i)))
  }

  function NotAttained(failed: Mask, present: Mask, attained: Mask): Mask {
    seq(ACTUATOR_COUNT, i requires 0 <= i < ACTUATOR_COUNT => failed[i] || (present[i] && !attained[i]))
  }

  // -------------------------------- One step ---------------------------------

  // The fields keep the last failure's record, as the source's do
  function Started(h: Homing, disabled: Mask): Homing {
    h.(active := true, outcome := InProgress, disabled := disabled, present := AllOf(false),
       inProgressSeen := AllOf(false), attained := AllOf(false), failed := AllOf(false),
       stage := Enable, cycle := 0)
  }

  function Cancelled(h: Homing): Homing { h.(active := false) }

  function Enter(h: Homing, stage: Stage): Homing { h.(stage := stage, cycle := 0) }

  function End(h: Homing, outcome: Outcome): Homing { h.(active := false, outcome := outcome) }

  function Latched(h: Homing, rx: StateFrames): Mask {
    seq(ACTUATOR_COUNT, i requires 0 <= i < ACTUATOR_COUNT =>
      h.present[i] || (!h.disabled[i] && Enabled(rx, i)))
  }

  function StepEnable(h: Homing, rx: StateFrames): Homing {
    var h1 := h.(present := Latched(h, rx));
    if (forall i :: 0 <= i < ACTUATOR_COUNT && !h.disabled[i] ==> h1.present[i]) && Any(h1.present) then
      Enter(h1, ClearDisable)
    else if h.cycle < ENABLE_TIMEOUT_CYCLES then h1
    else if Any(h1.present) then Enter(h1, ClearDisable)
    else End(h1, EnableTimeout).(failed := AllOf(true))
  }

  function StepClearDisable(h: Homing, rx: StateFrames): Homing {
    if NoPresentEnabled(rx, h.present) then Enter(h, ClearReEnable)
    else if h.cycle < CLEAR_TIMEOUT_CYCLES then h
    else End(h, ClearTimeout).(failed := StillEnabled(rx, h.present))
  }

  function StepClearReEnable(h: Homing, rx: StateFrames): Homing {
    if AllPresentEnabled(rx, h.present) && AllPresentClear(rx, h.present) then Enter(h, Preload)
    else if h.cycle < CLEAR_TIMEOUT_CYCLES then h
    else End(h, ClearTimeout).(failed := NotCleared(rx, h.present))
  }

  // evaluate_homing_trigger: an actuator that has once shown bit12 at 0 counts as attained with the
  // first 1 that follows without bit13
  function Triggered(h: Homing, rx: StateFrames): Homing {
    h.(inProgressSeen := seq(ACTUATOR_COUNT, i requires 0 <= i < ACTUATOR_COUNT =>
         h.inProgressSeen[i] || (h.present[i] && !Attained(rx, i))),
       attained := seq(ACTUATOR_COUNT, i requires 0 <= i < ACTUATOR_COUNT =>
         h.attained[i] || (h.present[i] && Attained(rx, i) && h.inProgressSeen[i] && !Error(rx, i))),
       failed := seq(ACTUATOR_COUNT, i requires 0 <= i < ACTUATOR_COUNT =>
         h.failed[i] || (h.present[i] && Error(rx, i))))
  }

  predicate AnyError(h: Homing, rx: StateFrames) {
    exists i :: 0 <= i < ACTUATOR_COUNT && h.present[i] && Error(rx, i)
  }

  predicate AllAttained(h: Homing) {
    forall i :: 0 <= i < ACTUATOR_COUNT && h.present[i] ==> h.attained[i]
  }

  function StepTrigger(h: Homing, rx: StateFrames): Homing {
    var h1 := Triggered(h, rx);
    if AnyError(h, rx) then End(h1, HomingError)
    else if AllAttained(h1) then End(h1, Succeeded)
    else if h.cycle < TRIGGER_TIMEOUT_CYCLES then h1
    else End(h1, TriggerTimeout).(failed := NotAttained(h1.failed, h.present, h1.attained))
  }

  function StepStage(h: Homing, rx: StateFrames): Homing {
    match h.stage
    case Enable => StepEnable(h, rx)
    case ClearDisable => StepClearDisable(h, rx)
    case ClearReEnable => StepClearReEnable(h, rx)
    case Preload => if h.cycle >= PRELOAD_CYCLES then Enter(h, Settle) else h
    case Settle => if h.cycle >= SETTLE_CYCLES then Enter(h, TriggerWait) else h
    case TriggerWait => StepTrigger(h, rx)
  }

  function Step(h: Homing, rx: StateFrames): Homing {
    var h1 := StepStage(h.(cycle := h.cycle + 1), rx);
    if h.active && !h1.active && h1.outcome != Succeeded then
      h1.(failedStage := h.stage, failedStatus := rx.status, failedPosition := rx.position)
    else h1
  }

  // Setpoints of a single mode, with the effort for the masked actuators alone
  function Fill(out: CommandFrames, mask: Mask, mode: int, effort: int): CommandFrames {
    out.(mode := seq(ACTUATOR_COUNT, _ => mode),
         targetEffort := seq(ACTUATOR_COUNT, i requires 0 <= i < ACTUATOR_COUNT => if mask[i] then effort else 0),
         targetPosition := Zeros(),
         maxEffort := seq(ACTUATOR_COUNT, _ => MAX_EFFORT),
         homingMethod := Zeros())
  }

  function Inverted(m: Mask): Mask {
    seq(ACTUATOR_COUNT, i requires 0 <= i < ACTUATOR_COUNT => !m[i])
  }

  function Command(h: Homing, out: CommandFrames): CommandFrames {
    match h.stage
    case Enable => Fill(out, Inverted(h.disabled), CST, 0)
    case ClearDisable => Fill(out, h.present, HOMING_MODE, 0)
    case ClearReEnable => Fill(out, h.present, HOMING_MODE, 0)
    case Preload => Fill(out, h.present, CST, PRELOAD_EFFORT)
    case Settle =>
      Fill(out, h.present, if h.cycle + 1 + EDGE_CYCLES > SETTLE_CYCLES then HOMING_MODE else CST, PRELOAD_EFFORT)
    case TriggerWait => Fill(out, h.present, HOMING_MODE, PRELOAD_EFFORT)
  }

  function WordMode(h: Homing): C.Mode {
    match h.stage
    case ClearDisable => C.SwitchOn
    case TriggerWait => C.Homing
    case _ => C.Enable
  }

  // ------------------------------- Termination -------------------------------

  function Limit(stage: Stage): nat {
    match stage
    case Enable => ENABLE_TIMEOUT_CYCLES
    case ClearDisable => CLEAR_TIMEOUT_CYCLES
    case ClearReEnable => CLEAR_TIMEOUT_CYCLES
    case Preload => PRELOAD_CYCLES
    case Settle => SETTLE_CYCLES
    case TriggerWait => TRIGGER_TIMEOUT_CYCLES
  }

  // Cycles of the stages after this one
  function Later(stage: Stage): nat {
    match stage
    case Enable => 9000
    case ClearDisable => 7000
    case ClearReEnable => 5000
    case Preload => 3000
    case Settle => 2000
    case TriggerWait => 0
  }

  const LONGEST_RUN: nat := 11000

  predicate InBudget(h: Homing) { h.active ==> h.cycle < Limit(h.stage) }

  function Remaining(h: Homing): nat {
    if h.active && h.cycle <= Limit(h.stage) then Limit(h.stage) - h.cycle + Later(h.stage) else 0
  }

  lemma StepSpendsBudget(h: Homing, rx: StateFrames)
    requires h.active && InBudget(h)
    ensures InBudget(Step(h, rx)) && Remaining(Step(h, rx)) < Remaining(h) <= LONGEST_RUN
  {}

  // ----------------------------------- Runs ----------------------------------

  // The machine is stepped once per cycle for as long as it is active
  ghost predicate IsRun(disabled: Mask, hs: seq<Homing>, rxs: seq<StateFrames>) {
    && |hs| == |rxs| + 1
    && (exists h :: hs[0] == Started(h, disabled))
    && forall k :: 0 <= k < |rxs| ==> hs[k + 1] == if hs[k].active then Step(hs[k], rxs[k]) else hs[k]
  }

  // Whatever the hand sends, homing is over after 11000 steps
  lemma {:induction false} EndsInTime(disabled: Mask, hs: seq<Homing>, rxs: seq<StateFrames>, k: nat)
    requires IsRun(disabled, hs, rxs) && k < |hs|
    ensures InBudget(hs[k]) && k + Remaining(hs[k]) <= if hs[k].active then LONGEST_RUN else k
    ensures k >= LONGEST_RUN ==> !hs[k].active
  {
    if k > 0 {
      EndsInTime(disabled, hs, rxs, k - 1);
      if hs[k - 1].active {
        StepSpendsBudget(hs[k - 1], rxs[k - 1]);
      }
    }
  }

  // ---------------------------------- Class -----------------------------------

  // The loop behind Fill: preload for everybody in the mask, no torque for the rest
  method FillHomingCommand(out: CommandFrames, mask: Mask, modeOfOperation: int, effort: int)
    returns (filled: CommandFrames)
    ensures filled == Fill(out, mask, modeOfOperation, effort)
  {
    var mode, targetEffort := out.mode, out.targetEffort;
    var targetPosition, maxEffort, method_ := out.targetPosition, out.maxEffort, out.homingMethod;
    for i := 0 to ACTUATOR_COUNT
      invariant |mode| == |targetEffort| == |targetPosition| == |maxEffort| == |method_| == ACTUATOR_COUNT
      invariant forall j :: 0 <= j < i ==> mode[j] == modeOfOperation && targetPosition[j] == 0
      invariant forall j :: 0 <= j < i ==> targetEffort[j] == if mask[j] then effort else 0
      invariant forall j :: 0 <= j < i ==> maxEffort[j] == MAX_EFFORT && method_[j] == 0
    {
      mode := mode[i := modeOfOperation];
      targetEffort := targetEffort[i := if mask[i] then effort else 0];
      targetPosition := targetPosition[i := 0];
      maxEffort := maxEffort[i := MAX_EFFORT];
      method_ := method_[i := 0];
    }
    filled := out.(mode := mode, targetEffort := targetEffort, targetPosition := targetPosition,
                   maxEffort := maxEffort, homingMethod := method_);
    var spec := Fill(out, mask, modeOfOperation, effort);
    assert mode == spec.mode && targetEffort == spec.targetEffort;
    assert targetPosition == spec.targetPosition && maxEffort == spec.maxEffort && method_ == spec.homingMethod;
  }

  // The loop of evaluate_homing_trigger over the three latches
  method EvaluateActuators(rx: StateFrames, present: Mask, seen0: Mask, attained0: Mask, failed0: Mask)
    returns (seen: Mask, attained: Mask, failed: Mask, anyError: bool, allAttained: bool)
    ensures forall i :: 0 <= i < ACTUATOR_COUNT ==>
      && seen[i] == (seen0[i] || (present[i] && !Attained(rx, i)))
      && attained[i] == (attained0[i] || (present[i] && Attained(rx, i) && seen0[i] && !Error(rx, i)))
      && failed[i] == (failed0[i] || (present[i] && Error(rx, i)))
    ensures anyError <==> exists i :: 0 <= i < ACTUATOR_COUNT && present[i] && Error(rx, i)
    ensures allAttained <==> forall i :: 0 <= i < ACTUATOR_COUNT && present[i] ==> attained[i]
  {
    hide Error, Attained;
    seen, attained, failed, anyError, allAttained := seen0, attained0, failed0, false, true;
    for i := 0 to ACTUATOR_COUNT
      invariant forall j :: 0 <= j < i ==>
        && seen[j] == (seen0[j] || (present[j] && !Attained(rx, j)))
        && attained[j] == (attained0[j] || (present[j] && Attained(rx, j) && seen0[j] && !Error(rx, j)))
        && failed[j] == (failed0[j] || (present[j] && Error(rx, j)))
      invariant forall j :: i <= j < ACTUATOR_COUNT ==>
        seen[j] == seen0[j] && attained[j] == attained0[j] && failed[j] == failed0[j]
      invariant anyError <==> exists j :: 0 <= j < i && present[j] && Error(rx, j)
      invariant allAttained <==> forall j :: 0 <= j < i && present[j] ==> attained[j]
    {
      if !present[i] {
        continue;
      }
      if Error(rx, i) {
        failed := failed[i := true];
        anyError := true;
      }
      if !Attained(rx, i) {
        seen := seen[i := true];
      } else if seen[i] && !Error(rx, i) {
        attained := attained[i := true];
      }
      if !attained[i] {
        allAttained := false;
      }
    }
  }

  lemma TriggeredLatches(h: Homing, rx: StateFrames, seen: Mask, attained: Mask, failed: Mask)
    requires forall i :: 0 <= i < ACTUATOR_COUNT ==>
      && seen[i] == (h.inProgressSeen[i] || (h.present[i] && !Attained(rx, i)))
      && attained[i] == (h.attained[i] || (h.present[i] && Attained(rx, i) && h.inProgressSeen[i] && !Error(rx, i)))
      && failed[i] == (h.failed[i] || (h.present[i] && Error(rx, i)))
    ensures h.(inProgressSeen := seen, attained := attained, failed := failed) == Triggered(h, rx)
    ensures Triggered(h, rx).present == h.present && Triggered(h, rx).cycle == h.cycle
  {
    var t := Triggered(h, rx);
    assert seen == t.inProgressSeen && attained == t.attained && failed == t.failed;
  }

  class HomingSequence {
    var active: bool
    var stage: Stage
    var cycle: nat
    var outcome: Outcome
    var disabled: Mask
    var present: Mask
    var inProgressSeen: Mask
    var attained: Mask
    var failed: Mask
    var failedStage: Stage
    var failedStatus: seq<bv16>
    var failedPosition: seq<int>

    ghost function State(): Homing
      reads this
    {
      Homing(active, stage, cycle, outcome, disabled, present, inProgressSeen, attained, failed,
             failedStage, failedStatus, failedPosition)
    }

    constructor ()
      ensures !active && outcome == InProgress && stage == Enable && cycle == 0
      ensures disabled == present == inProgressSeen == attained == failed == AllOf(false)
    {
      active, stage, cycle, outcome := false, Enable, 0, InProgress;
      disabled, present, inProgressSeen := AllOf(false), AllOf(false), AllOf(false);
      attained, failed := AllOf(false), AllOf(false);
      failedStage, failedStatus, failedPosition := Enable, NoWords(), Zeros();
    }

    method StartHoming(disabled: Mask)
      modifies this
      ensures State() == Started(old(State()), disabled)
    {
      active := true;
      outcome := InProgress;
      this.disabled := disabled;
      present, inProgressSeen, attained, failed := AllOf(false), AllOf(false), AllOf(false), AllOf(false);
      EnterStage(Enable);
    }

    method CancelHoming()
      modifies this`active
      ensures State() == Cancelled(old(State()))
    {
      active := false;
    }

    method EnterStage(next: Stage)
      modifies this`stage, this`cycle
      ensures State() == Enter(old(State()), next)
    {
      stage := next;
      cycle := 0;
    }

    // The enable window's latch; tells whether everybody who takes part has been latched
    method LatchPresent(rx: StateFrames) returns (allLatched: bool)
      modifies this`present
      ensures State() == old(State()).(present := Latched(old(State()), rx))
      ensures allLatched <==> forall i :: 0 <= i < ACTUATOR_COUNT && !disabled[i] ==> present[i]
    {
      allLatched := true;
      ghost var latched := Latched(State(), rx);
      for i := 0 to ACTUATOR_COUNT
        invariant forall j :: 0 <= j < i ==> present[j] == latched[j]
        invariant forall j :: i <= j < ACTUATOR_COUNT ==> present[j] == old(present)[j]
        invariant allLatched <==> forall j :: 0 <= j < i && !disabled[j] ==> present[j]
      {
        if disabled[i] {
          continue;
        }
        if Enabled(rx, i) {
          present := present[i := true];
        }
        if !present[i] {
          allLatched := false;
        }
      }
      assert present == latched;
    }

    method AnyPresent() returns (any: bool)
      ensures any <==> Any(present)
    {
      for i := 0 to ACTUATOR_COUNT
        invariant forall j :: 0 <= j < i ==> !present[j]
      {
        if present[i] {
          return true;
        }
      }
      return false;
    }

    // One look at all latches. Failures are settled here; whether everybody is done is returned
    method EvaluateHomingTrigger(rx: StateFrames) returns (done: bool)
      modifies this`inProgressSeen, this`attained, this`failed, this`outcome, this`active
      ensures done ==> State() == Triggered(old(State()), rx) && AllAttained(State()) && !AnyError(old(State()), rx)
      ensures !done ==> State() == StepTrigger(old(State()), rx)
    {
      ghost var h := State();
      var anyError, allAttained;
      inProgressSeen, attained, failed, anyError, allAttained :=
        EvaluateActuators(rx, present, inProgressSeen, attained, failed);
      TriggeredLatches(h, rx, inProgressSeen, attained, failed);
      hide Triggered, Error, Attained, NotAttained, Step, StepStage, Any;
      if anyError {
        outcome, active := HomingError, false;
      } else if cycle >= TRIGGER_TIMEOUT_CYCLES && !allAttained {
        BlameWhere(NotAttained(failed, present, attained));
        outcome, active := TriggerTimeout, false;
      }
      done := !anyError && allAttained;
    }

    method BlameWhere(culprits: Mask)
      modifies this`failed
      ensures State() == old(State()).(failed := culprits)
    {
      for i := 0 to ACTUATOR_COUNT
        invariant forall j :: 0 <= j < i ==> failed[j] == culprits[j]
      {
        failed := failed[i := culprits[i]];
      }
      assert failed == culprits;
    }

    method StepEnableStage(rx: StateFrames)
      modifies this
      ensures State() == StepEnable(old(State()), rx)
    {
      var allLatched := LatchPresent(rx);
      var any := AnyPresent();
      if allLatched && any {
        EnterStage(ClearDisable);
      } else if cycle >= ENABLE_TIMEOUT_CYCLES {
        if any {
          EnterStage(ClearDisable);
        } else {
          failed := AllOf(true);
          outcome, active := EnableTimeout, false;
        }
      }
    }

    method StepClearDisableStage(rx: StateFrames)
      modifies this
      ensures State() == StepClearDisable(old(State()), rx)
    {
      if NoPresentEnabled(rx, present) {
        EnterStage(ClearReEnable);
      } else if cycle >= CLEAR_TIMEOUT_CYCLES {
        BlameWhere(StillEnabled(rx, present));
        outcome, active := ClearTimeout, false;
      }
    }

    method StepClearReEnableStage(rx: StateFrames)
      modifies this
      ensures State() == StepClearReEnable(old(State()), rx)
    {
      if AllPresentEnabled(rx, present) && AllPresentClear(rx, present) {
        EnterStage(Preload);
      } else if cycle >= CLEAR_TIMEOUT_CYCLES {
        BlameWhere(NotCleared(rx, present));
        outcome, active := ClearTimeout, false;
      }
    }

    method StepTriggerStage(rx: StateFrames)
      modifies this
      ensures State() == StepTrigger(old(State()), rx)
    {
      var done := EvaluateHomingTrigger(rx);
      if done {
        outcome, active := Succeeded, false;
      }
    }

    method StepHoming(rx: StateFrames, out: CommandFrames) returns (mode: C.Mode, command: CommandFrames)
      modifies this
      ensures State() == Step(old(State()), rx)
      ensures mode == WordMode(old(State())) && command == Command(old(State()), out)
    {
      hide Fill, StepEnable, StepClearDisable, StepClearReEnable, StepTrigger;
      mode := C.Enable;
      cycle := cycle + 1;
      var wasActive, entryStage := active, stage;
      match stage {
        case Enable =>
          command := FillHomingCommand(out, Inverted(disabled), CST, 0);
          StepEnableStage(rx);
        case ClearDisable =>
          command := FillHomingCommand(out, present, HOMING_MODE, 0);
          mode := C.SwitchOn;
          StepClearDisableStage(rx);
        case ClearReEnable =>
          command := FillHomingCommand(out, present, HOMING_MODE, 0);
          StepClearReEnableStage(rx);
        case Preload =>
          command := FillHomingCommand(out, present, CST, PRELOAD_EFFORT);
          if cycle >= PRELOAD_CYCLES {
            EnterStage(Settle);
          }
        case Settle =>
          var modeOfOperation := if cycle > SETTLE_CYCLES - EDGE_CYCLES then HOMING_MODE else CST;
          command := FillHomingCommand(out, present, modeOfOperation, PRELOAD_EFFORT);
          if cycle >= SETTLE_CYCLES {
            EnterStage(TriggerWait);
          }
        case TriggerWait =>
          command := FillHomingCommand(out, present, HOMING_MODE, PRELOAD_EFFORT);
          mode := C.Homing;
          StepTriggerStage(rx);
      }
      if wasActive && !active && outcome != Succeeded {
        failedStage, failedStatus, failedPosition := entryStage, rx.status, rx.position;
      }
    }
  }
}
