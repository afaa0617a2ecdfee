/** What a homing sends: the control words, the modes and the efforts of its stages, how long they last,
    and whom a failure blames. */
module HomingWords {
  import opened Types
  import opened Frames
  import opened HomingSequence
  import opened HomingHistory
  import W = Cia402
  import D = Drive
  import C = HandComms

  // Bit4 starts the homing that is built into the drive, with a rising edge in mode 6
  const START: bv16 := 0x0010

  // --------------------------------- One cycle ---------------------------------

  // With a homing under way: bit4 is set in the trigger stage and nowhere else, the disable stage takes
  // the drive out of Operation Enabled, and every other stage climbs the ladder
  lemma StageWord(c: C.Comms, frames: CommandFrames, i: nat)
    requires c.homing.active && i < ACTUATOR_COUNT && !c.disabled[i]
    ensures var w, stage := C.Sent(c, frames, false).controlWord[i], c.homing.stage;
            && (W.Has(w, START) <==> stage.TriggerWait?)
            && (stage.TriggerWait? ==> w == 0x1F && D.IsEnableOperation(w))
            && (stage.ClearDisable? ==> w == 0x07 && D.IsDisableOperation(w))
            && (!stage.TriggerWait? && !stage.ClearDisable? ==> w == W.ControlWord(W.Enable, c.rx.status[i], c.lastWord[i]))
  {
    hide Step;
    LadderHasNoStart(c.rx.status[i], c.lastWord[i]);
  }

  lemma LadderHasNoStart(status: bv16, last: bv16)
    ensures !W.Has(W.ControlWord(W.Enable, status, last), START)
  {}

  // The drive that is sent the disable word answers with Switched On
  lemma DisableLeavesOperation(c: C.Comms, frames: CommandFrames, i: nat, held: bv16, d': D.DriveState)
    requires c.homing.active && c.homing.stage.ClearDisable? && i < ACTUATOR_COUNT && !c.disabled[i]
    requires D.DriveStep(D.OperationEnabled, held, C.Sent(c, frames, false).controlWord[i], d')
    ensures d' == D.SwitchedOn
  {
    hide C.Sent;
    StageWord(c, frames, i);
  }

  // Everybody present is pushed, with 80 % of the rated current towards the hard stop, from the preload
  // stage to the end, and nobody is pushed at any other time. The settle stage is in mode 6 throughout
  lemma StageSetpoints(c: C.Comms, frames: CommandFrames, i: nat)
    requires c.homing.active && i < ACTUATOR_COUNT
    ensures var f, h := C.Sent(c, frames, false), c.homing;
            && f.targetEffort[i] == (if h.present[i] && IsLate(h.stage) then -800 else 0)
            && f.maxEffort[i] == 1000 && f.targetPosition[i] == 0 && f.homingMethod[i] == 0
            && f.mode[i] == if h.stage.Enable? || h.stage.Preload? then 10 else 6
  {
    hide Step, C.ControlWords;
  }

  // Without a homing the setpoints go out as they were computed, and under a quick stop too
  lemma SetpointsPass(c: C.Comms, frames: CommandFrames, quickStop: bool)
    requires quickStop || !c.homing.active
    ensures var f := C.Sent(c, frames, quickStop); f == frames.(controlWord := f.controlWord)
  {
    hide C.ControlWords;
  }

  // --------------------------------- Whole runs --------------------------------

  lemma CycleIsBounded(disabled: Mask, hs: seq<Homing>, rxs: seq<StateFrames>, k: nat)
    requires IsRun(disabled, hs, rxs) && k <= |rxs| && hs[k].active
    ensures hs[k].cycle < Limit(hs[k].stage)
  {
    EndsInTime(disabled, hs, rxs, k);
  }

  // A stage's cycle count is how long the sequence has been in it
  lemma {:induction false} StageLasted(disabled: Mask, hs: seq<Homing>, rxs: seq<StateFrames>, k: nat)
    requires IsRun(disabled, hs, rxs) && k <= |rxs| && hs[k].active
    ensures hs[k].cycle <= k
    ensures forall j :: k - hs[k].cycle <= j <= k ==> At(hs, j, hs[k].stage) && hs[j].cycle == j - (k - hs[k].cycle)
    ensures hs[k].cycle < k ==> At(hs, k - hs[k].cycle - 1, StageBefore(hs[k].stage))
    ensures hs[k].cycle == k ==> hs[k].stage.Enable?
  {
    hide Step;
    if k > 0 {
      StaysActive(disabled, hs, rxs, k);
      StageLasted(disabled, hs, rxs, k - 1);
      StepShape(hs[k - 1], rxs[k - 1]);
      EnteringStartsOver(hs[k - 1], rxs[k - 1]);
    }
  }

  function StageBefore(stage: Stage): Stage {
    match stage
    case Enable => Enable
    case ClearDisable => Enable
    case ClearReEnable => ClearDisable
    case Preload => ClearReEnable
    case Settle => Preload
    case TriggerWait => Settle
  }

  lemma StaysActive(disabled: Mask, hs: seq<Homing>, rxs: seq<StateFrames>, k: nat)
    requires IsRun(disabled, hs, rxs) && 0 < k <= |rxs| && hs[k].active
    ensures hs[k - 1].active && hs[k] == Step(hs[k - 1], rxs[k - 1])
  {
    hide Step;
  }

  lemma EnteringStartsOver(h: Homing, rx: StateFrames)
    ensures Step(h, rx).stage != h.stage ==> Step(h, rx).cycle == 0
  {
    hide Any, Enabled, Attained, Error;
  }

  lemma TimedStagesLast(h: Homing, rx: StateFrames)
    requires InBudget(h) && h.active && Step(h, rx).stage != h.stage
    ensures h.stage.Preload? || h.stage.Settle? ==> h.cycle + 1 == Limit(h.stage)
  {}

  // Before the trigger everybody present is pressed against the stop for 2000 cycles in torque mode, and
  // for another 1000 in mode 6
  lemma PushLasts(disabled: Mask, hs: seq<Homing>, rxs: seq<StateFrames>, k: nat)
    requires IsRun(disabled, hs, rxs) && k <= |rxs| && At(hs, k, TriggerWait) && hs[k].cycle == 0
    ensures k >= 3000
    ensures forall j :: k - 1000 <= j < k ==> At(hs, j, Settle)
    ensures forall j :: k - 3000 <= j < k - 1000 ==> At(hs, j, Preload)
  {
    hide Step;
    StageLasted(disabled, hs, rxs, k);
    LeftInTime(disabled, hs, rxs, k);
    StageLasted(disabled, hs, rxs, k - 1);
    var s := k - 1000;
    assert hs[k - 1].cycle == 999;
    LeftInTime(disabled, hs, rxs, s);
    StageLasted(disabled, hs, rxs, s - 1);
    assert hs[s - 1].cycle == 1999;
  }

  lemma LeftInTime(disabled: Mask, hs: seq<Homing>, rxs: seq<StateFrames>, k: nat)
    requires IsRun(disabled, hs, rxs) && 0 < k <= |rxs| && hs[k].active && hs[k].stage != hs[k - 1].stage
    ensures hs[k - 1].active
    ensures hs[k - 1].stage.Preload? || hs[k - 1].stage.Settle? ==> hs[k - 1].cycle + 1 == Limit(hs[k - 1].stage)
  {
    hide Step;
    StaysActive(disabled, hs, rxs, k);
    EndsInTime(disabled, hs, rxs, k - 1);
    TimedStagesLast(hs[k - 1], rxs[k - 1]);
  }

  // So the drives see the edge: bit4 low in the cycle before the first trigger cycle and high in that
  // one, both in mode 6 and under the preload
  lemma TriggerHasEdge(disabled: Mask, hs: seq<Homing>, rxs: seq<StateFrames>, k: nat, before: C.Comms, at: C.Comms,
                       beforeFrames: CommandFrames, frames: CommandFrames, i: nat)
    requires IsRun(disabled, hs, rxs) && k <= |rxs| && At(hs, k, TriggerWait) && hs[k].cycle == 0
    requires k > 0 ==> before.homing == hs[k - 1]
    requires at.homing == hs[k] && before.disabled == at.disabled == disabled
    requires i < ACTUATOR_COUNT && hs[k].present[i]
    ensures var f0, f := C.Sent(before, beforeFrames, false), C.Sent(at, frames, false);
            && !W.Has(f0.controlWord[i], START) && W.Has(f.controlWord[i], START)
            && f0.mode[i] == f.mode[i] == 6 && f0.targetEffort[i] == f.targetEffort[i] == -800
  {
    hide C.Sent, Step;
    PushLasts(disabled, hs, rxs, k);
    AlwaysPrepared(disabled, hs, rxs, k);
    StaysActive(disabled, hs, rxs, k);
    StepShape(hs[k - 1], rxs[k - 1]);
    assert At(hs, k - 1, Settle) && !disabled[i];
    StageWord(before, beforeFrames, i);
    StageWord(at, frames, i);
    StageSetpoints(before, beforeFrames, i);
    StageSetpoints(at, frames, i);
  }

  // ---------------------------------- Failures ---------------------------------

  // A timeout comes after 2000 cycles in its stage, not earlier
  lemma TimeoutsAreFull(disabled: Mask, hs: seq<Homing>, rxs: seq<StateFrames>, k: nat)
    requires IsRun(disabled, hs, rxs) && 0 < k <= |rxs| && hs[k - 1].active && !hs[k].active
    requires hs[k].outcome.EnableTimeout? || hs[k].outcome.ClearTimeout? || hs[k].outcome.TriggerTimeout?
    ensures k >= 2000 && forall j :: k - 2000 <= j < k ==> At(hs, j, hs[k].stage)
  {
    hide Step;
    AlwaysMatches(disabled, hs, rxs, k - 1);
    StageLasted(disabled, hs, rxs, k - 1);
    CycleIsBounded(disabled, hs, rxs, k - 1);
    TimeoutIsFull(hs[k - 1], rxs[k - 1]);
    assert hs[k - 1].cycle == 1999;
  }

  lemma TimeoutIsFull(h: Homing, rx: StateFrames)
    requires h.active && InBudget(h) && h.outcome.InProgress? && !Step(h, rx).active
    ensures var r := Step(h, rx);
            && r.stage == h.stage
            && (r.outcome.EnableTimeout? || r.outcome.ClearTimeout? || r.outcome.TriggerTimeout? ==> h.cycle + 1 == 2000)
  {}

  // Whom the last step of a sequence blames, and what is recorded of it
  lemma BlameIsExact(disabled: Mask, hs: seq<Homing>, rxs: seq<StateFrames>, k: nat, i: nat)
    requires IsRun(disabled, hs, rxs) && 0 < k <= |rxs| && hs[k - 1].active && !hs[k].active && !hs[k].outcome.Succeeded?
    requires i < ACTUATOR_COUNT
    ensures var h, rx, stage := hs[k], rxs[k - 1], hs[k - 1].stage;
            && h.failedStage == stage && h.failedStatus == rx.status && h.failedPosition == rx.position
            && (h.failed[i] <==>
                  match h.outcome
                  case EnableTimeout => true
                  case ClearTimeout => h.present[i] && (if stage.ClearDisable? then Enabled(rx, i) else !Enabled(rx, i) || Attained(rx, i))
                  case HomingError => h.present[i] && Error(rx, i)
                  case TriggerTimeout => h.present[i] && !Rose(hs, rxs, k, i)
                  case _ => false)
  {
    hide Step, Any, Rose, Enabled, Attained, Error, NoErrorYet;
    AlwaysMatches(disabled, hs, rxs, k - 1);
    AlwaysMatches(disabled, hs, rxs, k);
    NobodyFailed(hs[k - 1].failed);
    FailureBlames(hs[k - 1], rxs[k - 1], i);
  }

  lemma NobodyFailed(failed: Mask)
    requires !Any(failed)
    ensures forall i :: 0 <= i < ACTUATOR_COUNT ==> !failed[i]
  {}

  lemma FailureBlames(h: Homing, rx: StateFrames, i: nat)
    requires h.active && h.outcome.InProgress? && !Step(h, rx).active && !Step(h, rx).outcome.Succeeded?
    requires i < ACTUATOR_COUNT && !h.failed[i]
    ensures var r := Step(h, rx);
            && r.failedStage == h.stage && r.failedStatus == rx.status && r.failedPosition == rx.position
            && (r.failed[i] <==>
                  match r.outcome
                  case EnableTimeout => true
                  case ClearTimeout => r.present[i] && (if h.stage.ClearDisable? then Enabled(rx, i) else !Enabled(rx, i) || Attained(rx, i))
                  case HomingError => r.present[i] && Error(rx, i)
                  case TriggerTimeout => r.present[i] && !r.attained[i]
                  case _ => false)
  {
    hide Enabled, Attained, Error;
  }
}
