/** What a whole homing run must have seen: the evidence behind every nonzero effort, every success
    and every failure of HomingSequence. */
module HomingHistory {
  import opened Types
  import opened Frames
  import opened HomingSequence

  ghost predicate At(hs: seq<Homing>, j: nat, stage: Stage)
    requires j < |hs|
  {
    hs[j].active && hs[j].stage == stage
  }

  // Actuator i answered in the enable window
  ghost predicate SeenEnabled(hs: seq<Homing>, rxs: seq<StateFrames>, k: nat, i: nat)
    requires k <= |rxs| < |hs| && i < ACTUATOR_COUNT
  {
    exists j :: 0 <= j < k && j < ENABLE_TIMEOUT_CYCLES && At(hs, j, Enable) && Enabled(rxs[j], i)
  }

  // Cycle d of the disable stage saw everybody in `present` out of Operation Enabled
  ghost predicate DisabledAt(hs: seq<Homing>, rxs: seq<StateFrames>, d: nat, present: Mask)
    requires d < |rxs| < |hs|
  {
    At(hs, d, ClearDisable) && NoPresentEnabled(rxs[d], present)
  }

  // Cycle m of the re-enable stage saw everybody in `present` enabled again with bit12 clear
  ghost predicate ClearAt(hs: seq<Homing>, rxs: seq<StateFrames>, m: nat, present: Mask)
    requires m < |rxs| < |hs|
  {
    At(hs, m, ClearReEnable) && AllPresentEnabled(rxs[m], present) && AllPresentClear(rxs[m], present)
  }

  ghost predicate WasDisabled(hs: seq<Homing>, rxs: seq<StateFrames>, k: nat, present: Mask)
    requires k <= |rxs| < |hs|
  {
    exists d :: 0 <= d < k && DisabledAt(hs, rxs, d, present)
  }

  ghost predicate WasCleared(hs: seq<Homing>, rxs: seq<StateFrames>, k: nat, present: Mask)
    requires k <= |rxs| < |hs|
  {
    exists d, m :: 0 <= d < m < k && DisabledAt(hs, rxs, d, present) && ClearAt(hs, rxs, m, present)
  }

  predicate IsLate(stage: Stage) { stage.Preload? || stage.Settle? || stage.TriggerWait? }

  ghost predicate Prepared(disabled: Mask, hs: seq<Homing>, rxs: seq<StateFrames>, k: nat)
    requires k <= |rxs| < |hs|
  {
    var h := hs[k];
    && h.disabled == disabled
    && (At(hs, k, Enable) ==> h.cycle == k)
    && (forall i :: 0 <= i < ACTUATOR_COUNT && h.present[i] ==> !disabled[i] && SeenEnabled(hs, rxs, k, i))
    && (!h.stage.Enable? ==> Any(h.present))
    && (h.stage.ClearReEnable? ==> WasDisabled(hs, rxs, k, h.present))
    && (IsLate(h.stage) ==> WasCleared(hs, rxs, k, h.present))
  }

  // The stages only ever advance, each on its own evidence, and only the first one changes who is
  // present
  lemma StepShape(h: Homing, rx: StateFrames)
    ensures var h' := Step(h, rx);
            && h'.disabled == h.disabled
            && h'.present == (if h.stage.Enable? then Latched(h, rx) else h.present)
            && (h'.stage == h.stage ==> h'.cycle == h.cycle + 1)
            && (h'.stage != h.stage ==>
                  && h'.active == h.active
                  && match h.stage
                     case Enable => h'.stage == ClearDisable && Any(h'.present)
                     case ClearDisable => h'.stage == ClearReEnable && NoPresentEnabled(rx, h.present)
                     case ClearReEnable =>
                       h'.stage == Preload && AllPresentEnabled(rx, h.present) && AllPresentClear(rx, h.present)
                     case Preload => h'.stage == Settle
                     case Settle => h'.stage == TriggerWait
                     case TriggerWait => false)
  {}

  lemma EvidenceGrows(hs: seq<Homing>, rxs: seq<StateFrames>, k: nat, present: Mask)
    requires 0 < k <= |rxs| < |hs|
    ensures WasDisabled(hs, rxs, k, present) <==>
            WasDisabled(hs, rxs, k - 1, present) || DisabledAt(hs, rxs, k - 1, present)
    ensures WasCleared(hs, rxs, k, present) <==>
            WasCleared(hs, rxs, k - 1, present) ||
            (WasDisabled(hs, rxs, k - 1, present) && ClearAt(hs, rxs, k - 1, present))
    ensures forall i :: 0 <= i < ACTUATOR_COUNT && SeenEnabled(hs, rxs, k - 1, i) ==> SeenEnabled(hs, rxs, k, i)
  {
    hide DisabledAt, ClearAt;
  }

  lemma PreparedStep(disabled: Mask, hs: seq<Homing>, rxs: seq<StateFrames>, k: nat)
    requires IsRun(disabled, hs, rxs) && 0 < k <= |rxs| && Prepared(disabled, hs, rxs, k - 1)
    requires hs[k - 1].active && InBudget(hs[k - 1])
    ensures Prepared(disabled, hs, rxs, k)
  {
    PresenceIsEarned(disabled, hs, rxs, k);
    StepShape(hs[k - 1], rxs[k - 1]);
    EvidenceGrows(hs, rxs, k, hs[k - 1].present);
    hide Step, Any, SeenEnabled, WasDisabled, WasCleared, Latched, InBudget,
         NoPresentEnabled, AllPresentEnabled, AllPresentClear;
  }

  lemma {:induction false} AlwaysPrepared(disabled: Mask, hs: seq<Homing>, rxs: seq<StateFrames>, k: nat)
    requires IsRun(disabled, hs, rxs) && k <= |rxs|
    ensures Prepared(disabled, hs, rxs, k)
  {
    if k > 0 {
      AlwaysPrepared(disabled, hs, rxs, k - 1);
      EndsInTime(disabled, hs, rxs, k - 1);
      hide Step, Any, SeenEnabled, WasDisabled, WasCleared, InBudget, Remaining;
      if hs[k - 1].active {
        PreparedStep(disabled, hs, rxs, k);
      } else {
        EvidenceGrows(hs, rxs, k, hs[k].present);
      }
    }
  }

  lemma PresenceIsEarned(disabled: Mask, hs: seq<Homing>, rxs: seq<StateFrames>, k: nat)
    requires IsRun(disabled, hs, rxs) && 0 < k <= |rxs| && Prepared(disabled, hs, rxs, k - 1)
    requires hs[k - 1].active && InBudget(hs[k - 1])
    ensures forall i :: 0 <= i < ACTUATOR_COUNT && hs[k].present[i] ==> !disabled[i] && SeenEnabled(hs, rxs, k, i)
  {
    StepShape(hs[k - 1], rxs[k - 1]);
    hide Step, Any;
    forall i | 0 <= i < ACTUATOR_COUNT && hs[k].present[i]
      ensures !disabled[i] && SeenEnabled(hs, rxs, k, i)
    {
      if !hs[k - 1].present[i] {
        assert At(hs, k - 1, Enable) && Enabled(rxs[k - 1], i);
      }
    }
  }

  // A nonzero effort is only ever commanded to an actuator that is not disabled and answered in
  // the enable window, and only after every present actuator left Operation Enabled and came back
  // to it with bit12 clear
  lemma EffortIsEarned(disabled: Mask, hs: seq<Homing>, rxs: seq<StateFrames>, k: nat, out: CommandFrames, i: nat)
    requires IsRun(disabled, hs, rxs) && k < |rxs| && i < ACTUATOR_COUNT
    requires hs[k].active && Command(hs[k], out).targetEffort[i] != 0
    ensures !disabled[i] && hs[k].present[i] && SeenEnabled(hs, rxs, k, i)
    ensures WasCleared(hs, rxs, k, hs[k].present)
    ensures Command(hs[k], out).targetEffort[i] == PRELOAD_EFFORT
  {
    AlwaysPrepared(disabled, hs, rxs, k);
  }

  // ------------------------------- The trigger --------------------------------

  ghost predicate LowAt(hs: seq<Homing>, rxs: seq<StateFrames>, a: nat, i: nat)
    requires a < |rxs| < |hs| && i < ACTUATOR_COUNT
  {
    At(hs, a, TriggerWait) && !Attained(rxs[a], i)
  }

  ghost predicate HighAt(hs: seq<Homing>, rxs: seq<StateFrames>, b: nat, i: nat)
    requires b < |rxs| < |hs| && i < ACTUATOR_COUNT
  {
    At(hs, b, TriggerWait) && Attained(rxs[b], i) && !Error(rxs[b], i)
  }

  ghost predicate ErrorAt(hs: seq<Homing>, rxs: seq<StateFrames>, t: nat, i: nat)
    requires t < |rxs| < |hs| && i < ACTUATOR_COUNT
  {
    At(hs, t, TriggerWait) && hs[t].present[i] && Error(rxs[t], i)
  }

  ghost predicate WasLow(hs: seq<Homing>, rxs: seq<StateFrames>, k: nat, i: nat)
    requires k <= |rxs| < |hs| && i < ACTUATOR_COUNT
  {
    exists a :: 0 <= a < k && LowAt(hs, rxs, a, i)
  }

  // bit12 at 0 in one trigger cycle and at 1, with bit13 clear, in a later one
  ghost predicate Rose(hs: seq<Homing>, rxs: seq<StateFrames>, k: nat, i: nat)
    requires k <= |rxs| < |hs| && i < ACTUATOR_COUNT
  {
    exists a, b :: 0 <= a < b < k && LowAt(hs, rxs, a, i) && HighAt(hs, rxs, b, i)
  }

  ghost predicate NoErrorYet(hs: seq<Homing>, rxs: seq<StateFrames>, k: nat)
    requires k <= |rxs| < |hs|
  {
    forall t, i :: 0 <= t < k && 0 <= i < ACTUATOR_COUNT ==> !ErrorAt(hs, rxs, t, i)
  }

  ghost predicate Triggering(hs: seq<Homing>, k: nat)
    requires k <= |hs|
  {
    exists t :: 0 <= t < k && At(hs, t, TriggerWait)
  }

  ghost predicate LatchesMatch(hs: seq<Homing>, rxs: seq<StateFrames>, k: nat)
    requires k <= |rxs| < |hs|
  {
    var h := hs[k];
    && (!h.stage.TriggerWait? ==> !Triggering(hs, k))
    && (forall i :: 0 <= i < ACTUATOR_COUNT ==> (h.inProgressSeen[i] <==> h.present[i] && WasLow(hs, rxs, k, i)))
    && (forall i :: 0 <= i < ACTUATOR_COUNT ==> (h.attained[i] <==> h.present[i] && Rose(hs, rxs, k, i)))
  }

  ghost predicate OutcomeMatches(hs: seq<Homing>, rxs: seq<StateFrames>, k: nat)
    requires k <= |rxs| < |hs|
  {
    var h := hs[k];
    && (h.active <==> h.outcome.InProgress?)
    && (h.active || h.outcome.Succeeded? ==> !Any(h.failed))
    && (!h.active && !h.outcome.Succeeded? ==>
          Any(h.failed) && h.failedStage == h.stage && PhaseOf(h.stage) == FailurePhase(h.outcome))
    && (h.outcome.HomingError? <==> !NoErrorYet(hs, rxs, k))
    && (h.active && Triggering(hs, k) ==> !AllAttained(h))
    && (h.outcome.Succeeded? ==> h.stage.TriggerWait? && AllAttained(h))
    && (h.outcome.TriggerTimeout? ==> !AllAttained(h))
    && (h.outcome.EnableTimeout? || h.outcome.ClearTimeout? ==> !h.stage.TriggerWait?)
  }

  lemma LatchesOutsideTrigger(h: Homing, rx: StateFrames)
    requires !h.stage.TriggerWait?
    ensures Step(h, rx).inProgressSeen == h.inProgressSeen && Step(h, rx).attained == h.attained
  {
    hide Triggered, StepTrigger;
  }

  lemma LatchesInTrigger(h: Homing, rx: StateFrames, i: nat)
    requires h.stage.TriggerWait? && i < ACTUATOR_COUNT
    ensures var h' := Step(h, rx);
            && h'.inProgressSeen[i] == (h.inProgressSeen[i] || (h.present[i] && !Attained(rx, i)))
            && h'.attained[i] == (h.attained[i] ||
                 (h.present[i] && Attained(rx, i) && h.inProgressSeen[i] && !Error(rx, i)))
  {
    hide StepEnable, StepClearDisable, StepClearReEnable, AnyError, AllAttained, Attained, Error;
  }

  lemma LatchesStep(hs: seq<Homing>, rxs: seq<StateFrames>, k: nat)
    requires 0 < k <= |rxs| < |hs|
    requires hs[k - 1].active && hs[k] == Step(hs[k - 1], rxs[k - 1])
    requires LatchesMatch(hs, rxs, k - 1)
    ensures LatchesMatch(hs, rxs, k)
  {
    var h, rx, h' := hs[k - 1], rxs[k - 1], hs[k];
    StepShape(h, rx);
    hide Step, WasLow, Rose, Any, Latched;
    forall i | 0 <= i < ACTUATOR_COUNT
      ensures h'.inProgressSeen[i] <==> h'.present[i] && WasLow(hs, rxs, k, i)
      ensures h'.attained[i] <==> h'.present[i] && Rose(hs, rxs, k, i)
    {
      LowExtends(hs, rxs, k, i);
      RoseExtends(hs, rxs, k, i);
      assert h.inProgressSeen[i] <==> h.present[i] && WasLow(hs, rxs, k - 1, i);
      assert h.attained[i] <==> h.present[i] && Rose(hs, rxs, k - 1, i);
      if h.stage.TriggerWait? {
        LatchesInTrigger(h, rx, i);
      } else {
        LatchesOutsideTrigger(h, rx);
        NothingRises(hs, rxs, k - 1, i);
      }
    }
    assert !h'.stage.TriggerWait? ==> !Triggering(hs, k);
  }

  lemma NothingRises(hs: seq<Homing>, rxs: seq<StateFrames>, k: nat, i: nat)
    requires k <= |rxs| < |hs| && i < ACTUATOR_COUNT && !Triggering(hs, k)
    ensures !WasLow(hs, rxs, k, i) && !Rose(hs, rxs, k, i)
  {}

  lemma LowExtends(hs: seq<Homing>, rxs: seq<StateFrames>, k: nat, i: nat)
    requires 0 < k <= |rxs| < |hs| && i < ACTUATOR_COUNT
    ensures WasLow(hs, rxs, k, i) <==> WasLow(hs, rxs, k - 1, i) || LowAt(hs, rxs, k - 1, i)
  {}

  lemma RoseExtends(hs: seq<Homing>, rxs: seq<StateFrames>, k: nat, i: nat)
    requires 0 < k <= |rxs| < |hs| && i < ACTUATOR_COUNT
    ensures Rose(hs, rxs, k, i) <==>
            Rose(hs, rxs, k - 1, i) || (WasLow(hs, rxs, k - 1, i) && HighAt(hs, rxs, k - 1, i))
  {}

  lemma StepOutcome(h: Homing, rx: StateFrames)
    requires h.active && h.outcome.InProgress? && !Any(h.failed)
    ensures var h' := Step(h, rx);
            && (h'.active <==> h'.outcome.InProgress?)
            && (h'.active || h'.outcome.Succeeded? ==> !Any(h'.failed))
            && (!h'.active && !h'.outcome.Succeeded? ==>
                  h'.failedStage == h'.stage && PhaseOf(h'.stage) == FailurePhase(h'.outcome))
            && (h'.outcome.HomingError? <==> h.stage.TriggerWait? && AnyError(h, rx))
            && (h'.outcome.Succeeded? ==> h'.stage.TriggerWait? && AllAttained(h'))
            && (h'.active && h.stage.TriggerWait? ==> !AllAttained(h'))
            && (h'.outcome.TriggerTimeout? ==> !AllAttained(h'))
            && (h'.outcome.EnableTimeout? || h'.outcome.ClearTimeout? ==> !h'.stage.TriggerWait?)
  {}

  lemma OutcomeStep(hs: seq<Homing>, rxs: seq<StateFrames>, k: nat)
    requires 0 < k <= |rxs| < |hs|
    requires hs[k - 1].active && hs[k] == Step(hs[k - 1], rxs[k - 1])
    requires hs[k - 1].stage.Enable? || Any(hs[k - 1].present)
    requires OutcomeMatches(hs, rxs, k - 1) && (hs[k - 1].stage.TriggerWait? || !Triggering(hs, k - 1))
    ensures OutcomeMatches(hs, rxs, k)
  {
    var h, rx, h' := hs[k - 1], rxs[k - 1], hs[k];
    ErrorsExtend(hs, rxs, k);
    if h.stage.TriggerWait? {
      assert At(hs, k - 1, TriggerWait);
    }
    assert Triggering(hs, k) <==> Triggering(hs, k - 1) || h.stage.TriggerWait?;
    StepOutcome(h, rx);
    FailureBlamesSomebody(h, rx);
    hide NoErrorYet, Triggering, Step, Any, AllAttained, AnyError, LatchesMatch;
  }

  lemma ErrorsExtend(hs: seq<Homing>, rxs: seq<StateFrames>, k: nat)
    requires 0 < k <= |rxs| < |hs| && hs[k - 1].active
    ensures NoErrorYet(hs, rxs, k) <==>
            NoErrorYet(hs, rxs, k - 1) && !(hs[k - 1].stage.TriggerWait? && AnyError(hs[k - 1], rxs[k - 1]))
  {
    if hs[k - 1].stage.TriggerWait? && AnyError(hs[k - 1], rxs[k - 1]) {
      var i :| 0 <= i < ACTUATOR_COUNT && hs[k - 1].present[i] && Error(rxs[k - 1], i);
      assert ErrorAt(hs, rxs, k - 1, i);
    }
  }

  // The step that ends the sequence in a failure blames at least one actuator
  lemma FailureBlamesSomebody(h: Homing, rx: StateFrames)
    requires h.active && (h.stage.Enable? || Any(h.present))
    ensures var h' := Step(h, rx); !h'.active && !h'.outcome.Succeeded? ==> Any(h'.failed)
  {
    var h' := Step(h, rx);
    if !h'.active && !h'.outcome.Succeeded? {
      match h.stage
      case Enable =>
        assert h'.failed[0];
      case ClearDisable =>
        var i :| 0 <= i < ACTUATOR_COUNT && h.present[i] && Enabled(rx, i);
        assert h'.failed[i];
      case ClearReEnable =>
        var i :| 0 <= i < ACTUATOR_COUNT && h.present[i] && (!Enabled(rx, i) || Attained(rx, i));
        assert h'.failed[i];
      case Preload =>
      case Settle =>
      case TriggerWait =>
        if AnyError(h, rx) {
          var i :| 0 <= i < ACTUATOR_COUNT && h.present[i] && Error(rx, i);
          assert h'.failed[i];
        } else {
          var i :| 0 <= i < ACTUATOR_COUNT && h.present[i] && !h'.attained[i];
          assert h'.failed[i];
        }
    }
  }

  lemma {:induction false} AlwaysMatches(disabled: Mask, hs: seq<Homing>, rxs: seq<StateFrames>, k: nat)
    requires IsRun(disabled, hs, rxs) && k <= |rxs|
    ensures LatchesMatch(hs, rxs, k) && OutcomeMatches(hs, rxs, k)
  {
    hide LatchesMatch, OutcomeMatches, Step, Prepared;
    if k == 0 {
      StartMatches(disabled, hs, rxs);
    } else {
      AlwaysMatches(disabled, hs, rxs, k - 1);
      if hs[k - 1].active {
        NobodyBeforeEnable(disabled, hs, rxs, k - 1);
        TriggerOnlyLast(hs, rxs, k - 1);
        LatchesStep(hs, rxs, k);
        OutcomeStep(hs, rxs, k);
      } else {
        IdleStep(hs, rxs, k);
      }
    }
  }

  lemma StartMatches(disabled: Mask, hs: seq<Homing>, rxs: seq<StateFrames>)
    requires IsRun(disabled, hs, rxs)
    ensures LatchesMatch(hs, rxs, 0) && OutcomeMatches(hs, rxs, 0)
  {}

  lemma NobodyBeforeEnable(disabled: Mask, hs: seq<Homing>, rxs: seq<StateFrames>, k: nat)
    requires IsRun(disabled, hs, rxs) && k <= |rxs|
    ensures hs[k].stage.Enable? || Any(hs[k].present)
  {
    AlwaysPrepared(disabled, hs, rxs, k);
  }

  lemma TriggerOnlyLast(hs: seq<Homing>, rxs: seq<StateFrames>, k: nat)
    requires k <= |rxs| < |hs| && LatchesMatch(hs, rxs, k)
    ensures hs[k].stage.TriggerWait? || !Triggering(hs, k)
  {}

  lemma IdleStep(hs: seq<Homing>, rxs: seq<StateFrames>, k: nat)
    requires 0 < k <= |rxs| < |hs|
    requires !hs[k - 1].active && hs[k] == hs[k - 1]
    requires LatchesMatch(hs, rxs, k - 1) && OutcomeMatches(hs, rxs, k - 1)
    ensures LatchesMatch(hs, rxs, k) && OutcomeMatches(hs, rxs, k)
  {
    forall i | 0 <= i < ACTUATOR_COUNT
      ensures WasLow(hs, rxs, k, i) == WasLow(hs, rxs, k - 1, i)
      ensures Rose(hs, rxs, k, i) == Rose(hs, rxs, k - 1, i)
    {
      LowExtends(hs, rxs, k, i);
      RoseExtends(hs, rxs, k, i);
    }
    assert NoErrorYet(hs, rxs, k) == NoErrorYet(hs, rxs, k - 1);
    assert Triggering(hs, k) == Triggering(hs, k - 1);
  }

  // Homing has succeeded exactly when it got to the trigger, every present actuator showed the
  // rising edge of bit12 there and none showed bit13
  lemma SuccessIsEarned(disabled: Mask, hs: seq<Homing>, rxs: seq<StateFrames>, k: nat)
    requires IsRun(disabled, hs, rxs) && k <= |rxs|
    ensures hs[k].outcome.Succeeded? <==>
            && Triggering(hs, k) && NoErrorYet(hs, rxs, k)
            && forall i :: 0 <= i < ACTUATOR_COUNT && hs[k].present[i] ==> Rose(hs, rxs, k, i)
    ensures hs[k].outcome.Succeeded? ==> Any(hs[k].present) && !Any(hs[k].failed) && !hs[k].active
  {
    AlwaysMatches(disabled, hs, rxs, k);
    AlwaysPrepared(disabled, hs, rxs, k);
    hide NoErrorYet;
    if hs[k].outcome.Succeeded? {
      var i :| 0 <= i < ACTUATOR_COUNT && hs[k].present[i];
      assert Rose(hs, rxs, k, i);
      assert Triggering(hs, k);
    }
  }

  // A failure blames at least one actuator, a success none, and every outcome fits the stage that it
  // comes from
  lemma FailureIsReported(disabled: Mask, hs: seq<Homing>, rxs: seq<StateFrames>, k: nat)
    requires IsRun(disabled, hs, rxs) && k <= |rxs|
    ensures hs[k].active <==> hs[k].outcome.InProgress?
    ensures !hs[k].active ==> (Any(hs[k].failed) <==> !hs[k].outcome.Succeeded?)
    ensures !hs[k].active && !hs[k].outcome.Succeeded? ==> FailurePhase(hs[k].outcome) == PhaseOf(hs[k].failedStage)
  {
    AlwaysMatches(disabled, hs, rxs, k);
  }

  // Who has answered in the enable window is present from then on
  lemma {:induction false} AnswerIsKept(disabled: Mask, hs: seq<Homing>, rxs: seq<StateFrames>, j: nat, k: nat, i: nat)
    requires IsRun(disabled, hs, rxs) && j < k <= |rxs| && i < ACTUATOR_COUNT
    requires At(hs, j, Enable) && !disabled[i] && Enabled(rxs[j], i)
    ensures hs[k].present[i]
    decreases k
  {
    hide Step, Any, Latched, Enabled;
    StepShape(hs[k - 1], rxs[k - 1]);
    if j == k - 1 {
      AlwaysPrepared(disabled, hs, rxs, j);
      AnswerIsLatched(hs[j], rxs[j], i);
    } else {
      AnswerIsKept(disabled, hs, rxs, j, k - 1, i);
      PresenceStays(hs[k - 1], rxs[k - 1], i);
    }
  }

  lemma AnswerIsLatched(h: Homing, rx: StateFrames, i: nat)
    requires i < ACTUATOR_COUNT && !h.disabled[i] && Enabled(rx, i)
    ensures Latched(h, rx)[i]
  {}

  lemma PresenceStays(h: Homing, rx: StateFrames, i: nat)
    requires i < ACTUATOR_COUNT && h.present[i]
    ensures Latched(h, rx)[i]
  {}

  // An EnableTimeout blames all sixteen actuators, disabled ones included, and means that in no cycle
  // of the enable window an actuator that is not disabled showed Operation Enabled
  lemma {:induction false} EnableTimeoutBlamesAll(disabled: Mask, hs: seq<Homing>, rxs: seq<StateFrames>, k: nat)
    requires IsRun(disabled, hs, rxs) && k <= |rxs| && hs[k].outcome.EnableTimeout?
    ensures forall i :: 0 <= i < ACTUATOR_COUNT ==> hs[k].failed[i] && !hs[k].present[i]
    ensures forall j, i :: 0 <= j < k && 0 <= i < ACTUATOR_COUNT && At(hs, j, Enable) && !disabled[i] ==> !Enabled(rxs[j], i)
  {
    TimeoutBlames(disabled, hs, rxs, k);
    forall j, i | 0 <= j < k && 0 <= i < ACTUATOR_COUNT && At(hs, j, Enable) && !disabled[i]
      ensures !Enabled(rxs[j], i)
    {
      if Enabled(rxs[j], i) {
        AnswerIsKept(disabled, hs, rxs, j, k, i);
      }
    }
  }

  lemma {:induction false} TimeoutBlames(disabled: Mask, hs: seq<Homing>, rxs: seq<StateFrames>, k: nat)
    requires IsRun(disabled, hs, rxs) && k <= |rxs| && hs[k].outcome.EnableTimeout?
    ensures forall i :: 0 <= i < ACTUATOR_COUNT ==> hs[k].failed[i] && !hs[k].present[i]
  {
    AlwaysMatches(disabled, hs, rxs, k - 1);
    if hs[k - 1].active {
      TimeoutStep(hs[k - 1], rxs[k - 1]);
    } else {
      TimeoutBlames(disabled, hs, rxs, k - 1);
    }
  }

  lemma TimeoutStep(h: Homing, rx: StateFrames)
    requires h.active && h.outcome.InProgress? && Step(h, rx).outcome.EnableTimeout?
    ensures forall i :: 0 <= i < ACTUATOR_COUNT ==> Step(h, rx).failed[i] && !Step(h, rx).present[i]
  {}
}
