/** Status word tests and the control word ladder of
    cpp/src/hand_core/comms/state_machine/cia402.hpp. */
module Cia402 {
  import opened Types

  // ------------------------------- Status word -------------------------------

  const READY_TO_SWITCH_ON: bv16 := 0x0001
  const SWITCHED_ON: bv16 := 0x0002
  const OPERATION_ENABLED: bv16 := 0x0004
  const FAULT: bv16 := 0x0008
  const QUICK_STOP_ACTIVE: bv16 := 0x0020  // active low
  const HOMING_ATTAINED: bv16 := 0x1000
  const HOMING_ERROR: bv16 := 0x2000

  const STATE_BITS: bv16 := 0x006F
  const OPERATION_ENABLED_BITS: bv16 := 0x0027

  predicate Has(word: bv16, mask: bv16) { word & mask != 0 }

  predicate IsOperationEnabled(status: bv16) { status & STATE_BITS == OPERATION_ENABLED_BITS }

  // Vacuous where every actuator is disabled. Otherwise the error-free ones are all in Operation
  // Enabled, and there is at least one of them
  predicate Settled(status: seq<bv16>, errorCode: seq<bv16>, disabled: seq<bool>)
    requires |status| == |errorCode| == |disabled|
  {
    || (forall i :: 0 <= i < |status| ==> disabled[i])
    || ((forall i :: 0 <= i < |status| && !disabled[i] && errorCode[i] == 0 ==> IsOperationEnabled(status[i]))
        && (exists i :: 0 <= i < |status| && !disabled[i] && errorCode[i] == 0 && IsOperationEnabled(status[i])))
  }

  method EnableSettled(status: seq<bv16>, errorCode: seq<bv16>, disabled: seq<bool>) returns (settled: bool)
    requires |status| == |errorCode| == |disabled|
    ensures settled <==> Settled(status, errorCode, disabled)
  {
    var anyPresent, anyEnabled := false, false;
    for i := 0 to |status|
      invariant anyPresent <==> exists j :: 0 <= j < i && !disabled[j]
      invariant anyEnabled <==> exists j :: 0 <= j < i && !disabled[j] && errorCode[j] == 0 && IsOperationEnabled(status[j])
      invariant forall j :: 0 <= j < i && !disabled[j] && errorCode[j] == 0 ==> IsOperationEnabled(status[j])
    {
      if disabled[i] {
        continue;
      }
      anyPresent := true;
      if errorCode[i] != 0 {
        continue;
      }
      if !IsOperationEnabled(status[i]) {
        return false;
      }
      anyEnabled := true;
    }
    return !anyPresent || anyEnabled;
  }

  // ------------------------------- Control word ------------------------------

  const QUICK_STOP: bv16 := 0x02
  const SHUTDOWN: bv16 := 0x06
  const SWITCH_ON: bv16 := 0x07
  const ENABLE_OPERATION: bv16 := 0x0F
  const ENABLE_OPERATION_HOMING: bv16 := 0x1F
  const FAULT_RESET: bv16 := 0x80

  datatype Mode = Enable | SwitchOn | Homing | Shutdown | QuickStop

  function ControlWord(mode: Mode, status: bv16, lastWord: bv16): bv16 {
    match mode
    case Homing => ENABLE_OPERATION_HOMING
    case SwitchOn => SWITCH_ON
    case Shutdown => SHUTDOWN
    case QuickStop => QUICK_STOP
    case Enable =>
      if Has(status, FAULT) then (if lastWord == FAULT_RESET then SHUTDOWN else FAULT_RESET)
      else if Has(status, OPERATION_ENABLED | SWITCHED_ON) then ENABLE_OPERATION
      else if Has(status, READY_TO_SWITCH_ON) then SWITCH_ON
      else SHUTDOWN
  }
}

/** A drive as chapter 10 of CiA DSP 402 V2.0 describes it, run in lockstep with the control word
    ladder: each cycle the host reads the status word, answers with a control word and the drive
    takes one transition. Transition 13 (a new fault) is left to the initial state. */
module Drive {
  import opened Types
  import opened Cia402

  datatype DriveState =
    | NotReadyToSwitchOn
    | SwitchOnDisabled
    | ReadyToSwitchOn
    | SwitchedOn
    | OperationEnabled
    | QuickStopActive
    | FaultReactionActive
    | Faulted

  // The status word patterns of the eight states; all other bits are arbitrary
  predicate Shows(d: DriveState, status: bv16) {
    match d
    case NotReadyToSwitchOn => status & 0x4F == 0x00
    case SwitchOnDisabled => status & 0x4F == 0x40
    case ReadyToSwitchOn => status & 0x6F == 0x21
    case SwitchedOn => status & 0x6F == 0x23
    case OperationEnabled => status & 0x6F == 0x27
    case QuickStopActive => status & 0x6F == 0x07
    case FaultReactionActive => status & 0x4F == 0x0F
    case Faulted => status & 0x4F == 0x08
  }

  // The device control commands, as control word patterns
  predicate IsShutdown(w: bv16) { w & 0x87 == 0x06 }
  predicate IsSwitchOn(w: bv16) { w & 0x87 == 0x07 }
  predicate IsEnableOperation(w: bv16) { w & 0x8F == 0x0F }
  predicate IsDisableOperation(w: bv16) { w & 0x8F == 0x07 }
  predicate IsQuickStop(w: bv16) { w & 0x86 == 0x02 }
  predicate IsDisableVoltage(w: bv16) { w & 0x82 == 0x00 }
  predicate IsFaultReset(previous: bv16, w: bv16) { w & 0x80 != 0 && previous & 0x80 == 0 }

  // One drive cycle. A quick stop ends by itself at a time of the drive's own, or is left by
  // Enable Operation where the drive supports that
  predicate DriveStep(d: DriveState, previous: bv16, w: bv16, d': DriveState) {
    match d
    case NotReadyToSwitchOn => d' == SwitchOnDisabled
    case SwitchOnDisabled => d' == if IsShutdown(w) then ReadyToSwitchOn else SwitchOnDisabled
    case ReadyToSwitchOn =>
      d' == if IsSwitchOn(w) then SwitchedOn
            else if IsQuickStop(w) || IsDisableVoltage(w) then SwitchOnDisabled
            else ReadyToSwitchOn
    case SwitchedOn =>
      d' == if IsEnableOperation(w) then OperationEnabled
            else if IsShutdown(w) then ReadyToSwitchOn
            else if IsQuickStop(w) || IsDisableVoltage(w) then SwitchOnDisabled
            else SwitchedOn
    case OperationEnabled =>
      d' == if IsDisableOperation(w) then SwitchedOn
            else if IsShutdown(w) then ReadyToSwitchOn
            else if IsDisableVoltage(w) then SwitchOnDisabled
            else if IsQuickStop(w) then QuickStopActive
            else OperationEnabled
    case QuickStopActive =>
      if IsEnableOperation(w) then d' == OperationEnabled || d' == SwitchOnDisabled
      else if IsDisableVoltage(w) then d' == SwitchOnDisabled
      else d' == QuickStopActive || d' == SwitchOnDisabled
    case FaultReactionActive => d' == Faulted
    case Faulted => d' == if IsFaultReset(previous, w) then SwitchOnDisabled else Faulted
  }

  // `held` is the last word the drive received and `sent` the one the host stored: they part when
  // a new session clears the host's copy
  datatype Axis = Axis(drive: DriveState, held: bv16, sent: bv16)

  ghost predicate Cycle(mode: Mode, a: Axis, a': Axis) {
    exists status ::
      && Shows(a.drive, status)
      && a'.sent == a'.held == ControlWord(mode, status, a.sent)
      && DriveStep(a.drive, a.held, a'.held, a'.drive)
  }

  ghost predicate IsRun(mode: Mode, run: seq<Axis>) {
    |run| > 0 && forall k :: 0 < k < |run| ==> Cycle(mode, run[k - 1], run[k])
  }

  // Cycles an Enable ladder still needs at the most
  function Distance(a: Axis): nat {
    match a.drive
    case OperationEnabled => 0
    case SwitchedOn => 1
    case ReadyToSwitchOn => 2
    case SwitchOnDisabled => 3
    case NotReadyToSwitchOn => 4
    case QuickStopActive => 4
    case Faulted => if a.sent == FAULT_RESET then 5 else if a.held & 0x80 == 0 then 4 else 6
    case FaultReactionActive => if a.sent == FAULT_RESET then 5 else 6
  }

  lemma EnableCycleAdvances(a: Axis, a': Axis)
    requires Cycle(Enable, a, a')
    ensures Distance(a') <= if Distance(a) == 0 then 0 else Distance(a) - 1
  {
    var status :| && Shows(a.drive, status)
                  && a'.sent == a'.held == ControlWord(Enable, status, a.sent)
                  && DriveStep(a.drive, a.held, a'.held, a'.drive);
    match a.drive
    case NotReadyToSwitchOn =>
    case SwitchOnDisabled => assert a'.held == SHUTDOWN;
    case ReadyToSwitchOn => assert a'.held == SWITCH_ON;
    case SwitchedOn => assert a'.held == ENABLE_OPERATION;
    case OperationEnabled => assert a'.held == ENABLE_OPERATION;
    case QuickStopActive => assert a'.held == ENABLE_OPERATION;
    case FaultReactionActive => assert Has(status, FAULT);
    case Faulted => assert Has(status, FAULT);
  }

  // From every state, whatever word either side remembers, six cycles of the ladder reach
  // Operation Enabled, and it is kept from then on
  lemma {:induction false} EnableLadderConverges(run: seq<Axis>, k: nat)
    requires IsRun(Enable, run) && k < |run|
    ensures Distance(run[k]) <= if k < Distance(run[0]) then Distance(run[0]) - k else 0
    ensures k >= 6 ==> run[k].drive == OperationEnabled
  {
    if k > 0 {
      EnableLadderConverges(run, k - 1);
      EnableCycleAdvances(run[k - 1], run[k]);
    }
  }

  // Six is needed: a host that forgot its fault reset meets a drive that still holds it
  lemma SixCyclesAreNeeded()
    ensures exists run: seq<Axis> :: IsRun(Enable, run) && |run| == 6 && forall k :: 0 <= k < 6 ==> run[k].drive != OperationEnabled
  {
    var run := [Axis(Faulted, FAULT_RESET, 0), Axis(Faulted, FAULT_RESET, FAULT_RESET),
                Axis(Faulted, SHUTDOWN, SHUTDOWN), Axis(SwitchOnDisabled, FAULT_RESET, FAULT_RESET),
                Axis(ReadyToSwitchOn, SHUTDOWN, SHUTDOWN), Axis(SwitchedOn, SWITCH_ON, SWITCH_ON)];
    var status: seq<bv16> := [0x08, 0x08, 0x08, 0x40, 0x21];
    forall k | 0 < k < |run|
      ensures Cycle(Enable, run[k - 1], run[k])
    {
      assert Shows(run[k - 1].drive, status[k - 1]);
      assert run[k].held == ControlWord(Enable, status[k - 1], run[k - 1].sent);
    }
    assert IsRun(Enable, run);
  }

  predicate PoweredOn(d: DriveState) { d == SwitchedOn || d == OperationEnabled }
  predicate PastReady(d: DriveState) { PoweredOn(d) || d == QuickStopActive }

  // A disabled actuator is sent Shutdown in every cycle. A drive that is not past Ready to Switch
  // On never gets there, and one that was powered on is not from the next cycle on
  lemma {:induction false} ShutdownHoldsBack(run: seq<Axis>, k: nat)
    requires IsRun(Shutdown, run) && k < |run|
    ensures !PastReady(run[0].drive) ==> !PastReady(run[k].drive)
    ensures k > 0 ==> !PoweredOn(run[k].drive)
  {
    if k > 0 {
      ShutdownHoldsBack(run, k - 1);
      assert Cycle(Shutdown, run[k - 1], run[k]);
    }
  }

  // A quick stop takes the drive out of Operation Enabled at once, and nothing re-enables it for
  // as long as the word is repeated
  lemma {:induction false} QuickStopDisarms(run: seq<Axis>, k: nat)
    requires IsRun(QuickStop, run) && 0 < k < |run|
    ensures !PoweredOn(run[k].drive) && run[k].drive != ReadyToSwitchOn
    ensures run[0].drive != OperationEnabled && run[0].drive != QuickStopActive ==> !PastReady(run[k].drive)
  {
    if k > 1 {
      QuickStopDisarms(run, k - 1);
    }
    assert Cycle(QuickStop, run[k - 1], run[k]);
  }
}
