# A model of the hand SDK's real-time core

The SDK drives a sixteen-actuator hand over CAN FD from three threads. This project models the parts
that decide whether the hand moves, and how far, and proves what they promise.

- **Channels between the threads.** `RealtimeBuffer` is the triple buffer behind one packed atomic
  word, `RealtimeEventRing` the single-producer ring. Both are interleavings of single loads, stores,
  compare-and-swaps and copies of one payload word, and both are shown to refine their simple
  specification: a one-place mailbox that is overwritten, and a bounded queue.
- **Drives and homing.** `Cia402` holds the status word tests and the control word ladder, `Drive` the
  device state machine of chapter 10 of CiA DSP 402 V2.0 that the ladder is run against.
  `HomingSequence` is the six-stage homing machine, `HomingHistory` what a run of it has seen,
  `HomingWords` what it sends and whom it blames.
  `HandComms` puts the ladder, the homing and the quick stop together, `Protocol` is the byte layout.
- **The lifecycle.** `HandCore` is the state machine that the user's calls and the control loop share.
  `HandCoreInvariant` shows what every step keeps, `HandCoreHistory` where commands, confirmations and
  homing successes come from, `HandCoreLocality` what one thread leaves alone of the other's.
  `HandCoreSafety` is the safety of whole runs, `HandCoreCycles` of a cycle that the user interrupts,
  `HandCoreHoming` of homing from its request to its verdict, `HandCorePoses` of what the SDK stages by
  itself, `HandCoreCalls` what the calls promise. `HandCoreSetpoints` follows a command from the call to the
  setpoints of a cycle, `HandCoreConfirmation` runs the loop against sixteen drives of `Drive`. `HandCoreRuns` shows that a homing can succeed, and the runs behind the findings below.
  `HandCoreObject` is the same machine as an object with the fields of the class, whose methods change
  them step by step. `ActionCheck` is the gate of every call.
- **The command path.** `JointClamp` moves a target to the nearest point of a finger's workspace,
  `JointTargets` clamps all sixteen joints in place, `JointTables` holds the shipped tables and
  `TableReach` shows where the clamp leaves its targets on them.
  `JointPositionController` is the deadband and low-pass filter, `JointImpedanceController` the PD law,
  and `CommandMapping` turns a command into setpoints. `SentFrames` follows them to the bytes on the wire.
  `ArcGeometry` is the plane geometry underneath.

A function or a datatype gives the meaning of an operation; where the program changes state, a class or
a method with loops is proved equal to it, and the properties are proved about the function.

Words, indices and bytes are modelled with their widths: 64-bit ring indices wrap, 32-bit positions wrap,
control and status words are 16-bit vectors. Lengths, angles, gains and filter states are reals.

## Findings

The model follows the code. Where that is not what one would expect, a lemma says so.

- `HandCoreRuns.ConnectMayHideFault`: `connect()` stores Connected without looking, so a fault between
  the first frame and its next poll is written over. The call then succeeds with no loop behind it.
  `HandCoreCalls.ConnectHidesOnlyFaults` says exactly when.
- `HandCoreRuns.HomeMayReturnEarlierSuccess`: a reconnect clears the homing request but not the last
  verdict, so a `home()` that waits across one may return an earlier homing's success.
  `HandCoreHoming.HomeReturnsOwnSuccess` says exactly when it does not, and `HandCoreHoming.HomeIsHonest`
  which configurations rule it out.
- `HandCoreRuns.HomingMayOnlyReadAsInProgress`: a homing refused for want of communication leaves the
  homing state at InProgress, and where nothing was under way nothing is.
  `HandCoreCalls.RefusedHomingReadsInProgress` says exactly when.
- `HandCoreRuns.CommandMayPrecedeHoming`: asking for a homing again in the cycle in which the previous one
  succeeds leaves that success standing, and a joint command is accepted before and while the second one
  runs. `HandCoreHoming.StandsBesideIff` says exactly when.
- `HandCoreRuns.StopMayLeaveHoming`: on a link that a retry has lost and that `connect()` has then reported
  as up, a stop does not resolve a homing. `HandCoreSafety.StopFailsHoming` says exactly when it does.
- `HandCoreRuns.StaleFramesMayBeSent`: a stop that times out and a new run within one cycle let out frames
  of the old request. `HandCoreCycles.UserFramesSentAreCurrent` says exactly when.
- `HandCoreRuns.HoldMayOutliveLink`: a `start_homing()` from a confirmed stop, a `disconnect()` before the loop's
  next cycle and a `connect()`. `request_hold_` survives all three, so the first cycle of the new link, which has
  heard nothing yet, stages all actuators at zero as the pose to hold. The comment at
  cpp/src/hand_core/threads/hand_core_control_thread.cpp:136 says that this cannot be stale.
  `HandCorePoses.EarnsItsPosesIff` says exactly which link sessions are free of it.
- `HandCoreConfirmation.StopMayNotShow`: the drive standard leaves bit5 open in Switch On Disabled, so a drive may
  be stopped for good and never show it to a `stop()` that waits.
- `HomingWords.StageSetpoints`: the edge window is as long as the settle stage, so all of it is in mode 6, though
  the comment at cpp/src/hand_core/comms/state_machine/homing_sequence.cpp:214 has it in torque mode up to the end.
- `Protocol.LargestTargetOverflows`: the largest accepted actuator target leaves the 32 bits when
  `encode` adds the home offset; `Protocol.WireIsExact` gives the exact range in which it does not.
- `HandComms.VerdictsExclude`: with every actuator disabled, the enable and the stop verdict hold together;
  in every other case they exclude each other.
- `HandComms.StopIsWhatIsShown`: the latch of bit5 never changes the stop verdict, since an actuator that has not
  been seen with bit5 high does not show it high.
- `Drive.SixCyclesAreNeeded`: the bound of six cycles is met, by a host that forgot its fault reset.
- `HomingHistory.EnableTimeoutBlamesAll`: an EnableTimeout blames all sixteen actuators, disabled ones included.

## Model

| member | source | states |
|---|---|---|
| `RealtimeBuffer.UnpackPack` | cpp/src/types/realtime_buffer.hpp:52-60 | the four accessors read back what was packed into the word |
| `RealtimeBuffer.StepKeepsInv` | cpp/src/types/realtime_buffer.hpp:21-49 | every atomic step and every copied payload word of either side keeps the invariant and is one operation of the mailbox, or none |
| `RealtimeBuffer.RefinesMailbox` | cpp/src/types/realtime_buffer.hpp:21-60 | every interleaving is a history of a one-place overwrite mailbox: the indices stay a permutation, the slot being written is neither the ready nor the reading one, reads return whole written values in order and once each, and one write() is overtaken by the reader, and loses its compare-and-swap to it, at most once |
| `RealtimeBuffer.QuietReaderCatchesUp` | cpp/src/types/realtime_buffer.hpp:36-49 | once the writer is quiet, a read() that runs to its end leaves the last value written as the last one read |
| `RealtimeBuffer.RealtimeBuffer.Write` | cpp/src/types/realtime_buffer.hpp:21-33 | write() run to its end publishes the value, whatever the spurious failures |
| `RealtimeBuffer.RealtimeBuffer.Read` | cpp/src/types/realtime_buffer.hpp:36-49 | read() run to its end returns the pending value exactly when there is one |
| `RealtimeEventRing.StepKeepsInv` | cpp/src/types/realtime_event_ring.hpp:25-51 | every atomic step keeps the invariant, across the wrap of the 64-bit indices, and is one queue operation or none |
| `RealtimeEventRing.RefinesFifo` | cpp/src/types/realtime_event_ring.hpp:18-63 | every interleaving is a history of a queue of capacity 64: accepted events come out once and in order, the producer never writes a slot that is being copied out, and attempts are popped, queued or counted as dropped |
| `RealtimeEventRing.DropsAreFull` | cpp/src/types/realtime_event_ring.hpp:25-38 | over every interleaving, as many events are dropped as pushes have found the queue of 64 full |
| `RealtimeEventRing.RealtimeEventRing.Push` | cpp/src/types/realtime_event_ring.hpp:25-38 | push() appends the event, or counts it as dropped exactly when the ring is full |
| `RealtimeEventRing.RealtimeEventRing.Pop` | cpp/src/types/realtime_event_ring.hpp:41-51 | pop() takes the oldest event exactly when there is one |
| `Cia402.EnableSettled` | cpp/src/hand_core/comms/state_machine/cia402.hpp:49-64 | settled exactly when nobody takes part, or somebody without an error is enabled and everybody without one is |
| `Drive.EnableCycleAdvances` | cpp/src/hand_core/comms/state_machine/cia402.hpp:92-108 | one ladder cycle brings any drive closer to Operation Enabled, and keeps it there |
| `Drive.EnableLadderConverges` | cpp/src/hand_core/comms/state_machine/cia402.hpp:92-108 | from every drive state and whatever either side last sent or received, Enable reaches Operation Enabled within six cycles and stays |
| `Drive.SixCyclesAreNeeded` | cpp/src/hand_core/comms/state_machine/cia402.hpp:100-104 | a run that needs all six |
| `Drive.ShutdownHoldsBack` | cpp/src/hand_core/comms/hand_comms.cpp:286-295 | a drive held at Shutdown never gets past Ready to Switch On, and is powered down at once where it was |
| `Drive.QuickStopDisarms` | cpp/src/hand_core/comms/state_machine/cia402.hpp:71-72 | a quick stop takes a drive out of Operation Enabled in one cycle and nothing re-enables it while it lasts |
| `HomingSequence.StepSpendsBudget` | cpp/src/hand_core/comms/state_machine/homing_sequence.cpp:136-245 | every step of a running sequence uses up at least one cycle of what is left |
| `HomingSequence.EndsInTime` | cpp/src/hand_core/comms/state_machine/homing_sequence.cpp:20-28 | whatever is received, a started sequence is over after 11000 steps |
| `HomingSequence.FillHomingCommand` | cpp/src/hand_core/comms/state_machine/homing_sequence.cpp:40-50 | the loop that fills the command: absent actuators get no effort |
| `HomingSequence.EvaluateActuators` | cpp/src/hand_core/comms/state_machine/homing_sequence.cpp:252-267 | the loop over the latches: low seen, rising edge without error, error, and the two verdicts |
| `HomingSequence.HomingSequence.StartHoming` | cpp/src/hand_core/comms/state_machine/homing_sequence.cpp:85-95 | start() gives the machine's start state |
| `HomingSequence.HomingSequence.CancelHoming` | cpp/src/hand_core/comms/state_machine/homing_sequence.cpp:97-101 | cancel() leaves the outcome as it is |
| `HomingSequence.HomingSequence.EvaluateHomingTrigger` | cpp/src/hand_core/comms/state_machine/homing_sequence.cpp:248-281 | the trigger evaluation: error before timeout before success |
| `HomingSequence.HomingSequence.StepHoming` | cpp/src/hand_core/comms/state_machine/homing_sequence.cpp:136-245 | step() is the machine's step, and returns its command and control word mode |
| `HomingHistory.AlwaysPrepared` | cpp/src/hand_core/comms/state_machine/homing_sequence.cpp:144-203 | present actuators are not disabled and were seen enabled; past the clear stages all of them were seen disabled and then enabled with bit12 at 0 |
| `HomingHistory.EffortIsEarned` | cpp/src/hand_core/comms/state_machine/homing_sequence.cpp:40-50 | a nonzero effort goes only to such an actuator, only after that, and is the preload effort |
| `HomingWords.StageWord` | cpp/src/hand_core/comms/hand_comms.cpp:276-295 | during a homing, bit4 of the word sent to an actuator that takes part is set in the trigger stage, where the word is 0x1F, and nowhere else; the disable stage sends 0x07, all others the word of the ladder |
| `HomingWords.DisableLeavesOperation` | cpp/src/hand_core/comms/state_machine/homing_sequence.cpp:175-187 | a drive in Operation Enabled that receives the word of the disable stage goes to Switched On |
| `HomingWords.StageSetpoints` | cpp/src/hand_core/comms/state_machine/homing_sequence.cpp:136-234 | every present actuator is sent effort -800 in every cycle of the preload, settle and trigger stages and nobody any at other times; the mode is torque in the enable and preload stages and 6 in all others |
| `HomingWords.StageLasted` | cpp/src/hand_core/comms/state_machine/homing_sequence.cpp:103-108 | the cycle count of a stage is the number of steps for which the sequence has been in it, and the stage before it came right before |
| `HomingWords.PushLasts` | cpp/src/hand_core/comms/state_machine/homing_sequence.cpp:205-224 | the trigger stage is entered right after 2000 cycles of preload and 1000 of settle |
| `HomingWords.TriggerHasEdge` | cpp/src/hand_core/comms/state_machine/homing_sequence.cpp:213-232 | in the first trigger cycle bit4 of every present actuator goes from 0 to 1, with mode 6 and the preload effort in both cycles |
| `HomingWords.TimeoutsAreFull` | cpp/src/hand_core/comms/state_machine/homing_sequence.cpp:20-28 | a timeout ends a sequence after exactly 2000 cycles in the stage that it names, not before |
| `HomingWords.BlameIsExact` | cpp/src/hand_core/comms/state_machine/homing_sequence.cpp:181-243 | exactly whom each kind of failure blames, in terms of the frames seen, and that stage, status words and positions of the failing step are recorded |
| `HomingHistory.SuccessIsEarned` | cpp/src/hand_core/comms/state_machine/homing_sequence.cpp:247-281 | homing succeeds exactly when, before the trigger timeout, every present actuator showed bit12 low and later high without bit13, and none ever showed bit13; then somebody is present and nobody is blamed |
| `HomingHistory.FailureIsReported` | cpp/src/hand_core/comms/state_machine/homing_sequence.hpp:60-72 | a run that ended blames somebody exactly when it failed, and the outcome names the phase of the stage it failed in |
| `HomingHistory.EnableTimeoutBlamesAll` | cpp/src/hand_core/comms/state_machine/homing_sequence.cpp:160-170 | an EnableTimeout blames all sixteen actuators, disabled ones included, and means that no actuator that takes part showed Operation Enabled in any step of the enable window |
| `Protocol.Bytes32` | cpp/src/hand_core/comms/canfd/protocol.cpp:18-24 | four little-endian bytes read back as the same 32-bit number |
| `Protocol.BytesOfInt32` | cpp/src/hand_core/comms/canfd/protocol.cpp:18-24 | four bytes read as a number exactly where they are its digits to the base 256, the lowest first, in two's complement |
| `Protocol.BytesOfInt16` | cpp/src/hand_core/comms/canfd/protocol.cpp:18-24 | the same for 16-bit numbers, signed and unsigned |
| `Protocol.BytesOfWord` | cpp/src/hand_core/comms/canfd/protocol.cpp:18-24 | the two halves of a word, the low one first, read as that word |
| `Protocol.TargetBytes` | cpp/src/hand_core/comms/canfd/protocol.cpp:214-221 | byte by byte, where in the payload each target is and that it is sent 1000 counts higher |
| `Protocol.IdsAreApart` | cpp/src/hand_core/comms/canfd/protocol.cpp:56-113 | the ids and the shortest payloads of both hands' signals; no id stands for two signals, for both hands, or for a signal and a command |
| `Protocol.WriteInt32Array` | cpp/src/hand_core/comms/canfd/protocol.cpp:39-42 | the written array reads back element by element, and no other byte changes |
| `Protocol.WriteInt16Array` | cpp/src/hand_core/comms/canfd/protocol.cpp:43-46 | the same for 16-bit numbers |
| `Protocol.WriteWordArray` | cpp/src/hand_core/comms/canfd/protocol.cpp:47-50 | the same for control words |
| `Protocol.ReadInt32Array` | cpp/src/hand_core/comms/canfd/protocol.cpp:27-30 | the loop reads every element |
| `Protocol.DecodeFrame` | cpp/src/hand_core/comms/canfd/protocol.cpp:153-212 | decode() classifies the frame and changes the state exactly as specified |
| `Protocol.FramesAreClassified` | cpp/src/hand_core/comms/canfd/protocol.cpp:153-212 | an error frame goes before everything, a signal of this hand is decoded exactly where it is long enough, a command id is a conflict, the other hand's signals are unknown, and only what is decoded changes the state |
| `Protocol.DecodeSets` | cpp/src/hand_core/comms/canfd/protocol.cpp:153-212 | a decoded frame sets the signal of its id to its value and leaves all others alone; any other frame changes nothing |
| `Protocol.DrainKeepsNewest` | cpp/src/hand_core/comms/hand_comms.cpp:228-244 | draining a queue leaves every signal at its last decoded frame, or unchanged |
| `Protocol.DrainForgetsOrder` | cpp/src/hand_core/comms/hand_comms.cpp:228-244 | two queues with the same newest frame per signal leave the same state |
| `Protocol.NeighboursCommute` | cpp/src/hand_core/comms/hand_comms.cpp:228-244 | frames of different ids commute |
| `Protocol.TxFrames.Encode` | cpp/src/hand_core/comms/canfd/protocol.cpp:214-229 | every encoded array reads back, both halves of the effort frame independently |
| `Protocol.PositionRoundTrip` | cpp/src/hand_core/comms/canfd/protocol.cpp:161-167 | encoded positions in range decode to the same sixteen targets, through bytes and offset |
| `Protocol.WireIsExact` | cpp/src/hand_core/comms/canfd/protocol.cpp:216-221 | a target keeps its value on the wire exactly when adding the offset stays within 32 bits |
| `Protocol.LargestTargetOverflows` | cpp/src/hand_core/comms/canfd/protocol.cpp:220 | the largest 32-bit target does not |
| `HandComms.VerdictsExclude` | cpp/src/hand_core/comms/hand_comms.cpp:200-218 | after a read(), both verdicts hold exactly when all actuators are disabled |
| `HandComms.StopIsWhatIsShown` | cpp/src/hand_core/comms/hand_comms.cpp:200-212 | after a read(), the stop verdict holds exactly where no actuator that takes part shows bit5, whatever has been latched |
| `HandComms.QuickStopWins` | cpp/src/hand_core/comms/hand_comms.cpp:276-295 | a quick stop sends 0x02 to all, 0x06 to disabled actuators, and cancels homing without changing its outcome |
| `HomingWords.SetpointsPass` | cpp/src/hand_core/comms/hand_comms.cpp:270-295 | outside a homing, and under a quick stop, write() changes nothing of the computed setpoints but the control words |
| `HandComms.DisabledIsHeldAtShutdown` | cpp/src/hand_core/comms/hand_comms.cpp:286-295 | a disabled actuator gets 0x06 in every mode |
| `HandComms.WriteIsLadderCycle` | cpp/src/hand_core/comms/hand_comms.cpp:286-295 | each write() is one cycle of the drive ladder for every actuator, so the results about `Drive` apply |
| `HandCoreConfirmation.RunConfirmedInSeven` | cpp/src/hand_core/threads/hand_core_control_thread.cpp:270-290 | sixteen drives that follow the standard, from any states: with Running requested on an open link, no fault and no homing, the lifecycle is Running after the seventh whole cycle that receives, and stays so |
| `HandCoreConfirmation.StopConfirmedInTwo` | cpp/src/hand_core/threads/hand_core_control_thread.cpp:270-290 | with Stopped requested it is Stopped after the second one, and stays so, where the drives keep bit5 low while they are not powered |
| `HandCoreConfirmation.StopMayNotShow` | cpp/src/hand_core/comms/hand_comms.cpp:200-212 | a drive that follows the standard may stay in Switch On Disabled with bit5 high under every quick stop |
| `HandComms.HandComms.Connect` | cpp/src/hand_core/comms/hand_comms.cpp:107-161 | a new session carries over none of the previous one's observations |
| `HandComms.HandComms.Disconnect` | cpp/src/hand_core/comms/hand_comms.cpp:163-170 | closes the link and ends control |
| `HandComms.HandComms.StartHoming` | cpp/src/hand_core/comms/hand_comms.cpp:190-198 | home() starts the sequence exactly in an active session |
| `HandComms.HandComms.ReadFrames` | cpp/src/hand_core/comms/hand_comms.cpp:220-268 | read(): the drained state, the silence count, the first-frame flag and the bit5 latch |
| `HandComms.HandComms.CheckQuickStop` | cpp/src/hand_core/comms/hand_comms.cpp:200-212 | the stop verdict as a condition on all actuators |
| `HandComms.HandComms.CheckDrives` | cpp/src/hand_core/comms/hand_comms.cpp:214-218 | the enable verdict |
| `HandComms.HandComms.WriteFrames` | cpp/src/hand_core/comms/hand_comms.cpp:270-309 | write(): homing step or quick stop, the control words sent, and the words kept |
| `ActionCheck.FaultNeedsReconnect` | cpp/src/hand_core/lifecycle/action_check.cpp:100-138 | in a fault only reconnect() passes, outside one it never does |
| `ActionCheck.CommandNeedsConfirmedRunning` | cpp/src/hand_core/lifecycle/action_check.cpp:122-137 | a command passes exactly when Running is requested and observed and the hand is homed |
| `ActionCheck.StatesAdmit` | cpp/src/hand_core/lifecycle/action_check.cpp:100-138 | what each requested state admits outside a fault |
| `ActionCheck.RefusalsNameTheFault` | cpp/src/hand_core/lifecycle/action_check.cpp:100-138 | in a fault all others are refused with the code of its cause, on a destroyed hand everything is refused |
| `HandCoreInvariant.StepKeepsInv` | cpp/src/hand_core/hand_core.cpp:90-331 | every step of either thread keeps the invariant of threads, link, homing, staging and commands |
| `HandCoreInvariant.AlwaysInv` | cpp/src/hand_core/threads/hand_core_control_thread.cpp:66-203 | it holds in every state of every run |
| `HandCoreInvariant.OneLoopAtATime` | cpp/src/hand_core/hand_core.cpp:90-148 | connect() starts a loop only where no thread of the last one is left to be joined |
| `HandCoreInvariant.TryReconnectKeepsInv` | cpp/src/hand_core/threads/hand_core_control_thread.cpp:414-463 | a retry of the link keeps the invariant whether it fails at the socket, at the first frame, or succeeds |
| `HandCoreHistory.StepHistory` | cpp/src/hand_core/threads/hand_core_control_thread.cpp:268-290 | in every step a staged user command is kept, lost or newly accepted, requests for Running are counted, and a confirmed lifecycle or a homing success has its evidence |
| `HandCoreSafety.StagedWasAccepted` | cpp/src/hand_core/hand_core.cpp:376-442 | a staged user command goes back to a set_command() that was accepted, and has been staged ever since |
| `HandCoreSafety.UserFramesAreCurrent` | cpp/src/hand_core/threads/hand_core_control_thread.cpp:108-111 | frames computed from a user's command use one accepted after the latest request for Running and in this link session, with no homing started and no link recovered since, and, unless Idle, after a homing that succeeded in this session |
| `HandCoreSetpoints.FramesFollowTarget` | cpp/src/hand_core/threads/hand_core_control_thread.cpp:511-564 | over whole runs, a cycle of a running hand serves the target of the set_command() that staged its command: CSP for both position targets, CST for all others, and every healthy actuator gets the setpoint of its kind |
| `HandCoreSetpoints.RunningCycleServes` | cpp/src/hand_core/threads/hand_core_control_thread.cpp:106-147 | in Running a cycle computes from what is staged as it begins, its caps and its configuration, and an actuator that is not healthy holds its position or gets no torque |
| `HandCoreSetpoints.SeenIsDecoded` | cpp/src/hand_core/comms/canfd/protocol.cpp:256-263 | an actuator is masked exactly where it is disabled, reports an error or shows anything but Operation Enabled, and positions are the decoded ones |
| `HandCoreSetpoints.HoldKeepsStill` | cpp/src/hand_core/hand_core.cpp:731-740 | a running cycle that computes from a hold, on a hand that has not moved since, sends every actuator to the count that it has, healthy or not |
| `HandCoreSetpoints.ResumeKeepsStill` | cpp/src/hand_core/threads/hand_core_control_thread.cpp:135-147 | so does the first cycle that sends after a resumption: the targets are the counts decoded by the cycle that took the hold |
| `HandCoreSetpoints.NoTorqueOutsideRunning` | cpp/src/hand_core/threads/hand_core_control_thread.cpp:106-111 | outside Running a cycle's frames give nobody any torque, whatever is staged |
| `HandCoreSetpoints.NewHandIs` | cpp/src/hand_core/hand_core.cpp:62-81 | what a new hand starts with, down to its caps, filter and gains |
| `HandCoreSafety.NothingOutlivesRunning` | cpp/src/hand_core/hand_core.cpp:160-190 | outside a request for Running no user command is staged, short of close() and of a reconnect() that still waits for the old loop |
| `HandCoreSafety.RunningIsConfirmed` | cpp/src/hand_core/threads/hand_core_control_thread.cpp:270-290 | the lifecycle gets to Running only at the end of a receiving cycle, with Running requested and the drives enabled |
| `HandCoreSafety.LifecycleFollowsEvidence` | cpp/src/hand_core/threads/hand_core_control_thread.cpp:270-290 | where a cycle that does not fault leaves the lifecycle, by the request, the reception, the drives and the first frame |
| `HandCoreSafety.SendIsJudged` | cpp/src/hand_core/threads/hand_core_control_thread.cpp:148-170 | a cycle reports the link as up exactly where it has received and its frames were delivered or wait behind a full queue, and faults for a failed transmission exactly where it was sending in Running |
| `HandCoreConfirmation.SilenceFaultsExactly` | cpp/src/hand_core/threads/hand_core_control_thread.cpp:215-252 | a cycle faults for silence exactly where its queue is one more in a row without a decoded frame than the loss window has, on an open link that has been heard |
| `HandCoreSafety.RetryRecoversExactly` | cpp/src/hand_core/threads/hand_core_control_thread.cpp:414-463 | a faulted loop ends exactly where no reconnect is wanted, allowed or in time, and else brings the link back exactly where the socket opens and one of its polls brings a frame |
| `HandCoreSafety.StoppedIsConfirmed` | cpp/src/hand_core/threads/hand_core_control_thread.cpp:270-290 | the lifecycle gets to Stopped only at the end of a receiving cycle, with Stopped requested and the quick stop attained |
| `HandCoreSafety.RunSawDrivesEnabled` | cpp/src/hand_core/hand_core.cpp:589-616 | a run() that waited, entered with a lifecycle other than Running, returns success only after such a cycle |
| `HandCoreSafety.StopSawQuickStop` | cpp/src/hand_core/hand_core.cpp:277-308 | a stop(), or a disconnect() from a control session, entered with a lifecycle other than Stopped, goes on only after such a cycle |
| `HandCoreSafety.AtMostOneLooseSend` | cpp/src/hand_core/threads/hand_core_control_thread.cpp:142-152 | after the request has left Running, at most one more transmission is anything but a quick stop until Running is requested again |
| `HandCoreSafety.OnlyACommittedCycleSendsLoosely` | cpp/src/hand_core/threads/hand_core_control_thread.cpp:148-152 | and only one whose cycle was past its re-read when the request left Running |
| `HandCoreLocality.UserKeepsLoop` | cpp/src/hand_core/hand_core.cpp:376-487 | whatever the user does while a loop lives, the loop, the link, a homing under way and its trail are as the loop left them; of homing the user can only ask for one, which takes back the last verdict, a hold is only asked for on a link that is up, and no pose of the SDK is staged |
| `HandCoreCycles.InCycle` | cpp/src/hand_core/threads/hand_core_control_thread.cpp:106-152 | a cycle that the user interrupts keeps what it began with up to its last step, and reads the request again at most once |
| `HandCoreCycles.UserFramesSentAreCurrent` | cpp/src/hand_core/threads/hand_core_control_thread.cpp:142-152 | frames that go out other than as a quick stop, and come from a user's command, use one that was current when their cycle began; it is still the latest exactly where the user has not, within that cycle, had the request leave Running and called run(), home() or start_homing() again |
| `HandCoreRuns.StaleFramesMayBeSent` | cpp/src/hand_core/threads/hand_core_control_thread.cpp:148-152 | a run in which it is not: a stop that times out and a new run within one cycle |
| `HandCoreCycles.SilenceStopsInTheSameCycle` | cpp/src/hand_core/threads/hand_core_control_thread.cpp:215-252 | the cycle that finds a silence ends with a quick stop on the wire and homing inactive, even by an exception; otherwise what was running is resolved as failed and the link reported as down |
| `HandCoreCycles.DropNeedsOpenLink` | cpp/src/hand_core/threads/hand_core_control_thread.cpp:215-252 | a silence is only ever found on an open link |
| `HandCoreHoming.HomingResolvesInTime` | cpp/src/hand_core/threads/hand_core_control_thread.cpp:335-358 | a homing request taken up in Running comes to a verdict before 11000 more cycles have ended, to a success of this very sequence or to a failure, unless the loop faults or another request is taken up first |
| `HandCoreSafety.RequestStartsSequence` | cpp/src/hand_core/threads/hand_core_control_thread.cpp:113-121 | a homing request taken up in Running starts a new sequence with an empty trail; it is never dropped for want of an active session |
| `HandCoreSafety.CycleResolvesHoming` | cpp/src/hand_core/threads/hand_core_control_thread.cpp:335-358 | a cycle ends with homing still running, or succeeded in this very cycle, or failed, and a written step goes on the trail with the frames it saw |
| `HandCoreHoming.StopResolvesHoming` | cpp/src/hand_core/threads/hand_core_control_thread.cpp:348-355 | the first cycle that begins after the request has left Running finds homing resolved or resolves it to Failed, short of a fault before |
| `HandCoreSafety.StopFailsHoming` | cpp/src/hand_core/threads/hand_core_control_thread.cpp:348-355 | after a fault too, a cycle that reads a stop resolves a running homing to Failed exactly where the link is open or the sequence is over |
| `HandCoreRuns.StopMayLeaveHoming` | cpp/src/hand_core/hand_core.cpp:141-148 | a run in which it does not: a link lost in a retry, and the fault written over by connect() |
| `HandCoreSafety.SuccessIsFresh` | cpp/src/hand_core/threads/hand_core_control_thread.cpp:351-358 | the homing state turns to Succeeded only in a cycle in which a running sequence has taken its last step |
| `HandCoreHoming.HomeReturnsOwnSuccess` | cpp/src/hand_core/hand_core.cpp:310-334 | a home() that returns success leaves the hand homed by a sequence taken up after the call exactly where the link was not recovered meanwhile or the recovery homes itself |
| `HandCoreHoming.HomeIsHonest` | cpp/src/hand_core/hand_core.cpp:310-334 | without automatic reconnect, or with a homing after it, every home() that returns success leaves the hand homed by such a sequence |
| `HandCoreRuns.HomeMayReturnEarlierSuccess` | cpp/src/hand_core/hand_core.cpp:693-700 | a run in which it returns the success of an earlier sequence, its own request never taken up and the hand not homed |
| `HandCoreHoming.StandsBesideIff` | cpp/src/hand_core/threads/hand_core_control_thread.cpp:351-358 | the hand comes to read as homed beside another homing exactly where a cycle reports success while a request is pending |
| `HandCoreHoming.StandingBesideHasCause` | cpp/src/hand_core/threads/hand_core_control_thread.cpp:351-358 | and has done so ever since such a cycle |
| `HandCoreRuns.CommandMayPrecedeHoming` | cpp/src/hand_core/hand_core.cpp:376-390 | a run in which one joint command is accepted then before the second sequence begins, and another one while it runs |
| `HandCoreRuns.HomingCanSucceed` | cpp/src/hand_core/comms/state_machine/homing_sequence.cpp:136-245 | every newly constructed hand with all actuators present has a run in which homing succeeds |
| `HandCoreSafety.ReportedByDrives` | cpp/src/hand_core/comms/state_machine/homing_sequence.cpp:237-281 | a cycle that reports success has on its trail a whole sequence in which everybody present answered the enable window, was disabled and enabled again with bit12 clear, then raised bit12, with no bit13 |
| `HandCoreSafety.HomedLinkWasShown` | cpp/src/hand_core/threads/hand_core_control_thread.cpp:348-358 | over whole runs, a homing state that reads Succeeded goes back to such a sequence in this link session |
| `HandCoreSafety.MovesFollowShownHoming` | cpp/src/hand_core/lifecycle/action_check.cpp:122-137 | frames computed from a user's command other than Idle come after such a sequence in the same link session |
| `HandCorePoses.PosesAreEarned` | cpp/src/hand_core/threads/hand_core_control_thread.cpp:135-139 | in a link session that is opened with no hold asked for and no pose staged, every pose that the SDK stages by itself is the zero pose of a homing that succeeds in this session, or has for every actuator the count of the newest position frame that its link had brought in when the cycle resumed, after a frame has come in |
| `HandCorePoses.CycleResumes` | cpp/src/hand_core/hand_core.cpp:731-740 | a cycle that finds a hold asked for stages, for every actuator, the count decoded from its frames, with the caps that are staged |
| `HandCorePoses.SuccessTakesZero` | cpp/src/hand_core/threads/hand_core_control_thread.cpp:348-358 | and a cycle that reports a homing as succeeded stages zero for every actuator |
| `HandCorePoses.EarnsItsPosesIff` | cpp/src/hand_core/hand_core.cpp:580-587 | however a session goes on, all of its poses are earned so exactly where request_hold_ is clear and no pose is staged as its link is opened; a reconnect() and a retry always see to that |
| `HandCoreRuns.HoldMayOutliveLink` | cpp/src/hand_core/hand_core.cpp:693-700 | a run of every hand in which connect() does not: the hold asked for on the old link is taken on the new one, as all zeros, before a frame has come in |
| `HandCoreSafety.StagedIsPendingOrActive` | cpp/src/hand_core/hand_core.cpp:704-740 | while the loop lives, the staged command and configuration are the pending ones, or the loop's own where nothing is pending |
| `HandCoreSafety.CapIsBounded` | cpp/src/hand_core/hand_core.cpp:446-462 | the staged effort cap is within [0, 2000] in every state |
| `HandCoreSafety.CycleTorqueIsBounded` | cpp/src/hand_core/threads/hand_core_control_thread.cpp:145-146 | every torque a cycle computes is within the cap sent with it, and the cap within its limit |
| `HandCoreSafety.StagedJointsAreReachable` | cpp/src/hand_core/hand_core.cpp:385-417 | with the workspace clamp on, exact knots and no slack, every staged joint target of a user is within the hand's workspace and limits |
| `HandCoreSafety.StagedJointsAreNearlyReachable` | cpp/src/hand_core/hand_core.cpp:385-417 | the same on the shipped tables and at every slack of the comparisons: each pair is inside, or at a boundary point up to the slack in flexion and up to `TableReach.Miss` in abduction, below a hundred-thousandth of a degree at the shipped slack |
| `HandCoreCalls.ConnectHidesOnlyFaults` | cpp/src/hand_core/hand_core.cpp:90-230 | a connect() or reconnect() that succeeds leaves a living loop, Connected requested and no fault written over exactly where no fault has been found since it started the loop |
| `HandCoreRuns.ConnectMayHideFault` | cpp/src/hand_core/hand_core.cpp:141-147 | for every length of silence that counts as a fault, a run in which connect() succeeds after it and no loop is left |
| `HandCoreCalls.RefusedHomingReadsInProgress` | cpp/src/hand_core/hand_core.cpp:346-360 | a refused homing call leaves InProgress exactly where the call is allowed but nothing is received and Running is not confirmed, or where it was there before, and neither asks for a homing nor stops one |
| `HandCoreRuns.HomingMayOnlyReadAsInProgress` | cpp/src/hand_core/hand_core.cpp:346-360 | a run in which the hand reads as homing and no homing is pending or under way |
| `HandCoreCalls.CallKeepsPromise` | cpp/src/hand_core/hand_core.cpp:90-487 | what every public call promises when it comes back or comes to its wait: which state it confirms and which request is pending. A set_command() that is allowed and valid always stages a controller of the kind of its target, with the raw values of actuator targets and the clamp of joint targets, and any other changes nothing; set_max_effort() stages the nearest caps in [0, 2000], set_controller_config() the values given |
| `HandCoreCalls.RefusedCallsChangeNothing` | cpp/src/hand_core/hand_core.cpp:90-442 | a call that the gate refuses leaves everything as it is and returns the gate's reason |
| `HandCoreCalls.AllowedCallsProceed` | cpp/src/hand_core/hand_core.cpp:90-374 | a call that passes it returns at once exactly where its state is confirmed, else asks for it and waits; what needs a socket, a thread or communication is refused, with its code, exactly where that is missing, and leaving a stop asks for the hold with Idle staged |
| `HandCoreCalls.PollKeepsPromise` | cpp/src/hand_core/hand_core.cpp:141-344 | what every wait promises when it ends: success only with the state waited for, or the loop's verdict |
| `HandCoreCalls.PollsEndWaits` | cpp/src/hand_core/hand_core.cpp:141-344 | each wait ends in success exactly where what it waits for is there, in an error on a fault or the time, which names the fault, the link where it is down or the drives where it is up, and changes nothing otherwise; behind an old thread the link is closed, and a reconnect() without a frame leaves the fault as it was |
| `HandCoreObject.HandCoreObject.RunLoopTop` | cpp/src/hand_core/threads/hand_core_control_thread.cpp:66-146 | the head of the loop keeps the invariant, confirms nothing and accepts nothing; the frames of a cycle that begins are within their caps, and a user's only while Running is requested, in the same request and session |
| `HandCoreObject.HandCoreObject.TryReconnectOnce` | cpp/src/hand_core/threads/hand_core_control_thread.cpp:414-463 | the loop that polls for a frame computes the recursive retry of the machine |
| `HandCoreObject.HandCoreObject.WatchDriveState` | cpp/src/hand_core/threads/hand_core_control_thread.cpp:270-290 | the tests in the order of the source move the lifecycle as the machine's priority of evidence says |
| `HandCoreObject.HandCoreObject.FinishCycle` | cpp/src/hand_core/threads/hand_core_control_thread.cpp:150-174 | the rest of a cycle keeps the invariant, moves the lifecycle on the drives' evidence only, leaves a homing under way or with its verdict, and on an open link ends it where a stop was read |
| `HandCoreObject.HandCoreObject.HandleControlLoopFailure` | cpp/src/hand_core/threads/hand_core_control_thread.cpp:568-590 | an exception ends the thread with the fault recorded and, on an open link, homing inactive |
| `HandCoreObject.HandCoreObject.Call` | cpp/src/hand_core/hand_core.cpp:90-487 | every public call on the object keeps the invariant and its promise, and leaves a living loop alone |
| `HandCoreObject.HandCoreObject.Poll` | cpp/src/hand_core/hand_core.cpp:141-344 | so does every poll of a wait, which also asks for no homing and confirms nothing |
| `ArcGeometry.ProjectionFalls` | cpp/src/hand_core/kinematics/joint_clamp.cpp:222-236 | distance along a circle grows with the angle |
| `ArcGeometry.EndsAreNearest` | cpp/src/hand_core/kinematics/joint_clamp.cpp:210-212 | from the wrong side of the centre one of an arc's ends is its nearest point |
| `JointClamp.LineFootIsNearest` | cpp/src/hand_core/kinematics/joint_clamp.cpp:196-206 | the projection to a segment is its nearest point, and on it |
| `JointClamp.ArcCandidateIsNearest` | cpp/src/hand_core/kinematics/joint_clamp.cpp:207-237 | the candidate of an arc - radial foot or nearer knot - is at least as near as every point of the arc, for every slack of the range test |
| `JointClamp.OutsideGoesToNearest` | cpp/src/hand_core/kinematics/joint_clamp.cpp:184-253 | no point of any piece, nor of the floor, is nearer to an outside target than where it is moved |
| `JointClamp.NearestOnBoundary` | cpp/src/hand_core/kinematics/joint_clamp.cpp:191-247 | with an exact range test, that place is on the boundary |
| `JointClamp.BoundaryAboveFloor` | cpp/src/hand_core/kinematics/joint_clamp.cpp:249-250 | no boundary point has a negative abduction, so the last correction never acts on exact values |
| `JointClamp.InsideIsUnderBoundary` | cpp/src/hand_core/kinematics/joint_clamp.cpp:154-182 | the inside test decides whether a point is at or below the boundary curve |
| `JointClamp.InsideUpToSlack` | cpp/src/hand_core/kinematics/joint_clamp.cpp:154-182 | and at any slack, above it by no more than the slack |
| `JointClamp.ClampPointTwice` | cpp/src/hand_core/kinematics/joint_clamp.cpp:148-253 | the clamp of a finger is a projection onto its workspace |
| `JointTables.ShippedTables` | cpp/src/hand_core/kinematics/joint_clamp.cpp:57-117 | the four shipped tables are well formed but for centres of ten digits, which miss a knot by less than a ten-millionth of a square degree |
| `JointTables.ExactKnotsAreWellFormed` | cpp/src/hand_core/kinematics/joint_clamp.cpp:30-36 | with exact knots nothing is missing |
| `JointTables.UsableTableGoesToNearest` | cpp/src/hand_core/kinematics/joint_clamp.cpp:184-253 | on a table whose centres have lost digits, no point of the boundary is nearer to an outside target than where it is moved by more than half a millionth of a degree |
| `JointTables.ShippedTablesAreUsable` | cpp/src/hand_core/kinematics/joint_clamp.cpp:57-117 | all four shipped tables are such tables |
| `TableReach.OutsideEndsNearBoundary` | cpp/src/hand_core/kinematics/joint_clamp.cpp:184-253 | on such a table and at every slack, an outside target ends at a point with non-negative abduction that is beside a boundary point: the slack in flexion, the lost digits and 6000 slacks in abduction |
| `TableReach.ShippedCurves` | cpp/src/hand_core/kinematics/joint_clamp.cpp:57-117 | all four shipped tables meet what that asks of the radii |
| `TableReach.LongEndsNearlyWithinLimits` | cpp/src/hand_core/kinematics/joint_clamp.cpp:282-301 | on the shipped tables a clamped long finger is inside or so near the boundary, and its distal joint not below the floor |
| `TableReach.ThumbEndsNearlyWithinLimits` | cpp/src/hand_core/kinematics/joint_clamp.cpp:281-289 | and so is the thumb, within its constant ranges |
| `JointTargets.FixedIffReachable` | cpp/src/hand_core/kinematics/joint_clamp.cpp:148-182 | a pair is left alone exactly when the finger can reach it |
| `JointTargets.ClampPairMirrors` | cpp/src/hand_core/kinematics/joint_clamp.cpp:150-152 | left and right are treated alike |
| `JointTargets.PairGoesToNearest` | cpp/src/hand_core/kinematics/joint_clamp.cpp:143-253 | a pair that is moved keeps its side, and no pair of the boundary on either side is nearer |
| `JointTargets.UncoupledGoesToNearest` | cpp/src/hand_core/kinematics/joint_clamp.cpp:287-301 | each joint outside the pairs ends at the nearest value of its range; for a distal joint that is the range raised to the floor of its finger as clamped, and the floor alone where it is beyond the range |
| `JointTargets.ClampAllFixedIffWithinLimits` | cpp/src/hand_core/kinematics/joint_clamp.cpp:278-302 | all sixteen targets are left alone exactly where the thumb and the four long fingers can reach them |
| `JointTargets.ClampAllTwice` | cpp/src/hand_core/kinematics/joint_clamp.cpp:278-302 | a second clamp of all sixteen joints changes nothing, for any non-negative distal floor |
| `JointTargets.ClampAllMirrors` | cpp/src/hand_core/kinematics/joint_clamp.cpp:278-302 | flipping the sign of any abductions commutes with it |
| `JointTargets.ThumbEndsWithinLimits` | cpp/src/hand_core/kinematics/joint_clamp.cpp:281-289 | the thumb ends within reach and within its constant ranges |
| `JointTargets.LongEndsWithinLimits` | cpp/src/hand_core/kinematics/joint_clamp.cpp:282-301 | a long finger ends within reach, its flexion not negative and its distal joint not below the floor |
| `JointTargets.TestInside` | cpp/src/hand_core/kinematics/joint_clamp.cpp:155-182 | the loop of the inside test |
| `JointTargets.Project` | cpp/src/hand_core/kinematics/joint_clamp.cpp:184-247 | the loop of the projection |
| `JointTargets.ClampFingerWorkspace` | cpp/src/hand_core/kinematics/joint_clamp.cpp:143-253 | the pair is clamped in place, in radians, and no other slot changes |
| `JointTargets.ClampActiveJointTargets` | cpp/src/hand_core/kinematics/joint_clamp.cpp:278-302 | all sixteen slots are clamped in place, the distal floor last |
| `JointPositionController.StepResponse` | cpp/src/hand_core/controllers/joint_position_controller.cpp:76-97 | after n cycles towards an accepted target the error is (T-s)(1-a)^n(1+na+a^2 n(n+1)/2) |
| `JointPositionController.SharesFall` | cpp/src/hand_core/controllers/joint_position_controller.cpp:88-95 | what is left of a step falls from cycle to cycle, so there is no overshoot |
| `JointPositionController.StepSettles` | cpp/src/hand_core/controllers/joint_position_controller.hpp:16-17 | no steady offset: the error is at most 3/(n a) of the step |
| `JointPositionController.OutputStaysInHull` | cpp/src/hand_core/controllers/joint_position_controller.cpp:76-97 | one joint: for any targets, deadbands, coefficients in (0, 1] and resets the output stays between the seeds and the accepted targets |
| `JointPositionController.ConfiguredIsGood` | cpp/src/hand_core/controllers/joint_position_controller.cpp:40-45 | every configuration, the filter off and the cutoff 0 included, gives such a coefficient |
| `JointPositionController.JointsStayInHull` | cpp/src/hand_core/controllers/joint_position_controller.cpp:56-97 | so over any run of compute() and reset(), whatever is configured in each cycle, every joint that is sent stays between the seeds and the accepted targets |
| `JointPositionController.HeldFollowsTarget` | cpp/src/hand_core/controllers/joint_position_controller.cpp:78-86 | the held value is the target or less than one deadband from it, and always a value that came in |
| `JointPositionController.SmallMovesAreDropped` | cpp/src/hand_core/controllers/joint_position_controller.cpp:85-86 | over any run of targets less than one deadband from the held value that value stays, and an output that has settled does not move |
| `JointPositionController.SettledJointStays` | cpp/src/hand_core/controllers/joint_position_controller.cpp:66-97 | so does a settled joint of the controller, for the deadband that is configured |
| `JointPositionController.ConfiguredStep` | cpp/src/hand_core/controllers/joint_position_controller.cpp:40-97 | and towards a new target its error is the step response with the coefficient of the configured cutoff, from the joint measured as the controller is entered |
| `JointPositionController.UnmeasuredGoesToTarget` | cpp/src/hand_core/controllers/joint_position_controller.cpp:78-83 | a joint without a finite measured angle is sent its target at once as the controller is entered |
| `JointPositionController.ActiveJointsAre` | cpp/src/hand_core/controllers/joint_position_controller.cpp:16-38 | the active joints are all but the last of each finger, in order |
| `JointPositionController.OffPassesThrough` | cpp/src/hand_core/controllers/joint_position_controller.cpp:70-72 | with the filter off the target passes through in the same cycle |
| `JointPositionController.JointPositionController.ResetFilter` | cpp/src/hand_core/controllers/joint_position_controller.cpp:56-59 | reset() |
| `JointPositionController.JointPositionController.FilterJoint` | cpp/src/hand_core/controllers/joint_position_controller.cpp:77-96 | one joint of the loop |
| `JointPositionController.JointPositionController.ComputeFrames` | cpp/src/hand_core/controllers/joint_position_controller.cpp:62-108 | compute(): all joints filtered, and the cached coefficient is the one of the configured cutoff |
| `JointImpedanceController.EffortIsCapped` | cpp/src/hand_core/controllers/joint_impedance_controller.cpp:37-41 | the effort sent is within the truncated cap, and is the effort asked for where that is within the cap |
| `JointImpedanceController.PullsAndDamps` | cpp/src/hand_core/controllers/joint_impedance_controller.cpp:30-37 | at rest the effort is the stiffness times the error and points to the target; the rest is the damping times the velocity against the motion, and takes energy out |
| `JointImpedanceController.SentEffortPullsAndDamps` | cpp/src/hand_core/controllers/joint_impedance_controller.cpp:30-41 | the same of the effort that is sent, capped and truncated |
| `JointImpedanceController.JointImpedanceController.ComputeFrames` | cpp/src/hand_core/controllers/joint_impedance_controller.cpp:20-47 | compute(): the capped PD effort of every actuator, without damping in the first cycle |
| `CommandMapping.BoundedEffort` | cpp/src/hand_core/hand_core.cpp:455-457 | caps are bounded to [0, 2000] and kept where they are within it |
| `CommandMapping.ModeFollowsCommand` | cpp/src/hand_core/threads/hand_core_control_thread.cpp:523-547 | position commands go out in position mode, all others in torque mode |
| `CommandMapping.TorqueIsBounded` | cpp/src/hand_core/threads/hand_core_control_thread.cpp:511-564 | every torque is within the cap beside it, and both fit 16 bits |
| `CommandMapping.MaskedIsHarmless` | cpp/src/hand_core/threads/hand_core_control_thread.cpp:553-562 | a faulted or not enabled actuator gets its measured position or no torque |
| `CommandMapping.UnmaskedIsServed` | cpp/src/hand_core/threads/hand_core_control_thread.cpp:511-564 | every other actuator gets, by the kind of the command: its count or effort truncated, an effort beyond the cap as the cap in its direction, the inverse kinematics of the filtered joints, the capped impedance effort, or no torque |
| `CommandMapping.ImpedanceOverRuns` | cpp/src/hand_core/controllers/joint_impedance_controller.cpp:20-47 | over runs, the last of two impedance cycles in a row damps the motion between them, the first one none |
| `CommandMapping.JointsOverRuns` | cpp/src/hand_core/controllers/joint_position_controller.cpp:62-108 | over runs, a joint position cycle sends the inverse kinematics of what its filters have made of all targets so far |
| `CommandMapping.CountsArrive` | cpp/src/hand_core/threads/hand_core_control_thread.cpp:524-528 | an accepted actuator position reaches an unmasked drive, truncated, within 32 bits |
| `CommandMapping.ReentryStartsClean` | cpp/src/hand_core/threads/hand_core_control_thread.cpp:549-551 | a controller that was left starts from the measured pose, or without a velocity |
| `CommandMapping.SentJointsStayInHull` | cpp/src/hand_core/threads/hand_core_control_thread.cpp:511-564 | over any run of commands of every kind, with the controller left and entered again, each joint that a joint position cycle sends stays between the seeds and the targets accepted since the filter was reset |
| `CommandMapping.CommandMapper.CommandToFrames` | cpp/src/hand_core/threads/hand_core_control_thread.cpp:511-564 | command_to_frames: the setpoints sent and what both controllers remember |
| `SentFrames.MappedIsEncodable` | cpp/src/hand_core/threads/hand_core_control_thread.cpp:511-564 | the frames of every accepted command have the widths of the wire, joint positions wherever the inverse kinematics answers in 32 bits |
| `SentFrames.SendFrames` | cpp/src/hand_core/comms/hand_comms.cpp:270-309 | the bytes of a write() read back as the words, efforts and caps that were sent and as the offset positions |

## Left out

- Transport: opening sockets, interface discovery and id filters are an arbitrary success, received frames an arbitrary sequence, sending an arbitrary result. Frames decoded while probing for another master before a refused connect are not kept.
- Forward and inverse kinematics are unknown functions.
- Square root is known by its defining property; `exp` in the filter coefficient is an unknown function with values in (0, 1], the trigonometric distal floor an unknown non-negative function that ignores the sign of the abduction.
- Floating-point rounding. Reals stand for doubles, and the results that say that a target stays where it is, is mirrored, or ends on the boundary take the range tolerance as 0 and arcs that pass exactly through their knots. The nearest-point results hold for every tolerance, and for the shipped tables up to `JointTables.KNOT_ERROR`; the limits of the sixteen clamped joints hold on the shipped tables for every tolerance, up to `TableReach.Miss`.
- Weak memory orders: every atomic operation is one sequentially consistent step.
- Wall-clock time, scheduling and sleeps: a wait may time out at any poll, an automatic reconnect may be given up at any retry.
- Finer interleavings inside one user segment or inside one part of a control cycle; an automatic reconnect is one step, so a disconnect requested while it runs is seen after it.
- HandCoreObject keeps the comms object and the controllers as values; their own classes are proved to compute these values. The command and configuration buffers are one-place mailboxes there, which `RealtimeBuffer.RefinesMailbox` justifies.
- Drive: a new fault (transition 13 of CiA DSP 402) is left to the initial state, and the delay between a command and the status word that shows it is one cycle.
- Log texts, event contents, the stop verdict that only feeds the event log, diagnostics counters, tactile data and its bias, copying state frames into the public state, the interface-index texts of a refused control request, and the handle classes around the core.
- The unused stop-hold counter of the homing sequence and the stage name of a failure.
