/** The lifecycle of one hand, cpp/src/hand_core/hand_core.cpp and
    cpp/src/hand_core/threads/hand_core_control_thread.cpp, as one state machine.

    Two threads share the state. A public call runs up to its next wait in one step, and so does
    every poll of a wait. A cycle of the control loop takes three steps: up to the point where the
    request is read again, that read, and the rest. Waits may time out at any poll. */
module HandCore {
  import opened Types
  import opened Frames
  import opened ActionCheck
  import C = HandComms
  import P = Protocol
  import H = HomingSequence
  import J = JointPositionController
  import I = JointImpedanceController
  import M = CommandMapping

  // ------------------------------- Configuration ------------------------------

  // `clamp` is the workspace clamp, the identity where it is switched off
  datatype SetupData = Setup(plant: M.Plant, clamp: J.Active -> J.Active, autoReconnect: bool,
                             autoReconnectHome: bool, autoHome: bool, lossCycles: nat)

  type Setup = s: SetupData | s.plant.period > 0.0
    witness Setup(M.Plant((_: J.Active) => Zeros(), (_: real) => 1.0, 1.0), (a: J.Active) => a, false, false, false, 1)

  const DEFAULT_MAX_EFFORT: real := 1000.0

  function Constant(v: real): J.Active { seq(ACTUATOR_COUNT, _ => v) }

  const DEFAULT_STIFFNESS: seq<real> :=
    [0.02, 0.02, 0.02, 0.02, 0.01, 0.01, 0.02, 0.01, 0.01, 0.02, 0.01, 0.01, 0.02, 0.01, 0.01, 0.02]

  function DefaultConfig(): M.Config {
    M.Config(J.Config(true, 10.0, 0.000873), I.Gains(DEFAULT_STIFFNESS, Constant(0.00001)))
  }

  // A default-constructed HandCommand: Idle, and no effort at all
  function NoEffortCommand(): M.Command { M.Command(M.Idle, Constant(0.0)) }

  // ---------------------------------- State -----------------------------------

  datatype HomingState = NotRun | InProgress | Succeeded | Failed

  // Who staged a command. A user's command is stamped with the request for Running and the link
  // session it was accepted in
  datatype Source = Sdk | User(run: nat, link: nat)

  datatype Staged = Staged(command: M.Command, source: Source)

  // What a cycle carries past its first step
  datatype Cycle = Cycle(requested: Lifecycle, observed: Lifecycle, receiving: bool, frames: CommandFrames, source: Source)

  datatype Pc = Top | BeforeReread(cycle: Cycle) | AfterReread(cycle: Cycle, latest: Lifecycle)

  datatype Loop = Loop(active: Staged, activeConfig: M.Config, previousReceiving: bool, firstFrameReported: bool, pc: Pc)

  // A thread that has ended is still there to be joined
  datatype Thread = NoThread | Ended | Alive(loop: Loop)

  datatype StopGoal = ToStop | ToDisconnect | ToClose
  datatype AfterJoin = ConnectFailed(reconnecting: bool, cause: StopCause) | DisconnectNow | ReconnectNow | CloseNow

  // The states of a homing from its start on, and the frames each step but the first was taken on
  datatype Trail = Trail(states: seq<H.Homing>, seen: seq<StateFrames>)

  // Where the user's thread is: outside, with the status of its last call, or in a wait
  datatype UserPc =
    | Outside(last: Status)
    | AwaitFrame(reconnecting: bool, cause: StopCause)
    | AwaitStop(goal: StopGoal)
    | AwaitEnable
    | AwaitHoming
    | Joining(next: AfterJoin)

  // The last four fields only record the past: requests for Running, link sessions opened, the
  // session of the last successful homing, and the run of the last homing
  datatype Core = Core(
    requested: Lifecycle, lifecycle: Lifecycle, stopCause: StopCause, destroyed: bool,
    homingState: HomingState, requestHoming: bool, activeHoming: bool, resultHoming: bool, requestHold: bool,
    checkFirstFrame: bool, checkCommunication: bool,
    staged: Staged, mail: Option<Staged>, stagedConfig: M.Config, mailConfig: Option<M.Config>,
    comms: C.Comms, txTransient: bool, memory: M.Memory,
    thread: Thread, user: UserPc,
    runs: nat, links: nat, homedLink: Option<nat>, trail: Trail)

  function Constructed(side: P.HandSide, disabled: Mask, memory: M.Memory, homing: H.Homing): Core {
    var staged := Staged(M.Command(M.Idle, Constant(DEFAULT_MAX_EFFORT)), Sdk);
    Core(Disconnected, Disconnected, NotRecorded, false, NotRun, false, false, false, false, false, false,
         staged, Some(staged), DefaultConfig(), None,
         C.Comms(side, disabled, false, false, NoState(), NoWords(), AllOf(false), homing, 0, false), false, memory,
         NoThread, Outside(OK), 0, 0, None, Trail([], []))
  }

  // ------------------------------- Shared helpers ------------------------------

  function WithController(c: Core, controller: M.Controller, source: Source): Core {
    var staged := Staged(c.staged.command.(controller := controller), source);
    c.(staged := staged, mail := Some(staged))
  }

  function ResetToIdle(c: Core): Core { WithController(c, M.Idle, Sdk) }

  function RequestRunning(c: Core): Core { c.(requested := Running, runs := c.runs + 1) }

  function ResetFaultState(c: Core): Core {
    c.(stopCause := NotRecorded, requestHoming := false, activeHoming := false, requestHold := false)
  }

  function Checked(c: Core, action: Action, requireHomed: bool): Status {
    CheckActionAllowed(action, c.requested, c.lifecycle, c.destroyed, c.stopCause,
                       !requireHomed || c.homingState == Succeeded)
  }

  predicate IsHoming(c: Core) { c.requestHoming || c.activeHoming }

  // ------------------------------- Control loop --------------------------------

  function NewLoop(): Loop { Loop(Staged(NoEffortCommand(), Sdk), DefaultConfig(), true, false, Top) }

  datatype RtInput = RtInput(queue: seq<P.CanFrame>, joints: J.Joints, giveUp: bool, linkOpens: bool, polls: seq<seq<P.CanFrame>>)

  datatype TxResult = Sent | Transient | Hard

  predicate Receiving(s: Setup, comms: C.Comms) { comms.anyFrame && comms.silent <= s.lossCycles }

  // What the user has staged since the last cycle, where there is something
  function Refreshed(l: Loop, mail: Option<Staged>, mailConfig: Option<M.Config>): Loop {
    var l1 := if mail.Some? then l.(active := mail.value) else l;
    if mailConfig.Some? then l1.(activeConfig := mailConfig.value) else l1
  }

  function TakeInput(c: Core): (r: Core)
    requires c.thread.Alive?
    ensures r.thread.Alive?
  {
    c.(thread := Alive(Refreshed(c.thread.loop, c.mail, c.mailConfig)), mail := None, mailConfig := None)
  }

  // A pending homing request is used up either way: started in Running, failed otherwise
  function TakeHoming(c: Core): (r: Core)
    ensures r.thread == c.thread
  {
    if !c.requestHoming then c
    else if c.requested == Running then
      c.(requestHoming := false, comms := C.Home(c.comms), activeHoming := true,
          trail := Trail([C.Home(c.comms).homing], []))
    else c.(requestHoming := false, homingState := Failed)
  }

  // All queued frames go into the observed state
  function Observe(c: Core, queue: seq<P.CanFrame>): (r: Core)
    ensures r.thread == c.thread
  {
    c.(comms := C.Read(c.comms, queue))
  }

  function SeenBy(comms: C.Comms, joints: J.Joints): M.Observed {
    if comms.open then M.Observed(comms.rx.position, joints, C.FaultMask(comms), C.EnabledMask(comms))
    else M.Observed(Zeros(), joints, AllOf(false), AllOf(false))
  }

  // A link that was heard and has gone quiet
  predicate LinkDrops(s: Setup, c: Core)
    requires c.thread.Alive?
  {
    c.comms.anyFrame && c.thread.loop.previousReceiving && !Receiving(s, c.comms) && c.lifecycle != Faulted
  }

  function LinkSeen(s: Setup, l: Loop, comms: C.Comms): Loop {
    if comms.anyFrame then l.(firstFrameReported := true, previousReceiving := Receiving(s, comms)) else l
  }

  function WatchLink(s: Setup, c: Core): (r: Core)
    requires c.thread.Alive?
    ensures r.thread.Alive?
  {
    var drops, firstFrame := LinkDrops(s, c), c.comms.anyFrame && !c.thread.loop.firstFrameReported;
    c.(checkFirstFrame := firstFrame || c.checkFirstFrame,
       thread := Alive(LinkSeen(s, c.thread.loop, c.comms)),
       stopCause := if drops then ReceiveSilence else c.stopCause,
       lifecycle := if drops then Faulted else c.lifecycle)
  }

  // Every actuator to where its encoder is
  function Held(position: J.Counts): M.Controller {
    M.ActuatorPosition(seq(ACTUATOR_COUNT, i requires 0 <= i < ACTUATOR_COUNT => position[i] as real))
  }

  function TakeHold(c: Core, joints: J.Joints): (r: Core)
    ensures r.thread == c.thread
  {
    if c.requestHold then
      WithController(c.(requestHold := false), Held(SeenBy(c.comms, joints).position), Sdk)
    else c
  }

  // Outside Running a cycle computes with an effortless Idle instead of the active command
  function InputOf(c: Core, active: Staged): Staged {
    if c.requested == Running then active else Staged(NoEffortCommand(), Sdk)
  }

  predicate ControlSession(requested: Lifecycle, observed: Lifecycle) {
    requested == Running || requested == Stopped || observed == Faulted
  }

  function Compute(s: Setup, c: Core, joints: J.Joints): Core
    requires c.thread.Alive?
  {
    var l := c.thread.loop;
    var input := InputOf(c, l.active);
    var seen := SeenBy(c.comms, joints);
    if ControlSession(c.requested, c.lifecycle) then
      var frames := M.ToFrames(s.plant, c.memory, input.command, l.activeConfig, seen);
      c.(memory := M.Next(s.plant, c.memory, input.command, l.activeConfig, seen),
         thread := Alive(l.(pc := BeforeReread(
           Cycle(c.requested, c.lifecycle, Receiving(s, c.comms), frames, input.source)))))
    else
      c.(thread := Alive(l.(pc := BeforeReread(
        Cycle(c.requested, c.lifecycle, Receiving(s, c.comms), NoCommand(), Sdk)))))
  }

  function Taken(c: Core): (r: Core)
    requires c.thread.Alive?
    ensures r.thread.Alive?
  {
    TakeHoming(TakeInput(c))
  }

  function Watched(s: Setup, c: Core, input: RtInput): (r: Core)
    requires c.thread.Alive?
    ensures r.thread.Alive?
  {
    TakeHold(WatchLink(s, Observe(Taken(c), input.queue)), input.joints)
  }

  function BeginCycle(s: Setup, c: Core, input: RtInput): Core
    requires c.thread.Alive?
  {
    Compute(s, Watched(s, c, input), input.joints)
  }

  // One retry of the link while Faulted: reopened, it counts as recovered with its first frame
  function ReadUntilFrame(comms: C.Comms, polls: seq<seq<P.CanFrame>>): C.Comms
    decreases |polls|
  {
    if polls == [] || comms.anyFrame then comms else ReadUntilFrame(C.Read(comms, polls[0]), polls[1..])
  }

  function TryReconnect(s: Setup, c: Core, input: RtInput): Core
    requires c.thread.Alive?
  {
    var closed := C.Disconnected(c.comms);
    if !input.linkOpens then c.(comms := closed)
    else
      var tried := ReadUntilFrame(C.Connected(closed), input.polls);
      if !tried.anyFrame then c.(comms := C.Disconnected(tried), txTransient := false)
      else Recovered(s, c, C.Run(tried))
  }

  function Recovered(s: Setup, c: Core, comms: C.Comms): Core
    requires c.thread.Alive?
  {
    var c1 := ResetToIdle(ResetFaultState(c).(comms := comms, txTransient := false, checkCommunication := false,
                                              homingState := NotRun, links := c.links + 1));
    var c2 := if s.autoReconnectHome then c1.(requestHoming := true) else c1;
    RequestRunning(c2).(lifecycle := Connected,
                        thread := Alive(c.thread.loop.(previousReceiving := true, firstFrameReported := false)))
  }

  function RtTop(s: Setup, c: Core, input: RtInput): Core
    requires c.thread.Alive?
  {
    if c.requested == Disconnected then c.(thread := Ended)
    else if c.lifecycle == Faulted then
      if !s.autoReconnect || c.stopCause.ControlLoopFailure? || input.giveUp then c.(thread := Ended)
      else TryReconnect(s, c, input)
    else BeginCycle(s, c, input)
  }

  function RtReread(c: Core): Core
    requires c.thread.Alive? && c.thread.loop.pc.BeforeReread?
  {
    var l := c.thread.loop;
    c.(thread := Alive(l.(pc := AfterReread(l.pc.cycle, c.requested))))
  }

  // Which word goes out is decided by the second reading of the request and the lifecycle as observed
  predicate QuickStops(k: Cycle, latest: Lifecycle) { latest != Running || k.observed == Faulted }

  function TransientAfter(c: Core, tx: TxResult): bool {
    if c.comms.open && !tx.Sent? then tx.Transient? else c.txTransient
  }

  predicate TransmitFaults(c: Core, k: Cycle, latest: Lifecycle, tx: TxResult) {
    && !(c.comms.open && tx.Sent?) && !TransientAfter(c, tx)
    && latest == Running && k.observed != Faulted
  }

  // A running homing takes a step where its command is written
  function TrailAfter(c: Core, quickStop: bool): Trail {
    if c.comms.open && !quickStop && c.comms.homing.active then
      Trail(c.trail.states + [H.Step(c.comms.homing, c.comms.rx)], c.trail.seen + [c.comms.rx])
    else c.trail
  }

  function Transmit(c: Core, k: Cycle, latest: Lifecycle, tx: TxResult): Core {
    var faults := TransmitFaults(c, k, latest, tx);
    c.(comms := C.Write(c.comms, k.frames, QuickStops(k, latest)), txTransient := TransientAfter(c, tx),
       checkCommunication := k.receiving && ((c.comms.open && tx.Sent?) || TransientAfter(c, tx)),
       trail := TrailAfter(c, QuickStops(k, latest)),
       stopCause := if faults then TransmitFailure else c.stopCause,
       lifecycle := if faults then Faulted else c.lifecycle)
  }

  // A confirmation needs a request, a receiving cycle and the drives' words; a fault is never undone
  function NextLifecycle(c: Core, receiving: bool): Lifecycle {
    if c.lifecycle == Faulted then Faulted
    else if receiving && c.requested == Running && c.lifecycle != Running && C.DrivesEnabled(c.comms) then Running
    else if receiving && c.requested == Stopped && c.lifecycle != Stopped && C.QuickStopAttained(c.comms) then Stopped
    else if c.lifecycle == Disconnected && c.comms.anyFrame then Connected
    else c.lifecycle
  }

  function WatchDrives(c: Core, receiving: bool): Core { c.(lifecycle := NextLifecycle(c, receiving)) }

  // The verdict about a sequence that has just ended, however it was asked for
  function WatchHoming(c: Core): Core {
    if !c.activeHoming || c.comms.homing.active then c
    else
      var ok := c.comms.homing.outcome.Succeeded?;
      var c1 := c.(resultHoming := ok, activeHoming := false, homingState := if ok then Succeeded else Failed);
      if ok then WithController(c1.(homedLink := Some(c.links)), M.ActuatorPosition(Constant(0.0)), Sdk) else c1
  }

  // Outside a control session nothing is transmitted
  function Transmitted(c: Core, tx: TxResult): Core
    requires c.thread.Alive? && c.thread.loop.pc.AfterReread?
  {
    var k := c.thread.loop.pc.cycle;
    if ControlSession(k.requested, k.observed) then Transmit(c, k, c.thread.loop.pc.latest, tx)
    else c.(checkCommunication := k.receiving)
  }

  function FinishCycle(c: Core, tx: TxResult): Core
    requires c.thread.Alive? && c.thread.loop.pc.AfterReread?
  {
    var l := c.thread.loop;
    WatchHoming(WatchDrives(Transmitted(c, tx), l.pc.cycle.receiving)).(thread := Alive(l.(pc := Top)))
  }

  // The handler behind the loop. Its thirty quick stops leave the same words as a single one
  function Threw(c: Core): Core
    requires c.thread.Alive?
  {
    c.(stopCause := ControlLoopFailure, lifecycle := Faulted, thread := Ended,
       comms := C.Write(c.comms, NoCommand(), true))
  }

  // --------------------------------- Connection ---------------------------------

  // Whether the socket opens with nobody else in command, and whether the threads start
  datatype LinkInput = LinkInput(opens: bool, threadStarts: bool)

  function ConnectRefused(c: Core, reconnecting: bool, cause: StopCause, code: ErrorCode): Core {
    if reconnecting then c.(user := Outside(Refused(code)), stopCause := cause, lifecycle := Faulted)
    else c.(user := Outside(Refused(code)))
  }

  function Opened(c: Core): Core {
    c.(comms := C.Run(C.Connected(c.comms)), txTransient := false, checkFirstFrame := false, checkCommunication := false,
       homingState := NotRun, links := c.links + 1,
       mail := Some(c.staged), mailConfig := Some(c.stagedConfig), requested := Connected)
  }

  function Connect(c: Core, link: LinkInput, reconnecting: bool, cause: StopCause): Core {
    var allowed := Checked(c, Action.Connect, true);
    if !allowed.OK? then ConnectRefused(c, reconnecting, cause, allowed.code)
    else if c.requested == Connected && c.lifecycle == Connected then c.(user := Outside(OK))
    else if !link.opens then
      ConnectRefused(c.(comms := c.comms.(open := false)), reconnecting, cause, InterfaceUnavailable)
    else
      var c1 := Opened(c);
      if !link.threadStarts then
        ConnectRefused(c1.(requested := Disconnected, lifecycle := Disconnected, comms := C.Disconnected(c1.comms)),
                       reconnecting, cause, ControlLoopFault)
      else c1.(thread := Alive(NewLoop()), user := AwaitFrame(reconnecting, cause))
  }

  // stop_control_loop up to the join
  function LeaveLoop(c: Core, next: AfterJoin): Core { c.(requested := Disconnected, user := Joining(next)) }

  function PollFirstFrame(c: Core, timeout: bool): Core
    requires c.user.AwaitFrame?
  {
    if c.checkFirstFrame then c.(lifecycle := Connected, user := Outside(OK))
    else if timeout then LeaveLoop(c, ConnectFailed(c.user.reconnecting, c.user.cause))
    else c
  }

  predicate ControlRequested(c: Core) { c.requested == Running || c.requested == Stopped }

  function Disconnect(c: Core): Core {
    var allowed := Checked(c, Action.Disconnect, true);
    if !allowed.OK? then c.(user := Outside(allowed))
    else if c.lifecycle == Disconnected then c.(user := Outside(OK))
    else
      var c1 := ResetToIdle(c);
      if ControlRequested(c) && c.lifecycle != Stopped then c1.(requested := Stopped, user := AwaitStop(ToDisconnect))
      else LeaveLoop(c1, DisconnectNow)
  }

  function Reconnect(c: Core): Core {
    var allowed := Checked(c, Action.Reconnect, true);
    if !allowed.OK? then c.(user := Outside(allowed)) else LeaveLoop(c, ReconnectNow)
  }

  function Close(c: Core): Core {
    if c.destroyed then c.(user := Outside(OK))
    else
      var c1 := c.(destroyed := true);
      if ControlRequested(c) && c.lifecycle != Stopped then c1.(requested := Stopped, user := AwaitStop(ToClose))
      else LeaveLoop(c1, CloseNow)
  }

  // Blames the link where it is down, the drives where it is up
  function Unconfirmed(c: Core): ErrorCode { if c.checkCommunication then HardwareFault else CommunicationLost }

  // Where the wait was cut short by a fault, the caller is told what the gate says about that fault
  function StopRefusal(c: Core, action: Action): Status {
    var faulted := if c.lifecycle == Faulted then Checked(c, action, true) else OK;
    if !faulted.OK? then faulted else Refused(Unconfirmed(c))
  }

  function StopReached(c: Core): Core
    requires c.user.AwaitStop?
  {
    match c.user.goal
    case ToStop => c.(user := Outside(OK))
    case ToDisconnect => LeaveLoop(c, DisconnectNow)
    case ToClose => LeaveLoop(c, CloseNow)
  }

  function StopMissed(c: Core): Core
    requires c.user.AwaitStop?
  {
    match c.user.goal
    case ToStop => c.(user := Outside(StopRefusal(c, Action.Stop)))
    case ToDisconnect => c.(user := Outside(StopRefusal(c, Action.Disconnect)))
    case ToClose => LeaveLoop(c, CloseNow)
  }

  function PollStop(c: Core, timeout: bool): Core
    requires c.user.AwaitStop?
  {
    if c.lifecycle == Stopped then StopReached(c)
    else if c.lifecycle == Faulted || timeout then StopMissed(c)
    else c
  }

  function Closed(c: Core): Core { c.(comms := C.Disconnected(C.Stop(c.comms))) }

  // After the loop's thread has ended
  function Unthreaded(c: Core): Core { c.(thread := NoThread, lifecycle := Disconnected) }

  function ConnectionFailed(c: Core, reconnecting: bool, cause: StopCause): Core {
    ConnectRefused(c.(comms := C.Disconnected(c.comms)), reconnecting, cause, CommunicationLost)
  }

  function DisconnectionDone(c: Core): Core {
    Closed(c).(checkFirstFrame := false, checkCommunication := false, user := Outside(OK))
  }

  function Reconnection(c: Core, link: LinkInput): Core {
    Connect(ResetToIdle(ResetFaultState(Closed(c))), link, true, c.stopCause)
  }

  function Joined(c: Core, link: LinkInput): Core
    requires c.user.Joining? && !c.thread.Alive?
  {
    match c.user.next
    case ConnectFailed(reconnecting, cause) => ConnectionFailed(Unthreaded(c), reconnecting, cause)
    case DisconnectNow => DisconnectionDone(Unthreaded(c))
    case ReconnectNow => Reconnection(Unthreaded(c), link)
    case CloseNow => Closed(Unthreaded(c)).(user := Outside(OK))
  }

  // --------------------------------- Operation ----------------------------------

  predicate ControlConfirmed(c: Core) { c.requested == Running && c.lifecycle == Running }

  // request_control: what it answers and what it leaves. From Stopped the command is Idle until the
  // loop has filled in the hold
  function ControlStatus(c: Core): Status {
    if ControlConfirmed(c) || c.checkCommunication then OK else Refused(CommunicationLost)
  }

  function RequestControl(c: Core): Core {
    if ControlConfirmed(c) || !c.checkCommunication then c
    else if c.requested == Stopped then RequestRunning(ResetToIdle(c).(requestHold := true))
    else RequestRunning(c)
  }

  function EnableControl(c: Core): Core {
    var status := ControlStatus(c);
    RequestControl(c).(user := if !status.OK? then Outside(status) else AwaitEnable)
  }

  function PollEnable(c: Core, timeout: bool): Core {
    if c.lifecycle == Running then c.(lifecycle := Running, user := Outside(OK))
    else if c.lifecycle == Faulted || timeout then
      ResetToIdle(c).(requested := Stopped, user := Outside(Refused(Unconfirmed(c))))
    else c
  }

  // What start_homing() has done before it can be refused: the old command is gone for good
  function PreparedForHoming(c: Core): Core { ResetToIdle(c.(homingState := InProgress)) }

  function HomingRequested(c: Core, status: Status): Core {
    if !status.OK? then c.(user := Outside(status))
    else c.(resultHoming := false, requestHoming := true, user := Outside(OK))
  }

  function StartHoming(c: Core): Core {
    var allowed := Checked(c, Action.Home, true);
    if !allowed.OK? then c.(user := Outside(allowed))
    else
      var p := PreparedForHoming(c);
      HomingRequested(RequestControl(p), ControlStatus(p))
  }

  function Home(c: Core): Core {
    var c1 := StartHoming(c);
    if c1.user == Outside(OK) then c1.(user := AwaitHoming) else c1
  }

  function HomingResult(c: Core): Status {
    if c.requested != Running || c.lifecycle == Faulted then
      var allowed := Checked(c, Action.Home, true);
      if !allowed.OK? then allowed else Refused(WrongCallOrder)
    else if c.resultHoming then OK
    else Refused(HardwareFault)
  }

  function PollHoming(c: Core): Core {
    if c.requested == Running && c.lifecycle != Faulted && IsHoming(c) then c
    else c.(user := Outside(HomingResult(c)))
  }

  function Run(s: Setup, c: Core): Core {
    var allowed := Checked(c, Action.Run, true);
    if !allowed.OK? then c.(user := Outside(allowed))
    else if s.autoHome && c.homingState != Succeeded then Home(c)
    else if ControlConfirmed(c) then c.(user := Outside(OK))
    else EnableControl(c)
  }

  function Stop(c: Core): Core {
    var allowed := Checked(c, Action.Stop, true);
    if !allowed.OK? then c.(user := Outside(allowed))
    else if c.requested == Stopped && c.lifecycle == Stopped then c.(user := Outside(OK))
    else ResetToIdle(c).(requested := Stopped, user := AwaitStop(ToStop))
  }

  // ---------------------------------- Command -----------------------------------

  datatype Target =
    | IdleTarget
    | JointPositionTarget(raw: M.Raw)
    | JointImpedanceTarget(raw: M.Raw)
    | ActuatorPositionTarget(raw: M.Raw)
    | ActuatorEffortTarget(raw: M.Raw)

  predicate ValidTarget(t: Target) {
    match t
    case IdleTarget => true
    case ActuatorPositionTarget(raw) => M.Finite(raw) && M.FitsInt32(M.Values(raw))
    case _ => M.Finite(t.raw)
  }

  function ControllerOf(s: Setup, t: Target): M.Controller
    requires ValidTarget(t)
  {
    match t
    case IdleTarget => M.Idle
    case JointPositionTarget(raw) => M.JointPosition(s.clamp(M.Values(raw)))
    case JointImpedanceTarget(raw) => M.JointImpedance(s.clamp(M.Values(raw)))
    case ActuatorPositionTarget(raw) => M.ActuatorPosition(M.Values(raw))
    case ActuatorEffortTarget(raw) => M.ActuatorEffort(M.Values(raw))
  }

  // An invalid command is dropped without an error, and the previous one holds
  function SetCommand(s: Setup, c: Core, t: Target): Core {
    var allowed := Checked(c, Action.SetCommand, !t.IdleTarget?);
    if !allowed.OK? then c.(user := Outside(allowed))
    else if !ValidTarget(t) then c.(user := Outside(OK))
    else WithController(c, ControllerOf(s, t), User(c.runs, c.links)).(user := Outside(OK))
  }

  function SetMaxEffort(c: Core, limit: M.Raw): Core {
    if c.destroyed then c.(user := Outside(Refused(WrongCallOrder)))
    else if !M.Finite(limit) then c.(user := Outside(Refused(InvalidArgument)))
    else
      var staged := c.staged.(command := c.staged.command.(maxEffort := M.BoundedEffort(M.Values(limit))));
      c.(staged := staged, mail := Some(staged), user := Outside(OK))
  }

  datatype ConfigInput = ConfigInput(filterEnabled: bool, cutoffFreq: Option<real>, deadband: Option<real>,
                                     stiffness: M.Raw, damping: M.Raw)

  predicate NonNegative(r: Option<real>) { r.Some? && r.value >= 0.0 }

  predicate ValidConfig(config: ConfigInput) {
    && NonNegative(config.cutoffFreq) && NonNegative(config.deadband)
    && forall i :: 0 <= i < ACTUATOR_COUNT ==> NonNegative(config.stiffness[i]) && NonNegative(config.damping[i])
  }

  function ConfigOf(config: ConfigInput): M.Config
    requires ValidConfig(config)
  {
    M.Config(J.Config(config.filterEnabled, config.cutoffFreq.value, config.deadband.value),
             I.Gains(M.Values(config.stiffness), M.Values(config.damping)))
  }

  function SetControllerConfig(c: Core, config: ConfigInput): Core {
    if c.destroyed then c.(user := Outside(Refused(WrongCallOrder)))
    else if !ValidConfig(config) then c.(user := Outside(Refused(InvalidArgument)))
    else c.(stagedConfig := ConfigOf(config), mailConfig := Some(ConfigOf(config)), user := Outside(OK))
  }

  // ------------------------------------ Steps ------------------------------------

  datatype Call =
    | CallConnect(link: LinkInput) | CallDisconnect | CallReconnect | CallClose
    | CallRun | CallStop | CallHome | CallStartHoming
    | CallSetCommand(target: Target) | CallSetMaxEffort(limit: M.Raw) | CallSetControllerConfig(config: ConfigInput)

  datatype Step =
    | LoopTop(input: RtInput) | LoopReread | LoopFinish(tx: TxResult) | LoopThrow
    | UserCall(call: Call) | UserPoll(timeout: bool, link: LinkInput)

  predicate Enabled(c: Core, step: Step) {
    match step
    case LoopTop(_) => c.thread.Alive? && c.thread.loop.pc.Top?
    case LoopReread => c.thread.Alive? && c.thread.loop.pc.BeforeReread?
    case LoopFinish(_) => c.thread.Alive? && c.thread.loop.pc.AfterReread?
    case LoopThrow => c.thread.Alive?
    case UserCall(_) => c.user.Outside?
    case UserPoll(_, _) => !c.user.Outside? && (c.user.Joining? ==> !c.thread.Alive?)
  }

  function ApplyCall(s: Setup, c: Core, call: Call): Core {
    match call
    case CallConnect(link) => Connect(c, link, false, NotRecorded)
    case CallDisconnect => Disconnect(c)
    case CallReconnect => Reconnect(c)
    case CallClose => Close(c)
    case CallRun => Run(s, c)
    case CallStop => Stop(c)
    case CallHome => Home(c)
    case CallStartHoming => StartHoming(c)
    case CallSetCommand(target) => SetCommand(s, c, target)
    case CallSetMaxEffort(limit) => SetMaxEffort(c, limit)
    case CallSetControllerConfig(config) => SetControllerConfig(c, config)
  }

  function ApplyPoll(c: Core, timeout: bool, link: LinkInput): Core
    requires Enabled(c, UserPoll(timeout, link))
  {
    match c.user
    case AwaitFrame(_, _) => PollFirstFrame(c, timeout)
    case AwaitStop(_) => PollStop(c, timeout)
    case AwaitEnable => PollEnable(c, timeout)
    case AwaitHoming => PollHoming(c)
    case Joining(_) => Joined(c, link)
  }

  function Apply(s: Setup, c: Core, step: Step): Core
    requires Enabled(c, step)
  {
    match step
    case LoopTop(input) => RtTop(s, c, input)
    case LoopReread => RtReread(c)
    case LoopFinish(tx) => FinishCycle(c, tx)
    case LoopThrow => Threw(c)
    case UserCall(call) => ApplyCall(s, c, call)
    case UserPoll(timeout, link) => ApplyPoll(c, timeout, link)
  }
}
