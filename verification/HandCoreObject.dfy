/** HandCore as the object it is: the fields of hand_core.hpp, changed step by step by the calls of
    cpp/src/hand_core/hand_core.cpp and by the control loop. State() is its state in the machine of
    HandCore.dfy, Valid() the invariant of that machine. Every step of either thread keeps Valid(),
    leads to the state the machine says, and promises what its caller may rely on. */
module HandCoreObject {
  import opened Types
  import opened Frames
  import opened ActionCheck
  import opened HandCore
  import opened HandCoreInvariant
  import opened HandCoreHistory
  import opened HandCoreLocality
  import opened HandCoreSafety
  import opened HandCoreHoming
  import opened HandCoreCalls
  import C = HandComms
  import P = Protocol
  import H = HomingSequence
  import J = JointPositionController
  import M = CommandMapping

  // Reads until a frame has been decoded or the polls are used up
  method PollForFrame(first: C.Comms, polls: seq<seq<P.CanFrame>>) returns (comms: C.Comms)
    ensures comms == ReadUntilFrame(first, polls)
  {
    hide C.Read;
    comms := first;
    for k := 0 to |polls|
      invariant ReadUntilFrame(comms, polls[k..]) == ReadUntilFrame(first, polls)
    {
      if comms.anyFrame {
        return;
      }
      assert polls[k..][1..] == polls[k + 1..];
      comms := C.Read(comms, polls[k]);
    }
  }

  class HandCoreObject {
    const setup: Setup
    var requested: Lifecycle
    var lifecycle: Lifecycle
    var stopCause: StopCause
    var destroyed: bool
    var homingState: HomingState
    var requestHoming: bool
    var activeHoming: bool
    var resultHoming: bool
    var requestHold: bool
    var checkFirstFrame: bool
    var checkCommunication: bool
    var staged: Staged
    var mail: Option<Staged>
    var stagedConfig: M.Config
    var mailConfig: Option<M.Config>
    var comms: C.Comms
    var txTransient: bool
    var memory: M.Memory
    var thread: Thread
    var user: UserPc
    var runs: nat
    var links: nat
    ghost var homedLink: Option<nat>
    ghost var trail: Trail

    ghost function State(): Core
      reads this
    {
      Core(requested, lifecycle, stopCause, destroyed, homingState, requestHoming, activeHoming, resultHoming, requestHold,
           checkFirstFrame, checkCommunication, staged, mail, stagedConfig, mailConfig, comms, txTransient, memory,
           thread, user, runs, links, homedLink, trail)
    }

    ghost predicate Valid()
      reads this
    {
      Inv(setup, State())
    }

    constructor (setup: Setup, side: P.HandSide, disabled: Mask, memory: M.Memory, homing: H.Homing)
      requires !homing.active
      ensures this.setup == setup && State() == Constructed(side, disabled, memory, homing) && Valid()
    {
      this.setup := setup;
      requested, lifecycle, stopCause, destroyed := Disconnected, Disconnected, NotRecorded, false;
      homingState, requestHoming, activeHoming, resultHoming, requestHold := NotRun, false, false, false, false;
      checkFirstFrame, checkCommunication := false, false;
      staged := Staged(M.Command(M.Idle, Constant(DEFAULT_MAX_EFFORT)), Sdk);
      mail := Some(Staged(M.Command(M.Idle, Constant(DEFAULT_MAX_EFFORT)), Sdk));
      stagedConfig, mailConfig := DefaultConfig(), None;
      comms := C.Comms(side, disabled, false, false, NoState(), NoWords(), AllOf(false), homing, 0, false);
      txTransient, this.memory, thread, user := false, memory, NoThread, Outside(OK);
      runs, links, homedLink, trail := 0, 0, None, Trail([], []);
      new;
      hide Constructed, Inv;
      assert State() == Constructed(side, disabled, memory, homing) by { hide Inv; }
      ConstructedInv(setup, side, disabled, memory, homing);
    }

    // ------------------------------ Command write ------------------------------

    method StageController(controller: M.Controller, source: Source)
      modifies this`staged, this`mail
      ensures State() == WithController(old(State()), controller, source)
    {
      staged := Staged(staged.command.(controller := controller), source);
      mail := Some(staged);
    }

    method ResetCommandToIdle()
      modifies this`staged, this`mail
      ensures State() == ResetToIdle(old(State()))
    {
      StageController(M.Idle, Sdk);
    }

    // ------------------------------ Control loop --------------------------------

    method TakeInputs()
      requires thread.Alive?
      modifies this`thread, this`mail, this`mailConfig
      ensures State() == TakeInput(old(State())) && thread.Alive?
    {
      var l := thread.loop;
      if mail.Some? {
        l := l.(active := mail.value);
      }
      if mailConfig.Some? {
        l := l.(activeConfig := mailConfig.value);
      }
      mail, mailConfig := None, None;
      thread := Alive(l);
    }

    // Outside Running the request is dropped
    method TakeRequest()
      modifies this`requestHoming, this`homingState, this`comms, this`activeHoming, this`trail
      ensures var taken := old(requestHoming) && requested == Running;
              && !requestHoming && activeHoming == (old(activeHoming) || taken)
              && comms == (if taken then C.Home(old(comms)) else old(comms))
              && trail == (if taken then Trail([C.Home(old(comms)).homing], []) else old(trail))
              && homingState == (if old(requestHoming) && !taken then HomingState.Failed else old(homingState))
    {
      hide C.Home;
      if requestHoming {
        requestHoming := false;
        if requested == Running {
          comms := C.Home(comms);
          activeHoming := true;
          trail := Trail([comms.homing], []);
        } else {
          homingState := HomingState.Failed;
        }
      }
    }

    method TakeHomingRequest()
      modifies this
      ensures State() == TakeHoming(old(State()))
    {
      hide C.Home;
      TakeRequest();
    }

    // Silence faults from any lifecycle
    method JudgeLink()
      requires thread.Alive?
      modifies this`checkFirstFrame, this`thread, this`stopCause, this`lifecycle
      ensures var l, receiving := old(thread).loop, comms.silent <= setup.lossCycles;
              && checkFirstFrame == (old(checkFirstFrame) || (comms.anyFrame && !l.firstFrameReported))
              && thread == (if comms.anyFrame then Alive(l.(firstFrameReported := true, previousReceiving := receiving)) else old(thread))
              && var drops := comms.anyFrame && l.previousReceiving && !receiving && old(lifecycle) != Faulted;
              && stopCause == (if drops then ReceiveSilence else old(stopCause))
              && lifecycle == (if drops then Faulted else old(lifecycle))
    {
      var l := thread.loop;
      if !l.firstFrameReported && comms.anyFrame {
        checkFirstFrame := true;
        l := l.(firstFrameReported := true);
      }
      if !comms.anyFrame {
        return;
      }
      var receiving := comms.silent <= setup.lossCycles;
      if l.previousReceiving && !receiving {
        if lifecycle != Faulted {
          stopCause, lifecycle := ReceiveSilence, Faulted;
        }
      }
      thread := Alive(l.(previousReceiving := receiving));
    }

    method CheckLink()
      requires thread.Alive?
      modifies this
      ensures State() == WatchLink(setup, old(State())) && thread.Alive?
    {
      JudgeLink();
    }

    method TakeHoldRequest(joints: J.Joints)
      modifies this`requestHold, this`staged, this`mail
      ensures State() == TakeHold(old(State()), joints)
    {
      hide SeenBy, Held, WithController;
      if requestHold {
        requestHold := false;
        StageController(Held(SeenBy(comms, joints).position), Sdk);
      }
    }

    method ComputeFrames(joints: J.Joints)
      requires thread.Alive?
      modifies this`memory, this`thread
      ensures State() == Compute(setup, old(State()), joints)
    {
      hide M.ToFrames, M.Next, SeenBy, Receiving;
      var l := thread.loop;
      var input := if requested == Running then l.active else Staged(NoEffortCommand(), Sdk);
      var cycle := Cycle(requested, lifecycle, Receiving(setup, comms), NoCommand(), Sdk);
      if requested == Running || requested == Stopped || lifecycle == Faulted {
        var seen := SeenBy(comms, joints);
        var frames := M.ToFrames(setup.plant, memory, input.command, l.activeConfig, seen);
        memory := M.Next(setup.plant, memory, input.command, l.activeConfig, seen);
        cycle := cycle.(frames := frames, source := input.source);
      }
      thread := Alive(l.(pc := BeforeReread(cycle)));
    }

    method Observe(queue: seq<P.CanFrame>)
      modifies this`comms
      ensures State() == HandCore.Observe(old(State()), queue)
    {
      hide C.Read;
      comms := C.Read(comms, queue);
    }

    // 1) to 4) of run_control_loop, up to the point where the request is read again
    method BeginCycle(input: RtInput)
      requires thread.Alive?
      modifies this
      ensures State() == HandCore.BeginCycle(setup, old(State()), input)
    {
      hide TakeInput, TakeHoming, HandCore.Observe, WatchLink, TakeHold, Compute;
      TakeInputs();
      TakeHomingRequest();
      Observe(input.queue);
      CheckLink();
      TakeHoldRequest(input.joints);
      ComputeFrames(input.joints);
    }

    method WriteFrames(k: Cycle, quickStop: bool)
      modifies this`comms, this`trail
      ensures comms == C.Write(old(comms), k.frames, quickStop) && trail == TrailAfter(old(State()), quickStop)
    {
      hide C.Write, H.Step;
      if comms.open && !quickStop && comms.homing.active {
        trail := Trail(trail.states + [H.Step(comms.homing, comms.rx)], trail.seen + [comms.rx]);
      }
      comms := C.Write(comms, k.frames, quickStop);
    }

    // A full queue is no lost link; any other failed send while Running is a fault
    method JudgeSend(k: Cycle, latest: Lifecycle, tx: TxResult, isOpen: bool)
      modifies this`txTransient, this`checkCommunication, this`stopCause, this`lifecycle
      ensures txTransient == if isOpen && !tx.Sent? then tx.Transient? else old(txTransient)
      ensures checkCommunication == (k.receiving && ((isOpen && tx.Sent?) || txTransient))
      ensures var faults := !(isOpen && tx.Sent?) && !txTransient && latest == Running && k.observed != Faulted;
              && stopCause == (if faults then TransmitFailure else old(stopCause))
              && lifecycle == (if faults then Faulted else old(lifecycle))
    {
      var writeOk := isOpen && tx.Sent?;
      if isOpen && !tx.Sent? {
        txTransient := tx.Transient?;
      }
      if !writeOk && !txTransient && latest == Running && k.observed != Faulted {
        stopCause, lifecycle := TransmitFailure, Faulted;
      }
      checkCommunication := k.receiving && (writeOk || txTransient);
    }

    method TransmitFrames(k: Cycle, latest: Lifecycle, tx: TxResult)
      modifies this
      ensures State() == Transmit(old(State()), k, latest, tx)
    {
      hide C.Write, TrailAfter;
      var isOpen := comms.open;
      WriteFrames(k, latest != Running || k.observed == Faulted);
      JudgeSend(k, latest, tx, isOpen);
    }

    // The evidence that moves the lifecycle
    method WatchDriveState(receiving: bool)
      modifies this`lifecycle
      ensures State() == WatchDrives(old(State()), receiving)
    {
      hide C.DrivesEnabled, C.QuickStopAttained;
      var observed := lifecycle;
      if observed == Faulted {
        return;
      }
      if observed == Disconnected && comms.anyFrame {
        lifecycle := Connected;
      }
      if !receiving {
        return;
      }
      if requested == Running && observed != Running {
        if C.DrivesEnabled(comms) {
          lifecycle := Running;
        }
      } else if requested == Stopped && observed != Stopped {
        if C.QuickStopAttained(comms) {
          lifecycle := Stopped;
        }
      }
    }

    method ReportHoming(homingOk: bool)
      modifies this`resultHoming, this`activeHoming, this`homingState, this`homedLink
      ensures resultHoming == homingOk && !activeHoming && homingState == (if homingOk then Succeeded else HomingState.Failed)
      ensures homedLink == (if homingOk then Some(links) else old(homedLink))
    {
      resultHoming := homingOk;
      activeHoming := false;
      homingState := if homingOk then Succeeded else HomingState.Failed;
      if homingOk {
        homedLink := Some(links);
      }
    }

    method WatchHomingState()
      modifies this
      ensures State() == WatchHoming(old(State()))
    {
      hide WithController;
      if activeHoming && !comms.homing.active {
        var homingOk := comms.homing.outcome.Succeeded?;
        ReportHoming(homingOk);
        if homingOk {
          StageController(M.ActuatorPosition(Constant(0.0)), Sdk);
        }
      }
    }

    // Outside a control session nothing is transmitted
    method SkipTransmission(k: Cycle)
      modifies this`checkCommunication
      ensures State() == old(State()).(checkCommunication := k.receiving)
    {
      checkCommunication := k.receiving;
    }

    method ReturnToTop(l: Loop)
      modifies this`thread
      ensures State() == old(State()).(thread := Alive(l.(pc := Top)))
    {
      thread := Alive(l.(pc := Top));
    }

    // The transmission and 5)
    method EndCycle(tx: TxResult)
      requires thread.Alive? && thread.loop.pc.AfterReread?
      modifies this
      ensures State() == HandCore.FinishCycle(old(State()), tx)
    {
      hide Transmit, WatchDrives, WatchHoming;
      var l := thread.loop;
      var k := l.pc.cycle;
      if k.requested == Running || k.requested == Stopped || k.observed == Faulted {
        TransmitFrames(k, l.pc.latest, tx);
      } else {
        SkipTransmission(k);
      }
      WatchDriveState(k.receiving);
      WatchHomingState();
      ReturnToTop(l);
    }

    method ClearFaults()
      modifies this`stopCause, this`requestHoming, this`activeHoming, this`requestHold
      ensures stopCause == NotRecorded && !requestHoming && !activeHoming && !requestHold
    {
      stopCause := NotRecorded;
      requestHoming := false;
      activeHoming := false;
      requestHold := false;
    }

    method ResetFaults()
      modifies this
      ensures State() == ResetFaultState(old(State()))
    {
      ClearFaults();
    }

    method Reopen(recovered: C.Comms)
      modifies this`comms, this`txTransient, this`checkCommunication, this`homingState, this`links
      ensures comms == recovered && !txTransient && !checkCommunication && homingState == NotRun && links == old(links) + 1
    {
      comms := recovered;
      txTransient := false;
      checkCommunication := false;
      homingState := NotRun;
      links := links + 1;
    }

    method StartSession(recovered: C.Comms)
      modifies this
      ensures State() == old(State()).(comms := recovered, txTransient := false, checkCommunication := false,
                                       homingState := NotRun, links := old(links) + 1)
    {
      Reopen(recovered);
    }

    method Rerequest()
      requires thread.Alive?
      modifies this`requestHoming, this`requested, this`runs, this`lifecycle, this`thread
      ensures requestHoming == (old(requestHoming) || setup.autoReconnectHome)
      ensures requested == Running && runs == old(runs) + 1 && lifecycle == Connected
      ensures thread == Alive(old(thread).loop.(previousReceiving := true, firstFrameReported := false))
    {
      if setup.autoReconnectHome {
        requestHoming := true;
      }
      requested := Running;
      runs := runs + 1;
      lifecycle := Connected;
      thread := Alive(thread.loop.(previousReceiving := true, firstFrameReported := false));
    }

    method Resume()
      requires thread.Alive?
      modifies this
      ensures var l := old(thread).loop.(previousReceiving := true, firstFrameReported := false);
              State() == old(State()).(requestHoming := old(requestHoming) || setup.autoReconnectHome, requested := Running,
                                       runs := old(runs) + 1, lifecycle := Connected, thread := Alive(l))
    {
      Rerequest();
    }

    // The link is back: nothing staged, homed or requested before the fault is carried over
    method Recover(recovered: C.Comms)
      requires thread.Alive?
      modifies this
      ensures State() == Recovered(setup, old(State()), recovered)
    {
      hide ResetToIdle;
      ResetFaults();
      StartSession(recovered);
      ResetLeavesSdk(State());
      ResetCommandToIdle();
      Resume();
    }

    method LoseLink(closed: C.Comms, transient: bool)
      modifies this`comms, this`txTransient
      ensures State() == old(State()).(comms := closed, txTransient := transient)
    {
      comms, txTransient := closed, transient;
    }

    // One retry of the link
    method TryReconnectOnce(input: RtInput)
      requires thread.Alive?
      modifies this
      ensures State() == TryReconnect(setup, old(State()), input)
    {
      hide ReadUntilFrame, C.Read, Recovered, C.Connected, C.Disconnected, C.Run;
      var closed := C.Disconnected(comms);
      if !input.linkOpens {
        LoseLink(closed, txTransient);
        return;
      }
      var polled := PollForFrame(C.Connected(closed), input.polls);
      if !polled.anyFrame {
        LoseLink(C.Disconnected(polled), false);
        return;
      }
      Recover(C.Run(polled));
    }

    method EndThread()
      modifies this`thread
      ensures State() == old(State()).(thread := Ended)
    {
      thread := Ended;
    }

    method TakeTop(input: RtInput)
      requires thread.Alive?
      modifies this
      ensures State() == RtTop(setup, old(State()), input)
    {
      hide TryReconnect, HandCore.BeginCycle;
      if requested == Disconnected {
        EndThread();
      } else if lifecycle == Faulted {
        if !setup.autoReconnect || stopCause.ControlLoopFailure? || input.giveUp {
          EndThread();
        } else {
          TryReconnectOnce(input);
        }
      } else {
        BeginCycle(input);
      }
    }

    // The head of the loop. It confirms nothing and accepts nothing. The frames of a cycle that begins
    // are within their caps, and a user's only while Running is requested, in the same request and session
    method RunLoopTop(input: RtInput)
      requires Valid() && thread.Alive? && thread.loop.pc.Top?
      modifies this
      ensures Valid() && Quiet(old(State()), State()) && State() == RtTop(setup, old(State()), input)
      ensures old(requested) != Disconnected && old(lifecycle) != Faulted ==>
                && thread.Alive? && thread.loop.pc.BeforeReread? && TorqueBounded(thread.loop.pc.cycle.frames)
                && (thread.loop.pc.cycle.source.User? ==>
                      requested == Running && thread.loop.pc.cycle.source == User(runs, links))
    {
      ghost var c := State();
      TakeTop(input);
      TopPromises(setup, c, input);
    }

    method Reread()
      requires Valid() && thread.Alive? && thread.loop.pc.BeforeReread?
      modifies this
      ensures Valid() && State() == RtReread(old(State()))
    {
      hide Inv;
      RereadKeepsInv(setup, State());
      thread := Alive(thread.loop.(pc := AfterReread(thread.loop.pc.cycle, requested)));
    }

    // The rest of the cycle. The lifecycle moves on the drives' evidence only, a homing under way goes
    // on or comes to its verdict, and on an open link a stop that the cycle has read ends it
    method FinishCycle(tx: TxResult)
      requires Valid() && thread.Alive? && thread.loop.pc.AfterReread?
      modifies this
      ensures Valid() && State() == HandCore.FinishCycle(old(State()), tx)
      ensures HistoryStep(setup, old(State()), LoopFinish(tx), State())
      ensures old(activeHoming) ==> activeHoming || Resolves(old(State()), LoopFinish(tx), State())
      ensures old(activeHoming && comms.open && QuickStops(thread.loop.pc.cycle, thread.loop.pc.latest)) ==>
                !activeHoming && homingState == HomingState.Failed
    {
      ghost var c := State();
      EndCycle(tx);
      FinishPromises(setup, c, tx);
    }

    method CeaseControl()
      modifies this`stopCause, this`lifecycle, this`comms, this`thread
      ensures stopCause == ControlLoopFailure && lifecycle == Faulted && thread == Ended
      ensures comms == C.Write(old(comms), NoCommand(), true)
    {
      hide C.Write;
      stopCause := ControlLoopFailure;
      lifecycle := Faulted;
      comms := C.Write(comms, NoCommand(), true);
      thread := Ended;
    }

    // An exception of the loop: thirty quick stops, which leave what the first one leaves
    method HandleControlLoopFailure()
      requires Valid() && thread.Alive?
      modifies this
      ensures Valid() && Quiet(old(State()), State()) && State() == Threw(old(State()))
      ensures old(comms.open) ==> !comms.homing.active
    {
      hide C.Write, Inv, Quiet;
      ghost var c := State();
      CeaseControl();
      ThrewKeepsInv(setup, c);
      ThrewIsQuiet(c);
      C.QuickStopWins(c.comms.(open := true), NoCommand());
    }

    // -------------------------------- Connection --------------------------------

    method Return(status: Status)
      modifies this`user
      ensures State() == old(State()).(user := Outside(status))
    {
      user := Outside(status);
    }

    method MoveTo(request: Lifecycle, wait: UserPc)
      modifies this`requested, this`user
      ensures State() == old(State()).(requested := request, user := wait)
    {
      requested := request;
      user := wait;
    }

    method SetLink(link: C.Comms)
      modifies this`comms
      ensures State() == old(State()).(comms := link)
    {
      comms := link;
    }

    method KeepFault(cause: StopCause)
      modifies this`stopCause, this`lifecycle
      ensures State() == old(State()).(stopCause := cause, lifecycle := Faulted)
    {
      stopCause, lifecycle := cause, Faulted;
    }

    method RefuseConnect(reconnecting: bool, cause: StopCause, code: ErrorCode)
      modifies this
      ensures State() == ConnectRefused(old(State()), reconnecting, cause, code)
    {
      if reconnecting {
        KeepFault(cause);
      }
      Return(Refused(code));
    }

    method RepublishStaged()
      modifies this`mail, this`mailConfig, this`requested
      ensures State() == old(State()).(mail := Some(staged), mailConfig := Some(stagedConfig), requested := Connected)
    {
      mail, mailConfig, requested := Some(staged), Some(stagedConfig), Connected;
    }

    method ClearFirstFrame()
      modifies this`checkFirstFrame
      ensures State() == old(State()).(checkFirstFrame := false)
    {
      checkFirstFrame := false;
    }

    method OpenSession()
      modifies this
      ensures State() == Opened(old(State()))
    {
      hide C.Connected, C.Run;
      StartSession(C.Run(C.Connected(comms)));
      ClearFirstFrame();
      RepublishStaged();
    }

    method StartThread(reconnecting: bool, cause: StopCause)
      modifies this`thread, this`user
      ensures State() == old(State()).(thread := Alive(NewLoop()), user := AwaitFrame(reconnecting, cause))
    {
      thread, user := Alive(NewLoop()), AwaitFrame(reconnecting, cause);
    }

    method NoThreadStarted()
      modifies this`requested, this`lifecycle, this`comms
      ensures State() == old(State()).(requested := Disconnected, lifecycle := Disconnected, comms := C.Disconnected(old(comms)))
    {
      requested, lifecycle, comms := Disconnected, Disconnected, C.Disconnected(comms);
    }

    method Allowed(action: Action, requireHomed: bool) returns (status: Status)
      ensures status == Checked(State(), action, requireHomed)
    {
      hide CheckActionAllowed;
      status := CheckActionAllowed(action, requested, lifecycle, destroyed, stopCause,
                                   !requireHomed || homingState == Succeeded);
    }

    method Connect(link: LinkInput, reconnecting: bool, cause: StopCause)
      modifies this
      ensures State() == HandCore.Connect(old(State()), link, reconnecting, cause)
    {
      hide Checked, Opened, ConnectRefused, NewLoop, C.Disconnected;
      var allowed := Allowed(Action.Connect, true);
      if !allowed.OK? {
        RefuseConnect(reconnecting, cause, allowed.code);
      } else if requested == Connected && lifecycle == Connected {
        Return(OK);
      } else if !link.opens {
        SetLink(comms.(open := false));
        RefuseConnect(reconnecting, cause, InterfaceUnavailable);
      } else {
        OpenSession();
        if !link.threadStarts {
          NoThreadStarted();
          RefuseConnect(reconnecting, cause, ControlLoopFault);
        } else {
          StartThread(reconnecting, cause);
        }
      }
    }

    method LeaveLoop(next: AfterJoin)
      modifies this
      ensures State() == HandCore.LeaveLoop(old(State()), next)
    {
      MoveTo(Disconnected, Joining(next));
    }

    method FirstFrameSeen()
      modifies this`lifecycle, this`user
      ensures State() == old(State()).(lifecycle := Connected, user := Outside(OK))
    {
      lifecycle, user := Connected, Outside(OK);
    }

    method WaitFirstFrame(timeout: bool)
      requires user.AwaitFrame?
      modifies this
      ensures State() == PollFirstFrame(old(State()), timeout)
    {
      hide HandCore.LeaveLoop;
      if checkFirstFrame {
        FirstFrameSeen();
      } else if timeout {
        LeaveLoop(ConnectFailed(user.reconnecting, user.cause));
      }
    }

    method Disconnect()
      modifies this
      ensures State() == HandCore.Disconnect(old(State()))
    {
      hide Checked, HandCore.LeaveLoop, ResetToIdle;
      var allowed := Allowed(Action.Disconnect, true);
      if !allowed.OK? {
        Return(allowed);
      } else if lifecycle == Disconnected {
        Return(OK);
      } else {
        var mustStop := (requested == Running || requested == Stopped) && lifecycle != Stopped;
        ResetCommandToIdle();
        if mustStop {
          MoveTo(Stopped, AwaitStop(ToDisconnect));
        } else {
          LeaveLoop(DisconnectNow);
        }
      }
    }

    method Reconnect()
      modifies this
      ensures State() == HandCore.Reconnect(old(State()))
    {
      hide Checked, HandCore.LeaveLoop;
      var allowed := Allowed(Action.Reconnect, true);
      if !allowed.OK? {
        Return(allowed);
      } else {
        LeaveLoop(ReconnectNow);
      }
    }

    method Destroy()
      modifies this`destroyed
      ensures State() == old(State()).(destroyed := true)
    {
      destroyed := true;
    }

    method Close()
      modifies this
      ensures State() == HandCore.Close(old(State()))
    {
      hide HandCore.LeaveLoop;
      if destroyed {
        Return(OK);
      } else {
        var mustStop := (requested == Running || requested == Stopped) && lifecycle != Stopped;
        Destroy();
        if mustStop {
          MoveTo(Stopped, AwaitStop(ToClose));
        } else {
          LeaveLoop(CloseNow);
        }
      }
    }

    method Unthread()
      modifies this`thread, this`lifecycle
      ensures State() == Unthreaded(old(State()))
    {
      thread, lifecycle := NoThread, Disconnected;
    }

    method CloseLink()
      modifies this
      ensures State() == Closed(old(State()))
    {
      hide C.Disconnected, C.Stop;
      SetLink(C.Disconnected(C.Stop(comms)));
    }

    method ClearObservations()
      modifies this`checkFirstFrame, this`checkCommunication
      ensures State() == old(State()).(checkFirstFrame := false, checkCommunication := false)
    {
      checkFirstFrame, checkCommunication := false, false;
    }

    // What follows once the loop's thread has ended
    method Join(link: LinkInput)
      requires user.Joining? && !thread.Alive?
      modifies this
      ensures State() == Joined(old(State()), link)
    {
      hide Closed, ConnectRefused, HandCore.Connect, ResetToIdle, ResetFaultState, C.Disconnected, Unthreaded;
      var next := user.next;
      JoiningIsKept(State());
      Unthread();
      match next
      case ConnectFailed(reconnecting, cause) =>
        SetLink(C.Disconnected(comms));
        RefuseConnect(reconnecting, cause, CommunicationLost);
      case DisconnectNow =>
        CloseLink();
        ClearObservations();
        Return(OK);
      case ReconnectNow =>
        var cause := stopCause;
        CloseLink();
        ResetFaults();
        ResetCommandToIdle();
        Connect(link, true, cause);
      case CloseNow =>
        CloseLink();
        Return(OK);
    }

    // -------------------------------- Operation ---------------------------------

    // wait_observed(Stopped) and what its callers make of it
    method WaitStopped(timeout: bool)
      requires user.AwaitStop?
      modifies this
      ensures State() == PollStop(old(State()), timeout)
    {
      hide HandCore.LeaveLoop, StopRefusal;
      if lifecycle == Stopped {
        match user.goal
        case ToStop => Return(OK);
        case ToDisconnect => LeaveLoop(DisconnectNow);
        case ToClose => LeaveLoop(CloseNow);
      } else if lifecycle == Faulted || timeout {
        if user.goal.ToClose? {
          LeaveLoop(CloseNow);
        } else {
          var refusal := RefuseStop(if user.goal.ToStop? then Action.Stop else Action.Disconnect);
          Return(refusal);
        }
      }
    }

    method RefuseStop(action: Action) returns (status: Status)
      ensures status == StopRefusal(State(), action)
    {
      hide Checked;
      if lifecycle == Faulted {
        status := Allowed(action, true);
        if !status.OK? {
          return;
        }
      }
      status := Refused(if checkCommunication then HardwareFault else CommunicationLost);
    }

    method HoldPose()
      modifies this`requestHold
      ensures State() == old(State()).(requestHold := true)
    {
      requestHold := true;
    }

    method CountRequest()
      modifies this`requested, this`runs
      ensures State() == RequestRunning(old(State()))
    {
      requested, runs := Running, runs + 1;
    }

    method RequestControl() returns (status: Status)
      modifies this
      ensures State() == HandCore.RequestControl(old(State())) && status == ControlStatus(old(State()))
    {
      hide ResetToIdle, RequestRunning;
      if requested == Running && lifecycle == Running {
        return OK;
      }
      if !checkCommunication {
        return Refused(CommunicationLost);
      }
      if requested == Stopped {
        ResetCommandToIdle();
        HoldPose();
      }
      CountRequest();
      return OK;
    }

    method WaitEnabled(timeout: bool)
      modifies this
      ensures State() == PollEnable(old(State()), timeout)
    {
      hide ResetToIdle;
      if lifecycle == Running {
        Return(OK);
      } else if lifecycle == Faulted || timeout {
        var code := if checkCommunication then HardwareFault else CommunicationLost;
        ResetCommandToIdle();
        MoveTo(Stopped, Outside(Refused(code)));
      }
    }

    method MarkInProgress()
      modifies this`homingState
      ensures State() == old(State()).(homingState := HomingState.InProgress)
    {
      homingState := HomingState.InProgress;
    }

    method AskForHoming()
      modifies this`resultHoming, this`requestHoming, this`user
      ensures State() == old(State()).(resultHoming := false, requestHoming := true, user := Outside(OK))
    {
      resultHoming, requestHoming, user := false, true, Outside(OK);
    }

    method StartHoming()
      modifies this
      ensures State() == HandCore.StartHoming(old(State()))
    {
      hide Checked, HandCore.RequestControl, ControlStatus, ResetToIdle;
      var allowed := Allowed(Action.Home, true);
      if !allowed.OK? {
        Return(allowed);
      } else {
        MarkInProgress();
        ResetCommandToIdle();
        var status := RequestControl();
        if !status.OK? {
          Return(status);
        } else {
          AskForHoming();
        }
      }
    }

    method Await(wait: UserPc)
      modifies this`user
      ensures State() == old(State()).(user := wait)
    {
      user := wait;
    }

    method Home()
      modifies this
      ensures State() == HandCore.Home(old(State()))
    {
      hide HandCore.StartHoming;
      StartHoming();
      if user == Outside(OK) {
        Await(AwaitHoming);
      }
    }

    method WaitHomed()
      modifies this
      ensures State() == PollHoming(old(State()))
    {
      hide Checked;
      if requested != Running || lifecycle == Faulted {
        var allowed := Allowed(Action.Home, true);
        Return(if !allowed.OK? then allowed else Refused(WrongCallOrder));
      } else if !requestHoming && !activeHoming {
        Return(if resultHoming then OK else Refused(HardwareFault));
      }
    }

    method Run()
      modifies this
      ensures State() == HandCore.Run(setup, old(State()))
    {
      hide Checked, HandCore.Home, HandCore.RequestControl, ControlStatus;
      var allowed := Allowed(Action.Run, true);
      if !allowed.OK? {
        Return(allowed);
      } else if setup.autoHome && homingState != Succeeded {
        Home();
      } else if requested == Running && lifecycle == Running {
        Return(OK);
      } else {
        var status := RequestControl();
        Await(if status.OK? then AwaitEnable else Outside(status));
      }
    }

    method Stop()
      modifies this
      ensures State() == HandCore.Stop(old(State()))
    {
      hide Checked, ResetToIdle;
      var allowed := Allowed(Action.Stop, true);
      if !allowed.OK? {
        Return(allowed);
      } else if requested == Stopped && lifecycle == Stopped {
        Return(OK);
      } else {
        ResetCommandToIdle();
        MoveTo(Stopped, AwaitStop(ToStop));
      }
    }

    // ---------------------------------- Command ----------------------------------

    method SetCommand(target: Target)
      modifies this
      ensures State() == HandCore.SetCommand(setup, old(State()), target)
    {
      hide Checked, ControllerOf, WithController, ValidTarget;
      var allowed := Allowed(Action.SetCommand, !target.IdleTarget?);
      if !allowed.OK? {
        Return(allowed);
      } else if !ValidTarget(target) {
        Return(OK);
      } else {
        StageController(ControllerOf(setup, target), User(runs, links));
        Return(OK);
      }
    }

    method StageCaps(caps: J.Active)
      modifies this`staged, this`mail
      ensures var now := old(staged).(command := old(staged).command.(maxEffort := caps));
              State() == old(State()).(staged := now, mail := Some(now))
    {
      staged := staged.(command := staged.command.(maxEffort := caps));
      mail := Some(staged);
    }

    method SetMaxEffort(limit: M.Raw)
      modifies this
      ensures State() == HandCore.SetMaxEffort(old(State()), limit)
    {
      hide M.BoundedEffort, M.Finite, M.Values;
      if destroyed {
        Return(Refused(WrongCallOrder));
      } else if !M.Finite(limit) {
        Return(Refused(InvalidArgument));
      } else {
        StageCaps(M.BoundedEffort(M.Values(limit)));
        Return(OK);
      }
    }

    method StageConfig(config: M.Config)
      modifies this`stagedConfig, this`mailConfig
      ensures State() == old(State()).(stagedConfig := config, mailConfig := Some(config))
    {
      stagedConfig, mailConfig := config, Some(config);
    }

    method SetControllerConfig(config: ConfigInput)
      modifies this
      ensures State() == HandCore.SetControllerConfig(old(State()), config)
    {
      hide ConfigOf, ValidConfig;
      if destroyed {
        Return(Refused(WrongCallOrder));
      } else if !ValidConfig(config) {
        Return(Refused(InvalidArgument));
      } else {
        StageConfig(ConfigOf(config));
        Return(OK);
      }
    }

    // ------------------------------ The user's steps -----------------------------

    // A public call up to its first wait. A living loop finds everything of its own as it left it, and
    // the call keeps its promise
    method Call(call: Call)
      requires Valid() && user.Outside?
      modifies this
      ensures Valid() && State() == ApplyCall(setup, old(State()), call)
      ensures HistoryStep(setup, old(State()), UserCall(call), State()) && CallPromise(setup, old(State()), call, State())
      ensures old(thread).Alive? ==> KeepsLoop(old(State()), State())
    {
      hide Inv, HistoryStep, CallPromise, KeepsLoop, HandCore.Connect, HandCore.Disconnect, HandCore.Reconnect, HandCore.Close,
           HandCore.Run, HandCore.Stop, HandCore.Home, HandCore.StartHoming, HandCore.SetCommand, HandCore.SetMaxEffort,
           HandCore.SetControllerConfig;
      ghost var c := State();
      match call {
        case CallConnect(link) => Connect(link, false, NotRecorded);
        case CallDisconnect => Disconnect();
        case CallReconnect => Reconnect();
        case CallClose => Close();
        case CallRun => Run();
        case CallStop => Stop();
        case CallHome => Home();
        case CallStartHoming => StartHoming();
        case CallSetCommand(target) => SetCommand(target);
        case CallSetMaxEffort(limit) => SetMaxEffort(limit);
        case CallSetControllerConfig(config) => SetControllerConfig(config);
      }
      CallIsSound(setup, c, call);
    }

    // A poll of a wait, or what follows the end of the loop's thread
    method Poll(timeout: bool, link: LinkInput)
      requires Valid() && Enabled(State(), UserPoll(timeout, link))
      modifies this
      ensures Valid() && State() == ApplyPoll(old(State()), timeout, link)
      ensures Quiet(old(State()), State()) && PollPromise(old(State()), State())
      ensures old(thread).Alive? ==> KeepsHoming(old(State()), State())
    {
      hide Inv, Quiet, PollPromise, KeepsHoming, PollFirstFrame, PollStop, PollEnable, PollHoming, Joined;
      ghost var c := State();
      match user {
        case AwaitFrame(_, _) => WaitFirstFrame(timeout);
        case AwaitStop(_) => WaitStopped(timeout);
        case AwaitEnable => WaitEnabled(timeout);
        case AwaitHoming => WaitHomed();
        case Joining(_) => Join(link);
      }
      PollIsSound(setup, c, timeout, link);
    }
  }

  // --------------------------- What the loop's steps promise ---------------------------

  lemma TopPromises(s: Setup, c: Core, input: RtInput)
    requires Inv(s, c) && c.thread.Alive? && c.thread.loop.pc.Top?
    ensures var r := RtTop(s, c, input);
            && Inv(s, r) && Quiet(c, r)
            && (c.requested != Disconnected && c.lifecycle != Faulted ==>
                  && r.thread.Alive? && r.thread.loop.pc.BeforeReread? && TorqueBounded(r.thread.loop.pc.cycle.frames)
                  && (r.thread.loop.pc.cycle.source.User? ==>
                        r.requested == Running && r.thread.loop.pc.cycle.source == User(r.runs, r.links)))
  {
    hide Inv, Quiet, RtTop, BeginCycle, TorqueBounded;
    RtTopKeepsInv(s, c, input);
    TopIsQuiet(s, c, input);
    if c.requested != Disconnected && c.lifecycle != Faulted {
      TopBegins(s, c, LoopTop(input));
      BegunTorqueIsBounded(s, c, input);
      CycleTakesStaged(s, c, input);
      UsersStamp(s, c, input);
    }
  }

  lemma UsersStamp(s: Setup, c: Core, input: RtInput)
    requires Inv(s, c) && c.thread.Alive?
    ensures var r := BeginCycle(s, c, input);
            && r.requested == c.requested && r.runs == c.runs && r.links == c.links
            && (c.staged.source.User? && c.requested == Running ==> c.staged.source == User(c.runs, c.links))
  {
    hide BeginCycle, ThreadInv, HomingInv, LinkInv, Receiving;
    var w := BeginShapes(s, c, input);
  }

  lemma FinishPromises(s: Setup, c: Core, tx: TxResult)
    requires Inv(s, c) && c.thread.Alive? && c.thread.loop.pc.AfterReread?
    ensures var r := HandCore.FinishCycle(c, tx);
            && Inv(s, r) && HistoryStep(s, c, LoopFinish(tx), r)
            && (c.activeHoming ==> r.activeHoming || Resolves(c, LoopFinish(tx), r))
            && (c.activeHoming && c.comms.open && QuickStops(c.thread.loop.pc.cycle, c.thread.loop.pc.latest) ==>
                  !r.activeHoming && r.homingState == HomingState.Failed)
  {
    hide Inv, HistoryStep, HandCore.FinishCycle, Resolves, QuickStops;
    FinishKeepsInv(s, c, tx);
    FinishIsHistory(s, c, tx);
    if c.activeHoming {
      FinishVerdict(s, c, LoopFinish(tx));
      if QuickStops(c.thread.loop.pc.cycle, c.thread.loop.pc.latest) {
        StopFailsHoming(s, c, tx);
      }
    }
  }

  lemma JoiningIsKept(c: Core)
    ensures Unthreaded(c).user == c.user
  {}

  lemma CallIsSound(s: Setup, c: Core, call: Call)
    requires Inv(s, c) && c.user.Outside?
    ensures var r := ApplyCall(s, c, call);
            && Inv(s, r) && HistoryStep(s, c, UserCall(call), r) && CallPromise(s, c, call, r)
            && (c.thread.Alive? ==> KeepsLoop(c, r))
  {
    hide Inv, HistoryStep, CallPromise, KeepsLoop, ApplyCall;
    CallKeepsInv(s, c, call);
    StepHistory(s, c, UserCall(call));
    CallKeepsPromise(s, c, call);
    if c.thread.Alive? {
      UserKeepsLoop(s, c, UserCall(call));
    }
  }

  lemma PollIsSound(s: Setup, c: Core, timeout: bool, link: LinkInput)
    requires Inv(s, c) && Enabled(c, UserPoll(timeout, link))
    ensures var r := ApplyPoll(c, timeout, link);
            Inv(s, r) && Quiet(c, r) && PollPromise(c, r) && (c.thread.Alive? ==> KeepsHoming(c, r))
  {
    hide Inv, Quiet, PollPromise, KeepsHoming, ApplyPoll;
    PollKeepsInv(s, c, timeout, link);
    PollIsQuiet(s, c, timeout, link);
    PollKeepsPromise(s, c, timeout, link);
    if c.thread.Alive? {
      PollKeepsLoop(s, c, timeout, link);
    }
  }
}
