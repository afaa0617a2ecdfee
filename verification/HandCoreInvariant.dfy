/** What every step of the hand's state machine keeps. */
module HandCoreInvariant {
  import opened Types
  import opened Frames
  import opened ActionCheck
  import opened HandCore
  import C = HandComms
  import P = Protocol
  import H = HomingSequence
  import J = JointPositionController
  import M = CommandMapping

  // -------------------------------- Invariants --------------------------------

  // At most one control loop, and where the user may be for each request
  ghost predicate ThreadInv(c: Core) {
    && c.requested != Faulted
    && (c.user.Outside? ==>
          && (c.requested == Disconnected ==> c.thread.NoThread? && (c.lifecycle == Disconnected || c.lifecycle == Faulted))
          && (c.requested == Connected ==> !c.thread.NoThread? && (c.lifecycle == Connected || c.lifecycle == Faulted)))
    && (c.user.Joining? ==> c.requested == Disconnected)
    && (c.user.AwaitFrame? ==> !c.thread.NoThread? && (c.requested == Connected || c.requested == Running))
    && (c.user.AwaitStop? || c.user.AwaitEnable? || c.user.AwaitHoming? ==> c.requested == Running || c.requested == Stopped)
  }

  ghost predicate CycleInv(s: Setup, c: Core, k: Cycle) {
    && (k.requested == Connected || k.requested == Running || k.requested == Stopped)
    && k.receiving == Receiving(s, c.comms)
    && (k.observed == Faulted ==> !k.receiving)
    && (c.lifecycle == Faulted ==> k.observed == Faulted)
    && (c.requested == Connected ==> k.requested == Connected)
    && (!c.comms.open && k.receiving ==> k.requested != Connected)
    && (k.requested == Connected ==> !c.comms.homing.active)
  }

  // The link, as long as the loop lives: it is closed only by a retry that failed, and then no
  // cycle reports it alive
  ghost predicate LinkInv(s: Setup, c: Core) {
    c.thread.Alive? ==>
      && c.comms.open == c.comms.controlActive
      && (c.comms.anyFrame ==> c.thread.loop.previousReceiving == Receiving(s, c.comms))
      && (c.checkCommunication ==> c.comms.open)
      && (c.lifecycle == Running ==> c.comms.open)
      && (!c.comms.open && Receiving(s, c.comms) ==> !c.txTransient && c.requested != Connected)
      && (c.lifecycle == Faulted && Receiving(s, c.comms) ==> !c.txTransient && c.requested != Connected)
      && (c.requested == Connected ==> c.lifecycle != Running && c.lifecycle != Stopped && !c.comms.homing.active)
      && (match c.thread.loop.pc
          case Top => c.lifecycle == Faulted ==> !c.checkCommunication
          case BeforeReread(k) => CycleInv(s, c, k)
          case AfterReread(k, latest) =>
            && CycleInv(s, c, k)
            && (c.requested == Connected ==> latest == Connected)
            && (!c.comms.open && c.requested == Running ==> latest == Running))
  }

  // The trail is a run of the homing machine that has come to this state
  ghost predicate Follows(disabled: Mask, t: Trail, h: H.Homing) {
    H.IsRun(disabled, t.states, t.seen) && Last(t.states) == h
  }

  // Homing: a request is only taken up on an open link, the sequence that runs is the one on the
  // trail, and what has not been reported yet is not an old success
  ghost predicate HomingInv(c: Core) {
    && (c.thread.Alive? && c.requestHoming && c.requested == Running ==>
          && (c.comms.open || (c.lifecycle == Faulted && !c.user.AwaitFrame?))
          && (c.user.AwaitFrame? ==> c.thread.loop.pc.Top? && c.lifecycle != Faulted))
    && (c.comms.homing.active ==> c.comms.homing.outcome.InProgress? && Follows(c.comms.disabled, c.trail, c.comms.homing))
    && (c.activeHoming && !c.comms.homing.active ==> !c.comms.homing.outcome.Succeeded?)
    && (c.homingState == Succeeded ==> c.homedLink == Some(c.links))
  }

  // The staged values are what the loop has or is about to get
  ghost predicate StagingInv(c: Core) {
    && (c.thread.Alive? ==>
          && c.staged == (if c.mail.Some? then c.mail.value else c.thread.loop.active)
          && c.stagedConfig == (if c.mailConfig.Some? then c.mailConfig.value else c.thread.loop.activeConfig))
    && M.GoodCaps(c.staged.command.maxEffort)
  }

  // A user's command is staged only where it may be executed
  ghost predicate CommandInv(c: Core) {
    && (c.staged.source.User? && c.requested == Running ==>
          && (c.lifecycle == Running || c.lifecycle == Faulted)
          && c.staged.source == User(c.runs, c.links)
          && (!c.staged.command.controller.Idle? ==> c.homedLink == Some(c.links)))
    && (c.staged.source.User? ==> c.requested == Running || c.destroyed || c.user == Joining(ReconnectNow))
    && (c.user.AwaitFrame? ==> !c.staged.source.User?)
    && (c.user.AwaitStop? && c.staged.source.User? ==> c.destroyed)
    && (c.staged.source.User? && c.staged.command.controller.ActuatorPosition? ==> M.FitsInt32(c.staged.command.controller.counts))
  }

  ghost predicate Inv(s: Setup, c: Core) {
    ThreadInv(c) && LinkInv(s, c) && HomingInv(c) && StagingInv(c) && CommandInv(c)
  }

  // ----------------------------- What the parts do -----------------------------

  lemma ReadKeeps(c: C.Comms, queue: seq<P.CanFrame>)
    ensures var r := C.Read(c, queue);
            && r.open == c.open && r.controlActive == c.controlActive && r.homing == c.homing && r.disabled == c.disabled
            && (!c.open ==> r == c)
            && (r.anyFrame && !c.anyFrame ==> r.silent == 0)
  {
    hide P.Drain, C.ReceivedAny, C.SeenHigh;
  }

  lemma HomeDoes(c: C.Comms)
    ensures var r := C.Home(c);
            && r.open == c.open && r.controlActive == c.controlActive && r.anyFrame == c.anyFrame && r.silent == c.silent
            && r.disabled == c.disabled
            && (c.controlActive ==> r.homing.active && r.homing.outcome.InProgress?
                                    && Follows(c.disabled, Trail([r.homing], []), r.homing))
            && (!c.controlActive ==> r == c)
  {}

  lemma WriteDoes(c: C.Comms, frames: CommandFrames, quickStop: bool)
    requires c.homing.active ==> c.homing.outcome.InProgress?
    ensures var r := C.Write(c, frames, quickStop);
            && r.open == c.open && r.controlActive == c.controlActive && r.anyFrame == c.anyFrame && r.silent == c.silent
            && r.rx == c.rx && r.disabled == c.disabled && r.seenHigh == c.seenHigh
            && (r.homing.active ==> c.homing.active && r.homing.outcome.InProgress?)
            && (!c.open ==> r == c)
            && (c.open && quickStop ==> !r.homing.active && r.homing.outcome == c.homing.outcome)
            && (!c.homing.active ==> r.homing == c.homing)
            && (c.open && !quickStop && c.homing.active ==> r.homing == H.Step(c.homing, c.rx))
  {
    hide H.Command, H.WordMode, C.ControlWords, H.Step;
    if c.open && !quickStop && c.homing.active {
      StepKeepsOutcome(c.homing, c.rx);
    }
  }

  // A step of the running sequence goes on the trail
  lemma TrailGrows(disabled: Mask, t: Trail, h: H.Homing, rx: StateFrames)
    requires Follows(disabled, t, h) && h.active
    ensures Follows(disabled, Trail(t.states + [H.Step(h, rx)], t.seen + [rx]), H.Step(h, rx))
  {
    hide H.Step;
  }

  lemma StepKeepsOutcome(h: H.Homing, rx: StateFrames)
    requires h.active && h.outcome.InProgress?
    ensures H.Step(h, rx).active ==> H.Step(h, rx).outcome.InProgress?
  {
    hide H.Latched, H.StillEnabled, H.NotCleared, H.NotAttained;
  }

  lemma ConnectedDoes(c: C.Comms)
    ensures var r := C.Connected(c);
            && r.open && r.controlActive == c.controlActive && !r.homing.active && !r.anyFrame
            && r.homing == H.Cancelled(c.homing) && r.disabled == c.disabled
  {}

  lemma {:induction false} PollingKeeps(c: C.Comms, polls: seq<seq<P.CanFrame>>)
    ensures var r := ReadUntilFrame(c, polls);
            && r.open == c.open && r.controlActive == c.controlActive && r.homing == c.homing && r.disabled == c.disabled
            && (r.anyFrame && !c.anyFrame ==> r.silent == 0)
    decreases |polls|
  {
    hide C.Read;
    if polls != [] && !c.anyFrame {
      ReadKeeps(c, polls[0]);
      PollingKeeps(C.Read(c, polls[0]), polls[1..]);
    }
  }

  lemma AllowedMeans(c: Core, action: Action, requireHomed: bool)
    requires Checked(c, action, requireHomed).OK? && c.requested != Faulted
    ensures !c.destroyed
    ensures if action == Action.Reconnect then c.lifecycle == Faulted
            else c.lifecycle != Faulted && c.requested in AllowedStates(action)
    ensures action == Action.SetCommand ==> c.requested == Running && c.lifecycle == Running
                                            && (requireHomed ==> c.homingState == Succeeded)
  {}

  // ------------------------------ Loop: first step ------------------------------

  lemma TakenDoes(c: Core)
    requires c.thread.Alive?
    ensures var w, taken := Taken(c), c.requestHoming && c.requested == Running;
            w == c.(thread := Alive(Refreshed(c.thread.loop, c.mail, c.mailConfig)), mail := None, mailConfig := None,
                    requestHoming := false, activeHoming := c.activeHoming || taken,
                    comms := if taken then C.Home(c.comms) else c.comms,
                    trail := if taken then Trail([C.Home(c.comms).homing], []) else c.trail,
                    homingState := if c.requestHoming && !taken then HomingState.Failed else c.homingState)
  {
    hide C.Home, Refreshed;
  }

  lemma RefreshedDoes(l: Loop, mail: Option<Staged>, mailConfig: Option<M.Config>)
    ensures var r := Refreshed(l, mail, mailConfig);
            && r.active == (if mail.Some? then mail.value else l.active)
            && r.activeConfig == (if mailConfig.Some? then mailConfig.value else l.activeConfig)
            && r.previousReceiving == l.previousReceiving && r.firstFrameReported == l.firstFrameReported && r.pc == l.pc
  {}

  lemma WatchLinkDoes(s: Setup, c: Core)
    requires c.thread.Alive?
    ensures var w := WatchLink(s, c);
            && w == c.(checkFirstFrame := w.checkFirstFrame, thread := w.thread, stopCause := w.stopCause, lifecycle := w.lifecycle)
            && w.thread.loop == c.thread.loop.(firstFrameReported := w.thread.loop.firstFrameReported,
                                               previousReceiving := w.thread.loop.previousReceiving)
            && (w.lifecycle == c.lifecycle || (w.lifecycle == Faulted && !Receiving(s, w.comms)))
            && (w.stopCause == c.stopCause || w.lifecycle == Faulted)
            && (c.comms.anyFrame ==> w.thread.loop.previousReceiving == Receiving(s, c.comms))
  {
    hide Receiving;
    LinkSeenDoes(s, c.thread.loop, c.comms);
  }

  lemma LinkSeenDoes(s: Setup, l: Loop, comms: C.Comms)
    ensures var r := LinkSeen(s, l, comms);
            && r == l.(firstFrameReported := r.firstFrameReported, previousReceiving := r.previousReceiving)
            && (comms.anyFrame ==> r.previousReceiving == Receiving(s, comms))
  {}

  lemma WithControllerDoes(c: Core, controller: M.Controller, source: Source)
    ensures var r := WithController(c, controller, source);
            && r == c.(staged := r.staged, mail := r.mail) && r.mail == Some(r.staged)
            && r.staged.source == source && r.staged.command.maxEffort == c.staged.command.maxEffort
  {}

  lemma TakeHoldDoes(c: Core, joints: J.Joints)
    ensures var w := TakeHold(c, joints);
            && w == c.(requestHold := false, staged := w.staged, mail := w.mail)
            && (if c.requestHold then w.mail == Some(w.staged) && w.staged.source == Sdk
                                      && w.staged.command.maxEffort == c.staged.command.maxEffort
                else w.mail == c.mail && w.staged == c.staged)
  {
    hide SeenBy, Held, WithController;
    WithControllerDoes(c.(requestHold := false), Held(SeenBy(c.comms, joints).position), Sdk);
  }

  // The state after the inputs, the link and the hold have been taken in
  ghost predicate WatchedShape(s: Setup, c: Core, w: Core)
    requires c.thread.Alive? && w.thread.Alive?
  {
    var taken := c.requestHoming && c.requested == Running;
    && w.requested == c.requested && w.destroyed == c.destroyed && w.checkCommunication == c.checkCommunication
    && w.txTransient == c.txTransient && w.user == c.user && w.runs == c.runs && w.links == c.links
    && w.homedLink == c.homedLink && w.stagedConfig == c.stagedConfig && w.mailConfig == None
    && w.comms.open == c.comms.open && w.comms.controlActive == c.comms.controlActive
    && !w.requestHoming && w.activeHoming == (c.activeHoming || taken)
    && w.comms.homing == (if taken then C.Home(c.comms).homing else c.comms.homing)
    && w.comms.disabled == c.comms.disabled
    && w.trail == (if taken then Trail([C.Home(c.comms).homing], []) else c.trail)
    && w.homingState == (if c.requestHoming && !taken then HomingState.Failed else c.homingState)
    && w.resultHoming == c.resultHoming
    && (w.lifecycle == c.lifecycle || (w.lifecycle == Faulted && !Receiving(s, w.comms)))
    && (w.stopCause == c.stopCause || w.lifecycle == Faulted)
    && (!c.comms.open ==> Receiving(s, w.comms) == Receiving(s, c.comms))
    && (w.comms.anyFrame ==> w.thread.loop.previousReceiving == Receiving(s, w.comms))
    && w.thread.loop.active == (if c.mail.Some? then c.mail.value else c.thread.loop.active)
    && w.thread.loop.activeConfig == (if c.mailConfig.Some? then c.mailConfig.value else c.thread.loop.activeConfig)
    && (if c.requestHold then w.mail == Some(w.staged) && w.staged.source == Sdk
                              && w.staged.command.maxEffort == c.staged.command.maxEffort
        else w.mail == None && w.staged == c.staged)
  }

  lemma WatchedDoes(s: Setup, c: Core, input: RtInput)
    requires c.thread.Alive?
    ensures WatchedShape(s, c, Watched(s, c, input))
  {
    hide C.Read, C.Home, Taken, WatchLink, TakeHold, Refreshed;
    var c1 := Taken(c);
    var c2 := Observe(c1, input.queue);
    var c3 := WatchLink(s, c2);
    TakenDoes(c);
    HomeDoes(c.comms);
    RefreshedDoes(c.thread.loop, c.mail, c.mailConfig);
    ReadKeeps(c1.comms, input.queue);
    WatchLinkDoes(s, c2);
    TakeHoldDoes(c3, input.joints);
  }

  lemma ComputeDoes(s: Setup, c: Core, joints: J.Joints)
    requires c.thread.Alive?
    ensures var w := Compute(s, c, joints);
            && w == c.(memory := w.memory, thread := w.thread)
            && w.thread.Alive? && w.thread.loop.pc.BeforeReread?
            && w.thread.loop == c.thread.loop.(pc := w.thread.loop.pc)
            && var k := w.thread.loop.pc.cycle;
            && k.requested == c.requested && k.observed == c.lifecycle && k.receiving == Receiving(s, c.comms)
            && k.source == (if c.requested == Running then c.thread.loop.active.source else Sdk)
  {
    hide M.ToFrames, M.Next, SeenBy, Receiving;
  }

  // ------------------------- Loop: first step keeps Inv -------------------------

  lemma BeginKeepsThread(s: Setup, c: Core, w: Core)
    requires c.thread.Alive? && w.thread.Alive? && WatchedShape(s, c, w)
    requires ThreadInv(c) && c.lifecycle != Faulted
    ensures ThreadInv(w)
  {
    hide C.Home, Receiving;
  }

  lemma BeginKeepsHoming(s: Setup, c: Core, w: Core)
    requires c.thread.Alive? && w.thread.Alive? && WatchedShape(s, c, w)
    requires Inv(s, c) && c.lifecycle != Faulted
    ensures HomingInv(w)
  {
    hide C.Home, Receiving, Follows, ThreadInv, StagingInv, CommandInv;
    HomeDoes(c.comms);
  }

  lemma BeginKeepsStaging(s: Setup, c: Core, w: Core)
    requires c.thread.Alive? && w.thread.Alive? && WatchedShape(s, c, w)
    requires StagingInv(c)
    ensures StagingInv(w)
  {
    hide C.Home, Receiving, M.GoodCaps;
  }

  lemma BeginKeepsCommand(s: Setup, c: Core, w: Core)
    requires c.thread.Alive? && w.thread.Alive? && WatchedShape(s, c, w)
    requires CommandInv(c) && c.lifecycle != Faulted
    ensures CommandInv(w)
  {
    hide C.Home, Receiving, M.FitsInt32;
  }

  ghost predicate CycleShape(s: Setup, w: Core, r: Core)
    requires w.thread.Alive?
  {
    && r == w.(memory := r.memory, thread := r.thread)
    && r.thread.Alive? && r.thread.loop.pc.BeforeReread?
    && r.thread.loop == w.thread.loop.(pc := r.thread.loop.pc)
    && var k := r.thread.loop.pc.cycle;
    && k.requested == w.requested && k.observed == w.lifecycle && k.receiving == Receiving(s, w.comms)
    && k.source == (if w.requested == Running then w.thread.loop.active.source else Sdk)
  }

  lemma BeginKeepsLink(s: Setup, c: Core, w: Core, r: Core)
    requires c.thread.Alive? && w.thread.Alive? && WatchedShape(s, c, w) && CycleShape(s, w, r)
    requires Inv(s, c) && c.lifecycle != Faulted && c.requested != Disconnected
    ensures LinkInv(s, r)
  {
    hide C.Home, Receiving, Follows, StagingInv, CommandInv;
    HomeDoes(c.comms);
  }

  lemma ComputeKeepsRest(s: Setup, w: Core, r: Core)
    requires w.thread.Alive? && CycleShape(s, w, r) && !w.requestHoming
    requires ThreadInv(w) && HomingInv(w) && StagingInv(w) && CommandInv(w)
    ensures ThreadInv(r) && HomingInv(r) && StagingInv(r) && CommandInv(r)
  {
    hide Receiving, Follows, M.GoodCaps, M.FitsInt32;
  }

  lemma BeginShapes(s: Setup, c: Core, input: RtInput) returns (w: Core)
    requires c.thread.Alive?
    ensures w.thread.Alive? && WatchedShape(s, c, w) && CycleShape(s, w, BeginCycle(s, c, input))
  {
    hide Watched, Compute, WatchedShape;
    w := Watched(s, c, input);
    WatchedDoes(s, c, input);
    ComputeDoes(s, w, input.joints);
  }

  lemma BeginCycleKeepsInv(s: Setup, c: Core, input: RtInput)
    requires Inv(s, c) && c.thread.Alive? && c.lifecycle != Faulted && c.requested != Disconnected
    ensures Inv(s, BeginCycle(s, c, input))
  {
    hide BeginCycle, CycleShape, Receiving, ThreadInv, HomingInv, StagingInv, CommandInv, LinkInv, C.Home;
    var w := BeginShapes(s, c, input);
    var r := BeginCycle(s, c, input);
    assert ThreadInv(w) by { BeginKeepsThread(s, c, w); }
    assert HomingInv(w) by { BeginKeepsHoming(s, c, w); }
    assert StagingInv(w) by { BeginKeepsStaging(s, c, w); }
    assert CommandInv(w) by { BeginKeepsCommand(s, c, w); }
    assert LinkInv(s, r) by { BeginKeepsLink(s, c, w, r); }
    ComputeKeepsRest(s, w, r);
  }

  // -------------------------- Loop: end and reconnect ---------------------------

  lemma EndKeepsInv(s: Setup, c: Core)
    requires Inv(s, c) && c.thread.Alive? && (c.requested == Disconnected || c.lifecycle == Faulted)
    ensures Inv(s, c.(thread := Ended))
  {
    hide Follows, M.GoodCaps, M.FitsInt32, Receiving, CycleInv;
  }

  lemma FailedRetryKeepsInv(s: Setup, c: Core, r: Core)
    requires Inv(s, c) && c.thread.Alive? && c.thread.loop.pc.Top? && c.lifecycle == Faulted
    requires r == c.(comms := r.comms, txTransient := r.txTransient)
    requires !r.comms.open && !r.comms.controlActive
    requires r.comms.disabled == c.comms.disabled
    requires r.comms.homing == c.comms.homing || r.comms.homing == H.Cancelled(c.comms.homing)
    requires (Receiving(s, r.comms) == Receiving(s, c.comms) && r.txTransient == c.txTransient) || !Receiving(s, r.comms)
    requires (r.comms.anyFrame == c.comms.anyFrame && Receiving(s, r.comms) == Receiving(s, c.comms)) || !r.comms.anyFrame
    ensures Inv(s, r)
  {
    hide Follows, M.GoodCaps, M.FitsInt32, Receiving;
  }

  lemma RecoveredKeepsInv(s: Setup, c: Core, comms: C.Comms)
    requires Inv(s, c) && c.thread.Alive? && c.thread.loop.pc.Top? && c.requested != Disconnected
    requires comms.open && comms.controlActive && comms.homing == H.Cancelled(c.comms.homing) && Receiving(s, comms)
    ensures Inv(s, Recovered(s, c, comms))
  {
    hide Follows, M.GoodCaps, M.FitsInt32, Receiving, CycleInv;
  }

  lemma TryReconnectKeepsInv(s: Setup, c: Core, input: RtInput)
    requires Inv(s, c) && c.thread.Alive? && c.thread.loop.pc.Top? && c.lifecycle == Faulted && c.requested != Disconnected
    ensures Inv(s, TryReconnect(s, c, input))
  {
    hide Inv, Recovered, ReadUntilFrame;
    var closed := C.Disconnected(c.comms);
    var r := TryReconnect(s, c, input);
    if !input.linkOpens {
      FailedRetryKeepsInv(s, c, r);
    } else {
      ConnectedDoes(closed);
      PollingKeeps(C.Connected(closed), input.polls);
      var polled := ReadUntilFrame(C.Connected(closed), input.polls);
      if polled.anyFrame {
        RecoveredKeepsInv(s, c, C.Run(polled));
      } else {
        FailedRetryKeepsInv(s, c, r);
      }
    }
  }

  lemma RtTopKeepsInv(s: Setup, c: Core, input: RtInput)
    requires Inv(s, c) && c.thread.Alive? && c.thread.loop.pc.Top?
    ensures Inv(s, RtTop(s, c, input))
  {
    hide Inv, TryReconnect, BeginCycle;
    if c.requested == Disconnected {
      EndKeepsInv(s, c);
    } else if c.lifecycle != Faulted {
      BeginCycleKeepsInv(s, c, input);
    } else if !s.autoReconnect || c.stopCause.ControlLoopFailure? || input.giveUp {
      EndKeepsInv(s, c);
    } else {
      TryReconnectKeepsInv(s, c, input);
    }
  }

  lemma RereadKeepsInv(s: Setup, c: Core)
    requires Inv(s, c) && c.thread.Alive? && c.thread.loop.pc.BeforeReread?
    ensures Inv(s, RtReread(c))
  {
    hide Follows, M.GoodCaps, M.FitsInt32, Receiving;
  }

  lemma ThrewKeepsInv(s: Setup, c: Core)
    requires Inv(s, c) && c.thread.Alive?
    ensures Inv(s, Threw(c))
  {
    hide Follows, M.GoodCaps, M.FitsInt32, Receiving, CycleInv, C.Write;
    WriteDoes(c.comms, NoCommand(), true);
  }

  // -------------------------- Loop: the rest of a cycle --------------------------

  // What the transmission leaves, or the lack of one
  ghost predicate TransmittedShape(s: Setup, c: Core, t: Core)
    requires c.thread.Alive? && c.thread.loop.pc.AfterReread?
  {
    var k, latest := c.thread.loop.pc.cycle, c.thread.loop.pc.latest;
    && t == c.(comms := t.comms, txTransient := t.txTransient, checkCommunication := t.checkCommunication,
               trail := t.trail, stopCause := t.stopCause, lifecycle := t.lifecycle)
    && t.comms.open == c.comms.open && t.comms.controlActive == c.comms.controlActive
    && Receiving(s, t.comms) == Receiving(s, c.comms) && t.comms.anyFrame == c.comms.anyFrame
    && (t.comms.homing.active ==> c.comms.homing.active && t.comms.homing.outcome.InProgress?)
    && t.comms.disabled == c.comms.disabled
    && (!c.comms.homing.active ==> t.comms.homing == c.comms.homing)
    && (c.comms.homing.active ==>
          || Follows(t.comms.disabled, t.trail, t.comms.homing)
          || (!t.comms.homing.active && t.comms.homing.outcome.InProgress?))
    && (t.checkCommunication ==> c.comms.open && k.receiving)
    && (!c.comms.open ==> t.txTransient == c.txTransient)
    && (t.lifecycle == c.lifecycle || t.lifecycle == Faulted)
    && (t.lifecycle == Faulted ==> !t.checkCommunication)
    && (t.lifecycle == Faulted && k.receiving ==> !t.txTransient && c.requested != Connected)
    && (!c.comms.open && k.receiving && c.requested == Running ==> t.lifecycle == Faulted)
  }

  lemma SameReceiving(s: Setup, a: C.Comms, b: C.Comms)
    requires a.anyFrame == b.anyFrame && a.silent == b.silent
    ensures Receiving(s, a) == Receiving(s, b)
  {}

  lemma NoTransmission(s: Setup, c: Core, tx: TxResult)
    requires Inv(s, c) && c.thread.Alive? && c.thread.loop.pc.AfterReread?
    requires !ControlSession(c.thread.loop.pc.cycle.requested, c.thread.loop.pc.cycle.observed)
    ensures TransmittedShape(s, c, Transmitted(c, tx))
  {
    hide Follows, ThreadInv, StagingInv, CommandInv, Receiving, Transmit;
  }

  // The part of the shape that speaks of the comms object
  lemma TransmitComms(s: Setup, c: Core, k: Cycle, latest: Lifecycle, tx: TxResult)
    requires HomingInv(c)
    ensures var t := Transmit(c, k, latest, tx);
            && t.comms.open == c.comms.open && t.comms.controlActive == c.comms.controlActive
            && Receiving(s, t.comms) == Receiving(s, c.comms) && t.comms.anyFrame == c.comms.anyFrame
            && (t.comms.homing.active ==> c.comms.homing.active && t.comms.homing.outcome.InProgress?)
            && t.comms.disabled == c.comms.disabled
            && (!c.comms.homing.active ==> t.comms.homing == c.comms.homing)
            && (c.comms.homing.active ==>
                  || Follows(t.comms.disabled, t.trail, t.comms.homing)
                  || (!t.comms.homing.active && t.comms.homing.outcome.InProgress?))
  {
    hide Follows, H.Step, C.Write, Receiving, TransmitFaults, TransientAfter, QuickStops;
    var t := Transmit(c, k, latest, tx);
    WriteDoes(c.comms, k.frames, QuickStops(k, latest));
    SameReceiving(s, t.comms, c.comms);
    if c.comms.open && !QuickStops(k, latest) && c.comms.homing.active {
      TrailGrows(c.comms.disabled, c.trail, c.comms.homing, c.comms.rx);
    }
  }

  // And the part that speaks of the verdicts
  lemma TransmitVerdict(s: Setup, c: Core, tx: TxResult)
    requires c.thread.Alive? && c.thread.loop.pc.AfterReread? && LinkInv(s, c)
    requires ControlSession(c.thread.loop.pc.cycle.requested, c.thread.loop.pc.cycle.observed)
    ensures var k, latest := c.thread.loop.pc.cycle, c.thread.loop.pc.latest;
            var t := Transmit(c, k, latest, tx);
            && (t.checkCommunication ==> c.comms.open && k.receiving)
            && (!c.comms.open ==> t.txTransient == c.txTransient)
            && (t.lifecycle == c.lifecycle || t.lifecycle == Faulted)
            && (t.lifecycle == Faulted ==> !t.checkCommunication)
            && (t.lifecycle == Faulted && k.receiving ==> !t.txTransient && c.requested != Connected)
            && (!c.comms.open && k.receiving && c.requested == Running ==> t.lifecycle == Faulted)
  {
    hide C.Write, Receiving;
  }

  lemma TransmitDoes(s: Setup, c: Core, tx: TxResult)
    requires Inv(s, c) && c.thread.Alive? && c.thread.loop.pc.AfterReread?
    ensures TransmittedShape(s, c, Transmitted(c, tx))
  {
    var k, latest := c.thread.loop.pc.cycle, c.thread.loop.pc.latest;
    if ControlSession(k.requested, k.observed) {
      TransmitComms(s, c, k, latest, tx);
      TransmitVerdict(s, c, tx);
      hide C.Write, Follows, Receiving, TransmitFaults, TransientAfter, QuickStops, Inv;
    } else {
      NoTransmission(s, c, tx);
    }
  }

  // The lifecycle the drives' evidence leads to
  lemma NextLifecycleIs(c: Core, receiving: bool)
    ensures var n := NextLifecycle(c, receiving);
            && (n == Faulted <==> c.lifecycle == Faulted)
            && (n == Running && c.lifecycle != Running ==> receiving && c.requested == Running)
            && (n == Stopped && c.lifecycle != Stopped ==> receiving && c.requested == Stopped)
            && (n == Disconnected ==> c.lifecycle == Disconnected)
            && (n == Connected && c.lifecycle != Connected ==> c.lifecycle == Disconnected)
            && (c.lifecycle == Running && c.requested == Running ==> n == Running)
  {
    hide C.DrivesEnabled, C.QuickStopAttained;
  }

  ghost predicate ResolvedShape(t: Core, r: Core) {
    && r == t.(resultHoming := r.resultHoming, activeHoming := r.activeHoming, homingState := r.homingState,
               homedLink := r.homedLink, staged := r.staged, mail := r.mail)
    && (if !t.activeHoming || t.comms.homing.active then r == t
        else !r.activeHoming && r.resultHoming == t.comms.homing.outcome.Succeeded? && if r.resultHoming then
          && r.homingState == Succeeded && r.homedLink == Some(t.links) && r.mail == Some(r.staged) && r.staged.source == Sdk
          && r.staged.command.maxEffort == t.staged.command.maxEffort
        else
          r.homingState == HomingState.Failed && r.homedLink == t.homedLink && r.staged == t.staged && r.mail == t.mail)
  }

  lemma WatchHomingDoes(t: Core)
    ensures ResolvedShape(t, WatchHoming(t))
  {
    hide WithController;
    var c1 := t.(resultHoming := true, activeHoming := false, homingState := Succeeded, homedLink := Some(t.links));
    WithControllerDoes(c1, M.ActuatorPosition(Constant(0.0)), Sdk);
  }

  // The lifecycle and the pc that a cycle ends with, around the state after the homing verdict
  ghost predicate FinishedShape(c: Core, t: Core, w: Core, r: Core)
    requires c.thread.Alive? && c.thread.loop.pc.AfterReread?
  {
    && w.lifecycle == NextLifecycle(t, c.thread.loop.pc.cycle.receiving)
    && ResolvedShape(t.(lifecycle := w.lifecycle), w)
    && r == w.(thread := r.thread) && r.thread == Alive(c.thread.loop.(pc := Top))
  }

  lemma FinishShapes(s: Setup, c: Core, tx: TxResult) returns (w: Core)
    requires Inv(s, c) && c.thread.Alive? && c.thread.loop.pc.AfterReread?
    ensures TransmittedShape(s, c, Transmitted(c, tx))
    ensures FinishedShape(c, Transmitted(c, tx), w, FinishCycle(c, tx))
  {
    TransmitDoes(s, c, tx);
    hide TransmittedShape, WatchHoming, NextLifecycle, Transmitted, Inv, ResolvedShape;
    var t := WatchDrives(Transmitted(c, tx), c.thread.loop.pc.cycle.receiving);
    w := WatchHoming(t);
    WatchHomingDoes(t);
    assert w.lifecycle == t.lifecycle by { hide *; LifecycleKept(t); }
  }

  lemma LifecycleKept(t: Core)
    ensures WatchHoming(t).lifecycle == t.lifecycle
  {}

  lemma FinishKeepsThread(s: Setup, c: Core, t: Core, w: Core, r: Core)
    requires c.thread.Alive? && c.thread.loop.pc.AfterReread?
    requires TransmittedShape(s, c, t) && FinishedShape(c, t, w, r) && Inv(s, c)
    ensures ThreadInv(r) && StagingInv(r)
  {
    hide Receiving, Follows, M.GoodCaps, NextLifecycle, LinkInv, HomingInv, CommandInv;
    NextLifecycleIs(t, c.thread.loop.pc.cycle.receiving);
  }

  lemma FinishKeepsLink(s: Setup, c: Core, t: Core, w: Core, r: Core)
    requires c.thread.Alive? && c.thread.loop.pc.AfterReread?
    requires TransmittedShape(s, c, t) && FinishedShape(c, t, w, r) && Inv(s, c)
    ensures LinkInv(s, r)
  {
    hide Receiving, Follows, M.GoodCaps, NextLifecycle, ThreadInv, HomingInv, CommandInv, StagingInv;
    NextLifecycleIs(t, c.thread.loop.pc.cycle.receiving);
  }

  lemma FinishKeepsHoming(s: Setup, c: Core, t: Core, w: Core, r: Core)
    requires c.thread.Alive? && c.thread.loop.pc.AfterReread?
    requires TransmittedShape(s, c, t) && FinishedShape(c, t, w, r) && Inv(s, c)
    ensures HomingInv(r)
  {
    hide Receiving, Follows, M.GoodCaps, NextLifecycle, ThreadInv, CommandInv, StagingInv;
    NextLifecycleIs(t, c.thread.loop.pc.cycle.receiving);
  }

  lemma FinishKeepsCommand(s: Setup, c: Core, t: Core, w: Core, r: Core)
    requires c.thread.Alive? && c.thread.loop.pc.AfterReread?
    requires TransmittedShape(s, c, t) && FinishedShape(c, t, w, r) && Inv(s, c)
    ensures CommandInv(r)
  {
    hide Receiving, Follows, M.GoodCaps, M.FitsInt32, NextLifecycle, ThreadInv, HomingInv, StagingInv, LinkInv;
    NextLifecycleIs(t, c.thread.loop.pc.cycle.receiving);
  }

  lemma FinishKeepsInv(s: Setup, c: Core, tx: TxResult)
    requires Inv(s, c) && c.thread.Alive? && c.thread.loop.pc.AfterReread?
    ensures Inv(s, FinishCycle(c, tx))
  {
    hide FinishCycle, Transmitted, TransmittedShape, FinishedShape, ThreadInv, LinkInv, HomingInv, StagingInv, CommandInv;
    var w := FinishShapes(s, c, tx);
    var t, r := Transmitted(c, tx), FinishCycle(c, tx);
    FinishKeepsThread(s, c, t, w, r);
    FinishKeepsLink(s, c, t, w, r);
    FinishKeepsHoming(s, c, t, w, r);
    FinishKeepsCommand(s, c, t, w, r);
  }

  // ----------------------------------- The user -----------------------------------

  // Only where the user's thread is, and no wait whose conditions would have to be met
  lemma ReturnKeepsInv(s: Setup, c: Core, status: Status)
    requires Inv(s, c)
    requires c.requested == Disconnected ==> c.thread.NoThread? && (c.lifecycle == Disconnected || c.lifecycle == Faulted)
    requires c.requested == Connected ==> !c.thread.NoThread? && (c.lifecycle == Connected || c.lifecycle == Faulted)
    requires c.user == Joining(ReconnectNow) ==> !c.staged.source.User?
    ensures Inv(s, c.(user := Outside(status)))
  {
    hide Follows, M.GoodCaps, M.FitsInt32, Receiving;
  }

  lemma OpenedKeepsInv(s: Setup, c: Core, reconnecting: bool, cause: StopCause)
    requires Inv(s, c) && c.thread.NoThread? && c.lifecycle == Disconnected && c.requested == Disconnected
    requires !c.staged.source.User? || c.destroyed
    requires !c.destroyed
    ensures Inv(s, Opened(c).(thread := Alive(NewLoop()), user := AwaitFrame(reconnecting, cause)))
  {
    hide Follows, M.GoodCaps, M.FitsInt32, Receiving, CycleInv;
    ConnectedDoes(c.comms);
  }

  // What a call may rely on: the caller is outside, or reconnect() has just joined the old loop
  ghost predicate AtConnect(c: Core) {
    || c.user.Outside?
    || (c.user == Joining(ReconnectNow) && c.thread.NoThread? && c.lifecycle == Disconnected && !c.staged.source.User?)
  }

  // A state without a loop keeps the invariant whatever becomes of the link
  lemma UnlinkedKeepsInv(s: Setup, c: Core, r: Core)
    requires Inv(s, c) && !c.thread.Alive?
    requires r == c.(comms := r.comms, checkFirstFrame := r.checkFirstFrame, checkCommunication := r.checkCommunication)
    requires r.comms.homing == c.comms.homing && r.comms.disabled == c.comms.disabled
    ensures Inv(s, r)
  {
    hide Follows, M.GoodCaps, M.FitsInt32, Receiving, CycleInv;
  }

  lemma RefusalKeepsInv(s: Setup, c: Core, reconnecting: bool, cause: StopCause, code: ErrorCode)
    requires Inv(s, c) && c.thread.NoThread? && (c.lifecycle == Disconnected || c.lifecycle == Faulted) && c.requested == Disconnected
    requires !c.staged.source.User? || c.user.Outside?
    ensures Inv(s, ConnectRefused(c, reconnecting, cause, code))
  {
    hide Follows, M.GoodCaps, M.FitsInt32, Receiving, CycleInv;
  }

  lemma ThreadlessOpenKeepsInv(s: Setup, c: Core, comms: C.Comms)
    requires Inv(s, c) && c.thread.NoThread? && c.lifecycle == Disconnected && c.requested == Disconnected
    requires comms.homing == H.Cancelled(c.comms.homing)
    ensures Inv(s, Opened(c).(requested := Disconnected, lifecycle := Disconnected, comms := comms))
  {
    hide Follows, M.GoodCaps, M.FitsInt32, Receiving, CycleInv;
  }

  lemma ConnectProceeds(c: Core)
    requires ThreadInv(c) && AtConnect(c) && Checked(c, Action.Connect, true).OK?
    requires !(c.requested == Connected && c.lifecycle == Connected)
    ensures c.requested == Disconnected && c.lifecycle == Disconnected && c.thread.NoThread? && !c.destroyed
  {
    AllowedMeans(c, Action.Connect, true);
  }

  // A loop is only ever started where no thread of the last one is left
  lemma OneLoopAtATime(s: Setup, c: Core, link: LinkInput, reconnecting: bool, cause: StopCause)
    requires Inv(s, c) && AtConnect(c)
    ensures HandCore.Connect(c, link, reconnecting, cause).thread != c.thread ==> c.thread.NoThread?
  {
    var allowed := Checked(c, Action.Connect, true);
    if allowed.OK? && !(c.requested == Connected && c.lifecycle == Connected) {
      ConnectProceeds(c);
    } else if !allowed.OK? {
      RefusalKeepsThread(c, reconnecting, cause, allowed.code);
    }
  }

  lemma RefusalKeepsThread(c: Core, reconnecting: bool, cause: StopCause, code: ErrorCode)
    ensures ConnectRefused(c, reconnecting, cause, code).thread == c.thread
  {}

  lemma ConnectKeepsInv(s: Setup, c: Core, link: LinkInput, reconnecting: bool, cause: StopCause)
    requires Inv(s, c) && AtConnect(c) && (c.user.Outside? ==> !reconnecting)
    ensures Inv(s, HandCore.Connect(c, link, reconnecting, cause))
  {
    var allowed := Checked(c, Action.Connect, true);
    if !allowed.OK? {
      if c.user.Outside? {
        ReturnKeepsInv(s, c, allowed);
      } else {
        RefusalKeepsInv(s, c, reconnecting, cause, allowed.code);
      }
    } else if c.requested == Connected && c.lifecycle == Connected {
      ReturnKeepsInv(s, c, OK);
    } else {
      ConnectProceeds(c);
      hide Inv, Opened, ConnectRefused;
      NotUsersWhileDisconnected(s, c);
      if !link.opens {
        var r := c.(comms := c.comms.(open := false));
        UnlinkedKeepsInv(s, c, r);
        RefusalKeepsInv(s, r, reconnecting, cause, InterfaceUnavailable);
      } else if link.threadStarts {
        OpenedKeepsInv(s, c, reconnecting, cause);
      } else {
        var c1 := Opened(c);
        var comms := C.Disconnected(c1.comms);
        ThreadlessOpenKeepsInv(s, c, comms) by { OpenedHoming(c); }
        RefusalKeepsInv(s, c1.(requested := Disconnected, lifecycle := Disconnected, comms := comms),
                        reconnecting, cause, ControlLoopFault) by { OpenedStaged(c); }
      }
    }
  }

  lemma OpenedHoming(c: Core)
    ensures C.Disconnected(Opened(c).comms).homing == H.Cancelled(c.comms.homing)
  {}

  lemma OpenedStaged(c: Core)
    ensures Opened(c).staged == c.staged && Opened(c).thread == c.thread && Opened(c).user == c.user
  {}

  lemma NotUsersWhileDisconnected(s: Setup, c: Core)
    requires Inv(s, c) && AtConnect(c) && c.requested == Disconnected && !c.destroyed
    ensures !c.staged.source.User?
  {}

  lemma ResetKeepsInv(s: Setup, c: Core)
    requires Inv(s, c)
    ensures Inv(s, ResetToIdle(c))
  {
    hide Follows, M.GoodCaps, M.FitsInt32, Receiving;
  }

  lemma LeaveKeepsInv(s: Setup, c: Core, next: AfterJoin)
    requires Inv(s, c) && (c.staged.source.User? ==> c.destroyed || next == ReconnectNow)
    ensures Inv(s, LeaveLoop(c, next))
  {
    hide Follows, M.GoodCaps, M.FitsInt32, Receiving;
  }

  lemma StoppedKeepsInv(s: Setup, c: Core, user: UserPc)
    requires Inv(s, c) && (c.staged.source.User? ==> c.destroyed)
    requires user.AwaitStop? || user.Outside?
    ensures Inv(s, c.(requested := Stopped, user := user))
  {
    hide Follows, M.GoodCaps, M.FitsInt32, Receiving;
  }

  lemma DestroyedKeepsInv(s: Setup, c: Core)
    requires Inv(s, c)
    ensures Inv(s, c.(destroyed := true))
  {
    hide Follows, M.GoodCaps, M.FitsInt32, Receiving;
  }

  lemma PollFirstFrameKeepsInv(s: Setup, c: Core, timeout: bool)
    requires Inv(s, c) && c.user.AwaitFrame?
    ensures Inv(s, PollFirstFrame(c, timeout))
  {
    if c.checkFirstFrame {
      FirstFrameKeepsInv(s, c);
    } else if timeout {
      LeaveKeepsInv(s, c, ConnectFailed(c.user.reconnecting, c.user.cause));
    }
  }

  // connect() may write over a fault that has just been found
  lemma FirstFrameKeepsInv(s: Setup, c: Core)
    requires Inv(s, c) && c.user.AwaitFrame?
    ensures Inv(s, c.(lifecycle := Connected, user := Outside(OK)))
  {
    hide Follows, M.GoodCaps, M.FitsInt32, Receiving;
  }

  lemma OutsideKeepsInv(s: Setup, c: Core, status: Status)
    requires Inv(s, c) && c.user.Outside?
    ensures Inv(s, c.(user := Outside(status)))
  {
    ReturnKeepsInv(s, c, status);
  }

  // Leaving a wait of a control session
  lemma WaitEndsKeepsInv(s: Setup, c: Core, status: Status)
    requires Inv(s, c) && (c.user.AwaitStop? || c.user.AwaitEnable? || c.user.AwaitHoming?)
    ensures Inv(s, c.(user := Outside(status)))
  {
    ReturnKeepsInv(s, c, status);
  }

  lemma ResetLeavesSdk(c: Core)
    ensures var r := ResetToIdle(c);
            && r == c.(staged := r.staged, mail := r.mail)
            && r.staged.source == Sdk && r.staged.command.controller.Idle?
  {}

  lemma DisconnectKeepsInv(s: Setup, c: Core)
    requires Inv(s, c) && c.user.Outside?
    ensures Inv(s, HandCore.Disconnect(c))
  {
    var allowed := Checked(c, Action.Disconnect, true);
    if !allowed.OK? || c.lifecycle == Disconnected {
      OutsideKeepsInv(s, c, allowed);
    } else {
      hide Inv, ResetToIdle;
      ResetKeepsInv(s, c);
      ResetLeavesSdk(c);
      if ControlRequested(c) && c.lifecycle != Stopped {
        StoppedKeepsInv(s, ResetToIdle(c), AwaitStop(ToDisconnect));
      } else {
        LeaveKeepsInv(s, ResetToIdle(c), DisconnectNow);
      }
    }
  }

  lemma CloseKeepsInv(s: Setup, c: Core)
    requires Inv(s, c) && c.user.Outside?
    ensures Inv(s, Close(c))
  {
    hide Inv;
    if c.destroyed {
      OutsideKeepsInv(s, c, OK);
    } else {
      DestroyedKeepsInv(s, c);
      var c1 := c.(destroyed := true);
      if ControlRequested(c) && c.lifecycle != Stopped {
        StoppedKeepsInv(s, c1, AwaitStop(ToClose));
      } else {
        LeaveKeepsInv(s, c1, CloseNow);
      }
    }
  }

  lemma UsersInWaits(s: Setup, c: Core)
    requires Inv(s, c)
    ensures c.user.AwaitStop? && c.staged.source.User? ==> c.destroyed
    ensures c.user.Joining? ==> c.requested == Disconnected
    ensures c.user.Joining? && c.staged.source.User? ==> c.destroyed || c.user == Joining(ReconnectNow)
  {}

  lemma PollStopKeepsInv(s: Setup, c: Core, timeout: bool)
    requires Inv(s, c) && c.user.AwaitStop?
    ensures Inv(s, PollStop(c, timeout))
  {
    hide Inv, StopRefusal, LeaveLoop;
    UsersInWaits(s, c);
    if c.user.goal.ToClose? {
      LeaveKeepsInv(s, c, CloseNow);
    } else if c.lifecycle == Stopped {
      WaitEndsKeepsInv(s, c, OK);
      LeaveKeepsInv(s, c, DisconnectNow);
    } else {
      WaitEndsKeepsInv(s, c, StopRefusal(c, if c.user.goal.ToStop? then Action.Stop else Action.Disconnect));
    }
  }

  // The loop's thread is gone
  lemma ThreadGoneKeepsInv(s: Setup, c: Core)
    requires Inv(s, c) && c.user.Joining? && !c.thread.Alive?
    ensures Inv(s, Unthreaded(c))
    ensures AfterThread(Unthreaded(c)) && Unthreaded(c).user == c.user
    ensures c.staged.source.User? ==> c.destroyed || c.user == Joining(ReconnectNow)
  {
    hide Follows, M.GoodCaps, M.FitsInt32, Receiving;
  }

  ghost predicate AfterThread(c: Core) {
    c.user.Joining? && c.thread.NoThread? && c.lifecycle == Disconnected && c.requested == Disconnected
  }

  lemma FaultResetKeepsInv(s: Setup, c: Core)
    requires Inv(s, c) && !c.thread.Alive?
    ensures Inv(s, ResetFaultState(c))
  {
    hide Follows, M.GoodCaps, M.FitsInt32, Receiving;
  }

  lemma ConnectionFailedKeepsInv(s: Setup, c: Core, reconnecting: bool, cause: StopCause)
    requires Inv(s, c) && AfterThread(c) && c.user == Joining(ConnectFailed(reconnecting, cause))
    ensures Inv(s, ConnectionFailed(c, reconnecting, cause))
  {
    hide Follows, M.GoodCaps, M.FitsInt32, Receiving;
  }

  lemma DisconnectionKeepsInv(s: Setup, c: Core)
    requires Inv(s, c) && AfterThread(c) && c.user == Joining(DisconnectNow)
    ensures Inv(s, DisconnectionDone(c))
  {
    hide Follows, M.GoodCaps, M.FitsInt32, Receiving;
  }

  lemma ClosedKeepsInv(s: Setup, c: Core)
    requires Inv(s, c) && AfterThread(c)
    ensures Inv(s, Closed(c)) && AfterThread(Closed(c)) && Closed(c).user == c.user
    ensures c.user == Joining(CloseNow) ==> Inv(s, Closed(c).(user := Outside(OK)))
  {
    hide Follows, M.GoodCaps, M.FitsInt32, Receiving;
  }

  lemma ReconnectionKeepsInv(s: Setup, c: Core, link: LinkInput)
    requires Inv(s, c) && AfterThread(c) && c.user == Joining(ReconnectNow)
    ensures Inv(s, Reconnection(c, link))
  {
    hide Inv, HandCore.Connect, ResetToIdle, Closed;
    ClosedKeepsInv(s, c);
    var r := ResetFaultState(Closed(c));
    FaultResetKeepsInv(s, Closed(c));
    ResetKeepsInv(s, r);
    ResetLeavesSdk(r);
    ConnectKeepsInv(s, ResetToIdle(r), link, true, c.stopCause);
  }

  lemma JoinedKeepsInv(s: Setup, c: Core, link: LinkInput)
    requires Inv(s, c) && c.user.Joining? && !c.thread.Alive?
    ensures Inv(s, Joined(c, link))
  {
    hide Inv, Unthreaded, ConnectionFailed, DisconnectionDone, Reconnection, Closed, AfterThread;
    ThreadGoneKeepsInv(s, c);
    var u := Unthreaded(c);
    match c.user.next
    case ConnectFailed(reconnecting, cause) => ConnectionFailedKeepsInv(s, u, reconnecting, cause);
    case DisconnectNow => DisconnectionKeepsInv(s, u);
    case CloseNow => ClosedKeepsInv(s, u);
    case ReconnectNow => ReconnectionKeepsInv(s, u, link);
  }

  // --------------------------------- Operation ----------------------------------

  lemma RunningKeepsInv(s: Setup, c: Core)
    requires Inv(s, c) && c.user.Outside? && !c.destroyed && c.lifecycle != Faulted
    requires c.checkCommunication && !ControlConfirmed(c) && c.requested != Disconnected
    ensures Inv(s, RequestRunning(c))
  {
    hide Follows, M.GoodCaps, M.FitsInt32, Receiving;
  }

  lemma RunningDoes(c: Core)
    ensures var r := RequestRunning(c); r.user == c.user && r.thread == c.thread && r.comms == c.comms && r.requested == Running
  {}

  // The three ways through request_control
  lemma RequestControlIs(c: Core)
    ensures ControlConfirmed(c) || !c.checkCommunication ==> RequestControl(c) == c
    ensures !ControlConfirmed(c) && c.checkCommunication && c.requested == Stopped ==>
              RequestControl(c) == RequestRunning(ResetToIdle(c).(requestHold := true))
    ensures !ControlConfirmed(c) && c.checkCommunication && c.requested != Stopped ==> RequestControl(c) == RequestRunning(c)
    ensures ControlStatus(c).OK? <==> ControlConfirmed(c) || c.checkCommunication
  {
    hide RequestRunning, ResetToIdle;
  }

  ghost predicate Controlled(s: Setup, c: Core, r: Core) {
    Inv(s, r) && r.user == c.user && r.requested == Running && (r.thread.Alive? ==> r.comms.open)
  }

  lemma ResumedIsControlled(s: Setup, c: Core)
    requires Inv(s, c) && c.user.Outside? && !c.destroyed && c.lifecycle != Faulted && c.requested == Stopped && c.checkCommunication
    ensures Controlled(s, c, RequestRunning(ResetToIdle(c).(requestHold := true)))
  {
    hide Inv, ResetToIdle, RequestRunning;
    var h := ResetToIdle(c).(requestHold := true);
    OpenInControl(s, c);
    ResetKeepsInv(s, c);
    ResetLeavesSdk(c);
    HoldKeepsInv(s, ResetToIdle(c));
    RunningKeepsInv(s, h);
    RunningDoes(h);
  }

  lemma StartedIsControlled(s: Setup, c: Core)
    requires Inv(s, c) && c.user.Outside? && !c.destroyed && c.lifecycle != Faulted && c.requested != Disconnected
    requires c.checkCommunication && !ControlConfirmed(c)
    ensures Controlled(s, c, RequestRunning(c))
  {
    hide Inv, RequestRunning;
    OpenInControl(s, c);
    RunningKeepsInv(s, c);
    RunningDoes(c);
  }

  lemma RequestControlKeepsInv(s: Setup, c: Core)
    requires Inv(s, c) && c.user.Outside? && !c.destroyed && c.lifecycle != Faulted && c.requested != Disconnected
    ensures if ControlStatus(c).OK? then Controlled(s, c, RequestControl(c)) else RequestControl(c) == c
  {
    hide Inv, ResetToIdle, RequestRunning, RequestControl, ControlStatus;
    RequestControlIs(c);
    OpenInControl(s, c);
    if !ControlConfirmed(c) && c.checkCommunication {
      hide Controlled;
      if c.requested == Stopped {
        ResumedIsControlled(s, c);
      } else {
        StartedIsControlled(s, c);
      }
    }
  }

  lemma HoldKeepsInv(s: Setup, c: Core)
    requires Inv(s, c)
    ensures Inv(s, c.(requestHold := true))
  {
    hide Follows, M.GoodCaps, M.FitsInt32, Receiving;
  }

  lemma OpenInControl(s: Setup, c: Core)
    requires Inv(s, c)
    ensures c.thread.Alive? && (c.checkCommunication || c.lifecycle == Running) ==> c.comms.open
  {}

  lemma WaitingKeepsInv(s: Setup, c: Core, user: UserPc)
    requires Inv(s, c) && c.user.Outside? && c.requested == Running && (user.AwaitEnable? || user.AwaitHoming?)
    ensures Inv(s, c.(user := user))
  {
    hide Follows, M.GoodCaps, M.FitsInt32, Receiving;
  }

  lemma EnableControlKeepsInv(s: Setup, c: Core)
    requires Inv(s, c) && c.user.Outside? && !c.destroyed && c.lifecycle != Faulted && c.requested != Disconnected
    ensures Inv(s, EnableControl(c))
  {
    hide Inv, RequestControl, ControlStatus;
    RequestControlKeepsInv(s, c);
    var r, status := RequestControl(c), ControlStatus(c);
    if !status.OK? {
      OutsideKeepsInv(s, r, status);
    } else {
      WaitingKeepsInv(s, r, AwaitEnable);
    }
  }

  lemma PollEnableKeepsInv(s: Setup, c: Core, timeout: bool)
    requires Inv(s, c) && c.user.AwaitEnable?
    ensures Inv(s, PollEnable(c, timeout))
  {
    hide Unconfirmed, ResetToIdle;
    if c.lifecycle == Running {
      WaitEndsKeepsInv(s, c, OK);
      assert PollEnable(c, timeout) == c.(user := Outside(OK));
    } else if c.lifecycle == Faulted || timeout {
      hide Inv;
      ResetKeepsInv(s, c);
      ResetLeavesSdk(c);
      var r := ResetToIdle(c);
      StoppedKeepsInv(s, r, Outside(Refused(Unconfirmed(c))));
    }
  }

  lemma HomingRequestKeepsInv(s: Setup, c: Core)
    requires Inv(s, c) && c.user.Outside? && c.requested == Running && (c.thread.Alive? ==> c.comms.open)
    ensures Inv(s, c.(resultHoming := false, requestHoming := true, user := Outside(OK)))
  {
    hide Follows, M.GoodCaps, M.FitsInt32, Receiving;
  }

  lemma InProgressKeepsInv(s: Setup, c: Core)
    requires Inv(s, c)
    ensures Inv(s, c.(homingState := HomingState.InProgress))
  {
    hide Follows, M.GoodCaps, M.FitsInt32, Receiving;
  }

  lemma PreparationKeepsInv(s: Setup, c: Core)
    requires Inv(s, c)
    ensures var p := PreparedForHoming(c);
            && Inv(s, p) && p.user == c.user && p.destroyed == c.destroyed && p.lifecycle == c.lifecycle && p.requested == c.requested
  {
    hide Inv, ResetToIdle;
    InProgressKeepsInv(s, c);
    ResetKeepsInv(s, c.(homingState := HomingState.InProgress));
    ResetLeavesSdk(c.(homingState := HomingState.InProgress));
  }

  lemma HomingRequestedKeepsInv(s: Setup, c: Core, status: Status)
    requires Inv(s, c) && c.user.Outside?
    requires status.OK? ==> c.requested == Running && (c.thread.Alive? ==> c.comms.open)
    ensures var r := HomingRequested(c, status);
            Inv(s, r) && r.user == Outside(status) && r.requested == c.requested
  {
    hide Inv;
    if !status.OK? {
      OutsideKeepsInv(s, c, status);
    } else {
      HomingRequestKeepsInv(s, c);
    }
  }

  lemma AllowedHomingKeepsInv(s: Setup, c: Core)
    requires Inv(s, c) && c.user.Outside? && !c.destroyed && c.lifecycle != Faulted && c.requested != Disconnected
    ensures var p := PreparedForHoming(c);
            StartedHoming(s, HomingRequested(RequestControl(p), ControlStatus(p)))
  {
    hide Inv, RequestControl, ControlStatus, PreparedForHoming, HomingRequested;
    var p := PreparedForHoming(c);
    PreparationKeepsInv(s, c);
    RequestControlKeepsInv(s, p);
    HomingRequestedKeepsInv(s, RequestControl(p), ControlStatus(p));
  }

  ghost predicate StartedHoming(s: Setup, r: Core) {
    Inv(s, r) && r.user.Outside? && (r.user.last.OK? ==> r.requested == Running)
  }

  lemma HomingAllowed(c: Core)
    requires ThreadInv(c) && Checked(c, Action.Home, true).OK?
    ensures !c.destroyed && c.lifecycle != Faulted && c.requested != Disconnected
  {
    AllowedMeans(c, Action.Home, true);
  }

  lemma StartHomingIs(c: Core)
    ensures var allowed, p := Checked(c, Action.Home, true), PreparedForHoming(c);
            StartHoming(c) == if allowed.OK? then HomingRequested(RequestControl(p), ControlStatus(p)) else c.(user := Outside(allowed))
  {
    hide RequestControl, ControlStatus, PreparedForHoming, HomingRequested, Checked;
  }

  lemma StartHomingKeepsInv(s: Setup, c: Core)
    requires Inv(s, c) && c.user.Outside?
    ensures StartedHoming(s, StartHoming(c))
  {
    assert ThreadInv(c);
    hide Inv, ThreadInv, StartHoming, RequestControl, ControlStatus, PreparedForHoming, HomingRequested, Checked;
    StartHomingIs(c);
    var allowed := Checked(c, Action.Home, true);
    if !allowed.OK? {
      OutsideKeepsInv(s, c, allowed);
    } else {
      hide StartedHoming;
      HomingAllowed(c);
      AllowedHomingKeepsInv(s, c);
    }
  }

  lemma HomeKeepsInv(s: Setup, c: Core)
    requires Inv(s, c) && c.user.Outside?
    ensures Inv(s, HandCore.Home(c))
  {
    hide Inv, StartHoming;
    StartHomingKeepsInv(s, c);
    var r := StartHoming(c);
    if r.user == Outside(OK) {
      WaitingKeepsInv(s, r, AwaitHoming);
    }
  }

  lemma PollHomingKeepsInv(s: Setup, c: Core)
    requires Inv(s, c) && c.user.AwaitHoming?
    ensures Inv(s, PollHoming(c))
  {
    hide Inv, HomingResult;
    WaitEndsKeepsInv(s, c, HomingResult(c));
  }

  lemma RunKeepsInv(s: Setup, c: Core)
    requires Inv(s, c) && c.user.Outside?
    ensures Inv(s, HandCore.Run(s, c))
  {
    assert c.requested != Faulted;
    hide Inv, HandCore.Home, EnableControl, Checked;
    var allowed := Checked(c, Action.Run, true);
    if !allowed.OK? {
      OutsideKeepsInv(s, c, allowed);
    } else {
      AllowedMeans(c, Action.Run, true);
      HomeKeepsInv(s, c);
      OutsideKeepsInv(s, c, OK);
      EnableControlKeepsInv(s, c);
    }
  }

  lemma StopKeepsInv(s: Setup, c: Core)
    requires Inv(s, c) && c.user.Outside?
    ensures Inv(s, HandCore.Stop(c))
  {
    hide Inv, Checked, ResetToIdle;
    var allowed := Checked(c, Action.Stop, true);
    if !allowed.OK? || (c.requested == Stopped && c.lifecycle == Stopped) {
      OutsideKeepsInv(s, c, allowed);
    } else {
      ResetKeepsInv(s, c);
      ResetLeavesSdk(c);
      StoppedKeepsInv(s, ResetToIdle(c), AwaitStop(ToStop));
    }
  }

  lemma ReconnectKeepsInv(s: Setup, c: Core)
    requires Inv(s, c) && c.user.Outside?
    ensures Inv(s, HandCore.Reconnect(c))
  {
    hide Inv, Checked;
    var allowed := Checked(c, Action.Reconnect, true);
    OutsideKeepsInv(s, c, allowed);
    LeaveKeepsInv(s, c, ReconnectNow);
  }

  // ---------------------------------- Command -----------------------------------

  lemma AcceptedKeepsInv(s: Setup, c: Core, controller: M.Controller)
    requires Inv(s, c) && c.user.Outside? && c.requested == Running && c.lifecycle == Running && !c.destroyed
    requires controller.Idle? || c.homingState == Succeeded
    requires controller.ActuatorPosition? ==> M.FitsInt32(controller.counts)
    ensures Inv(s, WithController(c, controller, User(c.runs, c.links)).(user := Outside(OK)))
  {
    hide Follows, M.GoodCaps, M.FitsInt32, Receiving;
  }

  lemma SetCommandKeepsInv(s: Setup, c: Core, t: Target)
    requires Inv(s, c) && c.user.Outside?
    ensures Inv(s, HandCore.SetCommand(s, c, t))
  {
    assert c.requested != Faulted;
    hide Inv, Checked, WithController, M.FitsInt32;
    var allowed := Checked(c, Action.SetCommand, !t.IdleTarget?);
    OutsideKeepsInv(s, c, allowed);
    OutsideKeepsInv(s, c, OK);
    if allowed.OK? && ValidTarget(t) {
      AllowedMeans(c, Action.SetCommand, !t.IdleTarget?);
      AcceptedKeepsInv(s, c, ControllerOf(s, t));
    }
  }

  lemma MaxEffortKeepsInv(s: Setup, c: Core, staged: Staged)
    requires Inv(s, c) && c.user.Outside?
    requires staged == c.staged.(command := c.staged.command.(maxEffort := staged.command.maxEffort))
    requires M.GoodCaps(staged.command.maxEffort)
    ensures Inv(s, c.(staged := staged, mail := Some(staged), user := Outside(OK)))
  {
    hide Follows, M.GoodCaps, M.FitsInt32, Receiving;
  }

  lemma SetMaxEffortKeepsInv(s: Setup, c: Core, limit: M.Raw)
    requires Inv(s, c) && c.user.Outside?
    ensures Inv(s, SetMaxEffort(c, limit))
  {
    hide Inv, M.GoodCaps;
    if c.destroyed {
      OutsideKeepsInv(s, c, Refused(WrongCallOrder));
    } else if !M.Finite(limit) {
      OutsideKeepsInv(s, c, Refused(InvalidArgument));
    } else {
      MaxEffortKeepsInv(s, c, c.staged.(command := c.staged.command.(maxEffort := M.BoundedEffort(M.Values(limit)))));
    }
  }

  lemma ConfigKeepsInv(s: Setup, c: Core, config: M.Config)
    requires Inv(s, c) && c.user.Outside?
    ensures Inv(s, c.(stagedConfig := config, mailConfig := Some(config), user := Outside(OK)))
  {
    hide Follows, M.GoodCaps, M.FitsInt32, Receiving;
  }

  lemma SetControllerConfigKeepsInv(s: Setup, c: Core, config: ConfigInput)
    requires Inv(s, c) && c.user.Outside?
    ensures Inv(s, SetControllerConfig(c, config))
  {
    hide Inv, ConfigOf, ValidConfig;
    if c.destroyed {
      OutsideKeepsInv(s, c, Refused(WrongCallOrder));
    } else if !ValidConfig(config) {
      OutsideKeepsInv(s, c, Refused(InvalidArgument));
    } else {
      ConfigKeepsInv(s, c, ConfigOf(config));
    }
  }

  // ------------------------------------ Steps -------------------------------------

  lemma CallKeepsInv(s: Setup, c: Core, call: Call)
    requires Inv(s, c) && c.user.Outside?
    ensures Inv(s, ApplyCall(s, c, call))
  {
    hide Inv, HandCore.Connect, HandCore.Disconnect, HandCore.Reconnect, Close, HandCore.Run, HandCore.Stop, HandCore.Home,
         StartHoming, HandCore.SetCommand, SetMaxEffort, SetControllerConfig;
    match call
    case CallConnect(link) => ConnectKeepsInv(s, c, link, false, NotRecorded);
    case CallDisconnect => DisconnectKeepsInv(s, c);
    case CallReconnect => ReconnectKeepsInv(s, c);
    case CallClose => CloseKeepsInv(s, c);
    case CallRun => RunKeepsInv(s, c);
    case CallStop => StopKeepsInv(s, c);
    case CallHome => HomeKeepsInv(s, c);
    case CallStartHoming => StartHomingKeepsInv(s, c);
    case CallSetCommand(target) => SetCommandKeepsInv(s, c, target);
    case CallSetMaxEffort(limit) => SetMaxEffortKeepsInv(s, c, limit);
    case CallSetControllerConfig(config) => SetControllerConfigKeepsInv(s, c, config);
  }

  lemma PollKeepsInv(s: Setup, c: Core, timeout: bool, link: LinkInput)
    requires Inv(s, c) && Enabled(c, UserPoll(timeout, link))
    ensures Inv(s, ApplyPoll(c, timeout, link))
  {
    hide Inv, PollFirstFrame, PollStop, PollEnable, PollHoming, Joined;
    match c.user
    case AwaitFrame(_, _) => PollFirstFrameKeepsInv(s, c, timeout);
    case AwaitStop(_) => PollStopKeepsInv(s, c, timeout);
    case AwaitEnable => PollEnableKeepsInv(s, c, timeout);
    case AwaitHoming => PollHomingKeepsInv(s, c);
    case Joining(_) => JoinedKeepsInv(s, c, link);
  }

  // Every step of either thread keeps the invariant
  lemma StepKeepsInv(s: Setup, c: Core, step: Step)
    requires Inv(s, c) && Enabled(c, step)
    ensures Inv(s, Apply(s, c, step))
  {
    hide Inv, RtTop, RtReread, FinishCycle, Threw, ApplyCall, ApplyPoll;
    match step
    case LoopTop(input) => RtTopKeepsInv(s, c, input);
    case LoopReread => RereadKeepsInv(s, c);
    case LoopFinish(tx) => FinishKeepsInv(s, c, tx);
    case LoopThrow => ThrewKeepsInv(s, c);
    case UserCall(call) => CallKeepsInv(s, c, call);
    case UserPoll(timeout, link) => PollKeepsInv(s, c, timeout, link);
  }

  lemma ConstructedInv(s: Setup, side: P.HandSide, disabled: Mask, memory: M.Memory, homing: H.Homing)
    requires !homing.active
    ensures Inv(s, Constructed(side, disabled, memory, homing))
  {}

  // ------------------------------------- Runs -------------------------------------

  // A run from a newly constructed hand: step k leads from cores[k] to cores[k + 1]
  ghost predicate IsRun(s: Setup, cores: seq<Core>, steps: seq<Step>) {
    && |cores| == |steps| + 1
    && (exists side, disabled, memory, homing: H.Homing ::
          !homing.active && cores[0] == Constructed(side, disabled, memory, homing))
    && forall k :: 0 <= k < |steps| ==> Enabled(cores[k], steps[k]) && cores[k + 1] == Apply(s, cores[k], steps[k])
  }

  lemma {:induction false} AlwaysInv(s: Setup, cores: seq<Core>, steps: seq<Step>, k: nat)
    requires IsRun(s, cores, steps) && k <= |steps|
    ensures Inv(s, cores[k])
  {
    hide Inv, Apply, Constructed;
    if k == 0 {
      var side, disabled, memory, homing: H.Homing :|
        !homing.active && cores[0] == Constructed(side, disabled, memory, homing);
      ConstructedInv(s, side, disabled, memory, homing);
    } else {
      AlwaysInv(s, cores, steps, k - 1);
      StepKeepsInv(s, cores[k - 1], steps[k - 1]);
    }
  }
}
