/** The gate of every public call: cpp/src/hand_core/lifecycle/action_check.cpp. */
module ActionCheck {
  import opened Types

  datatype Lifecycle = Disconnected | Connected | Running | Stopped | Faulted

  datatype Action =
    | Connect | Disconnect | Run | Stop | Home | Reconnect | SetCommand | SetTactileBias | ResetTactileBias

  datatype ErrorCode =
    | WrongCallOrder | InvalidArgument | InterfaceUnavailable | CommunicationLost | HardwareFault | ControlLoopFault

  // What put the hand into Faulted
  datatype StopCause = NotRecorded | ReceiveSilence | TransmitFailure | ControlLoopFailure

  datatype Status = OK | Refused(code: ErrorCode)

  // The rule table's first column; a bit set of lifecycles
  function AllowedStates(action: Action): set<Lifecycle> {
    match action
    case Connect => {Disconnected, Connected}
    case Disconnect => {Disconnected, Connected, Running, Stopped}
    case Run => {Connected, Running, Stopped}
    case Stop => {Running, Stopped}
    case Home => {Connected, Running, Stopped}
    case Reconnect => {Faulted}
    case SetCommand => {Running}
    case SetTactileBias => {Connected, Running, Stopped}
    case ResetTactileBias => {Connected, Running, Stopped}
  }

  function FaultCode(cause: StopCause): ErrorCode {
    if cause.ReceiveSilence? || cause.TransmitFailure? then CommunicationLost else ControlLoopFault
  }

  function CheckActionAllowed(action: Action, requested: Lifecycle, observed: Lifecycle, destroyed: bool,
                              cause: StopCause, homed: bool): Status
  {
    if destroyed then Refused(WrongCallOrder)
    else if observed == Faulted then
      (if Faulted in AllowedStates(action) then OK else Refused(FaultCode(cause)))
    else if requested !in AllowedStates(action) then Refused(WrongCallOrder)
    else if action == SetCommand && observed != Running then Refused(WrongCallOrder)
    else if action == SetCommand && !homed then Refused(WrongCallOrder)
    else OK
  }

  // A fault leaves reconnect() as the only way on, and outside a fault reconnect() is refused
  lemma FaultNeedsReconnect(action: Action, requested: Lifecycle, observed: Lifecycle, cause: StopCause, homed: bool)
    requires requested != Faulted
    ensures observed == Faulted ==> (CheckActionAllowed(action, requested, observed, false, cause, homed).OK? <==> action == Reconnect)
    ensures observed != Faulted ==> CheckActionAllowed(Reconnect, requested, observed, false, cause, homed) == Refused(WrongCallOrder)
  {}

  // A command passes exactly with a requested and a confirmed Running, and homed
  lemma CommandNeedsConfirmedRunning(requested: Lifecycle, observed: Lifecycle, destroyed: bool, cause: StopCause, homed: bool)
    ensures CheckActionAllowed(SetCommand, requested, observed, destroyed, cause, homed).OK?
         <==> !destroyed && requested == Running && observed == Running && homed
  {}

  // What each requested state admits while no fault is observed: everything that needs a loop is refused
  // without one, and what needs the drives is refused before they are asked for
  lemma StatesAdmit(action: Action, requested: Lifecycle, observed: Lifecycle, cause: StopCause, homed: bool)
    requires observed != Faulted && action != SetCommand
    ensures CheckActionAllowed(action, requested, observed, false, cause, homed) ==
      if (match requested
          case Disconnected => action == Connect || action == Disconnect
          case Connected => action != Stop && action != Reconnect
          case Running => action != Connect && action != Reconnect
          case Stopped => action != Connect && action != Reconnect
          case Faulted => action == Reconnect)
      then OK else Refused(WrongCallOrder)
  {}

  // A fault is named to everybody who is refused for it, and a destroyed hand refuses everything
  lemma RefusalsNameTheFault(action: Action, requested: Lifecycle, cause: StopCause, homed: bool)
    ensures action != Reconnect ==>
      CheckActionAllowed(action, requested, Faulted, false, cause, homed) ==
        Refused(if cause == ReceiveSilence || cause == TransmitFailure then CommunicationLost else ControlLoopFault)
    ensures forall observed :: CheckActionAllowed(action, requested, observed, true, cause, homed) == Refused(WrongCallOrder)
  {}
}
