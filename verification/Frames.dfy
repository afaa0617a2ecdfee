/** The decoded and the outgoing signals of cpp/src/hand_core/comms/canfd/protocol.hpp, with the
    actuator arrays in SDK index order. */
module Frames {
  import opened Types

  const FINGER_COUNT: nat := 5
  const TAXELS_PER_FINGER: nat := 17
  const PALM1_UPPER_COUNT: nat := 20
  const PALM1_LOWER_COUNT: nat := 20
  const PALM2_COUNT: nat := 18

  // mode_of_operation values
  const HOMING_MODE: int := 6
  const CSP: int := 8
  const CST: int := 10

  datatype StateSignals = StateSignals(
    position: seq<int>, velocity: seq<int>, current: seq<int>,
    status: seq<bv16>, errorCode: seq<bv16>,
    finger: seq<seq<nat>>, palmUpper: seq<nat>, palmLower: seq<nat>, palm2: seq<nat>)

  type StateFrames = f: StateSignals |
      && |f.position| == |f.velocity| == |f.current| == |f.status| == |f.errorCode| == ACTUATOR_COUNT
      && |f.finger| == FINGER_COUNT
    witness StateSignals(Zeros(), Zeros(), Zeros(), seq(ACTUATOR_COUNT, _ => 0), seq(ACTUATOR_COUNT, _ => 0),
                         seq(FINGER_COUNT, _ => []), [], [], [])

  datatype CommandSignals = CommandSignals(
    targetPosition: seq<int>, targetEffort: seq<int>, maxEffort: seq<int>,
    controlWord: seq<bv16>, mode: seq<int>, homingMethod: seq<int>)

  type CommandFrames = f: CommandSignals |
      && |f.targetPosition| == |f.targetEffort| == |f.maxEffort| == ACTUATOR_COUNT
      && |f.controlWord| == |f.mode| == |f.homingMethod| == ACTUATOR_COUNT
    witness CommandSignals(Zeros(), Zeros(), Zeros(), seq(ACTUATOR_COUNT, _ => 0), Zeros(), Zeros())

  function Zeros(): (z: seq<int>)
    ensures |z| == ACTUATOR_COUNT && forall i :: 0 <= i < ACTUATOR_COUNT ==> z[i] == 0
  {
    seq(ACTUATOR_COUNT, _ => 0)
  }

  function NoWords(): (z: seq<bv16>)
    ensures |z| == ACTUATOR_COUNT && forall i :: 0 <= i < ACTUATOR_COUNT ==> z[i] == 0
  {
    seq(ACTUATOR_COUNT, _ => 0)
  }

  function NoState(): StateFrames {
    StateSignals(Zeros(), Zeros(), Zeros(), NoWords(), NoWords(), seq(FINGER_COUNT, _ => []), [], [], [])
  }

  function NoCommand(): CommandFrames {
    CommandSignals(Zeros(), Zeros(), Zeros(), NoWords(), Zeros(), Zeros())
  }

  // std::array<bool, kActuatorCount>
  type Mask = m: seq<bool> | |m| == ACTUATOR_COUNT witness seq(ACTUATOR_COUNT, _ => false)

  function AllOf(b: bool): (m: Mask)
    ensures forall i :: 0 <= i < ACTUATOR_COUNT ==> m[i] == b
  {
    seq(ACTUATOR_COUNT, _ => b)
  }

  predicate Any(m: Mask) { exists i :: 0 <= i < ACTUATOR_COUNT && m[i] }
}
