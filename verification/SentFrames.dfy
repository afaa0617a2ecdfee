/** From an accepted command to the bytes on the wire: command_to_frames, HandComms::write and encode
    together. */
module SentFrames {
  import opened Types
  import opened Frames
  import C = HandComms
  import P = Protocol
  import H = HomingSequence
  import J = JointPositionController
  import I = JointImpedanceController
  import M = CommandMapping

  // What the mapping takes from elsewhere has the width of a position
  predicate Measured(seen: M.Observed) { forall i :: 0 <= i < ACTUATOR_COUNT ==> P.IsInt32(seen.position[i]) }

  predicate Solvable(p: M.Plant, m: M.Memory, c: M.Command, config: M.Config, seen: M.Observed) {
    c.controller.JointPosition? ==>
      var solved := p.ik(J.Output(M.NextBank(p, m, c, config, seen)));
      forall i :: 0 <= i < ACTUATOR_COUNT ==> P.IsInt32(solved[i])
  }

  lemma PositionFits(p: M.Plant, m: M.Memory, c: M.Command, config: M.Config, seen: M.Observed, i: nat)
    requires p.period > 0.0 && i < ACTUATOR_COUNT && Measured(seen) && Solvable(p, m, c, config, seen)
    requires c.controller.ActuatorPosition? ==> M.FitsInt32(c.controller.counts)
    ensures P.IsInt32(M.ToFrames(p, m, c, config, seen).targetPosition[i])
  {
    hide I.Filled, J.Computed;
    if c.controller.ActuatorPosition? && !M.Masked(seen, i) {
      M.CountsArrive(p, m, c, config, seen, i);
    }
    if c.controller.JointImpedance? {
      FilledKeepsPositions(p, m, c, config, seen);
    }
  }

  lemma FilledKeepsPositions(p: M.Plant, m: M.Memory, c: M.Command, config: M.Config, seen: M.Observed)
    requires p.period > 0.0 && c.controller.JointImpedance?
    ensures M.Unmasked(p, m, c, config, seen).targetPosition == Zeros()
  {
    hide I.Effort, I.CappedEffort;
  }

  // Whatever the command, its frames have the widths of the wire: joint positions wherever the
  // inverse kinematics answers in 32 bits, everything else on all inputs that are accepted
  lemma MappedIsEncodable(p: M.Plant, m: M.Memory, c: M.Command, config: M.Config, seen: M.Observed)
    requires p.period > 0.0 && M.GoodCaps(c.maxEffort) && Measured(seen) && Solvable(p, m, c, config, seen)
    requires c.controller.ActuatorPosition? ==> M.FitsInt32(c.controller.counts)
    ensures P.Encodable(M.ToFrames(p, m, c, config, seen))
  {
    hide M.ToFrames, M.GoodCaps, Measured, Solvable;
    var f := M.ToFrames(p, m, c, config, seen);
    MethodIsZero(p, m, c, config, seen);
    forall i | 0 <= i < ACTUATOR_COUNT
      ensures P.IsInt32(f.targetPosition[i]) && P.IsInt16(f.targetEffort[i]) && P.IsInt16(f.maxEffort[i])
      ensures P.IsInt8(f.mode[i]) && P.IsInt8(f.homingMethod[i])
    {
      PositionFits(p, m, c, config, seen, i);
      M.TorqueIsBounded(p, m, c, config, seen, i);
      M.ModeFollowsCommand(p, m, c, config, seen, i);
    }
  }

  lemma MethodIsZero(p: M.Plant, m: M.Memory, c: M.Command, config: M.Config, seen: M.Observed)
    requires p.period > 0.0
    ensures M.ToFrames(p, m, c, config, seen).homingMethod == Zeros()
  {
    hide I.Effort, I.CappedEffort, J.Computed;
  }

  // A homing or a quick stop in between changes nothing about that
  lemma SentIsEncodable(c: C.Comms, frames: CommandFrames, quickStop: bool)
    requires P.Encodable(frames)
    ensures P.Encodable(C.Sent(c, frames, quickStop))
  {
    hide C.ControlWords, H.Step;
  }

  // The bytes of what write() sends for a command
  method SendFrames(comms: C.HandComms, tx: P.TxFrames, p: M.Plant, m: M.Memory, command: M.Command, config: M.Config,
                    seen: M.Observed, quickStop: bool) returns (sent: CommandFrames)
    requires comms.open && tx.Valid() && {comms, comms.homing} !! tx.Repr()
    requires p.period > 0.0 && M.GoodCaps(command.maxEffort) && Measured(seen) && Solvable(p, m, command, config, seen)
    requires command.controller.ActuatorPosition? ==> M.FitsInt32(command.controller.counts)
    modifies comms, comms.homing, tx.Repr()
    ensures sent == C.Sent(old(comms.State()), M.ToFrames(p, m, command, config, seen), quickStop)
    ensures P.Words(tx.controlWord[..], 0, ACTUATOR_COUNT) == sent.controlWord
    ensures P.Int16s(tx.targetEffort[..], 0, ACTUATOR_COUNT) == sent.targetEffort
    ensures P.Int16s(tx.targetEffort[..], 32, ACTUATOR_COUNT) == sent.maxEffort
    ensures P.Int32s(tx.targetPosition[..], 0, ACTUATOR_COUNT) == P.ToWire(sent.targetPosition)
    ensures forall i :: 0 <= i < ACTUATOR_COUNT ==> tx.mode[i] == sent.mode[i] % 256 && tx.homingMethod[i] == sent.homingMethod[i] % 256
  {
    hide C.Sent, C.Write, M.ToFrames, P.Encodable, Measured, Solvable, M.GoodCaps;
    ghost var before := comms.State();
    var frames := M.ToFrames(p, m, command, config, seen);
    MappedIsEncodable(p, m, command, config, seen);
    SentIsEncodable(before, frames, quickStop);
    sent := comms.WriteFrames(frames, quickStop);
    tx.Encode(sent);
  }
}
