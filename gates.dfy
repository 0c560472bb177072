/**
 * Gate types: the trigger hardware's gate type codes, the trigger source they
 * stand for, and the nominal beam gate each known type opens.
 */
module Gates {
  import opened Results

  /** The values of `sbn::triggerSource` the decoder assigns. */
  datatype TriggerSource = Unknown | BNB | NuMI

  /** The values of `sim::BeamType_t` the decoder records in a beam gate. */
  datatype BeamType = BeamBNB | BeamNuMI

  /** `TriggerGateTypes::BNB`. */
  const BNB_GATE_TYPE: int := 1
  /** `TriggerGateTypes::NuMI`. */
  const NUMI_GATE_TYPE: int := 2

  /** `BNBgateDuration`, in nanoseconds. */
  const BNB_GATE_DURATION: nat := 1600
  /** `NuMIgateDuration`, in nanoseconds. */
  const NUMI_GATE_DURATION: nat := 9500

  /** The first `switch (gate_type)` of `process_fragment`. */
  function Classify(gateType: int): (source: TriggerSource)
    ensures source == BNB <==> gateType == BNB_GATE_TYPE
    ensures source == NuMI <==> gateType == NUMI_GATE_TYPE
    ensures source == Unknown <==> gateType != BNB_GATE_TYPE && gateType != NUMI_GATE_TYPE
  {
    if gateType == BNB_GATE_TYPE then BNB
    else if gateType == NUMI_GATE_TYPE then NuMI
    else Unknown
  }

  /** The beam a trigger source stands for; `Unknown` has none. */
  function BeamOf(source: TriggerSource): Option<BeamType>
  {
    match source
    case Unknown => None
    case BNB => Some(BeamBNB)
    case NuMI => Some(BeamNuMI)
  }

  /** Width and beam of a beam gate. */
  datatype NominalGate = NominalGate(width: nat, beam: BeamType)

  /**
   * The second `switch (gate_type)` of `process_fragment`: the gate a known
   * gate type opens, `None` for a type with no beam gate record. It agrees
   * with the first switch: a gate exactly for the known sources, with the
   * beam of that source, 1600 ns wide for BNB and 9500 ns for NuMI.
   */
  function GateOf(gateType: int): (gate: Option<NominalGate>)
    ensures gate.None? <==> Classify(gateType) == Unknown
    ensures gate.Some? ==> Some(gate.value.beam) == BeamOf(Classify(gateType))
    ensures Classify(gateType) == BNB ==> gate == Some(NominalGate(BNB_GATE_DURATION, BeamBNB))
    ensures Classify(gateType) == NuMI ==> gate == Some(NominalGate(NUMI_GATE_DURATION, BeamNuMI))
  {
    if gateType == BNB_GATE_TYPE then Some(NominalGate(BNB_GATE_DURATION, BeamBNB))
    else if gateType == NUMI_GATE_TYPE then Some(NominalGate(NUMI_GATE_DURATION, BeamNuMI))
    else None
  }
}
