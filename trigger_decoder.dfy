/**
 * The per-fragment decoding step of the ICARUS trigger decoder tool
 * (`daq::TriggerDecoder`): from one trigger fragment it builds the extra
 * trigger information, the absolute trigger record of the current and of the
 * previous trigger, the relative trigger record and, for a known gate type,
 * the beam gate record, and appends them to the collections of the event.
 *
 * The pure function `Decode` gives what one fragment decodes to; the class
 * `TriggerDecoder` holds the collections and `ProcessFragment` updates them
 * step by step as the source does, proved against `Decode`.
 */
module TriggerDecoding {
  import opened MachineInts
  import opened Results
  import opened Timestamps
  import opened LineText
  import opened KeyedFields
  import opened Gates

  // ---- inputs ---------------------------------------------------------------

  /** The fields of `icarus::ICARUSTriggerInfo` the decoder reads. */
  datatype TriggerInfo = TriggerInfo(
    wrSeconds: i64,
    wrNanoseconds: i64,
    gateType: i32,
    wrEventNo: u64,
    gateId: u64)

  /** The accessors of `icarus::ICARUSTriggerUDPFragment` the decoder reads. */
  datatype TriggerFragment = TriggerFragment(
    data: string,            // GetDataString()
    wrSeconds: u32,          // getWRSeconds()
    wrNanoseconds: u32,      // getWRNanoSeconds()
    lastTimestampBNB: u64)   // getLastTimestampBNB()

  /**
   * The parsers the decoder calls: `parse_ICARUSTriggerString`, the keyed
   * line parser `KeyedCSVparser`, and the text-to-`unsigned int` conversion
   * of `getNumber`. Each yields `None` where the C++ throws.
   */
  datatype Parsers = Parsers(
    triggerString: string -> Option<TriggerInfo>,
    keyedLine: string -> Option<ParsedData>,
    toUnsigned: string -> Option<u32>)

  /** The exceptions that abort `process_fragment`. */
  datatype DecodeError =
    | FragmentError                          // makeTriggerFragment
    | TriggerStringError                     // parseTriggerString
    | KeyedLineError                         // KeyedCSVparser on the first line
    | BeamGateValueError(reason: ValueError) // getNumber on Beam_TS

  // ---- output records -------------------------------------------------------

  /** `raw::ExternalTrigger`: a trigger number and its absolute timestamp. */
  datatype ExternalTrigger = ExternalTrigger(id: int, timestamp: u64)

  /**
   * `raw::Trigger`: the trigger counter, the beam gate start relative to the
   * trigger in nanoseconds (before the clock service turns it into an
   * electronics time), and the source whose `mask` gives the trigger bits.
   */
  datatype RelativeTrigger = RelativeTrigger(
    counter: u32,
    gateStartFromTrigger: i64,
    bits: TriggerSource)

  /**
   * `sim::BeamGateInfo`: the gate start relative to the trigger in nanoseconds
   * (before the conversion to simulation time), its width and its beam.
   */
  datatype BeamGateInfo = BeamGateInfo(
    startFromTrigger: i64,
    width: nat,
    beam: BeamType)

  /** The fields of `sbn::ExtraTriggerInfo` the decoder fills. */
  datatype ExtraTriggerInfo = ExtraTriggerInfo(
    sourceType: TriggerSource,
    triggerTimestamp: u64,
    beamGateTimestamp: u64,
    triggerID: u64,
    gateID: u64)

  /** `sbn::ExtraTriggerInfo::NoTimestamp`. */
  const NO_TIMESTAMP: u64 := U64_MAX

  /** A default-constructed `sbn::ExtraTriggerInfo`: nothing is available. */
  const EMPTY_EXTRA_INFO: ExtraTriggerInfo :=
    ExtraTriggerInfo(Unknown, NO_TIMESTAMP, NO_TIMESTAMP, 0, 0)

  /** Key of the beam gate field in the trigger line. */
  const BEAM_TS_KEY: string := "Beam_TS"

  /** Default of the `TAIOffset` configuration parameter, in nanoseconds. */
  const DEFAULT_TAI_OFFSET: int := 2_000_000_000

  /** The default offset fits an `int`: storing it in `fOffset` keeps it. */
  lemma DefaultOffsetSurvivesNarrowing()
    ensures ToI32(DEFAULT_TAI_OFFSET) == DEFAULT_TAI_OFFSET
  {
  }

  // ---- the decoding step as a function -----------------------------------------

  /** `wr_ts`: the fixed White Rabbit time plus the configured offset, as `uint64_t`. */
  function TriggerTimestamp(info: TriggerInfo, offset: i32): (ts: u64)
    ensures (ts - (EpochFix(info.wrSeconds, info.wrNanoseconds) + offset)) % TWO_64 == 0
  {
    ToU64(EpochFix(info.wrSeconds, info.wrNanoseconds) + offset)
  }

  /** The beam gate count and timestamp the decoder settles on. */
  datatype BeamGate = BeamGate(count: u32, timestamp: u64)

  /**
   * The beam gate reconciliation: with a `Beam_TS` field of exactly three
   * values (count, seconds, nanoseconds) the trigger timestamp is moved by the
   * raw distance between the gate counters and the fragment's White Rabbit
   * counters, in `uint64_t` arithmetic; otherwise the gate falls back to the
   * trigger timestamp with the count `UINT_MAX`.
   */
  function ReconcileBeamGate(
    wrTs: u64, data: ParsedData, wrSeconds: u32, wrNanoseconds: u32,
    toUnsigned: string -> Option<u32>): (r: Result<BeamGate, ValueError>)
    ensures r.Failure? ==> BEAM_TS_KEY in data && |data[BEAM_TS_KEY]| == 3
    ensures r.Failure? ==> r.error.NotANumber? && r.error.key == BEAM_TS_KEY && r.error.index < 3
    ensures r.Failure? ==> toUnsigned(data[BEAM_TS_KEY][r.error.index]).None?
  {
    var found := FindItem(data, BEAM_TS_KEY);
    if found.Some? && NValues(found.value) == 3 then
      var count :- GetNumber(found.value, 0, toUnsigned);
      var s :- GetNumber(found.value, 1, toUnsigned);
      var ns :- GetNumber(found.value, 2, toUnsigned);
      var shift := ToU64(MakeTimestamp(s, ns) - MakeTimestamp(wrSeconds, wrNanoseconds));
      Success(BeamGate(count, ToU64(wrTs + shift)))
    else
      Success(BeamGate(U32_MAX, wrTs))
  }

  /** Everything one fragment decodes to, before it is spread over the records. */
  datatype Decoded = Decoded(
    fragment: TriggerFragment,
    info: TriggerInfo,
    triggerTimestamp: u64,
    beamGate: BeamGate)

  /**
   * One call of `process_fragment` as a function of its inputs: the fragment
   * view (`None` if the artdaq fragment is not a trigger fragment), the
   * parsers, and the configured offset.
   */
  function Decode(fragment: Option<TriggerFragment>, parsers: Parsers, offset: i32): (r: Result<Decoded, DecodeError>)
    ensures fragment.None? ==> r == Failure(FragmentError)
    ensures r.Success? ==>
      && fragment == Some(r.value.fragment)
      && parsers.triggerString(CString(r.value.fragment.data)) == Some(r.value.info)
      && parsers.keyedLine(FirstLine(r.value.fragment.data)).Some?
      && r.value.triggerTimestamp == TriggerTimestamp(r.value.info, offset)
  {
    if fragment.None? then Failure(FragmentError)
    else
      var frag := fragment.value;
      match parsers.triggerString(CString(frag.data))
      case None => Failure(TriggerStringError)
      case Some(info) =>
        var wrTs := TriggerTimestamp(info, offset);
        match parsers.keyedLine(FirstLine(frag.data))
        case None => Failure(KeyedLineError)
        case Some(data) =>
          match ReconcileBeamGate(wrTs, data, frag.wrSeconds, frag.wrNanoseconds, parsers.toUnsigned)
          case Failure(e) => Failure(BeamGateValueError(e))
          case Success(gate) => Success(Decoded(frag, info, wrTs, gate))
  }

  // ---- properties of the beam gate reconciliation -------------------------------

  /** Without a `Beam_TS` field of exactly three values the gate is the trigger time. */
  lemma BeamGateFallback(
    wrTs: u64, data: ParsedData, wrSeconds: u32, wrNanoseconds: u32,
    toUnsigned: string -> Option<u32>)
    requires BEAM_TS_KEY !in data || |data[BEAM_TS_KEY]| != 3
    ensures ReconcileBeamGate(wrTs, data, wrSeconds, wrNanoseconds, toUnsigned)
              == Success(BeamGate(U32_MAX, wrTs))
  {
  }

  /**
   * With a `Beam_TS` field of three values the reconciliation fails exactly
   * when one of them is not a number; otherwise the count is the first value
   * and the timestamp is `wrTs + makeTimestamp(v1, v2) - makeTimestamp(WR s, WR ns)`
   * modulo 2^64.
   */
  lemma BeamGateFromField(
    wrTs: u64, data: ParsedData, wrSeconds: u32, wrNanoseconds: u32,
    toUnsigned: string -> Option<u32>)
    requires BEAM_TS_KEY in data && |data[BEAM_TS_KEY]| == 3
    ensures var v := data[BEAM_TS_KEY];
      var numbers := toUnsigned(v[0]).Some? && toUnsigned(v[1]).Some? && toUnsigned(v[2]).Some?;
      ReconcileBeamGate(wrTs, data, wrSeconds, wrNanoseconds, toUnsigned).Success? <==> numbers
    ensures var v := data[BEAM_TS_KEY];
      var gate := ReconcileBeamGate(wrTs, data, wrSeconds, wrNanoseconds, toUnsigned);
      gate.Success? ==>
        && gate.value.count == toUnsigned(v[0]).value
        && gate.value.timestamp == ToU64(wrTs
             + MakeTimestamp(toUnsigned(v[1]).value, toUnsigned(v[2]).value)
             - MakeTimestamp(wrSeconds, wrNanoseconds))
  {
    var v := data[BEAM_TS_KEY];
    if toUnsigned(v[0]).Some? && toUnsigned(v[1]).Some? && toUnsigned(v[2]).Some? {
      var delta := MakeTimestamp(toUnsigned(v[1]).value, toUnsigned(v[2]).value)
                   - MakeTimestamp(wrSeconds, wrNanoseconds);
      CongruentAdd(wrTs, wrTs, ToU64(delta), delta);
      ToU64Congruent(wrTs + ToU64(delta), wrTs + delta);
    }
  }

  /**
   * The point of the reconciliation: unless the 64-bit arithmetic wraps, the
   * gate ends up as far from the trigger as the raw gate counters are from the
   * raw White Rabbit counters, so the correction applied to the trigger time is
   * applied unchanged to the gate.
   */
  lemma BeamGateKeepsRawOffset(
    wrTs: u64, data: ParsedData, wrSeconds: u32, wrNanoseconds: u32,
    toUnsigned: string -> Option<u32>)
    requires BEAM_TS_KEY in data && |data[BEAM_TS_KEY]| == 3
    requires forall i | 0 <= i < 3 :: toUnsigned(data[BEAM_TS_KEY][i]).Some?
    requires var v := data[BEAM_TS_KEY];
      var delta := MakeTimestamp(toUnsigned(v[1]).value, toUnsigned(v[2]).value)
                   - MakeTimestamp(wrSeconds, wrNanoseconds);
      wrTs < TWO_63 && 0 <= wrTs + delta < TWO_63
    ensures var v := data[BEAM_TS_KEY];
      var gate := ReconcileBeamGate(wrTs, data, wrSeconds, wrNanoseconds, toUnsigned);
      && gate.Success?
      && TimestampDiff(gate.value.timestamp, wrTs)
           == MakeTimestamp(toUnsigned(v[1]).value, toUnsigned(v[2]).value)
              - MakeTimestamp(wrSeconds, wrNanoseconds)
  {
    var v := data[BEAM_TS_KEY];
    assert toUnsigned(v[0]).Some? && toUnsigned(v[1]).Some? && toUnsigned(v[2]).Some?;
    BeamGateFromField(wrTs, data, wrSeconds, wrNanoseconds, toUnsigned);
    var gate := ReconcileBeamGate(wrTs, data, wrSeconds, wrNanoseconds, toUnsigned).value;
    TimestampDiffExact(gate.timestamp, wrTs);
  }

  /**
   * A worked case: `Beam_TS` = (5, 100 s, 250 ns) against White Rabbit
   * counters of 99 s 900000250 ns puts the gate 100 ms after the trigger.
   */
  lemma BeamGateWorkedExample(wrTs: u64, data: ParsedData, toUnsigned: string -> Option<u32>)
    requires BEAM_TS_KEY in data && |data[BEAM_TS_KEY]| == 3
    requires toUnsigned(data[BEAM_TS_KEY][0]) == Some(5)
    requires toUnsigned(data[BEAM_TS_KEY][1]) == Some(100)
    requires toUnsigned(data[BEAM_TS_KEY][2]) == Some(250)
    requires wrTs < TWO_63 - 100_000_000
    ensures ReconcileBeamGate(wrTs, data, 99, 900_000_250, toUnsigned)
              == Success(BeamGate(5, wrTs + 100_000_000))
  {
    BeamGateFromField(wrTs, data, 99, 900_000_250, toUnsigned);
  }

  // ---- properties of the decoding step ------------------------------------------

  /** The beam gate field of a parsed line cannot be read: three values, one not a number. */
  predicate BeamTsUnreadable(data: ParsedData, toUnsigned: string -> Option<u32>)
  {
    && BEAM_TS_KEY in data
    && |data[BEAM_TS_KEY]| == 3
    && (exists i | 0 <= i < 3 :: toUnsigned(data[BEAM_TS_KEY][i]).None?)
  }

  /**
   * A fragment fails to decode exactly when it is no trigger fragment, its
   * text does not parse as a trigger string, its first line does not parse as
   * keyed fields, or its `Beam_TS` field has three values not all numbers; a
   * missing or short `Beam_TS` field is never an error.
   */
  lemma DecodeFailsExactly(fragment: Option<TriggerFragment>, parsers: Parsers, offset: i32)
    ensures Decode(fragment, parsers, offset).Failure? <==>
      || fragment.None?
      || parsers.triggerString(CString(fragment.value.data)).None?
      || parsers.keyedLine(FirstLine(fragment.value.data)).None?
      || BeamTsUnreadable(parsers.keyedLine(FirstLine(fragment.value.data)).value, parsers.toUnsigned)
  {
    if fragment.Some? && parsers.triggerString(CString(fragment.value.data)).Some?
       && parsers.keyedLine(FirstLine(fragment.value.data)).Some?
    {
      var frag := fragment.value;
      var info := parsers.triggerString(CString(frag.data)).value;
      var data := parsers.keyedLine(FirstLine(frag.data)).value;
      var wrTs := TriggerTimestamp(info, offset);
      if BEAM_TS_KEY in data && |data[BEAM_TS_KEY]| == 3 {
        BeamGateFromField(wrTs, data, frag.wrSeconds, frag.wrNanoseconds, parsers.toUnsigned);
        var v := data[BEAM_TS_KEY];
        if BeamTsUnreadable(data, parsers.toUnsigned) {
          var i :| 0 <= i < 3 && parsers.toUnsigned(v[i]).None?;
        } else {
          assert parsers.toUnsigned(v[0]).Some? && parsers.toUnsigned(v[1]).Some?
                 && parsers.toUnsigned(v[2]).Some?;
        }
      } else {
        BeamGateFallback(wrTs, data, frag.wrSeconds, frag.wrNanoseconds, parsers.toUnsigned);
      }
    }
  }

  /**
   * The trigger timestamp of a decoded fragment: the configured offset alone
   * when the White Rabbit time is unknown; for a realistic White Rabbit time,
   * the combined timestamp of the leap-corrected seconds plus the offset.
   */
  lemma DecodedTriggerTimestamp(fragment: Option<TriggerFragment>, parsers: Parsers, offset: i32)
    requires Decode(fragment, parsers, offset).Success?
    ensures var d := Decode(fragment, parsers, offset).value;
      && fragment == Some(d.fragment)
      && parsers.triggerString(CString(d.fragment.data)) == Some(d.info)
      && ((d.info.wrSeconds == UNKNOWN_WR_SECONDS || d.info.wrNanoseconds == UNKNOWN_WR_NANOSECONDS)
            ==> d.triggerTimestamp == ToU64(offset))
      && ((0 <= d.info.wrSeconds < TWO_32 && 0 <= d.info.wrNanoseconds < TWO_32)
            ==> d.info.wrSeconds - LeapCorrection(d.info.wrSeconds) >= 0
                && d.triggerTimestamp == ToU64(MakeTimestamp(
                     d.info.wrSeconds - LeapCorrection(d.info.wrSeconds), d.info.wrNanoseconds) + offset))
  {
    var d := Decode(fragment, parsers, offset).value;
    if 0 <= d.info.wrSeconds < TWO_32 && 0 <= d.info.wrNanoseconds < TWO_32 {
      EpochFixIsCombinedTimestamp(d.info.wrSeconds, d.info.wrNanoseconds);
    }
  }

  /**
   * The beam gate of a decoded fragment is the reconciliation of its first
   * line against its trigger timestamp; without a three-value `Beam_TS` field
   * it is the trigger timestamp itself, with count `UINT_MAX`.
   */
  lemma DecodedBeamGate(fragment: Option<TriggerFragment>, parsers: Parsers, offset: i32)
    requires Decode(fragment, parsers, offset).Success?
    ensures var d := Decode(fragment, parsers, offset).value;
      var data := parsers.keyedLine(FirstLine(d.fragment.data)).value;
      && parsers.keyedLine(FirstLine(d.fragment.data)).Some?
      && Success(d.beamGate)
           == ReconcileBeamGate(d.triggerTimestamp, data, d.fragment.wrSeconds, d.fragment.wrNanoseconds, parsers.toUnsigned)
      && (BEAM_TS_KEY !in data || |data[BEAM_TS_KEY]| != 3 ==>
            d.beamGate == BeamGate(U32_MAX, d.triggerTimestamp))
  {
    var d := Decode(fragment, parsers, offset).value;
    var data := parsers.keyedLine(FirstLine(d.fragment.data)).value;
    if BEAM_TS_KEY !in data || |data[BEAM_TS_KEY]| != 3 {
      BeamGateFallback(d.triggerTimestamp, data, d.fragment.wrSeconds, d.fragment.wrNanoseconds, parsers.toUnsigned);
    }
  }

  /** The decoding succeeds when every parse does. */
  lemma DecodeSucceeds(fragment: Option<TriggerFragment>, parsers: Parsers, offset: i32, d: Decoded, data: ParsedData)
    requires fragment == Some(d.fragment)
    requires parsers.triggerString(CString(d.fragment.data)) == Some(d.info)
    requires d.triggerTimestamp == TriggerTimestamp(d.info, offset)
    requires parsers.keyedLine(FirstLine(d.fragment.data)) == Some(data)
    requires ReconcileBeamGate(d.triggerTimestamp, data, d.fragment.wrSeconds, d.fragment.wrNanoseconds, parsers.toUnsigned)
               == Success(d.beamGate)
    ensures Decode(fragment, parsers, offset) == Success(d)
  {
  }

  /** The extra trigger information of a decoded fragment. */
  function ExtraInfoOf(d: Decoded): (e: ExtraTriggerInfo)
    ensures e.sourceType == Unknown <==> GateOf(d.info.gateType).None?
    ensures e.sourceType != Unknown ==> BeamOf(e.sourceType) == Some(GateOf(d.info.gateType).value.beam)
    ensures e.triggerTimestamp == d.triggerTimestamp && e.beamGateTimestamp == d.beamGate.timestamp
    ensures e.triggerID == d.info.wrEventNo && e.gateID == d.info.gateId
  {
    ExtraTriggerInfo(
      Classify(d.info.gateType), d.triggerTimestamp, d.beamGate.timestamp,
      d.info.wrEventNo, d.info.gateId)
  }

  /** The absolute trigger record of the current trigger. */
  function CurrentTrigger(d: Decoded): (t: ExternalTrigger)
    ensures t.id == ExtraInfoOf(d).triggerID && t.timestamp == ExtraInfoOf(d).triggerTimestamp
  {
    ExternalTrigger(d.info.wrEventNo, d.triggerTimestamp)
  }

  /**
   * `fLastEvent` after a trigger numbered `triggerID`: 0 for the first
   * trigger of the run, the number before it otherwise (the `uint64_t`
   * subtraction wraps for 0, which reads as -1 in a `long`).
   */
  function LastEventOf(triggerID: u64): (last: i64)
    ensures triggerID == 1 ==> last == 0
    ensures triggerID != 1 ==> (last - (triggerID - 1)) % TWO_64 == 0
    ensures 1 <= triggerID <= TWO_63 ==> last == triggerID - 1
  {
    if triggerID == 1 then 0
    else
      ToI64OfU64(triggerID - 1);
      ToI64(ToU64(triggerID - 1))
  }

  /**
   * The previous-trigger records of a decoded fragment: none for the first
   * trigger of the run, otherwise one for the trigger before it, stamped with
   * the fragment's own last BNB timestamp counter.
   */
  function PreviousTriggers(d: Decoded): (prev: seq<ExternalTrigger>)
    ensures |prev| <= 1
    ensures prev == [] <==> d.info.wrEventNo == 1
    ensures prev != [] ==> prev[0].id == LastEventOf(d.info.wrEventNo)
    ensures prev != [] ==> prev[0].timestamp == d.fragment.lastTimestampBNB
  {
    if d.info.wrEventNo == 1 then []
    else [ExternalTrigger(LastEventOf(d.info.wrEventNo), d.fragment.lastTimestampBNB)]
  }

  /** The beam gate opening relative to the trigger, in nanoseconds. */
  function GateStartFromTrigger(d: Decoded): (start: i64)
    ensures Congruent(start, d.beamGate.timestamp - d.triggerTimestamp)
    ensures d.beamGate.timestamp == d.triggerTimestamp ==> start == 0
    ensures d.beamGate.timestamp < TWO_63 && d.triggerTimestamp < TWO_63 ==>
      start == d.beamGate.timestamp - d.triggerTimestamp
  {
    TimestampDiff(d.beamGate.timestamp, d.triggerTimestamp)
  }

  /**
   * The beam gate records of a decoded fragment: one for a BNB or NuMI gate
   * type, none for any other.
   */
  function BeamGates(d: Decoded): (gates: seq<BeamGateInfo>)
    ensures |gates| <= 1
    ensures gates == [] <==> Classify(d.info.gateType) == Unknown
    ensures gates != [] ==> gates[0].startFromTrigger == GateStartFromTrigger(d)
    ensures gates != [] ==> Some(gates[0].beam) == BeamOf(Classify(d.info.gateType))
    ensures gates != [] && gates[0].beam == BeamBNB ==> gates[0].width == BNB_GATE_DURATION
    ensures gates != [] && gates[0].beam == BeamNuMI ==> gates[0].width == NUMI_GATE_DURATION
  {
    match GateOf(d.info.gateType)
    case None => []
    case Some(g) => [BeamGateInfo(GateStartFromTrigger(d), g.width, g.beam)]
  }

  /** The relative trigger record of a decoded fragment. */
  function RelativeTriggerOf(d: Decoded): (t: RelativeTrigger)
    ensures (t.counter - CurrentTrigger(d).id) % TWO_32 == 0
    ensures t.bits == ExtraInfoOf(d).sourceType
    ensures t.gateStartFromTrigger
              == TimestampDiff(ExtraInfoOf(d).beamGateTimestamp, ExtraInfoOf(d).triggerTimestamp)
  {
    RelativeTrigger(ToU32(d.info.wrEventNo), GateStartFromTrigger(d), Classify(d.info.gateType))
  }

  /**
   * The beam gate block of `process_fragment`, step by step: the gate starts
   * as the trigger time with count `UINT_MAX`; a complete `Beam_TS` field
   * replaces the count and shifts the time in place (`beamgate_ts += ...`).
   */
  method BeamGateOfLine(
    wrTs: u64, data: ParsedData, wrSeconds: u32, wrNanoseconds: u32,
    toUnsigned: string -> Option<u32>) returns (gate: Result<BeamGate, ValueError>)
    ensures gate == ReconcileBeamGate(wrTs, data, wrSeconds, wrNanoseconds, toUnsigned)
  {
    var beamgateCount: u32 := U32_MAX;
    var beamgateTs: u64 := wrTs;
    var found := FindItem(data, BEAM_TS_KEY);
    if found.Some? && NValues(found.value) == 3 {
      var count := GetNumber(found.value, 0, toUnsigned);
      if count.Failure? {
        return Failure(count.error);
      }
      beamgateCount := count.value;
      var s := GetNumber(found.value, 1, toUnsigned);
      if s.Failure? {
        return Failure(s.error);
      }
      var ns := GetNumber(found.value, 2, toUnsigned);
      if ns.Failure? {
        return Failure(ns.error);
      }
      beamgateTs := ToU64(beamgateTs + ToU64(MakeTimestamp(s.value, ns.value) - MakeTimestamp(wrSeconds, wrNanoseconds)));
    }
    return Success(BeamGate(beamgateCount, beamgateTs));
  }

  /**
   * How the data products of one event relate: every fragment adds one
   * absolute and one relative trigger record and at most one previous-trigger
   * and one beam gate record; the relative record counts the trigger number in
   * 32 bits; the latest records agree with the extra trigger information, and
   * the last event number follows the latest trigger.
   */
  ghost predicate ProductsAgree(
    trigger: seq<ExternalTrigger>, prevTrigger: seq<ExternalTrigger>,
    relTrigger: seq<RelativeTrigger>, beamGateInfo: seq<BeamGateInfo>,
    extra: ExtraTriggerInfo, lastEvent: i64)
  {
    && |relTrigger| == |trigger|
    && |prevTrigger| <= |trigger|
    && |beamGateInfo| <= |trigger|
    && (forall i | 0 <= i < |trigger| :: relTrigger[i].counter == ToU32(trigger[i].id))
    && (trigger != [] ==>
          && trigger[|trigger| - 1] == ExternalTrigger(extra.triggerID, extra.triggerTimestamp)
          && relTrigger[|trigger| - 1].bits == extra.sourceType
          && relTrigger[|trigger| - 1].gateStartFromTrigger
               == TimestampDiff(extra.beamGateTimestamp, extra.triggerTimestamp)
          && lastEvent == LastEventOf(extra.triggerID))
  }

  /** Appending the records of one decoded fragment keeps the data products in agreement. */
  lemma DecodedKeepsProductsAgree(
    d: Decoded,
    trigger: seq<ExternalTrigger>, prevTrigger: seq<ExternalTrigger>,
    relTrigger: seq<RelativeTrigger>, beamGateInfo: seq<BeamGateInfo>,
    extra: ExtraTriggerInfo, lastEvent: i64)
    requires ProductsAgree(trigger, prevTrigger, relTrigger, beamGateInfo, extra, lastEvent)
    ensures ProductsAgree(
      trigger + [CurrentTrigger(d)], prevTrigger + PreviousTriggers(d),
      relTrigger + [RelativeTriggerOf(d)], beamGateInfo + BeamGates(d),
      ExtraInfoOf(d), LastEventOf(d.info.wrEventNo))
  {
  }

  // ---- the decoder ------------------------------------------------------------

  /**
   * The decoder tool: its configured offset (`fOffset`), the data products it
   * is filling for the current event, and `fLastEvent`.
   */
  class TriggerDecoder {
    const offset: i32
    var trigger: seq<ExternalTrigger>       // fTrigger
    var prevTrigger: seq<ExternalTrigger>   // fPrevTrigger
    var relTrigger: seq<RelativeTrigger>    // fRelTrigger
    var beamGateInfo: seq<BeamGateInfo>     // fBeamGateInfo
    var extra: ExtraTriggerInfo             // *fTriggerExtra
    var lastEvent: i64                      // fLastEvent
    /** Whether the data products have been allocated (the pointers are not null). */
    var ready: bool

    /** The data products agree with each other (see `ProductsAgree`). */
    ghost predicate Valid()
      reads this
    {
      ProductsAgree(trigger, prevTrigger, relTrigger, beamGateInfo, extra, lastEvent)
    }

    /**
     * The tool as configured: the `TAIOffset` parameter, a `long long`, is
     * stored in the `int` `fOffset` and `fLastEvent` starts at 0. The data
     * products are not allocated yet (`ready` is false): only
     * `InitializeDataProducts` makes fragments processable. The collection
     * fields hold placeholder empty values meanwhile.
     */
    constructor (taiOffset: i64)
      ensures Valid() && !ready
      ensures offset == ToI32(taiOffset)
      ensures lastEvent == 0
    {
      offset := ToI32(taiOffset);
      trigger, prevTrigger, relTrigger, beamGateInfo := [], [], [], [];
      extra := EMPTY_EXTRA_INFO;
      lastEvent := 0;
      ready := false;
    }

    /**
     * `initializeDataProducts`: fresh, empty collections and extra
     * information for a new event; `fLastEvent` is kept.
     */
    method InitializeDataProducts()
      modifies this
      ensures Valid() && ready
      ensures trigger == [] && prevTrigger == [] && relTrigger == [] && beamGateInfo == []
      ensures extra == EMPTY_EXTRA_INFO
      ensures lastEvent == old(lastEvent)
    {
      trigger := [];
      prevTrigger := [];
      relTrigger := [];
      beamGateInfo := [];
      extra := EMPTY_EXTRA_INFO;
      ready := true;
    }

    /**
     * `process_fragment`: decodes one fragment and appends its records. Any
     * exception leaves every data product as it was; otherwise the extra
     * information is replaced and exactly one absolute and one relative
     * trigger record, zero or one previous-trigger record and zero or one
     * beam gate record are appended, as `Decode` gives them.
     */
    method ProcessFragment(fragment: Option<TriggerFragment>, parsers: Parsers) returns (outcome: Outcome<DecodeError>)
      requires Valid() && ready
      modifies this
      ensures Valid() && ready
      ensures Decode(fragment, parsers, offset).Failure? ==>
        && outcome == Fail(Decode(fragment, parsers, offset).error)
        && unchanged(this)
      ensures Decode(fragment, parsers, offset).Success? ==>
        var d := Decode(fragment, parsers, offset).value;
        && outcome == Pass
        && extra == ExtraInfoOf(d)
        && trigger == old(trigger) + [CurrentTrigger(d)]
        && prevTrigger == old(prevTrigger) + PreviousTriggers(d)
        && lastEvent == LastEventOf(d.info.wrEventNo)
        && beamGateInfo == old(beamGateInfo) + BeamGates(d)
        && relTrigger == old(relTrigger) + [RelativeTriggerOf(d)]
    {
      if fragment.None? {
        assert Decode(fragment, parsers, offset) == Failure(FragmentError);
        return Fail(FragmentError);
      }
      var frag := fragment.value;
      var parsedInfo := parsers.triggerString(CString(frag.data));
      if parsedInfo.None? {
        assert Decode(fragment, parsers, offset) == Failure(TriggerStringError);
        return Fail(TriggerStringError);
      }
      var info := parsedInfo.value;
      var wrTs := TriggerTimestamp(info, offset);

      // beam gate: falls back to the trigger time unless Beam_TS is complete
      var parsedData := parsers.keyedLine(FirstLine(frag.data));
      if parsedData.None? {
        assert Decode(fragment, parsers, offset) == Failure(KeyedLineError);
        return Fail(KeyedLineError);
      }
      var gate := BeamGateOfLine(wrTs, parsedData.value, frag.wrSeconds, frag.wrNanoseconds, parsers.toUnsigned);
      if gate.Failure? {
        assert Decode(fragment, parsers, offset) == Failure(BeamGateValueError(gate.error));
        return Fail(BeamGateValueError(gate.error));
      }
      ghost var d := Decoded(frag, info, wrTs, gate.value);
      DecodeSucceeds(fragment, parsers, offset, d, parsedData.value);
      RecordProducts(frag.lastTimestampBNB, info, wrTs, gate.value.timestamp, d);
      return Pass;
    }

    /**
     * The second half of `process_fragment`, once nothing can throw: the
     * extra information, the absolute trigger, the previous trigger, the beam
     * gate and the relative trigger, filled in that order from the parsed
     * trigger information, the trigger time and the beam gate time.
     */
    method RecordProducts(lastTimestampBNB: u64, info: TriggerInfo, wrTs: u64, beamgateTs: u64, ghost d: Decoded)
      requires Valid() && ready
      requires d.fragment.lastTimestampBNB == lastTimestampBNB && d.info == info
      requires d.triggerTimestamp == wrTs && d.beamGate.timestamp == beamgateTs
      modifies this
      ensures Valid() && ready
      ensures extra == ExtraInfoOf(d)
      ensures trigger == old(trigger) + [CurrentTrigger(d)]
      ensures prevTrigger == old(prevTrigger) + PreviousTriggers(d)
      ensures lastEvent == LastEventOf(d.info.wrEventNo)
      ensures beamGateInfo == old(beamGateInfo) + BeamGates(d)
      ensures relTrigger == old(relTrigger) + [RelativeTriggerOf(d)]
    {
      DecodedKeepsProductsAgree(d, trigger, prevTrigger, relTrigger, beamGateInfo, extra, lastEvent);
      var gateType := info.gateType;

      // extra trigger info
      var beamGateBit := Classify(gateType);
      extra := ExtraTriggerInfo(beamGateBit, wrTs, beamgateTs, info.wrEventNo, info.gateId);

      // absolute time trigger
      trigger := trigger + [ExternalTrigger(extra.triggerID, extra.triggerTimestamp)];

      // previous absolute time trigger
      if extra.triggerID == 1 {
        lastEvent := 0;
      } else {
        lastEvent := ToI64(ToU64(extra.triggerID - 1));
        prevTrigger := prevTrigger + [ExternalTrigger(lastEvent, lastTimestampBNB)];
      }
      assert prevTrigger == old(prevTrigger) + PreviousTriggers(d) && lastEvent == LastEventOf(d.info.wrEventNo);

      // beam gate
      var gateStartFromTrigger := TimestampDiff(extra.beamGateTimestamp, extra.triggerTimestamp);
      if gateType == BNB_GATE_TYPE {
        beamGateInfo := beamGateInfo + [BeamGateInfo(gateStartFromTrigger, BNB_GATE_DURATION, BeamBNB)];
      } else if gateType == NUMI_GATE_TYPE {
        beamGateInfo := beamGateInfo + [BeamGateInfo(gateStartFromTrigger, NUMI_GATE_DURATION, BeamNuMI)];
      }
      assert beamGateInfo == old(beamGateInfo) + BeamGates(d);

      // relative time trigger
      relTrigger := relTrigger + [RelativeTrigger(ToU32(info.wrEventNo), gateStartFromTrigger, beamGateBit)];
    }
  }
}
