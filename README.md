# ICARUS trigger decoder: a verified model

This project models the core of the ICARUS trigger decoder tool
(`daq::TriggerDecoder`, `icaruscode/Decode/DecoderTools/TriggerDecoder_tool.cc`).
The tool turns one trigger fragment into the trigger data products of an event:

- the extra trigger information (`sbn::ExtraTriggerInfo`);
- the absolute-time record of the current trigger and, except for the first
  trigger of a run, of the previous one (`raw::ExternalTrigger`);
- the relative-time trigger record (`raw::Trigger`);
- one beam gate record (`sim::BeamGateInfo`) for a BNB or NuMI gate.

It also holds the timestamp arithmetic behind these records:

- the White Rabbit epoch fix, which subtracts 37 leap seconds from
  2017-01-01 on;
- the combination of second and nanosecond counters into one 64-bit
  nanosecond count;
- the signed difference of two timestamps;
- the reconciliation of the `Beam_TS` field of the trigger line with the
  corrected trigger time.

Modules, one per concern:

- `MachineInts` (`machine_ints.dfy`): the C++ integer widths as subset types
  (`u32`, `u64`, `i32`, `i64`), the C++20 conversions between them, and
  congruence modulo 2^64. `Results` holds the `Option`, `Outcome` and
  `Result` wrappers.
- `Timestamps` (`timestamps.dfy`): `getNanoseconds_since_UTC_epoch_fix`,
  `makeTimestamp` and `timestampDiff`, with their properties.
- `LineText` (`line_text.dfy`): `firstLine`, and the NUL-terminated text that
  `data.c_str()` stands for.
- `KeyedFields` (`keyed_fields.dfy`): the parsed keyed line as the decoder
  reads it (`findItem`, `nValues`, `getNumber`).
- `Gates` (`gates.dfy`): the two `switch (gate_type)` statements.
- `TriggerDecoding` (`trigger_decoder.dfy`): the decoding step.
  - `Decode` is the pure function of one fragment.
  - The class `TriggerDecoder` holds the data products and `fLastEvent`.
  - `ProcessFragment` updates them in the order the source does. Its
    contract ties the new state to `Decode`.
  - The invariant `Valid` (`ProductsAgree`) states how the products relate.
  - `ready` records whether `initializeDataProducts` has allocated the
    products; `ProcessFragment` needs it.

Integer widths and wrap-around are explicit in the timestamp arithmetic, the
beam gate reconciliation, the trigger counters and `fLastEvent`; the one
exception is the trigger number of `raw::ExternalTrigger`, listed under
"Left out". The C++ conversions to `uint64_t` wrap modulo 2^64. Signed
overflow is undefined in C++; the model gives it the two's complement wrap-around of the hardware.

## Model

| member | source | states |
|---|---|---|
| Timestamps.EpochFix | icaruscode/Decode/DecoderTools/TriggerDecoder_tool.cc:53-66 | 0 when the seconds are -2 or the nanoseconds -3; otherwise (seconds - correction) * 10^9 + nanoseconds modulo 2^64, with a correction of 37 s from second 1483228800 on |
| Timestamps.EpochFixIsCombinedTimestamp | icaruscode/Decode/DecoderTools/TriggerDecoder_tool.cc:57-64 | for non-negative 32-bit counters no wrap-around happens: the fix is the combined timestamp of the corrected seconds and the nanoseconds |
| Timestamps.EpochFixSplit | icaruscode/Decode/DecoderTools/TriggerDecoder_tool.cc:59-64 | the fixed time splits back into the corrected seconds (`/ 1e9`) and the unchanged nanoseconds (`% 1e9`) |
| Timestamps.EpochFixAtLeapBoundary | icaruscode/Decode/DecoderTools/TriggerDecoder_tool.cc:59-61 | the last second of 2016 is left alone, the first of 2017 loses 37 s, so the fixed time steps back 36 s at the boundary |
| Timestamps.EpochFixNonSentinelWraps | icaruscode/Decode/DecoderTools/TriggerDecoder_tool.cc:57-63 | the sentinels are exact values: seconds = -1 is taken as a time and wraps to 2^64 - 10^9 |
| Timestamps.WrappedAffine | icaruscode/Decode/DecoderTools/TriggerDecoder_tool.cc:62-63 | reducing modulo 2^64 after each step of `s * 1e9 + ns` equals reducing once at the end |
| Timestamps.MakeTimestamp | icaruscode/Decode/DecoderTools/TriggerDecoder_tool.cc:200-201 | `s * 1e9 + ns` exactly: two 32-bit counters never overflow the 64-bit result |
| Timestamps.MakeTimestampSplit | icaruscode/Decode/DecoderTools/TriggerDecoder_tool.cc:200-201 | with ns < 10^9, `/ 1e9` and `% 1e9` give back s and ns (the split the diagnostic printout at line 357 relies on) |
| Timestamps.MakeTimestampOrder | icaruscode/Decode/DecoderTools/TriggerDecoder_tool.cc:200-201 | with proper nanosecond fields, combined timestamps compare as (seconds, nanoseconds) pairs, both for `<` and for `==` |
| Timestamps.TimestampDiff | icaruscode/Decode/DecoderTools/TriggerDecoder_tool.cc:203-204 | the signed 64-bit difference is congruent to a - b modulo 2^64 |
| Timestamps.TimestampDiffExact | icaruscode/Decode/DecoderTools/TriggerDecoder_tool.cc:203-204 | for timestamps below 2^63 the difference is exactly a - b |
| Timestamps.TimestampDiffSelf | icaruscode/Decode/DecoderTools/TriggerDecoder_tool.cc:203-204 | a timestamp differs from itself by 0 |
| Timestamps.TimestampDiffAntisymmetric | icaruscode/Decode/DecoderTools/TriggerDecoder_tool.cc:203-204 | diff(a, b) + diff(b, a) == 0 if and only if the wrapped difference is not 2^63 |
| Timestamps.TimestampDiffAntisymmetricBelow | icaruscode/Decode/DecoderTools/TriggerDecoder_tool.cc:203-204 | for timestamps below 2^63, swapping the arguments negates the difference |
| LineText.FindFirstOf | icaruscode/Decode/DecoderTools/TriggerDecoder_tool.cc:482 | `find_first_of`: the position found holds one of the characters and no earlier position does; `npos` means none does |
| LineText.FirstLine | icaruscode/Decode/DecoderTools/TriggerDecoder_tool.cc:479-483 | a prefix of the text with no NUL, LF or CR, ending at the end of the text or just before one of them |
| LineText.CString | icaruscode/Decode/DecoderTools/TriggerDecoder_tool.cc:302-306 | what the parser sees through `data.c_str()`: the prefix up to the first NUL |
| LineText.FirstLineUnique | icaruscode/Decode/DecoderTools/TriggerDecoder_tool.cc:479-483 | any prefix that has no line end and stops at the end or at a line end is the first line |
| LineText.FirstLineOfSingleLine | icaruscode/Decode/DecoderTools/TriggerDecoder_tool.cc:479-483 | a text with no line end is its own first line |
| LineText.FirstLineIgnoresRest | icaruscode/Decode/DecoderTools/TriggerDecoder_tool.cc:479-483 | nothing after the first line end reaches the first line |
| LineText.FirstLineIdempotent | icaruscode/Decode/DecoderTools/TriggerDecoder_tool.cc:479-483 | taking the first line twice changes nothing |
| LineText.FirstLineWithinCString | icaruscode/Decode/DecoderTools/TriggerDecoder_tool.cc:302-321 | the keyed parser's input (first line) is a prefix of the trigger string parser's input (C string) |
| KeyedFields.FindItem | icaruscode/Decode/DecoderTools/TriggerDecoder_tool.cc:330-331 | an item exactly when the key is present, carrying that key's values; its `nValues` is the number of values the line gives that key, which the decoder compares with 3 |
| KeyedFields.GetNumber | icaruscode/Decode/DecoderTools/TriggerDecoder_tool.cc:334-342 | succeeds if and only if the index exists and its value converts; the value is the converted one; a missing index is a "no such value" error |
| Gates.Classify | icaruscode/Decode/DecoderTools/TriggerDecoder_tool.cc:386-391 | BNB if and only if the gate type is 1, NuMI if and only if it is 2, Unknown for every other type |
| Gates.GateOf | icaruscode/Decode/DecoderTools/TriggerDecoder_tool.cc:441-452 | a gate exactly for the types the first switch knows, with the beam of that source, 1600 ns wide for BNB and 9500 ns for NuMI |
| TriggerDecoding.TriggerTimestamp | icaruscode/Decode/DecoderTools/TriggerDecoder_tool.cc:306-307 | `wr_ts` is the epoch fix plus the offset, modulo 2^64 |
| TriggerDecoding.ReconcileBeamGate | icaruscode/Decode/DecoderTools/TriggerDecoder_tool.cc:322-346 | the beam gate block as a function. It can only fail when `Beam_TS` has exactly three values, and then only because a value at index 0-2 is not a number; "no such value" cannot arise |
| TriggerDecoding.BeamGateFallback | icaruscode/Decode/DecoderTools/TriggerDecoder_tool.cc:322-332 | without a `Beam_TS` field of exactly three values the gate is the trigger time, with count `UINT_MAX`, and no error is raised |
| TriggerDecoding.BeamGateFromField | icaruscode/Decode/DecoderTools/TriggerDecoder_tool.cc:330-346 | with three values it fails if and only if one of them is not a number; otherwise the count is value 0 and the time is `wr_ts + makeTimestamp(v1, v2) - makeTimestamp(WR s, WR ns)` modulo 2^64 |
| TriggerDecoding.BeamGateKeepsRawOffset | icaruscode/Decode/DecoderTools/TriggerDecoder_tool.cc:333-345 | without wrap-around, the gate is as far from the trigger as the raw gate counters are from the raw White Rabbit counters: the trigger's correction is applied unchanged to the gate |
| TriggerDecoding.BeamGateWorkedExample | icaruscode/Decode/DecoderTools/TriggerDecoder_tool.cc:340-345 | `Beam_TS` = (5, 100 s, 250 ns) against WR counters 99 s 900000250 ns puts the gate 100 ms after the trigger, with count 5 |
| TriggerDecoding.BeamGateOfLine | icaruscode/Decode/DecoderTools/TriggerDecoder_tool.cc:321-346 | the in-place beam gate block computes exactly the reconciliation, error included |
| TriggerDecoding.Decode | icaruscode/Decode/DecoderTools/TriggerDecoder_tool.cc:297-346 | one fragment up to the first product update. A missing trigger fragment is a fragment error. A success holds the fragment, the info parsed from its C string, and `wr_ts` from that info and the offset; its first line parsed |
| TriggerDecoding.DecodeFailsExactly | icaruscode/Decode/DecoderTools/TriggerDecoder_tool.cc:297-346 | a fragment fails if and only if it is not a trigger fragment, the trigger string does not parse, the first line does not parse, or `Beam_TS` has three values that are not all numbers |
| TriggerDecoding.DecodeSucceeds | icaruscode/Decode/DecoderTools/TriggerDecoder_tool.cc:297-346 | when every parse succeeds, the fragment decodes to the parsed info, `wr_ts` and the reconciled gate |
| TriggerDecoding.DecodedTriggerTimestamp | icaruscode/Decode/DecoderTools/TriggerDecoder_tool.cc:306-307 | a decoded trigger time is the offset alone when the WR time is a sentinel; for a realistic WR time it is the combined timestamp of the leap-corrected seconds plus the offset |
| TriggerDecoding.DecodedBeamGate | icaruscode/Decode/DecoderTools/TriggerDecoder_tool.cc:321-346 | a decoded gate is the reconciliation of the first line against the trigger time; without a three-value `Beam_TS` it is the trigger time itself |
| TriggerDecoding.ExtraInfoOf | icaruscode/Decode/DecoderTools/TriggerDecoder_tool.cc:386-397 | the source type is Unknown exactly when the gate type opens no beam gate, otherwise the source of that gate's beam; the two timestamps, the trigger ID and the gate ID come from the decoded trigger time, beam gate time and trigger info |
| TriggerDecoding.CurrentTrigger | icaruscode/Decode/DecoderTools/TriggerDecoder_tool.cc:413-414 | the absolute trigger record carries the trigger ID and trigger timestamp of the extra information |
| TriggerDecoding.LastEventOf | icaruscode/Decode/DecoderTools/TriggerDecoder_tool.cc:419-425 | 0 for trigger 1; otherwise the trigger number minus 1 read as a signed 64-bit value, which equals it for numbers up to 2^63 |
| TriggerDecoding.PreviousTriggers | icaruscode/Decode/DecoderTools/TriggerDecoder_tool.cc:419-428 | no previous-trigger record if and only if the trigger number is 1; otherwise one, numbered `fLastEvent` and stamped with the fragment's last BNB timestamp |
| TriggerDecoding.GateStartFromTrigger | icaruscode/Decode/DecoderTools/TriggerDecoder_tool.cc:434-438 | the beam gate start relative to the trigger is congruent to gate - trigger modulo 2^64; it is 0 when the gate falls back to the trigger time, and exactly gate - trigger below 2^63 |
| TriggerDecoding.BeamGates | icaruscode/Decode/DecoderTools/TriggerDecoder_tool.cc:434-452 | no beam gate record if and only if the gate type is unknown; otherwise one, starting at diff(gate, trigger), with the beam and width of the gate type |
| TriggerDecoding.RelativeTriggerOf | icaruscode/Decode/DecoderTools/TriggerDecoder_tool.cc:457-462 | the relative trigger counter is the trigger ID modulo 2^32 (`static_cast<unsigned int>`); its bits are the source type of the extra information; its gate start is the difference of the extra information's gate and trigger timestamps |
| TriggerDecoding.DecodedKeepsProductsAgree | icaruscode/Decode/DecoderTools/TriggerDecoder_tool.cc:393-462 | appending one fragment's records keeps the data products in agreement |
| TriggerDecoding.TriggerDecoder.constructor | icaruscode/Decode/DecoderTools/TriggerDecoder_tool.cc:213-237 | `fOffset` is the `TAIOffset` parameter narrowed to `int`; `fLastEvent` starts at 0; the data products are not allocated yet, so no fragment can be processed |
| TriggerDecoding.DefaultOffsetSurvivesNarrowing | icaruscode/Decode/DecoderTools/TriggerDecoder_tool.cc:235 | the default `TAIOffset` of 2000000000 ns fits an `int`, so `fOffset` keeps it |
| TriggerDecoding.TriggerDecoder.InitializeDataProducts | icaruscode/Decode/DecoderTools/TriggerDecoder_tool.cc:239-249 | from any state: allocated, empty collections and default extra information; `fLastEvent` is kept; the products agree |
| TriggerDecoding.TriggerDecoder.ProcessFragment | icaruscode/Decode/DecoderTools/TriggerDecoder_tool.cc:297-466 | with the products allocated: on any parse failure it reports the error and changes nothing. Otherwise it replaces the extra information and appends one absolute record, one relative record, the previous-trigger records and the beam gate records that `Decode` gives. `fLastEvent` follows the trigger number and the products stay in agreement |
| TriggerDecoding.TriggerDecoder.RecordProducts | icaruscode/Decode/DecoderTools/TriggerDecoder_tool.cc:393-462 | the product updates of `process_fragment`, in source order: the extra information is replaced and the records of `Decode`'s result are appended, one absolute and one relative trigger, a previous trigger unless the ID is 1, a beam gate for a known gate type; `fLastEvent` follows the ID and the products stay in agreement |

## Left out

- TriggerDecoding.TriggerDecoder.constructor: the C++ leaves the five product pointers null until `initializeDataProducts`. The model does not represent null: its collection fields hold empty placeholders and `ready` is false, and `ProcessFragment` requires `ready`. So the null dereference of a `process_fragment` before `initializeDataProducts` is excluded rather than modelled. The moved-from (null) pointers after `outputDataProducts` are not modelled either.
- TriggerDecoding.ExternalTrigger: the trigger number is kept as an unbounded integer. The model does not convert it to the id type of `raw::ExternalTrigger`, whose declaration is not part of this model. It stores the `uint64_t` trigger ID and the `long` `fLastEvent` unchanged.
- The art framework plumbing is not modelled: `produces`, `outputDataProducts`, the `art::Event`, and the tool factory.
- `makeTriggerFragment` is taken as its outcome: a fragment view, or `None` where the constructor throws.
- `parse_ICARUSTriggerString`, `KeyedCSVparser` and the text-to-number conversion of `getNumber` are inputs of the model (`Parsers`). Each yields `None` where the C++ throws. Their own parsing rules are not part of this model.
- The types of the `ICARUSTriggerInfo`, `ICARUSTriggerUDPFragment` and `ExtraTriggerInfo` fields are not part of this model. The model assumes:
  - White Rabbit seconds and nanoseconds are `long` (64-bit);
  - the gate type is `int`;
  - the event number and gate id are 64-bit unsigned;
  - the fragment's White Rabbit counters are `unsigned int`;
  - `NoTimestamp` is `UINT64_MAX`;
  - a default `sourceType` is `Unknown`.
- The detector clock service is not modelled (`TriggerTime`, `toSimulationTime`), and neither is the `double` narrowing of the gate start. The beam gate and relative trigger records hold `timestampDiff(beamGate, trigger)`: the signed 64-bit difference before the `double` narrowing, which is exactly gate - trigger when both are below 2^63. The source derives its electronics and simulation times from this value.
- TriggerDecoding.RelativeTrigger: the trigger bits are recorded as the trigger source. The bit mask `mask()` is not part of this model.
- The diagnostic output is not modelled: the printouts, the 1000 ns cross-check against the artdaq timestamp (its message says 1 ms) and the fragment dump. The second parse of the first line is left out too. It runs the same parser on the same line as the first parse, so it cannot fail when the first one succeeded.
- The delta gate counters (`getDeltaGatesBNB` and the others) are read but never used, so they are not modelled.
- The beam gate count is only printed. The model computes it and exposes it in `Decoded`, but no data product holds it.
- TriggerDecoding.ReconcileBeamGate: C++ leaves unspecified which of the `getNumber(1U)` and `getNumber(2U)` calls runs first. When both fail, the model reports the error of value 1.
- Timestamps.TimestampDiff and TriggerDecoding.LastEventOf: signed overflow and out-of-range conversions are modelled as the two's complement wrap-around. In C++ the overflow is undefined behaviour.
- The log messages (`LogSystem`, `LogWarning` for an unsupported gate type) are not modelled.
