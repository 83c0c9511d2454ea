# canmatrix ARXML adapter — verified model of its core helpers

canmatrix converts CAN databases between formats. Its AUTOSAR XML adapter,
`src/canmatrix/formats/arxml.py`, reads and writes AUTOSAR 3 and 4 system
descriptions. This project models the parts of that adapter that are decision
logic rather than XML plumbing, and proves what they promise:

- the choice of an AUTOSAR base type (`sint8` … `uint64`, `single`, `double`)
  for a signal, and how signedness and float-ness are read back;
- the PACKING-BYTE-ORDER encoding of a signal's byte order, on export and on import;
- COMPU-METHOD decoding: the value table, the factor and offset from
  COMPU-RATIONAL-COEFFS, the errors malformed scales raise, the scales the
  exporter writes, and the scaling of the physical min/max;
- the frame send type and the timing attributes (GenMsgDelayTime, GenMsgCycleTime, …)
  taken from an I-PDU timing specification, in whole milliseconds;
- `arPath2xPath`, which turns an AUTOSAR path into an XPath query;
- the SHORT-NAME index (`arTree`, `arParseTree`, `arGetPath`): a tree of index
  nodes built from the XML document and walked with '/'-separated paths;
- export bookkeeping: the SW-BASE-TYPE declarations made once per base-type name,
  and the per-ECU transmit and receive I-PDU group lists.

Modules, one per file:

- `Wrappers`: Option and Result.
- `SeqLemmas`: sequence regrouping.
- `Numeric`: Python `int()` on Decimal values, and seconds to milliseconds.
- `Text`: `str.split`, `str.strip`, blankness.
- `BaseType`, `ByteOrder`, `CompuMethod`, `FrameTiming`, `ArPath`, `ArTree`, `ExportBookkeeping`.

Modelling choices:

- **Decimals.** The adapter's `float_factory` defaults to `decimal.Decimal`, so
  numbers are exact `real`s. `int()` is truncation toward zero. `Numeric.TruncOdd`
  records that this is not Dafny's floor. The timing texts (MINIMUM-DELAY and
  the VALUE elements) and the DATA-CONSTR limits, which `float_factory` may refuse,
  are `DecimalText`s: a number, or `NotANumber`. The COMPU-SCALE limits and the V
  coefficients are plain `real`s (see "## Left out").
- **Python exceptions.** An exception the code can raise (a `None.text`, an index
  past the end, a division by zero) is a `Failure` of a `Result`.
- **XML elements.** An element is modelled only by the data the code reads from it:
  - optional child elements are `Option`s;
  - for the index, an element is a value with an optional SHORT-NAME text, an
    identity and its children.
- **The index.** `arTree` is a class whose fields are updated in place. `New` and
  `GetChild` are its methods. `ParseTree`, `ParseChild` and `GetPath` are module-level
  methods that take a node, as `arParseTree` and `arGetPath` take one. All of them are
  proved against the ghost value `Tree` of the nodes.
- **Loops.** Loops of the source are loops in the model. Each loop carries an
  invariant that ties it to a specification function (`Decode`, `XPathOf`,
  `Attached`, `Lookup`, `Created`, `Groups`, `RxGroupsAsWritten`, `ValueScales`).
  The recursion of `arParseTree` is the pair of recursive methods `ParseTree` and
  `ParseChild`.
- **Nested loops.** The export's nested loops are split into one method per
  nesting level. `CreatedBaseTypes` calls `DeclareFrames`, which calls
  `DeclareSignals`. `IpduGroups` calls `VisitEcus`, which calls `VisitFrames`.

## Model

| member | source | states |
|---|---|---|
| BaseType.BaseTypeOfSignal | src/canmatrix/formats/arxml.py:57-91 | the width is always 8, 16, 32 or 64; it holds the signal whenever the size is at most 64; the name is a float name exactly when the signal is float |
| BaseType.IntegerBaseTypeIsSmallestContainer | src/canmatrix/formats/arxml.py:66-91 | for an integer signal of 1..64 bits: the smallest of 8/16/32/64 that holds it, named "sint"/"uint" by signedness followed by that width |
| BaseType.FloatBaseTypeIgnoresSignedness | src/canmatrix/formats/arxml.py:59-65 | a float signal gets ("double", 64) above 32 bits and ("single", 32) otherwise, whatever its signedness |
| BaseType.SizeDeterminedByName | src/canmatrix/formats/arxml.py:57-91 | two signals given the same base-type name are given the same width |
| BaseType.IsSignedFromBaseType | src/canmatrix/formats/arxml.py:1043-1050 | no base type reads as signed; an empty type name raises; otherwise unsigned exactly when the name starts with 'u' |
| BaseType.SignednessRoundTrip | src/canmatrix/formats/arxml.py:1043-1050 | in AUTOSAR 4, where the base-type name is written, reading it back recovers an integer signal's signedness |
| BaseType.FloatBaseTypeReadsSigned | src/canmatrix/formats/arxml.py:1043-1050 | a float signal's base type ("single"/"double") reads back as signed |
| BaseType.Ar3Encoding | src/canmatrix/formats/arxml.py:500-505 | an ENCODING element is written exactly for float signals, "DOUBLE" exactly when the base type is "double" |
| BaseType.IsFloatFromAr3Encoding | src/canmatrix/formats/arxml.py:994-997 | float exactly when ENCODING reads "SINGLE" or "DOUBLE" |
| BaseType.Ar3EncodingRoundTrip | src/canmatrix/formats/arxml.py:500-505 | exporting and re-reading the AUTOSAR 3 encoding preserves float-ness |
| BaseType.Ar4BaseTypeEncoding | src/canmatrix/formats/arxml.py:525-526 | BASE-TYPE-ENCODING is written exactly for float signals |
| BaseType.IsFloatFromAr4BaseType | src/canmatrix/formats/arxml.py:1005-1012 | float when it already was, or when no COMPU-METHOD was found and BASE-TYPE-ENCODING reads "IEEE754"; a found COMPU-METHOD leaves the flag unchanged |
| BaseType.Ar4EncodingRoundTripWithoutCompuMethod | src/canmatrix/formats/arxml.py:1007-1012 | where no COMPU-METHOD is found, the written encoding reads back as the signal's float-ness |
| BaseType.Ar4FloatLostOnReimport | src/canmatrix/formats/arxml.py:1007-1012 | the export writes "IEEE754" for a float signal, yet with the COMPU-METHOD the export also refers to, the reader reads it as not float |
| BaseType.IsFloatFromAr4BaseTypeIntended | src/canmatrix/formats/arxml.py:1010-1012 | the intended reader: float when it already was or when the encoding reads "IEEE754"; it agrees with the source's reader wherever no COMPU-METHOD is found |
| BaseType.Ar4EncodingRoundTrip | src/canmatrix/formats/arxml.py:525-526 | with the intended reader, exporting and re-reading the AUTOSAR 4 encoding preserves float-ness |
| ByteOrder.PackingByteOrder | src/canmatrix/formats/arxml.py:345-367 | MSB-last exactly for little-endian signals, MSB-first exactly for big-endian ones |
| ByteOrder.IsLittleEndianFromPacking | src/canmatrix/formats/arxml.py:1077-1080 | little-endian exactly when the element is present and reads MSB-last; absent means big-endian |
| ByteOrder.SelectorIsLittleEndian | src/canmatrix/formats/arxml.py:1186-1188 | a missing selector byte order raises; otherwise little-endian exactly for MSB-last |
| ByteOrder.PackingRoundTrip | src/canmatrix/formats/arxml.py:345-367 | export followed by import preserves the little-endian flag |
| ByteOrder.SelectorAgreesWithSignal | src/canmatrix/formats/arxml.py:1186-1188 | a present selector byte order reads the same as a signal's |
| Numeric.Trunc | src/canmatrix/formats/arxml.py:897 | Python `int()`: the integer part, rounded toward zero on both sides of zero |
| Numeric.Millis | src/canmatrix/formats/arxml.py:1245 | `int(seconds * 1000)`: within one millisecond of the exact value, rounded toward zero |
| Numeric.TruncOdd | src/canmatrix/formats/arxml.py:897 | truncation is odd: int(-x) == -int(x) |
| Numeric.MillisExact | src/canmatrix/formats/arxml.py:1245 | a whole number of milliseconds survives the conversion exactly |
| Text.Split | src/canmatrix/formats/arxml.py:781 | at least one piece, and no piece holds the separator |
| Text.JoinSplit | src/canmatrix/formats/arxml.py:781 | joining the pieces of a split restores the string |
| Text.SplitJoin | src/canmatrix/formats/arxml.py:781 | splitting a join of separator-free pieces restores the pieces |
| Text.Strip | src/canmatrix/formats/arxml.py:781 | the result is a stretch of the input with only the stripped character around it, and neither starts nor ends with it |
| CompuMethod.DecodeCompuMethod | src/canmatrix/formats/arxml.py:878-918 | the loop's result equals the scale-by-scale reading `Decode`, including the first exception a malformed scale raises |
| CompuMethod.FailureSticks | src/canmatrix/formats/arxml.py:885-917 | once a scale raises, reading the whole list raises the same exception |
| CompuMethod.LastEntry | src/canmatrix/formats/arxml.py:897-900 | the index found satisfies the value-table rule for the key and no later scale does; none means no scale does |
| CompuMethod.ValueTableRule | src/canmatrix/formats/arxml.py:897-900 | a key is in the value table exactly when some scale with equal truncated limits has that lower-limit text, mapped to the label of the last such scale |
| CompuMethod.LastRational | src/canmatrix/formats/arxml.py:903-911 | the index found has rational coefficients and no later scale does; none means no scale has them |
| CompuMethod.ScalingRule | src/canmatrix/formats/arxml.py:880-911 | factor and offset are n1/d0 and n0/d0 of the last scale with rational coefficients, else 1 and 0 |
| CompuMethod.ScalingMeaning | src/canmatrix/formats/arxml.py:903-911 | raw * factor + offset equals the rational function (n0 + n1*raw)/d0 of that last scale |
| CompuMethod.CoefficientsGiveRationalValue | src/canmatrix/formats/arxml.py:910-911 | with factor n1/d0 and offset n0/d0, raw * factor + offset is the rational function (n0 + n1*raw)/d0 |
| CompuMethod.ValueScale | src/canmatrix/formats/arxml.py:548-556 | the scale written for an entry raises nothing on re-read, has no coefficients, and is a value-table entry for the reader exactly when its label is nonempty |
| CompuMethod.ReadableMembers | src/canmatrix/formats/arxml.py:1313-1316 | an entry survives a write and a re-read exactly when its label is nonempty |
| CompuMethod.ExportCompuScales | src/canmatrix/formats/arxml.py:548-567 | the loop writes one scale per value-table entry, in order, then the rational scale of the for-else: exactly `ExportScales`, which ExportRoundTrip reads back |
| CompuMethod.ValueScalesDecode | src/canmatrix/formats/arxml.py:548-558 | the value scales the exporter writes read back as the table of their entries with a nonempty label (an empty label is read back as no text and skipped), with factor 1 and offset 0 |
| CompuMethod.ExportRoundTrip | src/canmatrix/formats/arxml.py:548-567 | reading back what the exporter writes recovers the value table less its empty-labelled entries, and the factor and offset as printed |
| CompuMethod.EmptyLabelDropped | src/canmatrix/formats/arxml.py:548-558 | an entry "0" with an empty label is in the exported table but not in the table read back |
| CompuMethod.ScaleRange | src/canmatrix/formats/arxml.py:999-1001 | raises exactly when both limits are present and one is not a number; otherwise min and max are present exactly when both limits are, each the limit put through the signal's own conversion, and both equal the offset when the factor is 0 |
| CompuMethod.ScaleRangeOrder | src/canmatrix/formats/arxml.py:1034-1039 | a positive factor keeps min <= max, a negative one swaps them, a nonzero one lets each raw limit be recovered |
| FrameTiming.TimingAttributes | src/canmatrix/formats/arxml.py:1228-1275 | raises exactly when MINIMUM-DELAY or a VALUE that is used is not a number, or STARTING-TIME has no VALUE; the missing VALUE is the error reported unless the delay failed first; otherwise only the five timing attribute names, with a send type from the GenMsgSendType enumeration |
| FrameTiming.SendTypeTable | src/canmatrix/formats/arxml.py:1242-1257 | "cyclicAndSpontanX" with both timings, "cyclicX" with only cyclic timing, "spontanX" without cyclic timing |
| FrameTiming.DelayTimeRule | src/canmatrix/formats/arxml.py:1242-1259 | in every branch GenMsgDelayTime is present exactly when MINIMUM-DELAY is, as int(delay * 1000) |
| FrameTiming.RepetitionsRule | src/canmatrix/formats/arxml.py:1242-1259 | GenMsgNrOfRepetitions is present exactly when NUMBER-OF-REPEATS is, with its text |
| FrameTiming.StartDelayRule | src/canmatrix/formats/arxml.py:1261-1267 | GenMsgStartDelayTime from STARTING-TIME, else for cyclic PDUs from TIME-OFFSET's VALUE when present |
| FrameTiming.CycleTimeRule | src/canmatrix/formats/arxml.py:1269-1275 | GenMsgCycleTime only for cyclic PDUs: from REPEATING-TIME, else from TIME-PERIOD when present |
| FrameTiming.NoTimingIsSpontaneous | src/canmatrix/formats/arxml.py:1242-1275 | a PDU with no timing gets only GenMsgSendType "spontanX" |
| ArPath.ArPath2XPath | src/canmatrix/formats/arxml.py:779-791 | the query built by the loop is ".", one SHORT-NAME step per inner element, then the step for the last element (typed when a destination is given) |
| ArPath.XPathOfJoinedPath | src/canmatrix/formats/arxml.py:779-791 | for a path of names with any '/' around it, one step per name but the last, in order, then the last step |
| ArTree.ArTree.constructor | src/canmatrix/formats/arxml.py:740-743 | a node with the given name and element and no children |
| ArTree.ArTree.New | src/canmatrix/formats/arxml.py:744-747 | appends exactly one fresh child, keeps the existing children in order, returns the new child |
| ArTree.ArTree.GetChild | src/canmatrix/formats/arxml.py:748-751 | the first child with that name, or null exactly when no child has it |
| ArTree.FindChild | src/canmatrix/formats/arxml.py:748-751 | the position of the first match, none exactly when nothing matches |
| ArTree.FindChildIsFirst | src/canmatrix/formats/arxml.py:748-751 | a child that has the name, with no earlier child having it, is the one found |
| ArTree.ParseTree | src/canmatrix/formats/arxml.py:754-762 | the node gains exactly the index nodes `Attached` describes, after its existing children, and stays a well-formed tree |
| ArTree.ParseChild | src/canmatrix/formats/arxml.py:757-762 | a named child becomes one node filled from its children; an unnamed child's children attach to the current node |
| ArTree.BuildIndex | src/canmatrix/formats/arxml.py:739-762 | a fresh root with no name and no element holding the index of the document |
| ArTree.AttachedRefs | src/canmatrix/formats/arxml.py:754-762 | the index has one node per element with a SHORT-NAME, referring to it, in document order |
| ArTree.GetPath | src/canmatrix/formats/arxml.py:811-826 | the loop's answer is `PathRef`: the element of the node the path leads to, or none |
| ArTree.BlankSegmentsIgnored | src/canmatrix/formats/arxml.py:814-815 | empty and whitespace-only segments do not change the result |
| ArTree.LookupAppend | src/canmatrix/formats/arxml.py:814-822 | a path is resolved prefix first; once a segment has no match the result is none |
| ArTree.JoinedPathRef | src/canmatrix/formats/arxml.py:811-826 | a path of '/'-joined names resolves by walking those names in turn |
| ArTree.LeadingSlashIgnored | src/canmatrix/formats/arxml.py:811-826 | "/" + p resolves like p |
| ArTree.DoubledSlashIgnored | src/canmatrix/formats/arxml.py:811-826 | "a//b" resolves like "a/b" |
| ArTree.BlankPathIsRoot | src/canmatrix/formats/arxml.py:823-826 | a path with no non-blank segment gives the root's own element |
| ExportBookkeeping.CreatedBaseTypes | src/canmatrix/formats/arxml.py:510-526 | the declarations made by the loops are `Created` of the exported signals, in order |
| ExportBookkeeping.DeclareSignals | src/canmatrix/formats/arxml.py:517-526 | the innermost loop extends the declarations exactly as `Created` does |
| ExportBookkeeping.DeclareFrames | src/canmatrix/formats/arxml.py:513-526 | complex-multiplexed frames are skipped; the other frames' signals are declared in order |
| ExportBookkeeping.EntryOf | src/canmatrix/formats/arxml.py:521-526 | IEEE754 is written exactly for the float base-type names |
| ExportBookkeeping.EntryDeterminedByName | src/canmatrix/formats/arxml.py:519-526 | two signals whose base types share a name declare the same SW-BASE-TYPE, so skipping a repeated name loses nothing |
| ExportBookkeeping.CreatedDistinct | src/canmatrix/formats/arxml.py:519-520 | no base-type name is declared twice |
| ExportBookkeeping.CreatedSound | src/canmatrix/formats/arxml.py:517-526 | every declaration is the base type of some exported signal |
| ExportBookkeeping.CreatedCovers | src/canmatrix/formats/arxml.py:517-526 | every exported signal's base type is declared |
| ExportBookkeeping.CreatedGrows | src/canmatrix/formats/arxml.py:519-520 | declarations are only ever appended |
| ExportBookkeeping.IpduGroups | src/canmatrix/formats/arxml.py:583-648 | the transmit map the loops build is `Groups(…, "_Tx", true)`, the receive map is `RxGroupsAsWritten` |
| ExportBookkeeping.VisitEcus | src/canmatrix/formats/arxml.py:592-648 | every ECU of a matrix makes its pass over the frames, in order |
| ExportBookkeeping.VisitFrames | src/canmatrix/formats/arxml.py:619-648 | one ECU's pass appends each transmitted frame to its Tx list and applies the receive update for each received frame |
| ExportBookkeeping.GroupsContent | src/canmatrix/formats/arxml.py:628-630 | ECU e has a Tx list exactly when it transmits an exported frame, and the list is all of them, in order |
| ExportBookkeeping.GroupsKeys | src/canmatrix/formats/arxml.py:628-630 | every key belongs to an ECU that transmits or receives some visited frame |
| ExportBookkeeping.RxKeysEndWithRx | src/canmatrix/formats/arxml.py:646-648 | every receive-group key ends with "_Rx" |
| ExportBookkeeping.RxTestAlwaysMisses | src/canmatrix/formats/arxml.py:646 | the existence test on "_Tx" never finds a key in the receive map |
| ExportBookkeeping.RxGroupsKeepOnlyLast | src/canmatrix/formats/arxml.py:646-648 | an ECU has an Rx list exactly when it receives an exported frame, but the list holds only the last one |
| ExportBookkeeping.RxGroupsDropEarlierFrames | src/canmatrix/formats/arxml.py:646-648 | for ECU "E" receiving "F1" then "F2", the list is ["F2"] while the intended one is ["F1", "F2"] |

## Left out

- XML I/O is not modelled, because it is done by lxml: building and serialising
  elements in `dump`, parsing in `load`, `findall`/`find`, and the XPath evaluation
  in `getArPath` with its global `ArCache`.
- The XML navigation in `get_signals`, `get_frame`, `process_ecu` and
  `extract_cm_from_ecuc` (`arGetChild`, `arGetXchildren`) is not modelled. Only
  the decision logic it feeds (byte order, signedness, float-ness, compu method,
  min/max, timing) is.
- The canmatrix package (`Signal`, `Frame`, `Frame.encode`, start-bit conversions,
  `add_signal`, `add_attribute`) is not part of this model.
- Float formatting is not modelled: the `"%g"` text of factor and offset on
  export, and `str()` of the millisecond attributes. Attributes are kept as numbers.
- Decimal arithmetic is modelled as exact reals, not with its 28-digit context.
  Decimal division by zero is modelled as an error, `ZeroDenominator`.
  Decimal's infinities and NaN ("Infinity", "-INF", "NaN") are not modelled: a limit
  or time text such as "-INF" is neither a number nor `NotANumber` in the model, so
  `CompuMethod.ScaleRange` and `FrameTiming.TimingAttributes` say nothing about it.
- `guess_value` is not modelled.
- The UNIT element read by `decodeCompuMethod` and the unit export are not modelled.
- Logging calls and the module-level globals `pduFrameMapping` and `signalRxs` are left out.
- CompuMethod.ExportRoundTrip: the exporter prints factor and offset with `"%g"`, six significant
  digits. The lemma takes the printed text to denote the value itself, so exactness holds
  only for factors and offsets that `%g` prints exactly.
- BaseType.SignednessRoundTrip: covers AUTOSAR 4 only. The AUTOSAR 3 INTEGER-TYPE export
  writes no base type, and the reader then takes every integer signal as signed.
- CompuMethod.ExportCompuScales: takes the value table already in the order
  `sorted(signal.values, key=lambda x: int(x))` gives it. The sort itself and the
  ValueError `int()` raises for a key that is not an integer are not modelled. The keys of
  a dictionary are distinct, so another order would give ExportRoundTrip the same table.
- CompuMethod.DecodeCompuMethod: an element without text (`None` text) is modelled
  only for the label. Every LOWER-LIMIT, UPPER-LIMIT and V value is taken to
  hold a number.
- ExportBookkeeping.IpduGroups: the groups are maps. The dictionary iteration
  order used later to write the I-PDU groups is not modelled.
- ExportBookkeeping.CreatedBaseTypes: covers only the AUTOSAR 4 branch. The
  AUTOSAR 3 branch writes one type element per signal and is not deduplicated.
- ArTree.ParseTree: elements are values. Whether a SHORT-NAME element has text
  is not modelled; a SHORT-NAME is a string.
- ArTree.GetPath: the `try`/`except` around `getChild` has nothing to catch in the model.
- setup.py is packaging metadata and is not part of this model.

## Findings

| source | as written | input that shows it | evidently intended | confidence | as-written member | corrected member |
|---|---|---|---|---|---|---|
| src/canmatrix/formats/arxml.py:1007-1012 | reads BASE-TYPE-ENCODING only when no COMPU-METHOD was found, while the AUTOSAR 4 export always gives each I-SIGNAL a COMPU-METHOD-REF to a COMPU-METHOD it writes | export one float signal to AUTOSAR 4 and read it back: the base type says "IEEE754", the signal reads back as not float | "IEEE754" marks the signal as float whether or not it has a COMPU-METHOD | not executed | BaseType.Ar4FloatLostOnReimport | BaseType.Ar4EncodingRoundTrip |
| src/canmatrix/formats/arxml.py:646-648 | checks `ecu.name + "_Tx"` in the receive map, then resets `ecu.name + "_Rx"` to an empty list, for every received frame | one matrix, ECU "E" receiving exported frames "F1" and "F2": the receive group becomes ["F2"] | check the "_Rx" key, so the receive group of an ECU lists every frame it receives, ["F1", "F2"] | not executed | ExportBookkeeping.RxGroupsDropEarlierFrames | ExportBookkeeping.GroupsContent |
