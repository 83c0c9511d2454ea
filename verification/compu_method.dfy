/**
 * COMPU-METHOD decoding (`decodeCompuMethod`): the value table and the linear
 * scaling (factor, offset) a signal gets from its COMPU-SCALEs, the scales the
 * exporter writes for the same data, and the scaling of the physical range.
 */
module CompuMethod {
  import opened Wrappers
  import opened Numeric

  /** A LOWER-LIMIT or UPPER-LIMIT element: its text and the Decimal that text reads as. */
  datatype Limit = Limit(text: string, value: real)

  /** COMPU-RATIONAL-COEFFS: the V values under COMPU-NUMERATOR and under COMPU-DENOMINATOR, in order. */
  datatype RationalCoeffs = RationalCoeffs(numerator: seq<real>, denominator: seq<real>)

  /**
   * One COMPU-SCALE as the reader sees it. `desc` is the scale's label: the
   * SHORT-LABEL text when there is one, otherwise the DESC text (`get_desc`,
   * which yields "" for a scale without DESC); None stands for an element
   * without text. `compuConst` identifies the COMPU-CONST element, if any.
   */
  datatype CompuScale = CompuScale(
    lowerLimit: Option<Limit>,
    upperLimit: Option<Limit>,
    desc: Option<string>,
    rational: Option<RationalCoeffs>,
    compuConst: Option<nat>)

  /** What `decodeCompuMethod` returns, less the UNIT element: value table, factor, offset and COMPU-CONST. */
  datatype Scaling = Scaling(values: map<string, string>, factor: real, offset: real, compuConst: Option<nat>)

  /** The exceptions a malformed COMPU-SCALE raises in the reader. */
  datatype CompuError =
    | MissingUpperLimit        // `ul.text` on a missing UPPER-LIMIT
    | MissingNumeratorValue    // `zaehler[1]` with fewer than two numerator values
    | MissingDenominatorValue  // `nenner[0]` with no denominator value
    | ZeroDenominator          // Decimal division by zero

  /** The scaling a signal has before any COMPU-SCALE is read: factor 1, offset 0, no values. */
  const NoScaling: Scaling := Scaling(map[], 1.0, 0.0, None)

  /** A scale with a lower limit and a label is a value-table candidate, and then its upper limit is read. */
  predicate IsLabelled(s: CompuScale)
  {
    s.lowerLimit.Some? && s.desc.Some?
  }

  /** The value-table rule: a labelled scale whose limits agree once truncated to integers. */
  predicate IsValueEntry(s: CompuScale)
  {
    IsLabelled(s) && s.upperLimit.Some? && Trunc(s.upperLimit.value.value) == Trunc(s.lowerLimit.value.value)
  }

  /** The first exception reading this scale raises, if any. */
  function ScaleError(s: CompuScale): Option<CompuError>
  {
    if IsLabelled(s) && s.upperLimit.None? then Some(MissingUpperLimit)
    else match s.rational
      case None => None
      case Some(rc) =>
        if |rc.numerator| < 2 then Some(MissingNumeratorValue)
        else if |rc.denominator| < 1 then Some(MissingDenominatorValue)
        else if rc.denominator[0] == 0.0 then Some(ZeroDenominator)
        else None
  }

  /** Reading one more scale: add its value-table entry, then take its coefficients or its COMPU-CONST. */
  function Step(m: Scaling, s: CompuScale): Result<Scaling, CompuError>
  {
    match ScaleError(s)
    case Some(e) => Failure(e)
    case None =>
      var values := if IsValueEntry(s) then m.values[s.lowerLimit.value.text := s.desc.value] else m.values;
      match s.rational
      case Some(rc) =>
        Success(Scaling(values, rc.numerator[1] / rc.denominator[0], rc.numerator[0] / rc.denominator[0], m.compuConst))
      case None => Success(Scaling(values, m.factor, m.offset, s.compuConst))
  }

  /** The reading of a whole COMPU-SCALES list, scale by scale in document order. */
  function Decode(scales: seq<CompuScale>): Result<Scaling, CompuError>
  {
    if scales == [] then Success(NoScaling)
    else
      match Decode(scales[..|scales| - 1])
      case Failure(e) => Failure(e)
      case Success(m) => Step(m, scales[|scales| - 1])
  }

  /** Once a scale raises, the whole decoding raises the same exception. */
  lemma {:induction false} FailureSticks(scales: seq<CompuScale>, i: nat, e: CompuError)
    requires i <= |scales|
    requires Decode(scales[..i]) == Failure(e)
    ensures Decode(scales) == Failure(e)
    decreases |scales| - i
  {
    if i < |scales| {
      assert scales[..i + 1][..i] == scales[..i];
      FailureSticks(scales, i + 1, e);
    } else {
      assert scales[..i] == scales;
    }
  }

  /**
   * `decodeCompuMethod`'s loop: factor and offset start at 1 and 0 and are
   * overwritten by every scale with rational coefficients; labelled scales whose
   * limits agree add `lower-limit text -> label` to the value table.
   */
  method DecodeCompuMethod(scales: seq<CompuScale>) returns (r: Result<Scaling, CompuError>)
    ensures r == Decode(scales)
  {
    var values: map<string, string> := map[];
    var factor := 1.0;
    var offset := 0.0;
    var compuConst: Option<nat> := None;
    var i := 0;
    while i < |scales|
      invariant 0 <= i <= |scales|
      invariant Decode(scales[..i]) == Success(Scaling(values, factor, offset, compuConst))
    {
      var s := scales[i];
      assert scales[..i + 1][..i] == scales[..i];
      if s.lowerLimit.Some? && s.desc.Some? {
        if s.upperLimit.None? {
          FailureSticks(scales, i + 1, MissingUpperLimit);
          return Failure(MissingUpperLimit);
        }
        if Trunc(s.upperLimit.value.value) == Trunc(s.lowerLimit.value.value) {
          values := values[s.lowerLimit.value.text := s.desc.value];
        }
      }
      match s.rational {
        case Some(rc) =>
          if |rc.numerator| < 2 {
            FailureSticks(scales, i + 1, MissingNumeratorValue);
            return Failure(MissingNumeratorValue);
          }
          if |rc.denominator| < 1 {
            FailureSticks(scales, i + 1, MissingDenominatorValue);
            return Failure(MissingDenominatorValue);
          }
          if rc.denominator[0] == 0.0 {
            FailureSticks(scales, i + 1, ZeroDenominator);
            return Failure(ZeroDenominator);
          }
          factor := rc.numerator[1] / rc.denominator[0];
          offset := rc.numerator[0] / rc.denominator[0];
        case None =>
          compuConst := s.compuConst;
      }
      i := i + 1;
    }
    assert scales[..i] == scales;
    return Success(Scaling(values, factor, offset, compuConst));
  }

  /** The key a value-table scale contributes: the text of its LOWER-LIMIT. */
  function EntryKey(s: CompuScale): string
    requires IsLabelled(s)
  {
    s.lowerLimit.value.text
  }

  /** Index of the last scale that satisfies the value-table rule with lower-limit text `k`, if any. */
  function LastEntry(scales: seq<CompuScale>, k: string): (r: Option<nat>)
    ensures r.Some? ==> r.value < |scales| && IsValueEntry(scales[r.value]) && EntryKey(scales[r.value]) == k
    ensures r.Some? ==> forall j :: r.value < j < |scales| && IsValueEntry(scales[j]) ==> EntryKey(scales[j]) != k
    ensures r.None? ==> forall j :: 0 <= j < |scales| && IsValueEntry(scales[j]) ==> EntryKey(scales[j]) != k
  {
    if scales == [] then None
    else
      var s := scales[|scales| - 1];
      if IsValueEntry(s) && EntryKey(s) == k then Some(|scales| - 1) else LastEntry(scales[..|scales| - 1], k)
  }

  /**
   * The value table holds a key exactly when some scale satisfies the value-table
   * rule with that lower-limit text, and maps it to the label of the last such scale.
   */
  lemma {:induction false} ValueTableRule(scales: seq<CompuScale>, m: Scaling, k: string)
    requires Decode(scales) == Success(m)
    ensures k in m.values <==> LastEntry(scales, k).Some?
    ensures k in m.values ==> m.values[k] == scales[LastEntry(scales, k).value].desc.value
  {
    if scales != [] {
      var init := scales[..|scales| - 1];
      ValuesStep(scales, m);
      ValueTableRule(init, Decode(init).value, k);
    }
  }

  /** One more successful scale adds its value-table entry, if it has one, and nothing else to the table. */
  lemma ValuesStep(scales: seq<CompuScale>, m: Scaling)
    requires scales != [] && Decode(scales) == Success(m)
    ensures Decode(scales[..|scales| - 1]).Success?
    ensures var m0 := Decode(scales[..|scales| - 1]).value; var s := scales[|scales| - 1];
      m.values == if IsValueEntry(s) then m0.values[EntryKey(s) := s.desc.value] else m0.values
  {
  }

  /** Index of the last scale with rational coefficients, if any. */
  function LastRational(scales: seq<CompuScale>): (r: Option<nat>)
    ensures r.Some? ==> r.value < |scales| && scales[r.value].rational.Some?
    ensures r.Some? ==> forall j :: r.value < j < |scales| ==> scales[j].rational.None?
    ensures r.None? ==> forall j :: 0 <= j < |scales| ==> scales[j].rational.None?
  {
    if scales == [] then None
    else if scales[|scales| - 1].rational.Some? then Some(|scales| - 1)
    else LastRational(scales[..|scales| - 1])
  }

  /**
   * Without rational coefficients a signal keeps factor 1 and offset 0; otherwise
   * its factor and offset are those of the last scale with coefficients.
   */
  lemma {:induction false} ScalingRule(scales: seq<CompuScale>, m: Scaling)
    requires Decode(scales) == Success(m)
    ensures LastRational(scales).None? ==> m.factor == 1.0 && m.offset == 0.0
    ensures LastRational(scales).Some? ==>
      var rc := scales[LastRational(scales).value].rational.value;
      && |rc.numerator| >= 2 && |rc.denominator| >= 1 && rc.denominator[0] != 0.0
      && m.factor == rc.numerator[1] / rc.denominator[0]
      && m.offset == rc.numerator[0] / rc.denominator[0]
  {
    if scales != [] {
      var n := |scales| - 1;
      match Decode(scales[..n])
      case Failure(e) =>
      case Success(m0) =>
        ScalingRule(scales[..n], m0);
    }
  }

  /** The physical value of a raw value under a scaling. */
  function Physical(m: Scaling, raw: real): real
  {
    raw * m.factor + m.offset
  }

  /** The AUTOSAR rational function of a scale's coefficients: `(n0 + n1 * raw) / d0`. */
  function RationalValue(rc: RationalCoeffs, raw: real): real
    requires |rc.numerator| >= 2 && |rc.denominator| >= 1 && rc.denominator[0] != 0.0
  {
    (rc.numerator[0] + rc.numerator[1] * raw) / rc.denominator[0]
  }

  /**
   * Taking factor `n1 / d0` and offset `n0 / d0` computes, for every raw value,
   * the same physical value as the rational function of the last scale with
   * coefficients.
   */
  lemma ScalingMeaning(scales: seq<CompuScale>, m: Scaling, raw: real)
    requires Decode(scales) == Success(m)
    requires LastRational(scales).Some?
    ensures var rc := scales[LastRational(scales).value].rational.value;
      && |rc.numerator| >= 2 && |rc.denominator| >= 1 && rc.denominator[0] != 0.0
      && Physical(m, raw) == RationalValue(rc, raw)
  {
    ScalingRule(scales, m);
    var rc := scales[LastRational(scales).value].rational.value;
    CoefficientsGiveRationalValue(m, rc, raw);
  }

  /** Factor `n1 / d0` and offset `n0 / d0` compute the rational function `(n0 + n1 * raw) / d0`. */
  lemma CoefficientsGiveRationalValue(m: Scaling, rc: RationalCoeffs, raw: real)
    requires |rc.numerator| >= 2 && |rc.denominator| >= 1 && rc.denominator[0] != 0.0
    requires m.factor == rc.numerator[1] / rc.denominator[0] && m.offset == rc.numerator[0] / rc.denominator[0]
    ensures Physical(m, raw) == RationalValue(rc, raw)
  {
    RationalIsAffine(rc.numerator[0], rc.numerator[1], rc.denominator[0], raw);
  }

  /** `(a + b * x) / d == x * (b / d) + a / d` for a nonzero `d`. */
  lemma RationalIsAffine(a: real, b: real, d: real, x: real)
    requires d != 0.0
    ensures x * (b / d) + a / d == (a + b * x) / d
  {
    calc {
      (x * (b / d) + a / d) * d;
      x * (b / d) * d + (a / d) * d;
      x * b + a;
    }
  }

  /** One row of a signal's value table as the exporter writes it: the raw value's text and its label. */
  datatype ValueEntry = ValueEntry(raw: Limit, name: string)

  /** The value table an exporter's entries stand for; a later entry for the same text wins. */
  function EntriesMap(entries: seq<ValueEntry>): map<string, string>
  {
    if entries == [] then map[]
    else EntriesMap(entries[..|entries| - 1])[entries[|entries| - 1].raw.text := entries[|entries| - 1].name]
  }

  /**
   * The COMPU-SCALE written for one value-table entry, as the reader sees it: equal
   * limits, the label as DESC text, a COMPU-CONST. An empty label is written as an
   * L-2 element without content, which reads back as an element without text.
   */
  function ValueScale(e: ValueEntry, constId: nat): (s: CompuScale)
    ensures IsValueEntry(s) <==> e.name != ""
    ensures s.rational.None? && ScaleError(s).None?
  {
    CompuScale(Some(e.raw), Some(e.raw), if e.name == "" then None else Some(e.name), None, Some(constId))
  }

  /** The entries that survive a write and a re-read: those with a nonempty label, in order. */
  function Readable(entries: seq<ValueEntry>): (r: seq<ValueEntry>)
    ensures |r| <= |entries|
  {
    if entries == [] then []
    else
      var last := entries[|entries| - 1];
      Readable(entries[..|entries| - 1]) + (if last.name == "" then [] else [last])
  }

  /** The readable entries are exactly the entries with a nonempty label. */
  lemma {:induction false} ReadableMembers(entries: seq<ValueEntry>, e: ValueEntry)
    ensures e in Readable(entries) <==> e in entries && e.name != ""
  {
    if entries != [] {
      var init, last := entries[..|entries| - 1], entries[|entries| - 1];
      ReadableMembers(init, e);
      assert entries == init + [last];
    }
  }

  /**
   * The scales the exporter writes for a signal: one per value-table entry, then
   * one with numerator (offset, factor) and denominator 1, and no DESC, which the
   * reader labels "".
   */
  function ExportScales(entries: seq<ValueEntry>, factor: real, offset: real): (scales: seq<CompuScale>)
    ensures |scales| == |entries| + 1
  {
    ValueScales(entries) + [CompuScale(None, None, Some(""), Some(RationalCoeffs([offset, factor], [1.0])), None)]
  }

  function ValueScales(entries: seq<ValueEntry>): (scales: seq<CompuScale>)
    ensures |scales| == |entries|
    ensures forall i :: 0 <= i < |entries| ==> scales[i] == ValueScale(entries[i], i)
  {
    seq(|entries|, i requires 0 <= i < |entries| => ValueScale(entries[i], i))
  }

  /**
   * The exporter's loop over the value table, taken in the order its sort gives, with the `else` branch of
   * that `for` (always taken, as the loop has no `break`) writing the rational scale.
   */
  method ExportCompuScales(entries: seq<ValueEntry>, factor: real, offset: real) returns (scales: seq<CompuScale>)
    ensures scales == ExportScales(entries, factor, offset)
  {
    scales := [];
    var i := 0;
    while i < |entries|
      invariant 0 <= i <= |entries|
      invariant scales == ValueScales(entries[..i])
    {
      assert ValueScales(entries[..i + 1]) == ValueScales(entries[..i]) + [ValueScale(entries[i], i)];
      scales := scales + [ValueScale(entries[i], i)];
      i := i + 1;
    }
    assert entries[..i] == entries;
    scales := scales + [CompuScale(None, None, Some(""), Some(RationalCoeffs([offset, factor], [1.0])), None)];
  }

  /** Value scales alone decode to the table of their labelled entries, with factor 1 and offset 0. */
  lemma {:induction false} ValueScalesDecode(entries: seq<ValueEntry>)
    ensures Decode(ValueScales(entries)).Success?
    ensures Decode(ValueScales(entries)).value.values == EntriesMap(Readable(entries))
    ensures Decode(ValueScales(entries)).value.factor == 1.0
    ensures Decode(ValueScales(entries)).value.offset == 0.0
  {
    if entries != [] {
      var n := |entries| - 1;
      var init, last := entries[..n], entries[n];
      ValueScalesDecode(init);
      DecodeValueScaleStep(entries);
      ReadableStep(entries);
    }
  }

  /** Decoding one more value scale adds its entry when it is labelled, and changes nothing else that is read back. */
  lemma DecodeValueScaleStep(entries: seq<ValueEntry>)
    requires entries != [] && Decode(ValueScales(entries[..|entries| - 1])).Success?
    ensures var m := Decode(ValueScales(entries[..|entries| - 1])).value;
      var last := entries[|entries| - 1];
      && Decode(ValueScales(entries)).Success?
      && Decode(ValueScales(entries)).value.factor == m.factor
      && Decode(ValueScales(entries)).value.offset == m.offset
      && Decode(ValueScales(entries)).value.values ==
           (if last.name == "" then m.values else m.values[last.raw.text := last.name])
  {
    var n := |entries| - 1;
    assert ValueScales(entries)[..n] == ValueScales(entries[..n]);
    assert ValueScales(entries)[n] == ValueScale(entries[n], n);
  }

  /** The table of the readable entries grows by the last entry exactly when its label is nonempty. */
  lemma ReadableStep(entries: seq<ValueEntry>)
    requires entries != []
    ensures var last := entries[|entries| - 1];
      EntriesMap(Readable(entries)) ==
        (if last.name == "" then EntriesMap(Readable(entries[..|entries| - 1]))
         else EntriesMap(Readable(entries[..|entries| - 1]))[last.raw.text := last.name])
  {
    var r := Readable(entries[..|entries| - 1]);
    var last := entries[|entries| - 1];
    if last.name != "" {
      var r' := r + [last];
      assert Readable(entries) == r';
      assert r'[..|r'| - 1] == r && r'[|r'| - 1] == last;
      assert EntriesMap(r') == EntriesMap(r)[last.raw.text := last.name];
    } else {
      assert r + [] == r;
      assert Readable(entries) == r;
    }
  }



  /**
   * Reading back what the exporter writes recovers the value table less its
   * empty-labelled entries, and the factor and the offset as printed (the printed
   * text is taken to denote the value itself).
   */
  lemma ExportRoundTrip(entries: seq<ValueEntry>, factor: real, offset: real)
    ensures Decode(ExportScales(entries, factor, offset)).Success?
    ensures var m := Decode(ExportScales(entries, factor, offset)).value;
      m.values == EntriesMap(Readable(entries)) && m.factor == factor && m.offset == offset
  {
    var scales := ExportScales(entries, factor, offset);
    ValueScalesDecode(entries);
    assert scales[..|scales| - 1] == ValueScales(entries);
  }
  /** A value-table entry with an empty label is written, but it is not read back. */
  lemma EmptyLabelDropped()
    ensures var entries := [ValueEntry(Limit("0", 0.0), "")];
      && "0" in EntriesMap(entries)
      && Decode(ExportScales(entries, 1.0, 0.0)).Success?
      && "0" !in Decode(ExportScales(entries, 1.0, 0.0)).value.values
  {
    var entries := [ValueEntry(Limit("0", 0.0), "")];
    ExportRoundTrip(entries, 1.0, 0.0);
    assert Readable(entries) == [];
  }


  /** The physical range a signal gets: min and max, each present only when both limits are. */
  datatype PhysicalRange = PhysicalRange(min: Option<real>, max: Option<real>)

  /** Raised when a LOWER-LIMIT or UPPER-LIMIT of the data constraint holds a text `float_factory` refuses. */
  datatype RangeError = UnparsableLimit

  /**
   * The reader takes LOWER-LIMIT and UPPER-LIMIT of the data constraint only when
   * both are present, and scales each with the signal's factor and offset.
   */
  function ScaleRange(lower: Option<DecimalText>, upper: Option<DecimalText>, factor: real, offset: real)
    : (r: Result<PhysicalRange, RangeError>)
    ensures r.Failure? <==> lower.Some? && upper.Some? && (lower.value.NotANumber? || upper.value.NotANumber?)
    ensures r.Success? ==> (r.value.min.Some? <==> lower.Some? && upper.Some?)
    ensures r.Success? ==> (r.value.max.Some? <==> lower.Some? && upper.Some?)
    ensures r.Success? && r.value.min.Some? ==>
      && r.value.min.value == Physical(Scaling(map[], factor, offset, None), lower.value.num)
      && r.value.max.value == Physical(Scaling(map[], factor, offset, None), upper.value.num)
    ensures r.Success? && r.value.min.Some? && factor == 0.0 ==> r.value.min.value == offset == r.value.max.value
  {
    if lower.Some? && upper.Some? then
      if lower.value.NotANumber? || upper.value.NotANumber? then Failure(UnparsableLimit)
      else Success(PhysicalRange(Some(lower.value.num * factor + offset), Some(upper.value.num * factor + offset)))
    else Success(PhysicalRange(None, None))
  }

  /**
   * A positive factor keeps the bounds in order and a negative one swaps them;
   * with a nonzero factor each raw limit is recovered from its physical bound.
   */
  lemma ScaleRangeOrder(lower: real, upper: real, factor: real, offset: real)
    requires lower <= upper
    ensures var r := ScaleRange(Some(Decimal(lower)), Some(Decimal(upper)), factor, offset).value;
      && (0.0 < factor ==> r.min.value <= r.max.value)
      && (factor < 0.0 ==> r.max.value <= r.min.value)
      && (factor != 0.0 ==> (r.min.value - offset) / factor == lower && (r.max.value - offset) / factor == upper)
  {
    if 0.0 < factor {
      MulMonotone(lower, upper, factor);
    } else if factor < 0.0 {
      MulMonotone(lower, upper, -factor);
    }
  }

  lemma MulMonotone(a: real, b: real, f: real)
    requires a <= b && 0.0 < f
    ensures a * f <= b * f
  {
  }
}
