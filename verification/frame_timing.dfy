/**
 * The frame attributes the reader derives from a PDU's I-PDU-TIMING-SPECIFICATION
 * (`get_frame`): the send type and the delay, repetition, start-delay and cycle
 * times, converted from seconds to whole milliseconds.
 */
module FrameTiming {
  import opened Wrappers
  import opened Numeric

  /** An element that should hold a VALUE child, in seconds (STARTING-TIME, TIME-OFFSET, TIME-PERIOD, REPEATING-TIME). */
  datatype TimeValue = TimeValue(value: Option<DecimalText>)

  /** CYCLIC-TIMING and the three timing elements the reader looks up inside it. */
  datatype CyclicTiming = CyclicTiming(repeatingTime: Option<TimeValue>, timeOffset: Option<TimeValue>, timePeriod: Option<TimeValue>)

  /** EVENT-CONTROLLED-TIMING and the text of its NUMBER-OF-REPEATS. */
  datatype EventTiming = EventTiming(numberOfRepeats: Option<string>)

  /** The timing specification of a PDU; a PDU without one has every part absent. */
  datatype TimingSpec = TimingSpec(
    cyclic: Option<CyclicTiming>,
    event: Option<EventTiming>,
    minimumDelay: Option<DecimalText>,
    startingTime: Option<TimeValue>)

  /** An attribute value: a text, or a number of milliseconds (which the reader stores as its decimal string). */
  datatype AttrValue = Text(text: string) | Number(n: int)

  /**
   * The exceptions this part of the reader raises: a STARTING-TIME without VALUE
   * (`None.text`), and a delay or VALUE text that `float_factory` refuses.
   */
  datatype TimingError = StartingTimeWithoutValue | UnparsableTime

  /** The enumeration the reader declares for GenMsgSendType. */
  const SendTypeValues: seq<string> := [
    "cyclicX", "spontanX", "cyclicIfActiveX", "spontanWithDelay", "cyclicAndSpontanX",
    "cyclicAndSpontanWithDelay", "spontanWithRepitition", "cyclicIfActiveAndSpontanWD",
    "cyclicIfActiveFast", "cyclicWithRepeatOnDemand", "none"]

  /** The attribute names this part of the reader may set. */
  const TimingKeys: set<string> := {
    "GenMsgSendType", "GenMsgDelayTime", "GenMsgNrOfRepetitions", "GenMsgStartDelayTime", "GenMsgCycleTime"}

  /** The text of an optional element's VALUE child. */
  function ValueOf(e: Option<TimeValue>): Option<DecimalText>
  {
    if e.Some? then e.value.value else None
  }

  /** The send type: cyclic and event-controlled, cyclic only, or neither. */
  function SendType(t: TimingSpec): string
  {
    if t.cyclic.Some? && t.event.Some? then "cyclicAndSpontanX"
    else if t.cyclic.Some? then "cyclicX"
    else "spontanX"
  }

  /** NUMBER-OF-REPEATS, which the reader looks up inside EVENT-CONTROLLED-TIMING only. */
  function Repeats(t: TimingSpec): Option<string>
  {
    if t.event.Some? then t.event.value.numberOfRepeats else None
  }

  /** The seconds the cycle time comes from: REPEATING-TIME's VALUE, else (for a cyclic PDU) TIME-PERIOD's. */
  function CycleSeconds(t: TimingSpec): Option<DecimalText>
  {
    if t.cyclic.None? then None
    else if ValueOf(t.cyclic.value.repeatingTime).Some? then ValueOf(t.cyclic.value.repeatingTime)
    else ValueOf(t.cyclic.value.timePeriod)
  }

  /** The seconds the start delay comes from: STARTING-TIME's VALUE, else (for a cyclic PDU) TIME-OFFSET's. */
  function StartSeconds(t: TimingSpec): Option<DecimalText>
  {
    if t.startingTime.Some? then t.startingTime.value.value
    else if t.cyclic.Some? then ValueOf(t.cyclic.value.timeOffset)
    else None
  }

  /** A text is present that `float_factory` refuses. */
  predicate Unparsable(d: Option<DecimalText>)
  {
    d.Some? && d.value.NotANumber?
  }

  /**
   * The timing attributes of one frame, set in the reader's order: send type,
   * delay time and repetitions (the same in all three send-type branches), start
   * delay, cycle time. The first exception raised on that way ends the reading.
   */
  function TimingAttributes(t: TimingSpec): (r: Result<map<string, AttrValue>, TimingError>)
    ensures r.Failure? <==>
      || Unparsable(t.minimumDelay)
      || (t.startingTime.Some? && t.startingTime.value.value.None?)
      || Unparsable(StartSeconds(t))
      || Unparsable(CycleSeconds(t))
    ensures r == Failure(StartingTimeWithoutValue) <==>
      !Unparsable(t.minimumDelay) && t.startingTime.Some? && t.startingTime.value.value.None?
    ensures r.Success? ==> r.value.Keys <= TimingKeys && "GenMsgSendType" in r.value
    ensures r.Success? ==> r.value["GenMsgSendType"].Text? && r.value["GenMsgSendType"].text in SendTypeValues
  {
    var sendType := map["GenMsgSendType" := Text(SendType(t))];
    if Unparsable(t.minimumDelay) then
      Failure(UnparsableTime)
    else
      var withDelay :=
        if t.minimumDelay.Some? then sendType["GenMsgDelayTime" := Number(Millis(t.minimumDelay.value.num))]
        else sendType;
      var withRepeats :=
        if Repeats(t).Some? then withDelay["GenMsgNrOfRepetitions" := Text(Repeats(t).value)]
        else withDelay;
      if t.startingTime.Some? && t.startingTime.value.value.None? then
        Failure(StartingTimeWithoutValue)
      else if Unparsable(StartSeconds(t)) then
        Failure(UnparsableTime)
      else
        var withStart :=
          if StartSeconds(t).Some? then withRepeats["GenMsgStartDelayTime" := Number(Millis(StartSeconds(t).value.num))]
          else withRepeats;
        if Unparsable(CycleSeconds(t)) then
          Failure(UnparsableTime)
        else
          var withCycle :=
            if CycleSeconds(t).Some? then withStart["GenMsgCycleTime" := Number(Millis(CycleSeconds(t).value.num))]
            else withStart;
          Success(withCycle)
  }

  /** The send type is "cyclicAndSpontanX" with both timings, "cyclicX" with only cyclic timing, else "spontanX". */
  lemma SendTypeTable(t: TimingSpec)
    requires TimingAttributes(t).Success?
    ensures var s := TimingAttributes(t).value["GenMsgSendType"];
      && (s == Text("cyclicAndSpontanX") <==> t.cyclic.Some? && t.event.Some?)
      && (s == Text("cyclicX") <==> t.cyclic.Some? && t.event.None?)
      && (s == Text("spontanX") <==> t.cyclic.None?)
  {
  }

  /**
   * In every send-type branch GenMsgDelayTime is set exactly when MINIMUM-DELAY is
   * present, to the delay in milliseconds truncated toward zero.
   */
  lemma DelayTimeRule(t: TimingSpec)
    requires TimingAttributes(t).Success?
    ensures var a := TimingAttributes(t).value;
      && ("GenMsgDelayTime" in a <==> t.minimumDelay.Some?)
      && ("GenMsgDelayTime" in a ==> a["GenMsgDelayTime"] == Number(Millis(t.minimumDelay.value.num)))
      && ("GenMsgDelayTime" in a && 0.0 <= t.minimumDelay.value.num ==>
            a["GenMsgDelayTime"].n as real <= t.minimumDelay.value.num * 1000.0 < a["GenMsgDelayTime"].n as real + 1.0)
  {
  }

  /** GenMsgNrOfRepetitions copies NUMBER-OF-REPEATS of the event-controlled timing, when there is one. */
  lemma RepetitionsRule(t: TimingSpec)
    requires TimingAttributes(t).Success?
    ensures var a := TimingAttributes(t).value;
      && ("GenMsgNrOfRepetitions" in a <==> t.event.Some? && t.event.value.numberOfRepeats.Some?)
      && ("GenMsgNrOfRepetitions" in a ==> a["GenMsgNrOfRepetitions"] == Text(t.event.value.numberOfRepeats.value))
  {
  }

  /**
   * GenMsgStartDelayTime comes from STARTING-TIME when present; otherwise, for a
   * cyclic PDU, from TIME-OFFSET's VALUE when there is one.
   */
  lemma StartDelayRule(t: TimingSpec)
    requires TimingAttributes(t).Success?
    ensures var a := TimingAttributes(t).value;
      && (t.startingTime.Some? ==> a["GenMsgStartDelayTime"] == Number(Millis(t.startingTime.value.value.value.num)))
      && (t.startingTime.None? ==>
            ("GenMsgStartDelayTime" in a <==> t.cyclic.Some? && ValueOf(t.cyclic.value.timeOffset).Some?))
      && (t.startingTime.None? && "GenMsgStartDelayTime" in a ==>
            a["GenMsgStartDelayTime"] == Number(Millis(ValueOf(t.cyclic.value.timeOffset).value.num)))
  {
  }

  /**
   * GenMsgCycleTime is set only for a cyclic PDU: from REPEATING-TIME's VALUE,
   * or from TIME-PERIOD's VALUE when REPEATING-TIME has none.
   */
  lemma CycleTimeRule(t: TimingSpec)
    requires TimingAttributes(t).Success?
    ensures var a := TimingAttributes(t).value;
      && ("GenMsgCycleTime" in a ==> t.cyclic.Some?)
      && (t.cyclic.Some? && ValueOf(t.cyclic.value.repeatingTime).Some? ==>
            a["GenMsgCycleTime"] == Number(Millis(ValueOf(t.cyclic.value.repeatingTime).value.num)))
      && (t.cyclic.Some? && ValueOf(t.cyclic.value.repeatingTime).None? ==>
            ("GenMsgCycleTime" in a <==> ValueOf(t.cyclic.value.timePeriod).Some?))
      && (t.cyclic.Some? && ValueOf(t.cyclic.value.repeatingTime).None? && "GenMsgCycleTime" in a ==>
            a["GenMsgCycleTime"] == Number(Millis(ValueOf(t.cyclic.value.timePeriod).value.num)))
  {
  }

  /** A PDU without any timing specification is sent spontaneously and gets no other timing attribute. */
  lemma NoTimingIsSpontaneous()
    ensures TimingAttributes(TimingSpec(None, None, None, None)) == Success(map["GenMsgSendType" := Text("spontanX")])
  {
  }
}
