/**
 * The default values of the edit form in
 * frontendv2/src/components/EditForm/EditForm.tsx: date and time cut out
 * of the event's start text, the end date cut out of its end text, and the
 * interval read back from the schedule's `frequency` text.
 */
module EditFormV2 {
  import opened Wrappers
  import opened Text
  import opened Calendar
  import opened Js
  import opened Forms
  import opened UtilsV2

  /** `parseInt(frequency) || 1`: `parseInt` of `undefined` is NaN, and NaN and 0 fall back to 1. */
  function IntervalDefault(frequency: Option<string>): (v: Value)
    ensures v.Num? && IsInteger(v.x) && v.x != 0.0
    ensures frequency.Some? && JsParseInt(frequency.value).Some? && JsParseInt(frequency.value).value != 0 ==>
      v == Num(JsParseInt(frequency.value).value as real)
    ensures frequency.None? || JsParseInt(frequency.value).None? || JsParseInt(frequency.value).value == 0 ==>
      v == Num(1.0)
  {
    var parsed := if frequency.Some? then JsParseInt(frequency.value) else None;
    match parsed
    case Some(n) =>
      assert (n as real).Floor == n;
      if n != 0 then Num(n as real) else Num(1.0)
    case None => Num(1.0)
  }

  /** `s.slice(0, 5)`. */
  function FirstFive(s: string): (t: string)
    ensures t <= s && |t| == if |s| < 5 then |s| else 5
  {
    if |s| < 5 then s else s[..5]
  }

  /**
   * `defaultValues`: the device is `extendedProps.device_id` with the
   * event's device name; the date is the start text before its first `T`
   * and the time the first five characters after it (a start without `T`
   * makes `slice` throw); the end date is the end text before its first `T`.
   */
  function Defaults(event: ScheduleItem): (r: Result<FormData, string>)
    ensures r.Err? <==> 'T' !in event.start
    ensures r.Ok? ==>
      var v := r.value;
      var cut := IndexOf(event.start, 'T');
      v.id == Undefined && v.device == DeviceRef(event.extendedProps.deviceId, event.deviceName)
      && v.date == event.start[..cut] && 'T' !in v.date
      && v.time <= event.start[cut + 1..] && 'T' !in v.time && |v.time| <= 5
      && (|v.time| == 5 || cut + 1 + |v.time| == |event.start| || event.start[cut + 1 + |v.time|] == 'T')
      && 'T' !in v.endDate && v.endDate <= event.end
      && (|v.endDate| < |event.end| ==> event.end[|v.endDate|] == 'T')
      && v.duration == Num(event.durationMinutes)
      && v.frequency == FrequencyOrDaily(event.extendedProps.frequency)
      && v.interval == IntervalDefault(event.extendedProps.frequency)
  {
    var parts := Split(event.start, 'T');
    if |parts| < 2 then Err("TypeError: cannot read properties of undefined (reading 'slice')")
    else
      SplitFirst(event.start, 'T');
      SplitFirst(event.end, 'T');
      var cut := IndexOf(event.start, 'T');
      SplitFirst(event.start[cut + 1..], 'T');
      Ok(FormData(Undefined, DeviceRef(event.extendedProps.deviceId, event.deviceName),
                  parts[0], FirstFive(parts[1]), Num(event.durationMinutes), Split(event.end, 'T')[0],
                  FrequencyOrDaily(event.extendedProps.frequency), IntervalDefault(event.extendedProps.frequency)))
  }

  /**
   * `handleSubmit(onSubmit)` behind the save button: the button is disabled
   * while the form still equals its `defaultValues` (`!isDirty`), so only an
   * edited form the presence schema accepts sends `formatFormDataForApi`.
   */
  function Submit(defaults: FormData, data: FormData): (sent: Option<Payload>)
    requires Renderable(data.interval)
    ensures sent.Some? <==> data != defaults && PresenceSchema(data)
    ensures sent.Some? ==> sent.value == FormatFormDataForApi(data)
  {
    if data != defaults && PresenceSchema(data) then Some(FormatFormDataForApi(data)) else None
  }

  // ---------------------------------------------------------------------------
  // Properties

  lemma NoLetterT(t: DateTime)
    requires 0 <= t.minute < MinutesPerDay
    ensures 'T' !in TimeText(t.minute) + ":00"
  {
    var h, m := Pad2(t.minute / 60), Pad2(t.minute % 60);
    assert IsDigit(h[0]) && IsDigit(h[1]) && IsDigit(m[0]) && IsDigit(m[1]);
    assert TimeText(t.minute) + ":00" == [h[0], h[1], ':', m[0], m[1], ':', '0', '0'];
  }

  /**
   * For the backend's ISO texts, the defaults are the start's date and time
   * of day and the end's date.
   */
  lemma DefaultsOfIso(event: ScheduleItem, start: DateTime, end: DateTime)
    requires Representable(start.date) && 0 <= start.minute < MinutesPerDay
    requires Representable(end.date) && 0 <= end.minute < MinutesPerDay
    requires event.start == IsoFormat(start) && event.end == IsoFormat(end)
    ensures Defaults(event).Ok?
    ensures var v := Defaults(event).value;
      v.date == DateText(start.date) && v.time == TimeText(start.minute) && v.endDate == DateText(end.date)
  {
    IsoFormatParts(start);
    IsoFormatParts(end);
    NoLetterT(start);
    NoLetterT(end);
    var rest := TimeText(start.minute) + ":00";
    assert event.start == DateText(start.date) + ['T'] + rest;
    SplitAt(DateText(start.date), rest, 'T');
    assert event.end == DateText(end.date) + ['T'] + (TimeText(end.minute) + ":00");
    SplitAt(DateText(end.date), TimeText(end.minute) + ":00", 'T');
    assert FirstFive(rest) == TimeText(start.minute);
  }

  /** A non-zero integer written as the frequency text comes back as the interval. */
  lemma IntervalFromText(n: int)
    requires n != 0
    ensures IntervalDefault(Some(IntText(n))) == Num(n as real)
  {
    JsParseIntText(n);
  }

  /** A frequency word reads as no number, so the interval falls back to 1. */
  lemma IntervalOfWord(word: string)
    requires word != [] && 'a' <= word[0] <= 'z'
    ensures IntervalDefault(Some(word)) == Num(1.0)
  {
    assert !IsSpace(word[0]) && !IsDigit(word[0]) && word[0] != '-' && word[0] != '+';
    assert TrimStart(word) == word;
    assert DigitPrefix(word) == [];
    assert JsParseInt(word).None?;
  }

  /** `parseInt` reads a `0x` prefix as base 16: the frequency text `0x10` gives interval 16. */
  lemma IntervalOfHex()
    ensures IntervalDefault(Some("0x10")) == Num(16.0)
  {
    var s := "0x10";
    assert TrimStart(s) == s;
    assert HexMarked(s);
    assert HexPrefix(s[2..]) == "10";
    assert HexValue("10") == 16 by {
      assert "10"[..1] == "1";
    }
  }

  /**
   * A schedule whose frequency text is its interval (as this frontend's
   * payloads write it) opens with defaults the schema refuses, since that
   * text is not one of the offered frequencies; once a frequency is chosen,
   * saving sends the same interval text back.
   */
  lemma NumericFrequencyRechosen(event: ScheduleItem, n: int, chosen: string)
    requires n >= 1 && event.extendedProps.frequency == Some(IntText(n)) && chosen in FormFrequencies
    requires Defaults(event).Ok? && PresenceSchema(Defaults(event).value.(frequency := chosen))
    ensures !PresenceSchema(Defaults(event).value)
    ensures Submit(Defaults(event).value, Defaults(event).value.(frequency := chosen)).Some?
    ensures Submit(Defaults(event).value, Defaults(event).value.(frequency := chosen)).value.frequency == IntText(n)
  {
    var text := IntText(n);
    NumberNotOffered(n);
    var v := Defaults(event).value;
    assert v.frequency == text;
    IntervalFromText(n);
    assert v.interval == Num(n as real);
    assert (n as real).Floor == n;
    assert ToText(v.interval) == text;
  }

  /** The text of a number is none of the offered frequencies. */
  lemma NumberNotOffered(n: int)
    requires n >= 0
    ensures IntText(n) !in FormFrequencies
  {
    var text := IntText(n);
    assert IsDigit(text[0]);
    assert text != "daily" && text != "weekly" && text != "monthly" by {
      assert "daily"[0] == 'd' && "weekly"[0] == 'w' && "monthly"[0] == 'm';
    }
  }
}
