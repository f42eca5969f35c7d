/**
 * The edit form of frontendv3/src/components/EditForm/EditForm.tsx: the
 * `"HH:mm:ss"` duration read back as minutes, the default values derived
 * from the calendar event being edited, the presence-only schema and the
 * submit handler.
 */
module EditFormV3 {
  import opened Wrappers
  import opened Text
  import opened Calendar
  import opened Js
  import opened Forms
  import opened UtilsV3
  import SideFormV3

  /**
   * One part of `duration.split(':').map(Number)` as `dayjs.duration` takes
   * it: a missing part, and a part that is not a number, count as 0.
   */
  function Part(parts: seq<string>, k: nat): real {
    if k < |parts| then
      match ToNumber(Str(parts[k]))
      case Num(x) => x
      case _ => 0.0
    else 0.0
  }

  /**
   * `totalMinutes`: hours, minutes and seconds as minutes. A schedule
   * without a `duration` text makes `split` throw while the form is built.
   */
  function TotalMinutes(duration: Option<string>): (r: Result<real, string>)
    ensures r.Err? <==> duration.None?
    ensures duration.Some? ==>
      var parts := Split(duration.value, ':');
      r.value == Part(parts, 0) * 60.0 + Part(parts, 1) + Part(parts, 2) / 60.0
  {
    match duration
    case None => Err("TypeError: cannot read properties of undefined (reading 'split')")
    case Some(s) =>
      var parts := Split(s, ':');
      Ok(Part(parts, 0) * 60.0 + Part(parts, 1) + Part(parts, 2) / 60.0)
  }

  /**
   * A start the edit form reads with dayjs: `YYYY-MM-DDTHH:mm`, optionally
   * followed by `:ss`, as the backend's ISO texts are.
   */
  predicate LocalIso(start: string) {
    (|start| == 16 || (|start| == 19 && start[16] == ':' && AllDigits(start[17..])))
    && ParseDate(start[..10]).Some? && start[10] == 'T' && ParseTime(start[11..16]).Some?
  }

  /** `dayjs(start).format('YYYY-MM-DD')` and `.format('HH:mm')`; a start dayjs cannot read formats as `Invalid Date`. */
  function StartParts(start: string): (parts: (string, string))
    ensures LocalIso(start) ==> ParseDate(parts.0) == ParseDate(start[..10]) && ParseTime(parts.1) == ParseTime(start[11..16])
  {
    if LocalIso(start) then (start[..10], start[11..16])
    else if ParseDate(start).Some? then (start, "00:00")
    else ("Invalid Date", "Invalid Date")
  }

  /** `defaultValues`, built from the calendar event being edited; building them throws when the schedule has no duration text. */
  function Defaults(event: ScheduleItem): (r: Result<FormData, string>)
    ensures r.Err? <==> event.extendedProps.duration.None?
    ensures r.Ok? ==>
      var v := r.value;
      v.id == Str(event.id)
      && v.device == DeviceRef(event.extendedProps.deviceId, event.extendedProps.deviceName)
      && (v.date, v.time) == StartParts(event.start)
      && Num(TotalMinutes(event.extendedProps.duration).value) == v.duration
      && 'T' !in v.endDate && v.endDate <= event.end
      && (|v.endDate| < |event.end| ==> event.end[|v.endDate|] == 'T')
      && v.frequency == FrequencyOrDaily(event.extendedProps.frequency)
      && v.interval == event.extendedProps.interval
  {
    match TotalMinutes(event.extendedProps.duration)
    case Err(e) => Err(e)
    case Ok(total) =>
      var (date, time) := StartParts(event.start);
      SplitFirst(event.end, 'T');
      Ok(FormData(Str(event.id), DeviceRef(event.extendedProps.deviceId, event.extendedProps.deviceName),
                  date, time, Num(total), Split(event.end, 'T')[0],
                  FrequencyOrDaily(event.extendedProps.frequency), event.extendedProps.interval))
  }

  /**
   * `handleSubmit(onSubmit)` behind the save button: the button is disabled
   * while the form still equals its `defaultValues` (`!isDirty`), so only an
   * edited form the schema accepts sends `formatEditFormDataForApi`.
   */
  function Submit(defaults: FormData, data: FormData, offset: string): (sent: Option<EditPayload>)
    ensures sent.Some? <==> data != defaults && PresenceSchema(data)
    ensures sent.Some? ==> sent.value == FormatEditFormDataForApi(data, offset)
  {
    if data != defaults && PresenceSchema(data) then Some(FormatEditFormDataForApi(data, offset)) else None
  }

  // ---------------------------------------------------------------------------
  // Properties

  lemma NumberOfPad2(n: nat)
    requires n < 100
    ensures ToNumber(Str(Pad2(n))) == Num(n as real)
  {
    JsNumberDigits(Pad2(n));
  }

  lemma ClockSplit(a: string, b: string, c: string)
    requires ':' !in a && ':' !in b && ':' !in c
    ensures Split(a + ":" + b + ":" + c, ':') == [a, b, c]
  {
    assert a + ":" + b + ":" + c == a + [':'] + (b + [':'] + c);
    SplitCons(a, b + [':'] + c, ':');
    SplitCons(b, c, ':');
  }

  lemma NoColon(n: nat)
    requires n < 100
    ensures ':' !in Pad2(n)
  {
    var p := Pad2(n);
    assert IsDigit(p[0]) && IsDigit(p[1]);
    assert p == [p[0], p[1]];
  }

  lemma PartOf(parts: seq<string>, k: nat, x: real)
    requires k < |parts| && ToNumber(Str(parts[k])) == Num(x)
    ensures Part(parts, k) == x
  {
  }

  lemma TotalMinutesOfTexts(a: string, b: string, c: string, x: real, y: real, z: real)
    requires ':' !in a && ':' !in b && ':' !in c
    requires ToNumber(Str(a)) == Num(x) && ToNumber(Str(b)) == Num(y) && ToNumber(Str(c)) == Num(z)
    ensures var r := TotalMinutes(Some(a + ":" + b + ":" + c)); r.Ok? && r.value == x * 60.0 + y + z / 60.0
  {
    var parts := [a, b, c];
    ClockSplit(a, b, c);
    PartOf(parts, 0, x);
    PartOf(parts, 1, y);
    PartOf(parts, 2, z);
  }

  /** `"HH:mm:ss"` is `60·HH + mm + ss/60` minutes. */
  lemma TotalMinutesOfClock(h: nat, m: nat, s: nat)
    requires h < 100 && m < 100 && s < 100
    ensures var r := TotalMinutes(Some(Pad2(h) + ":" + Pad2(m) + ":" + Pad2(s)));
      r.Ok? && r.value == (60 * h + m) as real + s as real / 60.0
  {
    NoColon(h);
    NoColon(m);
    NoColon(s);
    NumberOfPad2(h);
    NumberOfPad2(m);
    NumberOfPad2(s);
    TotalMinutesOfTexts(Pad2(h), Pad2(m), Pad2(s), h as real, m as real, s as real);
  }

  /** Half an hour, written as the duration texts are, is 30 minutes. */
  lemma HalfHour()
    ensures TotalMinutes(Some("00:30:00")).Ok? && TotalMinutes(Some("00:30:00")).value == 30.0
  {
    assert Pad2(0) == "00" by {
      assert DigitChar(0) == '0';
    }
    assert Pad2(30) == "30" by {
      assert DigitChar(3) == '3';
    }
    assert Pad2(0) + ":" + Pad2(30) + ":" + Pad2(0) == "00:30:00";
    TotalMinutesOfClock(0, 30, 0);
  }

  /** For a start in the backend's ISO form, the default date and time are that start's date and time of day. */
  lemma StartPartsOfIso(t: DateTime)
    requires Representable(t.date) && 0 <= t.minute < MinutesPerDay
    ensures StartParts(IsoFormat(t)) == (DateText(t.date), TimeText(t.minute))
  {
    var s := IsoFormat(t);
    IsoFormatParts(t);
    assert s[17..] == "00";
  }

  /**
   * The schema only asks for presence: a form it accepts still passes with
   * interval 0 and a start after the end, both of which the create form
   * refuses.
   */
  lemma PresenceOnly(data: FormData)
    requires PresenceSchema(data)
    ensures var bad := data.(interval := Num(0.0), date := DateText(Date(2025, 2, 1)), endDate := DateText(Date(2025, 1, 1)));
      PresenceSchema(bad) && !SideFormV3.Passes(bad)
  {
    var bad := data.(interval := Num(0.0), date := DateText(Date(2025, 2, 1)), endDate := DateText(Date(2025, 1, 1)));
    ParseDateText(Date(2025, 2, 1));
    ParseDateText(Date(2025, 1, 1));
  }

  /**
   * Editing a schedule the backend listed without touching its date and
   * time (changing the duration, say) sends the same start date and time of
   * day back.
   */
  lemma EditKeepsStart(event: ScheduleItem, t: DateTime, data: FormData, offset: string)
    requires Representable(t.date) && 0 <= t.minute < MinutesPerDay
    requires event.start == IsoFormat(t) && Defaults(event).Ok?
    requires data.date == Defaults(event).value.date && data.time == Defaults(event).value.time
    requires data != Defaults(event).value && PresenceSchema(data)
    ensures Submit(Defaults(event).value, data, offset).Some?
    ensures var sent := Submit(Defaults(event).value, data, offset).value.fields.startDate;
      |sent| >= 16 && ParseDate(sent[..10]) == Some(t.date) && ParseTime(sent[11..16]) == Some(t.minute)
  {
    StartPartsOfIso(t);
    ParseDateText(t.date);
    ParseTimeText(t.minute);
  }
}
