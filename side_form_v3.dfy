/**
 * The create form of frontendv3/src/components/SideForm/SideForm.tsx: the
 * yup schema as a predicate on the submitted form, the cast yup applies to
 * the numeric fields, the default values, and the submit handler.
 *
 * A text input left empty and a field the form never set are both the
 * empty string here: `required` refuses either.
 */
module SideFormV3 {
  import opened Wrappers
  import opened Text
  import opened Calendar
  import opened Recurrence
  import opened Js
  import opened Forms
  import opened UtilsV3

  /** `s.replace(/\s/g, '')`. */
  function RemoveSpaces(s: string): (t: string)
    ensures |t| <= |s|
    ensures forall i :: 0 <= i < |t| ==> !IsSpace(t[i])
    ensures (forall i :: 0 <= i < |s| ==> !IsSpace(s[i])) ==> t == s
    ensures (forall i :: 0 <= i < |s| ==> IsSpace(s[i])) ==> t == []
  {
    if s == [] then []
    else if IsSpace(s[0]) then RemoveSpaces(s[1..])
    else [s[0]] + RemoveSpaces(s[1..])
  }

  /**
   * `yup.number()`: a number stays as it is; a string loses its whitespace
   * and is read with unary `+`, the empty string being NaN; NaN, `undefined`
   * and anything unreadable fail.
   */
  function YupNumber(v: Value): (r: Option<real>)
    ensures v.Num? ==> r == Some(v.x)
    ensures v.NaN? || v.Undefined? ==> r.None?
    ensures v.Str? ==> (r.Some? <==> RemoveSpaces(v.s) != "" && JsNumber(RemoveSpaces(v.s)).Some?)
    ensures v.Str? && r.Some? ==> r.value == JsNumber(RemoveSpaces(v.s)).value as real
  {
    match v
    case Num(x) => Some(x)
    case Str(s) =>
      var t := RemoveSpaces(s);
      if t == "" then None
      else (match JsNumber(t) case Some(i) => Some(i as real) case None => None)
    case _ => None
  }

  /**
   * The `is-before-endDate` test: an empty end date passes; otherwise both
   * texts must read as dates and the start must not come after the end.
   */
  predicate StartNotAfterEnd(date: string, endDate: string) {
    endDate == ""
    || (ParseDate(date).Some? && ParseDate(endDate).Some?
        && !DateBefore(ParseDate(endDate).value, ParseDate(date).value))
  }

  /** Every rule of the schema. */
  predicate Passes(data: FormData) {
    (data.id.Undefined? || data.id.Str?)
    && !data.device.id.Undefined? && data.device.name != ""
    && data.date != "" && StartNotAfterEnd(data.date, data.endDate)
    && data.time != ""
    && YupNumber(data.duration).Some?
    && data.endDate != ""
    && data.frequency in FormFrequencies
    && YupNumber(data.interval).Some? && YupNumber(data.interval).value >= 1.0
  }

  /**
   * Validation through the yup resolver: the form with its numbers cast
   * when every rule passes, nothing otherwise.
   */
  function Validate(data: FormData): (r: Option<FormData>)
    ensures r.Some? <==> Passes(data)
    ensures r.Some? ==>
      var v := r.value;
      v.(duration := data.duration, interval := data.interval) == data
      && v.duration == Num(YupNumber(data.duration).value) && v.interval == Num(YupNumber(data.interval).value)
      && v.interval.x >= 1.0
      && FrequencyOf(v.frequency).Some? && v.frequency != "yearly"
      && ParseDate(v.date).Some? && ParseDate(v.endDate).Some?
      && !DateBefore(ParseDate(v.endDate).value, ParseDate(v.date).value)
  {
    if Passes(data) then
      Some(data.(duration := Num(YupNumber(data.duration).value), interval := Num(YupNumber(data.interval).value)))
    else None
  }

  /** `handleSubmit(onSubmit)`: a payload is sent only for a form that validates, and it is made from the cast form. */
  function Submit(data: FormData): (sent: Option<Payload>)
    ensures sent.Some? <==> Passes(data)
    ensures sent.Some? ==> sent.value == FormatFormDataForApi(Validate(data).value)
  {
    match Validate(data)
    case Some(v) => Some(FormatFormDataForApi(v))
    case None => None
  }

  /**
   * The default values: today's date (`getLocalDate`, the host's local date)
   * as start and end, duration 1, interval 1, frequency daily; no device,
   * no time.
   */
  function Defaults(today: Date): FormData
    requires Representable(today)
  {
    FormData(Undefined, DeviceRef(Undefined, ""), DateText(today), "", Num(1.0), DateText(today), "daily", Num(1.0))
  }

  // ---------------------------------------------------------------------------
  // Properties

  /** Removing whitespace from two joined texts removes it from each. */
  lemma {:induction false} RemoveSpacesConcat(a: string, b: string)
    ensures RemoveSpaces(a + b) == RemoveSpaces(a) + RemoveSpaces(b)
    decreases |a|
  {
    if a == [] {
      assert a + b == b;
    } else {
      assert (a + b)[0] == a[0] && (a + b)[1..] == a[1..] + b;
      RemoveSpacesConcat(a[1..], b);
    }
  }

  /** A number input holding an integer's text, with whitespace anywhere, casts to that integer. */
  lemma YupNumberOfText(s: string, n: int)
    requires RemoveSpaces(s) == IntText(n)
    ensures YupNumber(Str(s)) == Some(n as real)
  {
    JsNumberText(n);
  }

  /**
   * Typing the integers `d` and `k` into the duration and interval inputs
   * sends exactly those numbers.
   */
  lemma TypedNumbersSent(data: FormData, d: int, k: int)
    requires data.duration.Str? && RemoveSpaces(data.duration.s) == IntText(d)
    requires data.interval.Str? && RemoveSpaces(data.interval.s) == IntText(k)
    requires Submit(data).Some?
    ensures Submit(data).value.duration == Num(d as real) && Submit(data).value.interval == Num(k as real)
  {
    YupNumberOfText(data.duration.s, d);
    YupNumberOfText(data.interval.s, k);
  }

  /**
   * The schema refuses a frequency it does not offer (`yearly` among them),
   * an interval below 1 or not a number, a start after the end, and any
   * missing required field.
   */
  lemma ValidateRejects(data: FormData)
    ensures data.frequency !in FormFrequencies ==> Validate(data).None?
    ensures (YupNumber(data.interval).None? || YupNumber(data.interval).value < 1.0) ==> Validate(data).None?
    ensures (ParseDate(data.date).Some? && ParseDate(data.endDate).Some?
             && DateBefore(ParseDate(data.endDate).value, ParseDate(data.date).value)) ==> Validate(data).None?
    ensures (data.device.id.Undefined? || data.device.name == "" || data.date == "" || data.time == ""
             || data.endDate == "" || YupNumber(data.duration).None?) ==> Validate(data).None?
  {
  }

  /**
   * Every payload the form sends is pending, names a frequency the backend
   * accepts, carries a numeric duration, an interval of at least 1, a start
   * date not after the end date, and the chosen time with seconds appended.
   */
  lemma SubmittedPayload(data: FormData)
    requires Submit(data).Some?
    ensures var p := Submit(data).value;
      p.status == Pending && FrequencyOf(p.frequency).Some?
      && p.duration.Num? && p.interval.Num? && p.interval.x >= 1.0
      && ParseDate(p.startDate).Some? && ParseDate(p.endDate).Some?
      && !DateBefore(ParseDate(p.endDate).value, ParseDate(p.startDate).value)
      && p.time == data.time + ":00" && p.deviceId == data.device.id && p.title == data.device.name
  {
  }

  /** The defaults alone do not validate: a device and a time must still be chosen. */
  lemma DefaultsIncomplete(today: Date)
    requires Representable(today)
    ensures Validate(Defaults(today)).None?
  {
  }

  /**
   * The defaults satisfy the ordering, interval and frequency rules: once a
   * device and a time are chosen the form validates.
   */
  lemma DefaultsComplete(today: Date, device: DeviceRef, time: string)
    requires Representable(today)
    requires !device.id.Undefined? && device.name != "" && time != ""
    ensures Validate(Defaults(today).(device := device, time := time)).Some?
  {
    ParseDateText(today);
  }
}
