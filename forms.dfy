/**
 * The form record both frontends' `Types.ts` declare as `FormData`: what the
 * schedule forms hold when they are submitted. The text inputs (date, time,
 * end date, frequency, device name) always hold strings; the fields whose
 * type depends on where the value came from (a default, an input, the yup
 * cast) are JavaScript values. Also here: the rules the forms of both
 * frontends share.
 */
module Forms {
  import opened Wrappers
  import opened Js

  datatype DeviceRef = DeviceRef(id: Value, name: string)

  datatype FormData = FormData(
    id: Value,
    device: DeviceRef,
    date: string,
    time: string,
    duration: Value,
    endDate: string,
    frequency: string,
    interval: Value)

  const Pending: string := "pending"

  /** The frequencies the forms offer and their schemas accept. */
  const FormFrequencies: set<string> := {"daily", "weekly", "monthly"}

  /**
   * The schema of both edit forms: an optional string `id`, every other
   * field present, the frequency one of the three offered; nothing else.
   */
  predicate PresenceSchema(data: FormData) {
    (data.id.Undefined? || data.id.Str?)
    && !data.device.id.Undefined? && data.device.name != ""
    && data.date != "" && data.time != "" && !data.duration.Undefined?
    && data.endDate != "" && data.frequency in FormFrequencies
    && !data.interval.Undefined?
  }

  /** `extendedProps.frequency || 'daily'`, as both edit forms default the frequency. */
  function FrequencyOrDaily(frequency: Option<string>): (f: string)
    ensures f != ""
    ensures frequency.Some? && frequency.value != "" ==> f == frequency.value
    ensures frequency.None? || frequency.value == "" ==> f == "daily"
  {
    if frequency.Some? && frequency.value != "" then frequency.value else "daily"
  }
}
