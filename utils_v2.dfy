/**
 * The pure mappers of frontendv2/src/Utils/Utils.ts. Unlike the v3 ones,
 * the schedules' `result` is read without optional chaining, and the
 * payloads carry the interval as the text of their `frequency`.
 */
module UtilsV2 {
  import opened Wrappers
  import opened Text
  import opened Js
  import opened Forms

  /** An id the API sends as a number or as a string. */
  datatype Id = NumId(n: int) | StrId(s: string)

  /** `id.toString()`. */
  function IdText(id: Id): string {
    match id
    case NumId(n) => IntText(n)
    case StrId(s) => s
  }

  /**
   * `scheduleItemRaw`, plus the fields the edit form reads from it when a
   * server sends them (`device_id`, `frequency`).
   */
  datatype RawItem = RawItem(
    deviceName: string,
    durationMinutes: real,
    end: string,
    id: Id,
    start: string,
    status: string,
    title: string,
    date: string,
    deviceId: Value,
    frequency: Option<string>)

  datatype ApiResponse = ApiResponse(status: string, message: string, result: Option<seq<RawItem>>)

  datatype ScheduleItem = ScheduleItem(
    id: string,
    title: string,
    start: string,
    end: string,
    extendedProps: RawItem,
    deviceName: string,
    durationMinutes: real,
    status: string)

  /** `{ ...data, device_id, date }`. */
  datatype ItemToSend = ItemToSend(item: ScheduleItem, deviceId: string, date: string)

  /** `scheduleItemToSendRaw`: the interval travels as the text `frequency`. */
  datatype Payload = Payload(
    deviceName: string,
    duration: Value,
    end: string,
    deviceId: Value,
    endDate: string,
    status: string,
    title: string,
    startDate: string,
    frequency: string)

  function ItemOf(raw: RawItem): ScheduleItem {
    ScheduleItem(IdText(raw.id), raw.title, raw.start, raw.end, raw, raw.deviceName, raw.durationMinutes, raw.status)
  }

  /**
   * `sheduleItemsMap`: no data gives no items; data without `result` makes
   * `.map` throw; otherwise one item per schedule, in order.
   */
  function ScheduleItemsMap(data: Option<ApiResponse>): (r: Result<seq<ScheduleItem>, string>)
    ensures data.None? ==> r == Ok([])
    ensures data.Some? ==> (r.Err? <==> data.value.result.None?)
    ensures data.Some? && data.value.result.Some? ==>
      var raw := data.value.result.value;
      r.Ok? && |r.value| == |raw|
      && forall i :: 0 <= i < |raw| ==>
        r.value[i].id == IdText(raw[i].id) && r.value[i].title == raw[i].title
        && r.value[i].start == raw[i].start && r.value[i].end == raw[i].end
        && r.value[i].extendedProps == raw[i] && r.value[i].deviceName == raw[i].deviceName
        && r.value[i].durationMinutes == raw[i].durationMinutes && r.value[i].status == raw[i].status
  {
    match data
    case None => Ok([])
    case Some(response) =>
      match response.result
      case None => Err("TypeError: cannot read properties of undefined (reading 'map')")
      case Some(raw) => Ok(seq(|raw|, i requires 0 <= i < |raw| => ItemOf(raw[i])))
  }

  /** `scheduleItemToSendMap`: every field of the item, with `device_id` the item's id and `date` its start. */
  function ScheduleItemToSendMap(data: ScheduleItem): (r: ItemToSend)
    ensures r.item == data && r.deviceId == data.id && r.date == data.start
  {
    ItemToSend(data, data.id, data.start)
  }

  /**
   * `scheduleItemToSendRawMap`: `device_id` is the form's own `id`, the
   * duration is passed as it is, and `frequency` is `String(interval)`.
   */
  function ScheduleItemToSendRawMap(data: FormData): (p: Payload)
    requires Renderable(data.interval)
    ensures p.deviceId == data.id && p.duration == data.duration && p.frequency == ToText(data.interval)
    ensures p.deviceName == data.device.name && p.title == data.device.name && p.end == data.time
    ensures p.endDate == data.endDate && p.startDate == data.date && p.status == Pending
  {
    Payload(data.device.name, data.duration, data.time, data.id, data.endDate, Pending,
            data.device.name, data.date, ToText(data.interval))
  }

  /**
   * `formatFormDataForApi`: the device's id, `Number(duration)`, the time as
   * `end`, the date as `start_date`, and `String(interval)` as `frequency`.
   */
  function FormatFormDataForApi(data: FormData): (p: Payload)
    requires Renderable(data.interval)
    ensures p.deviceId == data.device.id && p.duration == ToNumber(data.duration)
    ensures p.frequency == ToText(data.interval) && p.status == Pending
    ensures p.deviceName == data.device.name && p.title == data.device.name
    ensures p.end == data.time && p.startDate == data.date && p.endDate == data.endDate
  {
    Payload(data.device.name, ToNumber(data.duration), data.time, data.device.id, data.endDate, Pending,
            data.device.name, data.date, ToText(data.interval))
  }

  // ---------------------------------------------------------------------------
  // Properties

  /** The item ids of numeric schedule ids read back as those ids. */
  lemma NumericIdsReadBack(data: ApiResponse)
    requires data.result.Some?
    requires forall i :: 0 <= i < |data.result.value| ==> data.result.value[i].id.NumId?
    ensures var items, raw := ScheduleItemsMap(Some(data)).value, data.result.value;
      forall i :: 0 <= i < |items| ==> ParseInt(items[i].id) == Some(raw[i].id.n)
  {
    var items, raw := ScheduleItemsMap(Some(data)).value, data.result.value;
    forall i | 0 <= i < |items|
      ensures ParseInt(items[i].id) == Some(raw[i].id.n)
    {
      ParseIntText(raw[i].id.n);
    }
  }

  /**
   * The two payload builders differ only in where `device_id` comes from
   * and in `Number(duration)`: on a form whose duration is already a number
   * and whose own id is its device's id, they agree.
   */
  lemma PayloadsAgree(data: FormData)
    requires Renderable(data.interval) && data.duration.Num? && data.id == data.device.id
    ensures ScheduleItemToSendRawMap(data) == FormatFormDataForApi(data)
  {
  }

  /** An integral interval survives the round trip through the payload's `frequency` text. */
  lemma IntervalInFrequency(data: FormData, n: int)
    requires data.interval == Num(n as real)
    ensures Renderable(data.interval)
    ensures ToNumber(Str(FormatFormDataForApi(data).frequency)) == data.interval
  {
    assert (n as real).Floor == n;
    NumberOfText(n);
  }
}
