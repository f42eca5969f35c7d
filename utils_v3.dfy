/**
 * The pure mappers of frontendv3/src/Utils/Utils.ts: API schedules to
 * calendar items, calendar items and form data to request payloads, and the
 * Spanish labels of the frequencies.
 */
module UtilsV3 {
  import opened Wrappers
  import opened Text
  import opened Calendar
  import opened Recurrence
  import opened Js
  import opened Forms

  /**
   * `scheduleItemRaw`: a schedule as the API lists it. The fields a server
   * may leave out are `undefined` when absent (`color`, `device_id`,
   * `interval`) or optional (`duration`, `frequency`).
   */
  datatype RawItem = RawItem(
    id: int,
    title: string,
    start: string,
    end: string,
    deviceName: string,
    durationMinutes: real,
    status: string,
    color: Value,
    deviceId: Value,
    duration: Option<string>,
    frequency: Option<string>,
    interval: Value)

  /** `apiResponse`; `result` may be missing. */
  datatype ApiResponse = ApiResponse(status: string, message: string, result: Option<seq<RawItem>>)

  /** `scheduleItem`: an event for the calendar, carrying the raw schedule as `extendedProps`. */
  datatype ScheduleItem = ScheduleItem(
    id: string,
    title: string,
    start: string,
    end: string,
    extendedProps: RawItem,
    deviceName: string,
    durationMinutes: real,
    status: string,
    backgroundColor: Value)

  /** `{ ...item, device_id, date }`: every field of the item, plus two. */
  datatype ItemToSend = ItemToSend(item: ScheduleItem, deviceId: string, date: string)

  /** `scheduleItemToSendRaw`. */
  datatype Payload = Payload(
    deviceName: string,
    duration: Value,
    end: string,
    deviceId: Value,
    endDate: string,
    status: string,
    title: string,
    startDate: string,
    frequency: string,
    interval: Value,
    time: string)

  /** `scheduleItemToSendRawNew`: no `end` and no `interval`. */
  datatype PayloadNew = PayloadNew(
    deviceName: string,
    duration: Value,
    time: string,
    deviceId: Value,
    endDate: string,
    status: string,
    title: string,
    startDate: string,
    frequency: string)

  /** `editScheduleItemToSendRaw`: a payload plus the schedule's `id`. */
  datatype EditPayload = EditPayload(fields: Payload, id: Value)

  function ItemOf(raw: RawItem): ScheduleItem {
    ScheduleItem(IntText(raw.id), raw.title, raw.start, raw.end, raw, raw.deviceName,
                 raw.durationMinutes, raw.status, raw.color)
  }

  /**
   * `sheduleItemsMap`: no data or no result gives no items; otherwise one
   * item per schedule, in order, with the id as text and the schedule
   * itself as `extendedProps`.
   */
  function ScheduleItemsMap(data: Option<ApiResponse>): (items: seq<ScheduleItem>)
    ensures data.None? || data.value.result.None? ==> items == []
    ensures data.Some? && data.value.result.Some? ==>
      var raw := data.value.result.value;
      |items| == |raw|
      && forall i :: 0 <= i < |raw| ==>
        items[i].id == IntText(raw[i].id) && items[i].title == raw[i].title
        && items[i].start == raw[i].start && items[i].end == raw[i].end
        && items[i].extendedProps == raw[i] && items[i].deviceName == raw[i].deviceName
        && items[i].durationMinutes == raw[i].durationMinutes && items[i].status == raw[i].status
        && items[i].backgroundColor == raw[i].color
  {
    match data
    case None => []
    case Some(response) =>
      match response.result
      case None => []
      case Some(raw) => seq(|raw|, i requires 0 <= i < |raw| => ItemOf(raw[i]))
  }

  /** `scheduleItemToSendMap`: the item with `device_id` set to the item's id and `date` to its start. */
  function ScheduleItemToSendMap(data: ScheduleItem): (r: ItemToSend)
    ensures r.item == data && r.deviceId == data.id && r.date == data.start
  {
    ItemToSend(data, data.id, data.start)
  }

  /**
   * `combineDayTime`: dayjs reads `date` and `time` as a local date-time and
   * `format()` writes it back with the host's UTC offset (`offset`, e.g.
   * `-03:00`); an unreadable date or time gives `Invalid Date`.
   */
  function CombineDayTime(date: string, time: string, offset: string): (s: string)
    ensures ParseDate(date).Some? && ParseTime(time).Some? ==>
      |s| == 19 + |offset| && s[..10] == date && s[10] == 'T' && s[11..16] == time
      && s[16..19] == ":00" && s[19..] == offset
    ensures ParseDate(date).None? || ParseTime(time).None? ==> s == "Invalid Date"
  {
    match (ParseDate(date), ParseTime(time))
    case (Some(d), Some(m)) =>
      var t := DateTime(d, m);
      IsoFormatParts(t);
      DateTextParse(date);
      TimeTextParse(time);
      IsoFormat(t) + offset
    case _ => "Invalid Date"
  }

  /** `scheduleItemToSendRawMap`: `device_id` is the form's own `id`, and the start is date and time combined. */
  function ScheduleItemToSendRawMap(data: FormData, offset: string): (p: Payload)
    ensures p.deviceId == data.id && p.duration == data.duration
    ensures p.deviceName == data.device.name && p.title == data.device.name
    ensures p.end == data.time && p.time == data.time && p.status == Pending
    ensures p.endDate == data.endDate && p.frequency == data.frequency && p.interval == data.interval
    ensures p.startDate == CombineDayTime(data.date, data.time, offset)
  {
    Payload(data.device.name, data.duration, data.time, data.id, data.endDate, Pending,
            data.device.name, CombineDayTime(data.date, data.time, offset), data.frequency, data.interval, data.time)
  }

  /**
   * `formatFormDataForApi`: the device's id and name, `Number(duration)`,
   * the date as `start_date`, seconds appended to the time, status pending.
   */
  function FormatFormDataForApi(data: FormData): (p: Payload)
    ensures p.deviceId == data.device.id && p.deviceName == data.device.name && p.title == data.device.name
    ensures p.duration == ToNumber(data.duration) && p.status == Pending
    ensures p.startDate == data.date && p.endDate == data.endDate && p.end == data.time
    ensures p.time == data.time + ":00"
    ensures p.frequency == data.frequency && p.interval == data.interval
  {
    Payload(data.device.name, ToNumber(data.duration), data.time, data.device.id, data.endDate, Pending,
            data.device.name, data.date, data.frequency, data.interval, data.time + ":00")
  }

  /** `formatFormDataForApiNew`: as `formatFormDataForApi`, without `interval` and `end`, and the time unchanged. */
  function FormatFormDataForApiNew(data: FormData): (p: PayloadNew)
    ensures var full := FormatFormDataForApi(data);
      p.deviceName == full.deviceName && p.duration == full.duration && p.deviceId == full.deviceId
      && p.endDate == full.endDate && p.status == full.status && p.title == full.title
      && p.startDate == full.startDate && p.frequency == full.frequency
      && p.time == data.time && full.time == p.time + ":00"
  {
    PayloadNew(data.device.name, ToNumber(data.duration), data.time, data.device.id, data.endDate, Pending,
               data.device.name, data.date, data.frequency)
  }

  /** `formatEditFormDataForApi`: the schedule's `id` travels with a payload whose start is date and time combined. */
  function FormatEditFormDataForApi(data: FormData, offset: string): (e: EditPayload)
    ensures e.id == data.id && e.fields.status == Pending
    ensures e.fields.deviceId == data.device.id && e.fields.deviceName == data.device.name
    ensures e.fields.title == data.device.name && e.fields.duration == ToNumber(data.duration)
    ensures e.fields.end == data.time && e.fields.time == data.time
    ensures e.fields.endDate == data.endDate && e.fields.frequency == data.frequency
    ensures e.fields.interval == data.interval
    ensures e.fields.startDate == CombineDayTime(data.date, data.time, offset)
  {
    EditPayload(
      Payload(data.device.name, ToNumber(data.duration), data.time, data.device.id, data.endDate, Pending,
              data.device.name, CombineDayTime(data.date, data.time, offset), data.frequency, data.interval, data.time),
      data.id)
  }

  /** `translateFrequency`: a Spanish label for each frequency the backend accepts, and `''` for anything else. */
  function TranslateFrequency(frequency: string): (spanish: string)
    ensures spanish != "" <==> FrequencyOf(frequency).Some?
    ensures spanish in {"Diario", "Semanal", "Mensual", "Anual", ""}
    ensures FrequencyOf(frequency) == Some(Daily) ==> spanish == "Diario"
    ensures FrequencyOf(frequency) == Some(Weekly) ==> spanish == "Semanal"
    ensures FrequencyOf(frequency) == Some(Monthly) ==> spanish == "Mensual"
    ensures FrequencyOf(frequency) == Some(Yearly) ==> spanish == "Anual"
    ensures FrequencyOf(frequency).None? ==> spanish == ""
  {
    match frequency
    case "daily" => "Diario"
    case "weekly" => "Semanal"
    case "monthly" => "Mensual"
    case "yearly" => "Anual"
    case _ => ""
  }

  // ---------------------------------------------------------------------------
  // Properties

  /** Distinct schedule ids give distinct item ids, and each item's id reads back as its schedule's id. */
  lemma ItemIds(data: ApiResponse)
    requires data.result.Some?
    requires forall i, j :: 0 <= i < j < |data.result.value| ==> data.result.value[i].id != data.result.value[j].id
    ensures var items, raw := ScheduleItemsMap(Some(data)), data.result.value;
      (forall i :: 0 <= i < |items| ==> ParseInt(items[i].id) == Some(raw[i].id))
      && forall i, j :: 0 <= i < j < |items| ==> items[i].id != items[j].id
  {
    var items, raw := ScheduleItemsMap(Some(data)), data.result.value;
    forall i | 0 <= i < |items|
      ensures ParseInt(items[i].id) == Some(raw[i].id)
    {
      ParseIntText(raw[i].id);
    }
    forall i, j | 0 <= i < j < |items|
      ensures items[i].id != items[j].id
    {
      ParseIntText(raw[i].id);
      ParseIntText(raw[j].id);
    }
  }

  /** The `device_id` that `scheduleItemToSendMap` sends for a listed schedule is that schedule's own id. */
  lemma SendMapCarriesScheduleId(raw: RawItem)
    ensures ParseInt(ScheduleItemToSendMap(ItemOf(raw)).deviceId) == Some(raw.id)
    ensures ScheduleItemToSendMap(ItemOf(raw)).item.extendedProps == raw
  {
    ParseIntText(raw.id);
  }

  /** The form a payload of `formatFormDataForApi` was made from, but for the form's `id`, which it does not carry. */
  function FormOfPayload(p: Payload): FormData
    requires |p.time| >= 3
  {
    FormData(Undefined, DeviceRef(p.deviceId, p.deviceName), p.startDate, p.time[..|p.time| - 3],
             p.duration, p.endDate, p.frequency, p.interval)
  }

  /** A form whose duration is already a number (as the yup cast leaves it) is recovered from its payload, all but its id. */
  lemma PayloadKeepsForm(data: FormData)
    requires data.duration.Num?
    ensures FormOfPayload(FormatFormDataForApi(data)) == data.(id := Undefined)
  {
    var t := data.time + ":00";
    assert t[..|t| - 3] == data.time;
  }

  /** Two frequencies with the same non-empty label are the same frequency. */
  lemma TranslateFrequencyInjective(a: string, b: string)
    requires TranslateFrequency(a) == TranslateFrequency(b) != ""
    ensures a == b
  {
  }
}
