# gen-watering, modelled in Dafny

gen-watering schedules the watering valves of a Raspberry Pi. A FastAPI
backend expands a recurrence (daily, weekly, monthly or yearly, every
`interval` periods, until an end date or for `count` occurrences) into
one `'pending'` row per occurrence. Two small FastAPI services keep
in-memory device registries, and one of them drives GPIO relays. Two React
frontends (v2 and v3) turn API schedules into calendar events, turn form
input into API payloads, and validate their forms with yup.

This project models the logic of those pieces and proves what each one
promises:

- `Calendar`: proleptic Gregorian dates and minute-of-day date-times.
  - `Instant` is an absolute minute number, and its order agrees with date-time order.
  - ISO texts as Python's `isoformat` writes them and as dayjs and `new Date` read them.
- `Recurrence`: the RRULE expansion that `generate_schedule` delegates to dateutil.
  - It follows section 3.3.10 of RFC 5545: FREQ, INTERVAL, UNTIL, COUNT, DTSTART.
  - A month that lacks the anchor day is skipped, not clamped.
- `ScheduleApi`: backend/main.py.
  - The `schedule` table is a class holding its rows and the next serial id.
  - `generate_schedule` builds its occurrence list in a loop and inserts them in one transaction.
  - Also `new_schedule`, `delete_schedule` and the `get_schedules` row mapping.
  - Database faults are a parameter: connecting, a given statement, or closing.
- `DeviceApi`: backend/device.py. The registry is a class with the dictionary and its insertion order.
- `ManualControl`: backend/manual_device_control.py.
  - A class holding the devices and the level each relay pin was last driven to.
- `Text`, `Js`, `Forms`: the JavaScript semantics the frontends rely on.
  - `Text` and `Js`: `toString`, `Number`, `String`, `parseInt`, `toLowerCase`, `includes`, `split`, truthiness, `||`.
  - `Forms`: the shared form record and the rules both edit forms share.
- `UtilsV3`, `SideFormV3`, `EditFormV3`: the v3 mappers, the create-form schema and defaults, and the edit-form defaults and duration conversion.
- `UtilsV2`, `EditFormV2`: the v2 mappers and the edit-form defaults.
- `DeviceSelect`: the v2 device picker's case-insensitive name filter.

The model follows the code in these places:

- Monthly and yearly recurrences skip dates that do not exist, as dateutil does. They do not clamp them to the month's last day.
- Deleting a schedule id that matches no row reports `"error"`. Delete is not idempotent.
- No code moves a schedule out of `'pending'`, so no status transitions are modelled.
- An unknown frequency makes `generate_schedule` return a bare `{"error": ...}` dict, not an error `APIResponse`. That value is `ScheduleApi.InvalidFrequencyAsWritten`; `GenerateSchedule` returns the corrected error response instead. See Findings.
- `generate_schedule` and `new_schedule` compute `start + timedelta(minutes=duration)` outside their `try`. An end outside years 1 to 9999 raises `OverflowError`, so the route fails with a 500 and inserts nothing.
- `new_schedule` ignores `frequency`, `interval`, `count` and `end_date`.
- In the v2 edit form, `parseInt(frequency) || 1` keeps a negative number. Only NaN and 0 fall back to 1.

The v3 frontend reads schedule fields that backend/main.py's `get_schedules` does not send: `duration`, `frequency`, `interval`, `color` and `device_id`. The v3 frontend also calls routes that main.py does not define, so it talks to a backend that is not in this repository. The model therefore treats those fields as optional or possibly `undefined`, exactly as the frontend code must cope with them.

## Model

| member | source | states |
|---|---|---|
| Recurrence.FrequencyOf | backend/main.py:30-35 | a name maps to a frequency exactly when it is one of daily, weekly, monthly, yearly, and to that frequency |
| Recurrence.Next | backend/main.py:133-140 | the next period's candidate stays on the rule's grid and is exactly one period (interval days, weeks or months) further |
| Recurrence.Expand | backend/main.py:133-140 | every expanded date-time belongs to the series (on the grid, at the start's time of day, not after UNTIL, year at most 9999) and at most COUNT are produced |
| Recurrence.OccurrencesIncreasing | backend/main.py:133-140 | the occurrences come out in strictly increasing date-time order |
| Recurrence.OccurrencesStart | backend/main.py:133-140 | the series is non-empty exactly when COUNT allows one and DTSTART is within UNTIL, and then it starts at DTSTART |
| Recurrence.OccurrencesExactly | backend/main.py:133-140 | without COUNT, a date-time is an occurrence if and only if it is in the series: on the grid, at the start's time, not after the inclusive UNTIL |
| Recurrence.OccurrencesCount | backend/main.py:133-140 | with COUNT k, the occurrences are the first k of the uncounted series (none for k <= 0) |
| Recurrence.OccurrencesEvenlySpaced | backend/main.py:133-140 | daily and weekly occurrences are exactly interval days or interval weeks apart |
| Recurrence.OccurrencesKeepAnchor | backend/main.py:133-140 | every occurrence keeps the start's time of day; monthly and yearly ones keep its day of month on a real date, and yearly ones its month |
| RecurrenceExamples.MonthEndSkipped | backend/main.py:133-140 | a monthly rule anchored on 31 January 2024 until 30 April yields 31 January and 31 March only: February and April are skipped |
| ScheduleApi.RuleOf | backend/main.py:133-140 | the rule built from an accepted request with a known frequency is well formed |
| ScheduleApi.SlotOf | backend/main.py:148 | an occurrence's end is exactly `duration` minutes after its start |
| ScheduleApi.SlotsOf | backend/main.py:146-149 | one start/end pair per occurrence, in order |
| ScheduleApi.ComputeSlots | backend/main.py:146-149 | the loop builds exactly the start/end pairs of the rule's occurrences, and fails with `OverflowError` exactly when some occurrence's end falls outside years 1 to 9999 |
| ScheduleApi.PendingRows | backend/main.py:157-165 | one row per pair, numbered consecutively, each `'pending'`, for the request's device, with that pair's start and end |
| ScheduleApi.Without | backend/main.py:226 | the rows left by `DELETE ... WHERE id` are exactly the rows with another id |
| ScheduleApi.ScheduleTable.constructor | backend/main.py:155-169 | the table starts empty and well numbered |
| ScheduleApi.ScheduleTable.GenerateSchedule | backend/main.py:123-180 | unknown frequency: the corrected invalid-frequency error response (see Findings) and no change. An end outside years 1 to 9999: an uncaught `OverflowError` and no change. Otherwise a commit appends exactly the rows of the rule's occurrences and advances the serial. A fault before the commit leaves the table unchanged; a fault on close comes after the commit, so the rows stay and the response is an error |
| ScheduleApi.ScheduleTable.InsertPending | backend/main.py:155-180 | the transaction appends all rows or none; a fault on close comes after the commit, so the rows stay but the response is an error |
| ScheduleApi.ScheduleTable.NewSchedule | backend/main.py:183-214 | an end outside years 1 to 9999 raises `OverflowError` with no change; otherwise a commit appends exactly one `'pending'` row ending `duration` minutes after the start. A fault before the commit leaves the table unchanged; a fault on close comes after the commit, so the row stays and the response is an error |
| ScheduleApi.ScheduleTable.DeleteSchedule | backend/main.py:217-243 | the row with that id goes and nothing else changes; an id matching no row is reported as an error with the 404 text. A fault on connecting or in the statement leaves the table unchanged; the delete runs in autocommit, so a fault on close keeps the row deleted and the response is an error |
| ScheduleApi.WithoutCount | backend/main.py:226-233 | with increasing ids, deleting a present id removes exactly one row, and deleting an absent id changes nothing |
| ScheduleApi.WithoutKeepsNumbering | backend/main.py:226 | deleting keeps ids increasing and below the next serial value |
| ScheduleApi.AppendPendingKeepsNumbering | backend/main.py:157-165 | appending rows numbered from the serial value keeps the table well numbered |
| ScheduleApi.GeneratedRows | backend/main.py:133-169 | the rows a generation appends are one per occurrence, pending, for the device, in strictly increasing start order, each ending `duration` minutes after its start |
| ScheduleApi.ViewsOf | backend/main.py:100-111 | one view per joined row, in order, each titled with the device name and the database's minutes text |
| ScheduleApi.ViewRecoversRow | backend/main.py:100-109 | a view keeps the row's id, device name and status, its ISO start and end texts read back as the row's date-times, its duration is the minutes between them, and its title is the device name with the database's minutes text in brackets |
| ScheduleApi.InvalidFrequencyAsWrittenFails | backend/main.py:128-131 | the bare error dict fails the route's `APIResponse` response model, so the client gets a 500 |
| ScheduleApi.InvalidFrequencyDelivered | backend/main.py:128-131 | the corrected response reaches the client with status `"error"` and the invalid-frequency message |
| DeviceApi.Values | backend/device.py:36-37 | the listing has one device per key, in insertion order |
| DeviceApi.ValuesExact | backend/device.py:36-37 | the listing holds exactly the registry's values, each once |
| DeviceApi.Add | backend/device.py:42-48 | a duplicate id is refused with 400 and no change; a fresh id adds exactly that key and returns the device |
| DeviceApi.Update | backend/device.py:52-57 | an unknown path id is refused with 404 and no change; otherwise only the entry at the path id is replaced by the body, whatever the body's own id |
| DeviceApi.Delete | backend/device.py:61-66 | an unknown id is refused with 404 and no change; otherwise exactly that key is removed, and the other keys keep their order |
| DeviceApi.DeleteListing | backend/device.py:65 | after a delete, the listing is the old listing without that device, the others in their old order |
| DeviceApi.AddListsLast | backend/device.py:47 | a device added under a fresh id is listed last, after the earlier listing |
| DeviceApi.UpdateListing | backend/device.py:56 | updating keeps every device's place in the listing and changes only the entry at the path id |
| DeviceApi.AddDeleteRoundTrip | backend/device.py:42-66 | deleting a device just added under a fresh id gives the registry back |
| DeviceApi.DeviceStore.constructor | backend/device.py:24 | the registry starts empty |
| DeviceApi.DeviceStore.ListDevices | backend/device.py:36-37 | lists exactly the stored values, in insertion order |
| DeviceApi.DeviceStore.AddDevice | backend/device.py:42-48 | the new state and response are those of `Add` on the old state |
| DeviceApi.DeviceStore.UpdateDevice | backend/device.py:52-57 | the new state and response are those of `Update` on the old state |
| DeviceApi.DeviceStore.DeleteDevice | backend/device.py:61-66 | the new state and response are those of `Delete` on the old state |
| ManualControl.Initial | backend/manual_device_control.py:13-27 | devices 1 and 2, both `"off"`, each under its own id, with their pins driven LOW |
| ManualControl.Switch | backend/manual_device_control.py:35-54 | an unknown id gives 404 and no change; otherwise the pin is driven, the status matches the pin, only that device changes, and the response reports the stored status |
| ManualControl.SwitchEffect | backend/manual_device_control.py:41-43 | start leaves the device `"on"` and stop leaves it `"off"`, the response's status is the stored one, and other devices and their pins do not change |
| ManualControl.SwitchIdempotent | backend/manual_device_control.py:42 | starting twice is starting once, and stopping twice is stopping once |
| ManualControl.StopUndoesStart | backend/manual_device_control.py:41-54 | stopping after starting leaves the board as stopping alone would |
| ManualControl.DeviceBoard.constructor | backend/manual_device_control.py:19-27 | the board starts in the initial state |
| ManualControl.DeviceBoard.StartDevice | backend/manual_device_control.py:35-43 | the new state and response are those of `Start` on the old state |
| ManualControl.DeviceBoard.StopDevice | backend/manual_device_control.py:46-54 | the new state and response are those of `Stop` on the old state |
| Js.NumberOfText | frontendv2/src/Utils/Utils.ts:59 | `Number(String(n))` is `n` for every integer |
| Forms.FrequencyOrDaily | frontendv3/src/components/EditForm/EditForm.tsx:85 | a non-empty frequency is kept, and a missing or empty one becomes `daily` |
| UtilsV3.ScheduleItemsMap | frontendv3/src/Utils/Utils.ts:21-35 | no data or no result gives `[]`; otherwise one item per schedule, in order, with the id as text, the schedule as `extendedProps`, and the name, duration, status and colour copied |
| UtilsV3.ItemIds | frontendv3/src/Utils/Utils.ts:24 | each item id reads back as its schedule's id, and distinct schedules give distinct item ids |
| UtilsV3.ScheduleItemToSendMap | frontendv3/src/Utils/Utils.ts:49-53 | the item unchanged, plus `device_id` = its id and `date` = its start |
| UtilsV3.SendMapCarriesScheduleId | frontendv3/src/Utils/Utils.ts:49-53 | the `device_id` sent for a listed schedule is that schedule's own id |
| UtilsV3.CombineDayTime | frontendv3/src/Utils/Utils.ts:14-17 | a readable date and time give `date` + `T` + `time` + `:00` + the offset; anything else gives `Invalid Date` |
| UtilsV3.ScheduleItemToSendRawMap | frontendv3/src/Utils/Utils.ts:55-71 | `device_id` is the form's own id; start is date and time combined; the other fields copied, status pending |
| UtilsV3.FormatFormDataForApi | frontendv3/src/Utils/Utils.ts:73-88 | `device_id` and names from the device, `Number(duration)`, `:00` appended to the time, status pending |
| UtilsV3.PayloadKeepsForm | frontendv3/src/Utils/Utils.ts:73-88 | the form, all but its id, is recovered from the payload when its duration is already a number |
| UtilsV3.FormatFormDataForApiNew | frontendv3/src/Utils/Utils.ts:90-104 | agrees with `formatFormDataForApi` on every shared field, with no interval and the time unchanged |
| UtilsV3.FormatEditFormDataForApi | frontendv3/src/Utils/Utils.ts:106-123 | carries the form's id, status pending, and the start combined from date and time |
| UtilsV3.TranslateFrequency | frontendv3/src/Utils/Utils.ts:125-138 | daily, weekly, monthly and yearly get Diario, Semanal, Mensual and Anual, and every other text gets `''` |
| UtilsV3.TranslateFrequencyInjective | frontendv3/src/Utils/Utils.ts:125-138 | two frequencies with the same non-empty label are equal |
| SideFormV3.RemoveSpaces | frontendv3/src/components/SideForm/SideForm.tsx:35 | the result has no whitespace; a text without whitespace is kept as it is, and a text of whitespace only becomes empty |
| SideFormV3.RemoveSpacesConcat | frontendv3/src/components/SideForm/SideForm.tsx:35 | removing whitespace from joined texts is joining the texts with whitespace removed, so the other characters stay, in order |
| SideFormV3.YupNumber | frontendv3/src/components/SideForm/SideForm.tsx:35-41 | numbers pass as they are; NaN and `undefined` fail; a text passes exactly when, without its whitespace, it is non-empty and `Number` reads it, and then casts to that number |
| SideFormV3.YupNumberOfText | frontendv3/src/components/SideForm/SideForm.tsx:35-41 | an integer's text, with whitespace anywhere, casts to that integer |
| SideFormV3.TypedNumbersSent | frontendv3/src/components/SideForm/SideForm.tsx:164-216 | integers typed into the duration and interval inputs are sent as exactly those numbers |
| SideFormV3.Validate | frontendv3/src/components/SideForm/SideForm.tsx:14-43 | succeeds exactly when every rule passes; then only the duration and interval change, each to its cast value, the interval is at least 1, the frequency is a backend frequency other than yearly, and the start date is not after the end date |
| SideFormV3.ValidateRejects | frontendv3/src/components/SideForm/SideForm.tsx:17-41 | a frequency not offered, an interval below 1 or unreadable, a start after the end, or any missing required field is refused |
| SideFormV3.Submit | frontendv3/src/components/SideForm/SideForm.tsx:87-92 | a payload is sent exactly when the form validates, and it is `formatFormDataForApi` of the cast form |
| SideFormV3.SubmittedPayload | frontendv3/src/components/SideForm/SideForm.tsx:87-92 | every sent payload is pending, names a backend frequency, has a numeric duration, an interval of at least 1, dates in order, and the time with seconds |
| SideFormV3.DefaultsIncomplete | frontendv3/src/components/SideForm/SideForm.tsx:79-85 | the defaults alone do not validate: a device and a time are missing |
| SideFormV3.DefaultsComplete | frontendv3/src/components/SideForm/SideForm.tsx:79-85 | with a device and a time chosen, the defaults validate |
| EditFormV3.TotalMinutes | frontendv3/src/components/EditForm/EditForm.tsx:44-49 | no duration text throws; otherwise 60 times the hours plus the minutes plus the seconds over 60, missing or unreadable parts being 0 |
| EditFormV3.TotalMinutesOfClock | frontendv3/src/components/EditForm/EditForm.tsx:44-49 | `HH:mm:ss` is `60·HH + mm + ss/60` minutes |
| EditFormV3.HalfHour | frontendv3/src/components/EditForm/EditForm.tsx:44-49 | `00:30:00` is 30 minutes |
| EditFormV3.StartParts | frontendv3/src/components/EditForm/EditForm.tsx:43-82 | an ISO start gives its date and its time of day |
| EditFormV3.StartPartsOfIso | frontendv3/src/components/EditForm/EditForm.tsx:81-82 | for the backend's ISO texts, the default date and time are exactly the start's date and time of day |
| EditFormV3.Defaults | frontendv3/src/components/EditForm/EditForm.tsx:43-87 | fails exactly when the duration text is missing; otherwise the id, the device from `extendedProps`, the start's parts, the converted duration, the end text before its first `T`, the frequency or daily, and the interval as it is |
| EditFormV3.Submit | frontendv3/src/components/EditForm/EditForm.tsx:90-99 | a payload is sent exactly when the form differs from its default values (the save button at line 221 is disabled while `!isDirty`) and the presence schema passes, and it is `formatEditFormDataForApi` of the form |
| EditFormV3.PresenceOnly | frontendv3/src/components/EditForm/EditForm.tsx:16-35 | the edit schema accepts an interval of 0 and a start after the end, which the create form refuses |
| EditFormV3.EditKeepsStart | frontendv3/src/components/EditForm/EditForm.tsx:78-93 | saving an edit of a listed schedule that leaves its date and time alone sends back its start date and time of day |
| UtilsV2.ScheduleItemsMap | frontendv2/src/Utils/Utils.ts:12-25 | no data gives `[]`; data without a result throws; otherwise one item per schedule, in order, with the id as text and the fields copied |
| UtilsV2.NumericIdsReadBack | frontendv2/src/Utils/Utils.ts:15 | numeric schedule ids read back from the item ids |
| UtilsV2.ScheduleItemToSendMap | frontendv2/src/Utils/Utils.ts:27-31 | the item unchanged, plus `device_id` = its id and `date` = its start |
| UtilsV2.ScheduleItemToSendRawMap | frontendv2/src/Utils/Utils.ts:33-47 | `device_id` is the form's own id and `frequency` is `String(interval)` |
| UtilsV2.FormatFormDataForApi | frontendv2/src/Utils/Utils.ts:49-61 | `device_id` from the device, `Number(duration)`, `frequency` = `String(interval)`, end = time, the dates copied, status pending |
| UtilsV2.PayloadsAgree | frontendv2/src/Utils/Utils.ts:33-61 | the two builders agree when the duration is a number and the form's id is its device's id |
| UtilsV2.IntervalInFrequency | frontendv2/src/Utils/Utils.ts:59 | an integral interval is recovered from the payload's `frequency` text |
| EditFormV2.IntervalDefault | frontendv2/src/components/EditForm/EditForm.tsx:71 | a non-zero `parseInt` of the frequency is the interval; a missing frequency, NaN and 0 give 1 |
| EditFormV2.IntervalFromText | frontendv2/src/components/EditForm/EditForm.tsx:71 | a non-zero number written as the frequency comes back as the interval |
| EditFormV2.IntervalOfHex | frontendv2/src/components/EditForm/EditForm.tsx:71 | `parseInt` reads a `0x` prefix as base 16, so the frequency `0x10` gives interval 16 |
| EditFormV2.IntervalOfWord | frontendv2/src/components/EditForm/EditForm.tsx:71 | a frequency word such as `daily` gives interval 1 |
| EditFormV2.FirstFive | frontendv2/src/components/EditForm/EditForm.tsx:67 | a prefix of at most five characters |
| EditFormV2.Defaults | frontendv2/src/components/EditForm/EditForm.tsx:61-72 | fails exactly when the start has no `T`; otherwise the date is the start before its first `T`, the time the first five characters after it (fewer only where the text or the next `T` comes first), the end date the end before its first `T`, the duration, device, frequency-or-daily and interval as defaulted |
| EditFormV2.DefaultsOfIso | frontendv2/src/components/EditForm/EditForm.tsx:66-69 | for ISO start and end texts, the defaults are the start's date and time of day and the end's date |
| EditFormV2.Submit | frontendv2/src/components/EditForm/EditForm.tsx:75-84 | a payload is sent exactly when the form differs from its default values (the save button at line 169 is disabled while `!isDirty`) and the presence schema passes, and it is `formatFormDataForApi` of the form |
| EditFormV2.NumberNotOffered | frontendv2/src/components/EditForm/EditForm.tsx:25-28 | the text of a number is not a frequency the schema accepts |
| EditFormV2.NumericFrequencyRechosen | frontendv2/src/components/EditForm/EditForm.tsx:61-78 | a schedule whose frequency holds its interval opens with defaults the schema refuses; once a frequency is chosen, saving sends the same interval text back |
| DeviceSelect.Keep | frontendv2/src/components/SideForm/components/InputDevicesSelect.jsx:19-21 | keeps exactly the devices whose lower-cased name contains the lower-cased query, each as many times as the list holds it |
| DeviceSelect.Filtered | frontendv2/src/components/SideForm/components/InputDevicesSelect.jsx:16-21 | an empty query returns the list as it is; an undefined list stays undefined; otherwise exactly the matching devices, each as many times as the list holds it |
| DeviceSelect.KeepSubsequence | frontendv2/src/components/SideForm/components/InputDevicesSelect.jsx:19 | the kept devices are a subsequence of the list, in its order |
| DeviceSelect.KeepEmptyQuery | frontendv2/src/components/SideForm/components/InputDevicesSelect.jsx:16-21 | filtering with the empty query keeps every device, so the empty-query shortcut agrees with the filter |
| DeviceSelect.KeepCaseInsensitive | frontendv2/src/components/SideForm/components/InputDevicesSelect.jsx:20 | queries that differ only in letter case keep the same devices |
| DeviceSelect.FilteredCaseInsensitive | frontendv2/src/components/SideForm/components/InputDevicesSelect.jsx:16-21 | the offered list does not depend on the query's letter case |
| DeviceSelect.FilteredSubsequence | frontendv2/src/components/SideForm/components/InputDevicesSelect.jsx:16-21 | the offered list is always a subsequence of the loaded list |
| DeviceSelect.NotFoundExactly | frontendv2/src/components/SideForm/components/InputDevicesSelect.jsx:59 | "not found" shows exactly when a query was typed, the list has loaded, and no device's name contains the query, ignoring case |

## Left out

- The database connection, SQL text, logging and FastAPI routing. The table is an in-memory sequence of rows. A database error is a parameter saying where it is raised.
- Postgres consumes serial values even in a transaction that rolls back; the model rolls the next id back with the rows.
- `get_schedules` keeps only schedules from the last month and orders them by start. Both depend on the clock and the query plan, so `ViewsOf` maps whatever rows it is given.
- Seconds and sub-minute parts of date-times: date-times have minute granularity.
- ViewOf: how the driver renders `duration_minutes` (`30.0` for a float on PostgreSQL 13 and earlier, `30.0000000000000000` for a numeric from 14 on) depends on the server version, so the text is a field of the joined row; the view's `duration_minutes` is the whole number of minutes between start and end.
- `byweekday`: the frontends never send it.
- Recurrence.Expand: an interval below 1 is excluded. With 0, dateutil never advances; with a negative interval it walks back from the start, while the model's periods lie on or after it. A request with an unknown frequency is answered before the interval matters, so it may carry any interval.
- Recurrence.Expand: the model stops at year 9999, where Python's `datetime` ends.
- GPIO calls: a relay is the level its pin was last driven to. Setup and cleanup at shutdown are not modelled.
- The `list_devices` route of backend/manual_device_control.py returns the dictionary itself. It is not modelled beyond the board's `devices` map.
- React rendering, modals, calendars, the HTTP clients, the sidebar state, the static server and the DOM code of the first frontend.
- The v2 create-form schema.
- Time zones.
  - `combineDayTime` writes the host's UTC offset, which the model takes as the `offset` parameter.
  - `getLocalDate` is the host's local date, taken as the `today` parameter of `SideFormV3.Defaults`.
- Js.ToNumber: reads only optionally signed decimal integers. Decimal fractions, exponents and hexadecimal texts become NaN.
- SideFormV3.YupNumber: inherits that gap. A number input holding `1e3`, which yup casts to 1000, is refused here.
- Js.ToText: numbers that are not integers are not rendered.
  - The v2 payload builders therefore require an integral or non-numeric interval.
  - The interval field only holds input text or an integral default.
- The date inputs hold strings only.
  - An unset text field is the empty string.
  - yup's cast of non-string values into string fields is not modelled.
- dayjs and `new Date` read only `YYYY-MM-DD`, optionally followed by `THH:mm` and `:ss`.
  - dayjs's roll-over of out-of-range dates such as `2025-02-31` is not modelled. Such texts are unreadable here.
- Lower-casing covers ASCII letters only.
- Floating point: JavaScript numbers are exact rationals here, not rounded to doubles. For example, `EditFormV3.TotalMinutes` of `00:30:20` is exactly 91/3, while dayjs gives `30.333333333333332`.
- UtilsV3.CombineDayTime: reads the time as `HH:mm` only. A time with seconds such as `09:00:00` gives `Invalid Date` here, while dayjs formats it. A time input without a `step` attribute does not produce seconds.

## Findings

| source | as written | input that shows it | evidently intended | confidence | as-written member | corrected member |
|---|---|---|---|---|---|---|
| backend/main.py:128-131 | an unknown frequency returns a bare dict with only an `error` key from a route declared with `response_model=APIResponse`, whose `status` and `message` are required, so FastAPI's response validation fails and the client gets a 500 without the message | a request with frequency `"hourly"` | an error `APIResponse` with status `"error"` carrying the invalid-frequency message | medium, not executed | ScheduleApi.InvalidFrequencyAsWrittenFails | ScheduleApi.InvalidFrequencyDelivered |
