/**
 * The schedule endpoints of the backend (backend/main.py) over an
 * in-memory `schedule` table: `generate_schedule` (a recurring series),
 * `new_schedule` (one row), `delete_schedule` and the row mapping of
 * `get_schedules`.
 *
 * The database is a sequence of rows plus the next serial id. Whether and
 * where the database raises is a parameter (`DbFault`): the route catches
 * the exception and answers with an error envelope, and a fault inside the
 * insert transaction rolls every insert of the call back.
 */
module ScheduleApi {
  import opened Wrappers
  import opened Text
  import opened Calendar
  import opened Recurrence

  /** The fields of `ScheduleRequest` the routes read (`byweekday` is never sent and not modelled). */
  datatype Request = Request(
    startDate: DateTime,
    endDate: Option<DateTime>,
    frequency: string,
    interval: int,
    count: Option<int>,
    deviceId: int,
    duration: int)

  /** A request pydantic accepted; a known frequency comes with an interval dateutil can advance by. */
  predicate RequestOk(req: Request) {
    ValidDateTime(req.startDate) && 1 <= req.startDate.date.year <= MaxYear
    && (FrequencyOf(req.frequency).Some? ==> req.interval >= 1)
    && (req.endDate.Some? ==> ValidDateTime(req.endDate.value))
  }

  /** The `rrule(...)` the route builds from a request with a known frequency. */
  function RuleOf(req: Request): (r: Rule)
    requires RequestOk(req) && FrequencyOf(req.frequency).Some?
    ensures WellFormed(r)
  {
    Rule(FrequencyOf(req.frequency).value, req.startDate, req.endDate, req.interval, req.count)
  }

  // ---------------------------------------------------------------------------
  // Occurrences with their end times

  /** One entry of `occurrences`: `{"start": start, "end": end}`. */
  datatype Slot = Slot(start: DateTime, end: DateTime)

  /** `end = start + timedelta(minutes=duration)`. */
  function SlotOf(t: DateTime, duration: int): (s: Slot)
    requires ValidDateTime(t)
    ensures s.start == t && ValidDateTime(s.end)
    ensures Instant(s.end) == Instant(t) + duration
  {
    Slot(t, AddMinutes(t, duration))
  }

  function SlotsOf(occ: seq<DateTime>, duration: int): (slots: seq<Slot>)
    requires forall t :: t in occ ==> ValidDateTime(t)
    ensures |slots| == |occ|
    ensures forall i :: 0 <= i < |occ| ==> slots[i] == SlotOf(occ[i], duration)
  {
    seq(|occ|, i requires 0 <= i < |occ| => SlotOf(occ[i], duration))
  }

  lemma SlotsOfAppend(occ: seq<DateTime>, t: DateTime, duration: int)
    requires forall u :: u in occ ==> ValidDateTime(u)
    requires ValidDateTime(t)
    ensures SlotsOf(occ + [t], duration) == SlotsOf(occ, duration) + [SlotOf(t, duration)]
  {
    var a, b := SlotsOf(occ + [t], duration), SlotsOf(occ, duration) + [SlotOf(t, duration)];
    assert forall i :: 0 <= i < |a| ==> a[i] == b[i] by {
      forall i | 0 <= i < |a|
        ensures a[i] == b[i]
      {
        if i < |occ| {
          assert (occ + [t])[i] == occ[i];
        }
      }
    }
  }

  lemma EndsFitAppend(occ: seq<DateTime>, t: DateTime, duration: int)
    requires forall u :: u in occ ==> ValidDateTime(u)
    requires ValidDateTime(t) && EndsFit(occ, duration) && Representable(AddMinutes(t, duration).date)
    ensures EndsFit(occ + [t], duration)
  {
  }

  /** One yielding period of the loop keeps its invariant. */
  lemma YieldStep(r: Rule, c: Date, left: Option<int>, emitted: seq<DateTime>, duration: int)
    requires WellFormed(r) && OnGrid(r, c) && c.year <= MaxYear && ValidDate(c)
    requires WithinUntil(r, DateTime(c, r.start.minute)) && (left.None? || left.value > 0)
    requires emitted + Expand(r, c, left) == Occurrences(r)
    requires forall u :: u in emitted ==> ValidDateTime(u)
    ensures var t := DateTime(c, r.start.minute);
      (emitted + [t]) + Expand(r, Next(r, c), CountDown(left)) == Occurrences(r)
      && t in Occurrences(r)
      && (forall u :: u in emitted + [t] ==> ValidDateTime(u))
      && SlotsOf(emitted + [t], duration) == SlotsOf(emitted, duration) + [SlotOf(t, duration)]
  {
    var t := DateTime(c, r.start.minute);
    ExpandYield(r, c, left);
    assert (emitted + [t]) + Expand(r, Next(r, c), CountDown(left)) == emitted + ([t] + Expand(r, Next(r, c), CountDown(left)));
    SlotsOfAppend(emitted, t, duration);
  }

  /** `start + timedelta(minutes=duration)` beyond the years Python's `datetime` holds raises this. */
  const OverflowReason: string := "OverflowError: date value out of range"

  /** Every occurrence's end is a date-time Python can hold. */
  predicate EndsFit(occ: seq<DateTime>, duration: int)
    requires forall t :: t in occ ==> ValidDateTime(t)
  {
    forall t :: t in occ ==> Representable(AddMinutes(t, duration).date)
  }

  /**
   * The `for start in rule` loop: walk the rule's periods as dateutil does
   * and append each occurrence with its end; an end outside years 1 to 9999
   * raises and ends the loop.
   */
  method ComputeSlots(r: Rule, duration: int) returns (result: Result<seq<Slot>, string>)
    requires WellFormed(r)
    ensures result.Ok? <==> EndsFit(Occurrences(r), duration)
    ensures result.Ok? ==> result.value == SlotsOf(Occurrences(r), duration)
    ensures result.Err? ==> result.error == OverflowReason
  {
    var c := r.start.date;
    var left := r.count;
    ghost var emitted: seq<DateTime> := [];
    var slots := [];
    while c.year <= MaxYear
      invariant OnGrid(r, c)
      invariant emitted + Expand(r, c, left) == Occurrences(r)
      invariant forall t :: t in emitted ==> ValidDateTime(t)
      invariant EndsFit(emitted, duration)
      invariant slots == SlotsOf(emitted, duration)
      decreases Horizon(r, c)
    {
      HorizonBound(r, c);
      var n := Next(r, c);
      if ValidDate(c) {
        var t := DateTime(c, r.start.minute);
        if r.until.Some? && DateTimeBefore(r.until.value, t) {
          ExpandCut(r, c, left);
          break;
        }
        if left.Some? && left.value - 1 < 0 {
          break;
        }
        YieldStep(r, c, left, emitted, duration);
        var end := AddMinutes(t, duration);
        if !Representable(end.date) {
          return Err(OverflowReason);
        }
        EndsFitAppend(emitted, t, duration);
        left := CountDown(left);
        emitted := emitted + [t];
        slots := slots + [Slot(t, end)];
      } else {
        ExpandSkip(r, c, left);
      }
      c := n;
    }
    assert emitted == Occurrences(r);
    return Ok(slots);
  }

  // ---------------------------------------------------------------------------
  // The table

  /** A row of `schedule`; the route always writes the status `'pending'`. */
  datatype Row = Row(id: int, start: DateTime, end: DateTime, deviceId: int, duration: int, status: string)

  const Pending: string := "pending"

  /** The rows one call inserts, numbered from `firstId` on. */
  function PendingRows(slots: seq<Slot>, firstId: int, deviceId: int, duration: int): (rows: seq<Row>)
    ensures |rows| == |slots|
    ensures forall i :: 0 <= i < |slots| ==>
      rows[i] == Row(firstId + i, slots[i].start, slots[i].end, deviceId, duration, Pending)
  {
    seq(|slots|, i requires 0 <= i < |slots| => Row(firstId + i, slots[i].start, slots[i].end, deviceId, duration, Pending))
  }

  /** Where the database raises, if it does: on connecting, at the `at`-th statement, or on closing. */
  datatype DbFault = ConnectFails(reason: string) | StatementFails(at: nat, reason: string) | CloseFails(reason: string)

  /** The fault interrupts a call that runs `n` statements (a statement past the last never runs). */
  predicate Raises(fault: Option<DbFault>, n: nat) {
    fault.Some? && (fault.value.StatementFails? ==> fault.value.at < n)
  }

  /** The call's statements took effect: nothing raised before the transaction ended. */
  predicate Commits(fault: Option<DbFault>, n: nat) {
    !Raises(fault, n) || fault.value.CloseFails?
  }

  datatype ScheduleView = ScheduleView(
    title: string, start: string, end: string, durationMinutes: int,
    deviceName: string, status: string, id: int)

  /** What `result` of an `APIResponse` holds. */
  datatype Payload = Nothing | Text(text: string) | Deleted(scheduleId: int) | Schedules(views: seq<ScheduleView>)

  /** A route's return value: an `APIResponse`, or a bare `{"error": ...}` dict. */
  datatype Response =
    | ApiResponse(status: string, message: string, result: Payload, errorReason: Option<string>)
    | ErrorDict(error: string)
    | Raised(exception: string)  // an exception the route does not catch

  function Success(message: string, result: Payload): Response {
    ApiResponse("success", message, result, None)
  }

  function Failure(message: string, reason: string): Response {
    ApiResponse("error", message, Nothing, Some(reason))
  }

  const InvalidFrequencyMessage: string := "Invalid frequency. Choose from: daily, weekly, monthly, yearly."

  /** `str(HTTPException(404, ...))`, which `delete_schedule` catches and reports. */
  function NotFoundReason(id: int): string {
    "404: Schedule with ID " + IntText(id) + " not found"
  }

  /** The row has id `id`. */
  predicate HasId(rows: seq<Row>, id: int) {
    exists i :: 0 <= i < |rows| && rows[i].id == id
  }

  /** `DELETE FROM schedule WHERE id = $1`. */
  function Without(rows: seq<Row>, id: int): (rest: seq<Row>)
    ensures |rest| <= |rows|
    ensures forall x :: x in rest <==> x in rows && x.id != id
  {
    if rows == [] then []
    else if rows[0].id == id then Without(rows[1..], id)
    else [rows[0]] + Without(rows[1..], id)
  }

  /** Ids increase along the table. */
  predicate IdsIncrease(rows: seq<Row>) {
    forall i, j :: 0 <= i < j < |rows| ==> rows[i].id < rows[j].id
  }

  /** Ids increase along the table and stay below the next serial value. */
  predicate WellNumbered(rows: seq<Row>, nextId: int) {
    IdsIncrease(rows) && forall x :: x in rows ==> x.id < nextId
  }

  class ScheduleTable {
    var rows: seq<Row>
    var nextId: int

    predicate Valid()
      reads this
    {
      WellNumbered(rows, nextId)
    }

    constructor ()
      ensures Valid() && rows == [] && nextId == 1
    {
      rows := [];
      nextId := 1;
    }

    /**
     * `generate_schedule`: check the frequency, expand the rule, then insert
     * one `'pending'` row per occurrence in one transaction.
     */
    method GenerateSchedule(req: Request, fault: Option<DbFault>) returns (resp: Response)
      requires Valid() && RequestOk(req)
      modifies this
      ensures Valid()
      ensures FrequencyOf(req.frequency).None? ==>
        resp == InvalidFrequencyResponse() && rows == old(rows) && nextId == old(nextId)
      ensures FrequencyOf(req.frequency).Some? && !EndsFit(Occurrences(RuleOf(req)), req.duration) ==>
        resp == Raised(OverflowReason) && rows == old(rows) && nextId == old(nextId)
      ensures FrequencyOf(req.frequency).Some? && EndsFit(Occurrences(RuleOf(req)), req.duration) ==>
        var slots := SlotsOf(Occurrences(RuleOf(req)), req.duration);
        (Commits(fault, |slots|) ==>
          rows == old(rows) + PendingRows(slots, old(nextId), req.deviceId, req.duration)
          && nextId == old(nextId) + |slots|)
        && (!Commits(fault, |slots|) ==> rows == old(rows) && nextId == old(nextId))
        && resp == if Raises(fault, |slots|) then Failure("Failed to generate schedule.", fault.value.reason)
                   else Success("Schedules saved successfully.", Text(""))
    {
      if FrequencyOf(req.frequency).None? {
        return InvalidFrequencyResponse();
      }
      var slots := ComputeSlots(RuleOf(req), req.duration);
      if slots.Err? {
        return Raised(slots.error);
      }
      resp := InsertPending(slots.value, req.deviceId, req.duration, fault, "Failed to generate schedule.");
    }

    /**
     * The insert transaction: one `'pending'` row per slot, numbered from the
     * next serial value; a statement that raises rolls every insert back.
     */
    method InsertPending(slots: seq<Slot>, deviceId: int, duration: int, fault: Option<DbFault>, failure: string)
      returns (resp: Response)
      requires Valid()
      modifies this
      ensures Valid()
      ensures Commits(fault, |slots|) ==>
        rows == old(rows) + PendingRows(slots, old(nextId), deviceId, duration) && nextId == old(nextId) + |slots|
      ensures !Commits(fault, |slots|) ==> rows == old(rows) && nextId == old(nextId)
      ensures resp == if Raises(fault, |slots|) then Failure(failure, fault.value.reason)
                      else Success("Schedules saved successfully.", Text(""))
    {
      if fault.Some? && fault.value.ConnectFails? {
        return Failure(failure, fault.value.reason);
      }
      var saved, firstId := rows, nextId;
      var i := 0;
      while i < |slots|
        invariant 0 <= i <= |slots|
        invariant rows == saved + PendingRows(slots[..i], firstId, deviceId, duration)
        invariant nextId == firstId + i
        invariant !(fault.Some? && fault.value.StatementFails? && fault.value.at < i)
      {
        if fault.Some? && fault.value.StatementFails? && fault.value.at == i {
          // the transaction rolls back every insert of this call
          rows, nextId := saved, firstId;
          return Failure(failure, fault.value.reason);
        }
        rows := rows + [Row(nextId, slots[i].start, slots[i].end, deviceId, duration, Pending)];
        nextId := nextId + 1;
        i := i + 1;
        assert PendingRows(slots[..i], firstId, deviceId, duration)
          == PendingRows(slots[..i - 1], firstId, deviceId, duration)
             + [Row(firstId + i - 1, slots[i - 1].start, slots[i - 1].end, deviceId, duration, Pending)];
      }
      assert slots[..i] == slots;
      AppendPendingKeepsNumbering(saved, firstId, slots, deviceId, duration);
      if fault.Some? && fault.value.CloseFails? {
        return Failure(failure, fault.value.reason);
      }
      return Success("Schedules saved successfully.", Text(""));
    }

    /** `new_schedule`: insert one `'pending'` row lasting `duration` minutes from the start. */
    method NewSchedule(req: Request, fault: Option<DbFault>) returns (resp: Response)
      requires Valid() && ValidDateTime(req.startDate)
      modifies this
      ensures Valid()
      ensures !Representable(AddMinutes(req.startDate, req.duration).date) ==>
        resp == Raised(OverflowReason) && rows == old(rows) && nextId == old(nextId)
      ensures Representable(AddMinutes(req.startDate, req.duration).date) && Commits(fault, 1) ==>
        rows == old(rows) + [Row(old(nextId), req.startDate, AddMinutes(req.startDate, req.duration), req.deviceId, req.duration, Pending)]
        && nextId == old(nextId) + 1
      ensures Representable(AddMinutes(req.startDate, req.duration).date) && !Commits(fault, 1) ==>
        rows == old(rows) && nextId == old(nextId)
      ensures Representable(AddMinutes(req.startDate, req.duration).date) ==>
        resp == if Raises(fault, 1) then Failure("Failed to generate schedule.", fault.value.reason)
                else Success("Schedules saved successfully.", Text(""))
    {
      var slot := SlotOf(req.startDate, req.duration);
      if !Representable(slot.end.date) {
        return Raised(OverflowReason);
      }
      resp := InsertPending([slot], req.deviceId, req.duration, fault, "Failed to generate schedule.");
    }

    /**
     * `delete_schedule`: delete the row with that id; when none was deleted
     * the route raises a 404, catches it and reports it as an error.
     */
    method DeleteSchedule(id: int, fault: Option<DbFault>) returns (resp: Response)
      requires Valid()
      modifies this
      ensures Valid() && nextId == old(nextId)
      ensures rows == if Commits(fault, 1) then Without(old(rows), id) else old(rows)
      ensures resp ==
        if Raises(fault, 1) then Failure("Failed to delete schedule.", fault.value.reason)
        else if !HasId(old(rows), id) then Failure("Failed to delete schedule.", NotFoundReason(id))
        else Success("Schedule deleted successfully.", Deleted(id))
    {
      if fault.Some? && (fault.value.ConnectFails? || (fault.value.StatementFails? && fault.value.at == 0)) {
        return Failure("Failed to delete schedule.", fault.value.reason);
      }
      var found := HasId(rows, id);
      WithoutKeepsNumbering(rows, nextId, id);
      rows := Without(rows, id);
      if fault.Some? && fault.value.CloseFails? {
        return Failure("Failed to delete schedule.", fault.value.reason);
      }
      if !found {
        return Failure("Failed to delete schedule.", NotFoundReason(id));
      }
      return Success("Schedule deleted successfully.", Deleted(id));
    }
  }

  /** The response to an unknown frequency, as the route means it to reach the client (see `InvalidFrequencyAsWritten`). */
  function InvalidFrequencyResponse(): Response {
    ApiResponse("error", InvalidFrequencyMessage, Nothing, None)
  }

  lemma WithoutKeepsNumbering(rows: seq<Row>, nextId: int, id: int)
    requires WellNumbered(rows, nextId)
    ensures WellNumbered(Without(rows, id), nextId)
  {
    WithoutIncreasing(rows, id);
  }

  lemma {:induction false} WithoutIncreasing(rows: seq<Row>, id: int)
    requires IdsIncrease(rows)
    ensures IdsIncrease(Without(rows, id))
  {
    if rows != [] {
      assert IdsIncrease(rows[1..]);
      WithoutIncreasing(rows[1..], id);
      if rows[0].id != id {
        FirstIsLeast(rows);
        ConsIncrease(rows[0], Without(rows[1..], id));
      }
    }
  }

  lemma FirstIsLeast(rows: seq<Row>)
    requires IdsIncrease(rows) && rows != []
    ensures forall x :: x in rows[1..] ==> rows[0].id < x.id
  {
    forall x | x in rows[1..]
      ensures rows[0].id < x.id
    {
      var k :| 0 <= k < |rows| - 1 && rows[1..][k] == x;
      assert rows[k + 1] == x;
    }
  }

  lemma ConsIncrease(x: Row, rest: seq<Row>)
    requires IdsIncrease(rest) && forall y :: y in rest ==> x.id < y.id
    ensures IdsIncrease([x] + rest)
  {
    var all := [x] + rest;
    forall i, j | 0 <= i < j < |all|
      ensures all[i].id < all[j].id
    {
      if i == 0 {
        assert all[j] in rest;
      } else {
        assert all[i] == rest[i - 1] && all[j] == rest[j - 1];
      }
    }
  }

  /** Appending rows numbered from `nextId` on keeps the table well numbered. */
  lemma AppendPendingKeepsNumbering(rows: seq<Row>, nextId: int, slots: seq<Slot>, deviceId: int, duration: int)
    requires WellNumbered(rows, nextId)
    ensures WellNumbered(rows + PendingRows(slots, nextId, deviceId, duration), nextId + |slots|)
  {
    var added := PendingRows(slots, nextId, deviceId, duration);
    var all := rows + added;
    forall i, j | 0 <= i < j < |all|
      ensures all[i].id < all[j].id
    {
      if j >= |rows| && i < |rows| {
        assert all[i] in rows;
      }
    }
  }

  /** With increasing ids, deleting a present id removes exactly one row, and deleting an absent one changes nothing. */
  lemma {:induction false} WithoutCount(rows: seq<Row>, id: int)
    requires IdsIncrease(rows)
    ensures HasId(rows, id) ==> |Without(rows, id)| == |rows| - 1
    ensures !HasId(rows, id) ==> Without(rows, id) == rows
  {
    if rows != [] {
      assert IdsIncrease(rows[1..]);
      WithoutCount(rows[1..], id);
      if rows[0].id == id {
        FirstIsLeast(rows);
        assert !HasId(rows[1..], id);
      } else if HasId(rows, id) {
        var k :| 0 <= k < |rows| && rows[k].id == id;
        assert rows[1..][k - 1].id == id;
      } else {
        assert !HasId(rows[1..], id) by {
          forall k | 0 <= k < |rows| - 1
            ensures rows[1..][k].id != id
          {
            assert rows[1..][k] == rows[k + 1];
          }
        }
      }
    }
  }

  // ---------------------------------------------------------------------------
  // What generation appends

  /**
   * The rows a committed `generate_schedule` appends follow the rule: one
   * per occurrence, in increasing start order, each `'pending'`, for the
   * request's device, and ending `duration` minutes after it starts.
   */
  lemma GeneratedRows(req: Request, firstId: int)
    requires RequestOk(req) && FrequencyOf(req.frequency).Some?
    ensures var r := RuleOf(req);
      var occ := Occurrences(r);
      var added := PendingRows(SlotsOf(occ, req.duration), firstId, req.deviceId, req.duration);
      |added| == |occ|
      && (forall i :: 0 <= i < |added| ==>
            added[i].id == firstId + i && added[i].status == Pending && added[i].deviceId == req.deviceId
            && added[i].start == occ[i] && InSeries(r, added[i].start)
            && Instant(added[i].end) == Instant(added[i].start) + req.duration)
      && (forall i, j :: 0 <= i < j < |added| ==> DateTimeBefore(added[i].start, added[j].start))
  {
    var r := RuleOf(req);
    var occ := Occurrences(r);
    OccurrencesIncreasing(r);
    assert forall i :: 0 <= i < |occ| ==> occ[i] in occ;
  }

  // ---------------------------------------------------------------------------
  // get_schedules

  /**
   * A row of the `get_schedules` query: a schedule joined with its device.
   * `minutesText` is how `str` renders the row's `duration_minutes`, which
   * the database computes and the driver converts (a float such as `30.0`
   * on PostgreSQL 13 and earlier, a decimal with sixteen fractional digits
   * from 14 on).
   */
  datatype JoinedRow = JoinedRow(id: int, start: DateTime, end: DateTime, minutesText: string, deviceName: string, status: string, deviceId: int)

  /** A date-time `isoformat` can print: years 1 to 9999. */
  predicate Printable(t: DateTime) {
    Representable(t.date) && 0 <= t.minute < MinutesPerDay
  }

  /** One element of the `schedules` comprehension; `device_id` is selected but not output. */
  function ViewOf(row: JoinedRow): ScheduleView
    requires Printable(row.start) && Printable(row.end)
  {
    var minutes := Instant(row.end) - Instant(row.start);
    ScheduleView(
      row.deviceName + " (" + row.minutesText + ") min",
      IsoFormat(row.start), IsoFormat(row.end), minutes,
      row.deviceName, row.status, row.id)
  }

  function ViewsOf(rows: seq<JoinedRow>): (views: seq<ScheduleView>)
    requires forall x :: x in rows ==> Printable(x.start) && Printable(x.end)
    ensures |views| == |rows|
    ensures forall i :: 0 <= i < |rows| ==> views[i] == ViewOf(rows[i])
  {
    seq(|rows|, i requires 0 <= i < |rows| => ViewOf(rows[i]))
  }

  /**
   * A view gives its row back: the id, device name and status, the start
   * and end read from their ISO texts, the duration as the minutes between
   * them, and the title names the device with the database's minutes text
   * between the brackets.
   */
  lemma ViewRecoversRow(row: JoinedRow)
    requires Printable(row.start) && Printable(row.end)
    ensures var v := ViewOf(row);
      v.id == row.id && v.deviceName == row.deviceName && v.status == row.status
      && ParseDate(v.start[..10]) == Some(row.start.date) && ParseTime(v.start[11..16]) == Some(row.start.minute)
      && ParseDate(v.end[..10]) == Some(row.end.date) && ParseTime(v.end[11..16]) == Some(row.end.minute)
      && Instant(row.end) == Instant(row.start) + v.durationMinutes
      && v.title[..|row.deviceName|] == row.deviceName
      && v.title[|row.deviceName| + 2..|v.title| - 5] == row.minutesText
  {
    IsoFormatParts(row.start);
    IsoFormatParts(row.end);
    var v := ViewOf(row);
    assert v.title[|row.deviceName| + 2..|v.title| - 5] == row.minutesText;
  }

  // ---------------------------------------------------------------------------
  // What reaches the client

  /**
   * FastAPI checks a route's return value against its `response_model`
   * (`APIResponse`, whose `status` and `message` are required); a value
   * that fails the check is answered with a 500 Internal Server Error.
   */
  datatype Reply = Delivered(body: Response) | ServerError

  function Serve(resp: Response): Reply {
    if resp.ApiResponse? then Delivered(resp) else ServerError
  }

  /** The unknown-frequency return value as written: a bare dict holding only `error`. */
  function InvalidFrequencyAsWritten(): Response {
    ErrorDict(InvalidFrequencyMessage)
  }

  /** As written, a request with an unknown frequency gets a 500, and the message never reaches the client. */
  lemma InvalidFrequencyAsWrittenFails()
    ensures Serve(InvalidFrequencyAsWritten()) == ServerError
  {
  }

  /** The corrected response reaches the client as an error carrying the message. */
  lemma InvalidFrequencyDelivered()
    ensures Serve(InvalidFrequencyResponse()).Delivered?
    ensures Serve(InvalidFrequencyResponse()).body.status == "error"
    ensures Serve(InvalidFrequencyResponse()).body.message == InvalidFrequencyMessage
  {
  }
}
