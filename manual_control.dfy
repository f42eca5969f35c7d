/**
 * The manual relay control of backend/manual_device_control.py: a fixed
 * dictionary of devices whose `status` field the start and stop routes set
 * in place, next to the relay pin each route drives. The GPIO pins are
 * abstracted as the level each pin was last driven to (`true` for HIGH).
 */
module ManualControl {
  import opened Wrappers
  import opened Http

  const On: string := "on"
  const Off: string := "off"

  datatype Device = Device(id: int, name: string, relayPort: int, status: string)

  /** The devices and the relay levels. */
  datatype Board = Board(devices: map<int, Device>, relays: map<int, bool>)

  /** The body `start_device` and `stop_device` return: `{"message": ..., "status": ...}`. */
  datatype StatusMessage = StatusMessage(message: string, status: string)

  datatype Outcome = Outcome(board: Board, response: Result<StatusMessage, HttpError>)

  const NotFound: HttpError := HttpError(404, "Device not found")

  /**
   * Each device's pin is driven, no two devices share a pin, and a device
   * is `"on"` exactly when its pin is HIGH.
   */
  predicate Consistent(b: Board) {
    (forall k :: k in b.devices ==>
      b.devices[k].relayPort in b.relays
      && (b.relays[b.devices[k].relayPort] <==> b.devices[k].status == On))
    && forall k1, k2 :: k1 in b.devices && k2 in b.devices && k1 != k2 ==>
      b.devices[k1].relayPort != b.devices[k2].relayPort
  }

  /** Devices 1 and 2, both off, with their pins set LOW at start-up. */
  function Initial(): (b: Board)
    ensures Consistent(b)
    ensures b.devices.Keys == {1, 2}
    ensures forall k :: k in b.devices ==> b.devices[k].status == Off && b.devices[k].id == k
  {
    Board(
      map[1 := Device(1, "Device A", 17, Off), 2 := Device(2, "Device B", 27, Off)],
      map[17 := false, 27 := false])
  }

  /** Drive the device's pin to `high` and set its status to match. */
  function Switch(b: Board, id: int, high: bool, suffix: string): (out: Outcome)
    requires Consistent(b)
    ensures Consistent(out.board)
    ensures id !in b.devices ==> out == Outcome(b, Err(NotFound))
    ensures id in b.devices ==>
      var d := b.devices[id];
      out.board.devices == b.devices[id := d.(status := if high then On else Off)]
      && out.board.relays == b.relays[d.relayPort := high]
      && out.response == Ok(StatusMessage(d.name + suffix, out.board.devices[id].status))
  {
    if id !in b.devices then Outcome(b, Err(NotFound))
    else
      var d := b.devices[id];
      var d' := d.(status := if high then On else Off);
      Outcome(Board(b.devices[id := d'], b.relays[d.relayPort := high]), Ok(StatusMessage(d.name + suffix, d'.status)))
  }

  /** `start_device`: pin HIGH, status `"on"`. */
  function Start(b: Board, id: int): Outcome
    requires Consistent(b)
  {
    Switch(b, id, true, " started")
  }

  /** `stop_device`: pin LOW, status `"off"`. */
  function Stop(b: Board, id: int): Outcome
    requires Consistent(b)
  {
    Switch(b, id, false, " stopped")
  }

  // ---------------------------------------------------------------------------
  // Properties

  /**
   * A known device ends up `"on"` after start and `"off"` after stop, the
   * response reports the status now stored, and no other device changes.
   */
  lemma SwitchEffect(b: Board, id: int, other: int)
    requires Consistent(b) && id in b.devices && other != id
    ensures var started, stopped := Start(b, id), Stop(b, id);
      started.board.devices[id].status == On && stopped.board.devices[id].status == Off
      && started.response.Ok? && started.response.value.status == started.board.devices[id].status
      && stopped.response.Ok? && stopped.response.value.status == stopped.board.devices[id].status
      && (other in b.devices ==>
            started.board.devices[other] == b.devices[other] && stopped.board.devices[other] == b.devices[other]
            && started.board.relays[b.devices[other].relayPort] == b.relays[b.devices[other].relayPort]
            && stopped.board.relays[b.devices[other].relayPort] == b.relays[b.devices[other].relayPort])
  {
  }

  /** Starting twice is starting once, and stopping twice is stopping once: same board, same response. */
  lemma SwitchIdempotent(b: Board, id: int)
    requires Consistent(b)
    ensures Start(Start(b, id).board, id) == Start(b, id)
    ensures Stop(Stop(b, id).board, id) == Stop(b, id)
  {
    if id in b.devices {
      var d := b.devices[id];
      var s1 := Start(b, id).board;
      assert s1.devices[id] == d.(status := On);
      assert s1.devices[id := d.(status := On)] == s1.devices;
      assert s1.relays[d.relayPort := true] == s1.relays;
      var t1 := Stop(b, id).board;
      assert t1.devices[id] == d.(status := Off);
      assert t1.devices[id := d.(status := Off)] == t1.devices;
      assert t1.relays[d.relayPort := false] == t1.relays;
    }
  }

  /** Stopping after starting leaves the board as stopping alone would. */
  lemma StopUndoesStart(b: Board, id: int)
    requires Consistent(b)
    ensures Stop(Start(b, id).board, id).board == Stop(b, id).board
  {
    if id in b.devices {
      var d := b.devices[id];
      assert b.devices[id := d.(status := On)][id := d.(status := Off)] == b.devices[id := d.(status := Off)];
      assert b.relays[d.relayPort := true][d.relayPort := false] == b.relays[d.relayPort := false];
    }
  }

  // ---------------------------------------------------------------------------
  // The module-level dictionary and the pins

  class DeviceBoard {
    var devices: map<int, Device>
    var relays: map<int, bool>

    function State(): Board
      reads this
    {
      Board(devices, relays)
    }

    predicate Valid()
      reads this
    {
      Consistent(State())
    }

    /** The module's start-up: devices 1 and 2, both off, pins LOW. */
    constructor ()
      ensures Valid() && State() == Initial()
    {
      devices := Initial().devices;
      relays := Initial().relays;
    }

    method StartDevice(id: int) returns (response: Result<StatusMessage, HttpError>)
      requires Valid()
      modifies this
      ensures Valid()
      ensures Outcome(State(), response) == Start(old(State()), id)
    {
      if id !in devices {
        return Err(NotFound);
      }
      var d := devices[id];
      relays := relays[d.relayPort := true];
      devices := devices[id := d.(status := On)];
      return Ok(StatusMessage(d.name + " started", devices[id].status));
    }

    method StopDevice(id: int) returns (response: Result<StatusMessage, HttpError>)
      requires Valid()
      modifies this
      ensures Valid()
      ensures Outcome(State(), response) == Stop(old(State()), id)
    {
      if id !in devices {
        return Err(NotFound);
      }
      var d := devices[id];
      relays := relays[d.relayPort := false];
      devices := devices[id := d.(status := Off)];
      return Ok(StatusMessage(d.name + " stopped", devices[id].status));
    }
  }
}
