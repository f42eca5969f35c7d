/**
 * The device registry of backend/device.py: an in-memory dictionary from
 * id to device. Python dictionaries keep insertion order, so the registry
 * is its entries plus its keys in the order they were added; `list_devices`
 * lists the values in that order.
 */
module DeviceApi {
  import opened Wrappers
  import opened Http

  datatype Device = Device(id: int, name: string, relayPort: int)

  /** `devices_db`: its entries, and its keys in insertion order. */
  datatype Registry = Registry(entries: map<int, Device>, order: seq<int>)

  /** A registry operation's new registry and its response (or the `HTTPException` it raises). */
  datatype Outcome<T> = Outcome(registry: Registry, response: Result<T, HttpError>)

  predicate Distinct(s: seq<int>) {
    forall i, j :: 0 <= i < j < |s| ==> s[i] != s[j]
  }

  /** Every key is listed once in the order, and the order lists only keys. */
  predicate WellKept(reg: Registry) {
    Distinct(reg.order)
    && (forall i :: 0 <= i < |reg.order| ==> reg.order[i] in reg.entries)
    && (forall k :: k in reg.entries ==> k in reg.order)
  }

  lemma KeysListed(reg: Registry)
    requires WellKept(reg)
    ensures forall k :: k in reg.order <==> k in reg.entries
  {
    forall k | k in reg.order
      ensures k in reg.entries
    {
      var j :| 0 <= j < |reg.order| && reg.order[j] == k;
    }
  }

  const Duplicate: HttpError := HttpError(400, "Device with this ID already exists")
  const NotFound: HttpError := HttpError(404, "Device not found")

  /** `list(devices_db.values())`. */
  function Values(reg: Registry): (ds: seq<Device>)
    requires WellKept(reg)
    ensures |ds| == |reg.order|
    ensures forall i :: 0 <= i < |ds| ==> ds[i] == reg.entries[reg.order[i]]
  {
    seq(|reg.order|, i requires 0 <= i < |reg.order| && reg.order[i] in reg.entries => reg.entries[reg.order[i]])
  }

  /** `s` without `x`. */
  function Remove(s: seq<int>, x: int): (t: seq<int>)
    ensures forall y :: y in t <==> y in s && y != x
  {
    if s == [] then [] else if s[0] == x then Remove(s[1..], x) else [s[0]] + Remove(s[1..], x)
  }

  /** `add_device`: a taken id is refused with 400; otherwise the device is stored under its id and returned. */
  function Add(reg: Registry, device: Device): (out: Outcome<Device>)
    requires WellKept(reg)
    ensures WellKept(out.registry)
    ensures device.id in reg.entries ==> out == Outcome(reg, Err(Duplicate))
    ensures device.id !in reg.entries ==>
      out.response == Ok(device) && out.registry.entries == reg.entries[device.id := device]
  {
    if device.id in reg.entries then Outcome(reg, Err(Duplicate))
    else Outcome(Registry(reg.entries[device.id := device], reg.order + [device.id]), Ok(device))
  }

  /**
   * `update_device`: an unknown path id is refused with 404; otherwise the
   * body replaces the entry at the path id (whatever the body's own id),
   * keeping its place in the order.
   */
  function Update(reg: Registry, deviceId: int, device: Device): (out: Outcome<Device>)
    requires WellKept(reg)
    ensures WellKept(out.registry)
    ensures deviceId !in reg.entries ==> out == Outcome(reg, Err(NotFound))
    ensures deviceId in reg.entries ==>
      out.response == Ok(device) && out.registry.order == reg.order
      && out.registry.entries == reg.entries[deviceId := device]
  {
    if deviceId !in reg.entries then Outcome(reg, Err(NotFound))
    else Outcome(Registry(reg.entries[deviceId := device], reg.order), Ok(device))
  }

  /** `delete_device`: an unknown id is refused with 404; otherwise only that key goes. */
  function Delete(reg: Registry, deviceId: int): (out: Outcome<string>)
    requires WellKept(reg)
    ensures WellKept(out.registry)
    ensures deviceId !in reg.entries ==> out == Outcome(reg, Err(NotFound))
    ensures deviceId in reg.entries ==>
      out.response == Ok("Device deleted successfully")
      && out.registry.entries == reg.entries - {deviceId}
      && out.registry.order == Remove(reg.order, deviceId)
  {
    if deviceId !in reg.entries then Outcome(reg, Err(NotFound))
    else
      RemoveDistinct(reg.order, deviceId);
      KeysListed(reg);
      Outcome(Registry(reg.entries - {deviceId}, Remove(reg.order, deviceId)), Ok("Device deleted successfully"))
  }

  lemma {:induction false} RemoveDistinct(s: seq<int>, x: int)
    requires Distinct(s)
    ensures Distinct(Remove(s, x))
  {
    if s != [] {
      assert Distinct(s[1..]);
      RemoveDistinct(s[1..], x);
      if s[0] != x {
        var t := Remove(s[1..], x);
        assert s[0] !in s[1..];
        forall i, j | 0 <= i < j < |[s[0]] + t|
          ensures ([s[0]] + t)[i] != ([s[0]] + t)[j]
        {
          if i == 0 {
            assert ([s[0]] + t)[j] in t;
          } else {
            assert ([s[0]] + t)[i] == t[i - 1] && ([s[0]] + t)[j] == t[j - 1];
          }
        }
      }
    }
  }

  // ---------------------------------------------------------------------------
  // Properties of the registry

  /** The listing holds exactly the stored devices, one per key. */
  lemma ValuesExact(reg: Registry)
    requires WellKept(reg)
    ensures |Values(reg)| == |reg.entries|
    ensures forall d :: d in Values(reg) <==> d in reg.entries.Values
  {
    DistinctCard(reg.order);
    KeysListed(reg);
    var keys := set k | k in reg.order;
    assert forall k :: k in keys <==> k in reg.entries;
    assert keys == reg.entries.Keys;
    forall d | d in reg.entries.Values
      ensures d in Values(reg)
    {
      var k :| k in reg.entries && reg.entries[k] == d;
      var i :| 0 <= i < |reg.order| && reg.order[i] == k;
      assert Values(reg)[i] == d;
    }
  }

  lemma {:induction false} DistinctCard(s: seq<int>)
    requires Distinct(s)
    ensures |set k | k in s| == |s|
  {
    if s != [] {
      var t := s[..|s| - 1];
      assert Distinct(t);
      DistinctCard(t);
      assert s == t + [s[|s| - 1]];
      assert (set k | k in s) == (set k | k in t) + {s[|s| - 1]};
      assert s[|s| - 1] !in t;
    }
  }

  /** A device added under a fresh id is listed last, after the devices listed before. */
  lemma AddListsLast(reg: Registry, device: Device)
    requires WellKept(reg) && device.id !in reg.entries
    ensures Values(Add(reg, device).registry) == Values(reg) + [device]
  {
    assert device.id !in reg.order;
  }

  /** Updating keeps every device's place in the listing and changes only the one at the path id. */
  lemma UpdateListing(reg: Registry, deviceId: int, device: Device)
    requires WellKept(reg) && deviceId in reg.entries
    ensures var before, after := Values(reg), Values(Update(reg, deviceId, device).registry);
      |after| == |before|
      && forall i :: 0 <= i < |after| ==> after[i] == if reg.order[i] == deviceId then device else before[i]
  {
  }

  /** Deleting the device listed at `i` lists the others in their old order, without it. */
  lemma DeleteListing(reg: Registry, i: int)
    requires WellKept(reg) && 0 <= i < |reg.order|
    ensures Values(Delete(reg, reg.order[i]).registry) == Values(reg)[..i] + Values(reg)[i + 1..]
  {
    var id := reg.order[i];
    RemoveAt(reg.order, i);
    var before, after := Values(reg), Values(Delete(reg, id).registry);
    forall j | 0 <= j < |after|
      ensures after[j] == (before[..i] + before[i + 1..])[j]
    {
      if j < i {
        assert reg.order[j] != id;
      } else {
        assert reg.order[j + 1] != id;
      }
    }
  }

  /** In a list without repeats, removing the element at `i` cuts out exactly that position. */
  lemma {:induction false} RemoveAt(s: seq<int>, i: int)
    requires Distinct(s) && 0 <= i < |s|
    ensures Remove(s, s[i]) == s[..i] + s[i + 1..]
  {
    assert Distinct(s[1..]);
    if i == 0 {
      assert s[0] !in s[1..];
      RemoveAbsent(s[1..], s[0]);
    } else {
      assert s[0] != s[i] && s[1..][i - 1] == s[i];
      RemoveAt(s[1..], i - 1);
      assert s[..i] == [s[0]] + s[1..][..i - 1];
      assert s[i + 1..] == s[1..][i..];
    }
  }

  /** Deleting a device that was just added under a fresh id gives the registry back. */
  lemma AddDeleteRoundTrip(reg: Registry, device: Device)
    requires WellKept(reg) && device.id !in reg.entries
    ensures Delete(Add(reg, device).registry, device.id).registry == reg
  {
    assert device.id !in reg.order;
    RemoveAbsent(reg.order, device.id);
    RemoveLast(reg.order, device.id);
    assert reg.entries[device.id := device] - {device.id} == reg.entries;
  }

  lemma {:induction false} RemoveAbsent(s: seq<int>, x: int)
    requires x !in s
    ensures Remove(s, x) == s
  {
    if s != [] {
      RemoveAbsent(s[1..], x);
    }
  }

  lemma {:induction false} RemoveLast(s: seq<int>, x: int)
    ensures Remove(s + [x], x) == Remove(s, x)
  {
    if s == [] {
      assert Remove([x], x) == Remove([x][1..], x);
    } else {
      assert (s + [x])[1..] == s[1..] + [x];
      RemoveLast(s[1..], x);
    }
  }

  // ---------------------------------------------------------------------------
  // The module-level dictionary

  class DeviceStore {
    var entries: map<int, Device>
    var order: seq<int>

    function State(): Registry
      reads this
    {
      Registry(entries, order)
    }

    predicate Valid()
      reads this
    {
      WellKept(State())
    }

    /** `devices_db = {}`. */
    constructor ()
      ensures Valid() && entries == map[] && order == []
    {
      entries := map[];
      order := [];
    }

    /** `list_devices`: the stored devices, one per key, in insertion order. */
    function ListDevices(): (ds: seq<Device>)
      reads this
      requires Valid()
      ensures |ds| == |entries| == |order|
      ensures forall d :: d in ds <==> d in entries.Values
      ensures forall i :: 0 <= i < |ds| ==> ds[i] == entries[order[i]]
    {
      ValuesExact(State());
      Values(State())
    }

    method AddDevice(device: Device) returns (response: Result<Device, HttpError>)
      requires Valid()
      modifies this
      ensures Valid()
      ensures Outcome(State(), response) == Add(old(State()), device)
    {
      if device.id in entries {
        return Err(Duplicate);
      }
      entries := entries[device.id := device];
      order := order + [device.id];
      return Ok(device);
    }

    method UpdateDevice(deviceId: int, device: Device) returns (response: Result<Device, HttpError>)
      requires Valid()
      modifies this
      ensures Valid()
      ensures Outcome(State(), response) == Update(old(State()), deviceId, device)
    {
      if deviceId !in entries {
        return Err(NotFound);
      }
      entries := entries[deviceId := device];
      return Ok(device);
    }

    method DeleteDevice(deviceId: int) returns (response: Result<string, HttpError>)
      requires Valid()
      modifies this
      ensures Valid()
      ensures Outcome(State(), response) == Delete(old(State()), deviceId)
    {
      if deviceId !in entries {
        return Err(NotFound);
      }
      RemoveDistinct(order, deviceId);
      KeysListed(State());
      entries := entries - {deviceId};
      order := Remove(order, deviceId);
      return Ok("Device deleted successfully");
    }
  }
}
