/**
 * The device picker of the v2 create form
 * (frontendv2/src/components/SideForm/components/InputDevicesSelect.jsx):
 * the devices offered for the text typed so far, and when the picker says
 * that no device was found.
 */
module DeviceSelect {
  import opened Wrappers
  import opened Text

  /** A device as `getDevices` lists it. */
  datatype DeviceEntry = DeviceEntry(id: int, name: string)

  /** `device.name.toLowerCase().includes(query.toLowerCase())`. */
  predicate Matches(device: DeviceEntry, query: string) {
    Contains(Lower(device.name), Lower(query))
  }

  /** `devices.filter(...)`: the matching devices, in their order. */
  function Keep(devices: seq<DeviceEntry>, query: string): (kept: seq<DeviceEntry>)
    ensures |kept| <= |devices|
    ensures forall d :: d in kept <==> d in devices && Matches(d, query)
    ensures forall d :: multiset(kept)[d] == if Matches(d, query) then multiset(devices)[d] else 0
  {
    if devices == [] then []
    else
      assert devices == [devices[0]] + devices[1..];
      var rest := Keep(devices[1..], query);
      if Matches(devices[0], query) then [devices[0]] + rest else rest
  }

  /**
   * `filteredDevices`: an empty query offers the list as it is (even when
   * it has not loaded); otherwise `devices?.filter`, which stays undefined
   * while the list is.
   */
  function Filtered(devices: Option<seq<DeviceEntry>>, query: string): (shown: Option<seq<DeviceEntry>>)
    ensures query == "" ==> shown == devices
    ensures devices.None? ==> shown.None?
    ensures devices.Some? && query != "" ==>
      shown.Some? && (forall d :: d in shown.value <==> d in devices.value && Matches(d, query))
      && forall d :: multiset(shown.value)[d] == if Matches(d, query) then multiset(devices.value)[d] else 0
  {
    if query == "" then devices
    else match devices
      case None => None
      case Some(ds) => Some(Keep(ds, query))
  }

  /** `filteredDevices?.length === 0 && query !== ''`: the "not found" line instead of options. */
  predicate ShowsNotFound(shown: Option<seq<DeviceEntry>>, query: string) {
    shown.Some? && |shown.value| == 0 && query != ""
  }

  /** `a` is `b` with some elements left out, the rest kept in order. */
  predicate SubsequenceOf<T(==)>(a: seq<T>, b: seq<T>)
    decreases |b|
  {
    a == [] || (b != [] && ((a[0] == b[0] && SubsequenceOf(a[1..], b[1..])) || SubsequenceOf(a, b[1..])))
  }

  // ---------------------------------------------------------------------------
  // Properties

  /** Filtering keeps the devices in the order the list has them. */
  lemma {:induction false} KeepSubsequence(devices: seq<DeviceEntry>, query: string)
    ensures SubsequenceOf(Keep(devices, query), devices)
    decreases |devices|
  {
    if devices != [] {
      KeepSubsequence(devices[1..], query);
    }
  }

  /** Every name contains the empty text, so the shortcut for an empty query agrees with filtering. */
  lemma {:induction false} KeepEmptyQuery(devices: seq<DeviceEntry>)
    ensures Keep(devices, "") == devices
    decreases |devices|
  {
    if devices != [] {
      assert Matches(devices[0], "") by {
        assert "" <= Lower(devices[0].name)[0..];
      }
      KeepEmptyQuery(devices[1..]);
    }
  }

  /** Queries that differ only in letter case offer the same devices. */
  lemma {:induction false} KeepCaseInsensitive(devices: seq<DeviceEntry>, q1: string, q2: string)
    requires Lower(q1) == Lower(q2)
    ensures Keep(devices, q1) == Keep(devices, q2)
    decreases |devices|
  {
    if devices != [] {
      KeepCaseInsensitive(devices[1..], q1, q2);
    }
  }

  /** The same for what the picker shows, whether or not the list has loaded. */
  lemma FilteredCaseInsensitive(devices: Option<seq<DeviceEntry>>, q1: string, q2: string)
    requires Lower(q1) == Lower(q2)
    ensures Filtered(devices, q1) == Filtered(devices, q2)
  {
    if devices.Some? {
      KeepCaseInsensitive(devices.value, q1, q2);
    }
  }

  /** What the picker shows is always a subsequence of the loaded list. */
  lemma FilteredSubsequence(devices: seq<DeviceEntry>, query: string)
    ensures Filtered(Some(devices), query).Some?
    ensures SubsequenceOf(Filtered(Some(devices), query).value, devices)
  {
    if query == "" {
      KeepEmptyQuery(devices);
      KeepSubsequence(devices, "");
    } else {
      KeepSubsequence(devices, query);
    }
  }

  /**
   * The picker says "not found" exactly when a query was typed, the list
   * has loaded, and no device's name contains the query (ignoring case).
   */
  lemma NotFoundExactly(devices: Option<seq<DeviceEntry>>, query: string)
    ensures ShowsNotFound(Filtered(devices, query), query) <==>
      (query != "" && devices.Some? && forall d :: d in devices.value ==> !Matches(d, query))
  {
    if query != "" && devices.Some? {
      var kept := Keep(devices.value, query);
      if kept != [] {
        assert kept[0] in kept;
      }
    }
  }
}
