/** The pure parts of the `scan_devices` service: which discovered devices
    are BK Light displays, how their signal is labelled, and the order of the
    full listing. */
module Scan {
  import opened Base

  /** One discovered device: its advertised name (`None` when unnamed), its
      address, and its RSSI in dBm (`None` when the attribute is missing). */
  datatype Advertisement = Advertisement(name: Option<string>, address: string, rssi: Option<int>)

  predicate StartsWith(s: string, prefix: string) {
    |prefix| <= |s| && s[..|prefix|] == prefix
  }

  /** `d.name and (d.name.startswith("LED_BLE_") or ... "BK_LIGHT" or ... "BJ_LED")`. */
  predicate IsLedName(name: Option<string>) {
    && name.Some? && name.value != ""
    && (StartsWith(name.value, "LED_BLE_") || StartsWith(name.value, "BK_LIGHT") || StartsWith(name.value, "BJ_LED"))
  }

  /** The list comprehension keeping the LED devices, in discovery order. */
  function LedDevices(devices: seq<Advertisement>): seq<Advertisement>
    decreases |devices|
  {
    if devices == [] then []
    else (if IsLedName(devices[0].name) then [devices[0]] else []) + LedDevices(devices[1..])
  }

  /** `a` is `b` with some elements left out, order kept. */
  predicate IsSubsequence(a: seq<Advertisement>, b: seq<Advertisement>)
    decreases |b|
  {
    if a == [] then true
    else if b == [] then false
    else (a[0] == b[0] && IsSubsequence(a[1..], b[1..])) || IsSubsequence(a, b[1..])
  }

  /** A device is kept exactly when it was discovered and has an LED name. */
  lemma {:induction false} LedDevicesMembers(devices: seq<Advertisement>, d: Advertisement)
    ensures d in LedDevices(devices) <==> d in devices && IsLedName(d.name)
    decreases |devices|
  {
    if devices != [] {
      LedDevicesMembers(devices[1..], d);
      assert devices == [devices[0]] + devices[1..];
    }
  }

  /** The kept devices keep their discovery order. */
  lemma {:induction false} LedDevicesInOrder(devices: seq<Advertisement>)
    ensures IsSubsequence(LedDevices(devices), devices)
    decreases |devices|
  {
    if devices != [] {
      LedDevicesInOrder(devices[1..]);
      var rest := LedDevices(devices[1..]);
      if IsLedName(devices[0].name) {
        assert LedDevices(devices) == [devices[0]] + rest;
        assert ([devices[0]] + rest)[1..] == rest;
      } else {
        assert LedDevices(devices) == rest;
        SubsequenceOfTail(rest, devices);
      }
    }
  }

  /** Every LED device is kept as often as it was discovered, every other
      device not at all. */
  lemma {:induction false} LedDevicesCounts(devices: seq<Advertisement>, d: Advertisement)
    ensures multiset(LedDevices(devices))[d] == if IsLedName(d.name) then multiset(devices)[d] else 0
    decreases |devices|
  {
    if devices != [] {
      LedDevicesCounts(devices[1..], d);
      assert devices == [devices[0]] + devices[1..];
      var head := if IsLedName(devices[0].name) then [devices[0]] else [];
      assert multiset(LedDevices(devices)) == multiset(head) + multiset(LedDevices(devices[1..]));
    }
  }

  lemma SubsequenceOfTail(a: seq<Advertisement>, b: seq<Advertisement>)
    requires b != [] && IsSubsequence(a, b[1..])
    ensures IsSubsequence(a, b)
  {
  }

  /** The label of `rssi`, as the chained conditional computes it. */
  datatype Signal = Excellent | Good | Fair | Weak

  /** Labels ordered from worst (0) to best (3). */
  function Rank(s: Signal): nat {
    match s
    case Weak => 0
    case Fair => 1
    case Good => 2
    case Excellent => 3
  }

  /** Python truthiness of `rssi`: false for `None` and for 0. */
  predicate Truthy(rssi: Option<int>) {
    rssi.Some? && rssi.value != 0
  }

  function SignalStrength(rssi: Option<int>): Signal {
    if Truthy(rssi) && rssi.value > -60 then Excellent
    else if Truthy(rssi) && rssi.value > -75 then Good
    else if Truthy(rssi) && rssi.value > -85 then Fair
    else Weak
  }

  /** The buckets for a present, non-zero RSSI. */
  lemma SignalBuckets(r: int)
    requires r != 0
    ensures SignalStrength(Some(r)) == Excellent <==> r > -60
    ensures SignalStrength(Some(r)) == Good <==> -75 < r <= -60
    ensures SignalStrength(Some(r)) == Fair <==> -85 < r <= -75
    ensures SignalStrength(Some(r)) == Weak <==> r <= -85
  {
  }

  /** A missing RSSI, and an RSSI of 0, are falsy and labelled Weak. */
  lemma SignalFalsyIsWeak(rssi: Option<int>)
    requires !Truthy(rssi)
    ensures SignalStrength(rssi) == Weak
  {
  }

  /** A stronger non-zero RSSI never gets a worse label. */
  lemma SignalMonotone(a: int, b: int)
    requires a != 0 && b != 0 && a <= b
    ensures Rank(SignalStrength(Some(a))) <= Rank(SignalStrength(Some(b)))
  {
  }

  /** `getattr(d, 'rssi', -100)`. */
  function SortKey(d: Advertisement): int {
    if d.rssi.Some? then d.rssi.value else -100
  }

  /** Puts `d` in front of the first element whose key is not greater than its own. */
  function Insert(d: Advertisement, sorted: seq<Advertisement>): (r: seq<Advertisement>)
    ensures |r| == |sorted| + 1
    ensures multiset(r) == multiset(sorted) + multiset{d}
    decreases |sorted|
  {
    if sorted == [] || SortKey(sorted[0]) <= SortKey(d) then [d] + sorted
    else
      assert sorted == [sorted[0]] + sorted[1..];
      [sorted[0]] + Insert(d, sorted[1..])
  }

  /** `sorted(devices, key=..., reverse=True)`: highest RSSI first, stable. */
  function SortByRssi(devices: seq<Advertisement>): seq<Advertisement>
    decreases |devices|
  {
    if devices == [] then [] else Insert(devices[0], SortByRssi(devices[1..]))
  }

  predicate Descending(s: seq<Advertisement>) {
    forall i, j :: 0 <= i < j < |s| ==> SortKey(s[i]) >= SortKey(s[j])
  }

  /** The devices whose key is `k`, in order. */
  function WithKey(s: seq<Advertisement>, k: int): seq<Advertisement>
    decreases |s|
  {
    if s == [] then [] else (if SortKey(s[0]) == k then [s[0]] else []) + WithKey(s[1..], k)
  }

  lemma {:induction false} InsertDescending(d: Advertisement, sorted: seq<Advertisement>)
    requires Descending(sorted)
    ensures Descending(Insert(d, sorted))
    ensures Insert(d, sorted)[0] == d || Insert(d, sorted)[0] == sorted[0]
    decreases |sorted|
  {
    if !(sorted == [] || SortKey(sorted[0]) <= SortKey(d)) {
      InsertDescending(d, sorted[1..]);
    }
  }

  lemma {:induction false} InsertWithKey(d: Advertisement, sorted: seq<Advertisement>, k: int)
    requires Descending(sorted)
    ensures WithKey(Insert(d, sorted), k) == (if SortKey(d) == k then [d] else []) + WithKey(sorted, k)
    decreases |sorted|
  {
    if sorted == [] || SortKey(sorted[0]) <= SortKey(d) {
      assert ([d] + sorted)[1..] == sorted;
    } else {
      InsertWithKey(d, sorted[1..], k);
      var r := [sorted[0]] + Insert(d, sorted[1..]);
      assert r[1..] == Insert(d, sorted[1..]);
      if SortKey(d) == k {
        // every element ahead of the insertion point has a key above k
        assert SortKey(sorted[0]) != k;
        AboveKeyNone(sorted, k);
      }
    }
  }

  /** A head whose key is not `k` is dropped by `WithKey`. */
  lemma AboveKeyNone(sorted: seq<Advertisement>, k: int)
    requires sorted != [] && SortKey(sorted[0]) != k
    ensures WithKey(sorted, k) == WithKey(sorted[1..], k)
  {
  }

  /** The listing is sorted by RSSI, highest first, a missing RSSI counting as -100. */
  lemma {:induction false} SortByRssiDescending(devices: seq<Advertisement>)
    ensures Descending(SortByRssi(devices))
    decreases |devices|
  {
    if devices != [] {
      SortByRssiDescending(devices[1..]);
      InsertDescending(devices[0], SortByRssi(devices[1..]));
    }
  }

  /** The listing holds exactly the discovered devices. */
  lemma {:induction false} SortByRssiPermutes(devices: seq<Advertisement>)
    ensures multiset(SortByRssi(devices)) == multiset(devices)
    decreases |devices|
  {
    if devices != [] {
      SortByRssiPermutes(devices[1..]);
      assert devices == [devices[0]] + devices[1..];
    }
  }

  /** Devices with equal keys keep their discovery order (`sorted` is stable,
      also with `reverse=True`). */
  lemma {:induction false} SortByRssiStable(devices: seq<Advertisement>, k: int)
    ensures WithKey(SortByRssi(devices), k) == WithKey(devices, k)
    decreases |devices|
  {
    if devices != [] {
      SortByRssiStable(devices[1..], k);
      SortByRssiDescending(devices[1..]);
      InsertWithKey(devices[0], SortByRssi(devices[1..]), k);
    }
  }
}
