/**
 * The second generation of the Wi-Fi device model
 * (src/network/network_manager.rs): access points carry a `stored` flag
 * and are associated with the FIRST stored connection of the same SSID,
 * the access-point list is de-duplicated by SSID, connecting polls the
 * active connection's state while it is 1 (activating) and succeeds only
 * on 2 (activated), and disconnecting deactivates every active connection
 * that lists the device. Every backend call is a parameter.
 */
module NetworkManager {
  import opened Wrappers
  import opened DBus
  import Network

  type ConnectionError = Network.ConnectionError
  type ActiveConnection = Network.ActiveConnection<AccessPoint>

  /** The access point record of this generation, with the `stored` flag. */
  datatype AccessPoint = AccessPoint(
    ssid: seq<u8>, strength: u8, associatedConnection: Path, dbusPath: Path, stored: bool)

  /** NetworkManager's active-connection state codes polled while connecting. */
  const Activating: u32 := 1
  const Activated: u32 := 2

  /** Strength reported when the "Strength" property cannot be read. */
  const UnknownStrength: u8 := 130

  // ---------------------------------------------------------------- access point properties

  /**
   * `get_access_point_properties`: `ssidRead` and `strengthRead` are the
   * property reads (None when they fail) and `stored` the stored wireless
   * connections with their SSIDs. The loop stops at the first match.
   */
  method GetAccessPointProperties(path: Path, ssidRead: Option<seq<u8>>, strengthRead: Option<u8>,
                                  stored: seq<(Path, seq<u8>)>)
    returns (ap: AccessPoint)
    ensures ap.dbusPath == path
    ensures ssidRead.Some? ==> ap.ssid == ssidRead.value
    ensures ssidRead.None? ==> ap.ssid == []
    ensures strengthRead.Some? ==> ap.strength == strengthRead.value
    ensures strengthRead.None? ==> ap.strength == UnknownStrength
    ensures ap.stored <==> exists i :: 0 <= i < |stored| && stored[i].1 == ap.ssid
    ensures ap.stored ==>
      exists i :: 0 <= i < |stored| && stored[i].1 == ap.ssid && ap.associatedConnection == stored[i].0
        && forall j :: 0 <= j < i ==> stored[j].1 != ap.ssid
    ensures !ap.stored ==> ap.associatedConnection == "/"
  {
    var ssid := ssidRead.UnwrapOr([]);
    var strength := strengthRead.UnwrapOr(UnknownStrength);
    var associated: Option<Path> := None;
    var found := false;
    var i := 0;
    while i < |stored|
      invariant 0 <= i <= |stored|
      invariant forall j :: 0 <= j < i ==> stored[j].1 != ssid
      invariant associated.None? && !found
    {
      if ssid == stored[i].1 {
        associated := Some(stored[i].0);
        found := true;
        break;
      }
      i := i + 1;
    }
    assert found ==> i < |stored| && stored[i].1 == ssid && associated == Some(stored[i].0);
    if associated.None? {
      associated := Some("/");
    }
    ap := AccessPoint(ssid, strength, associated.value, path, found);
  }

  // ---------------------------------------------------------------- SSID de-duplication

  /**
   * The scanned access points, in scan order, keeping only the first one of
   * every SSID not already in `seen`.
   */
  function Dedup(seen: set<seq<u8>>, scan: seq<AccessPoint>): seq<AccessPoint>
    decreases |scan|
  {
    if scan == [] then []
    else if scan[0].ssid in seen then Dedup(seen, scan[1..])
    else [scan[0]] + Dedup(seen + {scan[0].ssid}, scan[1..])
  }

  /** The positions in `scan` that `Dedup` keeps, in increasing order. */
  function DedupIndices(seen: set<seq<u8>>, scan: seq<AccessPoint>): seq<nat>
    decreases |scan|
  {
    if scan == [] then []
    else if scan[0].ssid in seen then Shift(DedupIndices(seen, scan[1..]))
    else [0] + Shift(DedupIndices(seen + {scan[0].ssid}, scan[1..]))
  }

  function Shift(ks: seq<nat>): (r: seq<nat>)
    ensures |r| == |ks| && forall i :: 0 <= i < |ks| ==> r[i] == ks[i] + 1
  {
    seq(|ks|, i requires 0 <= i < |ks| => ks[i] + 1)
  }

  /**
   * `Dedup` has no SSID twice and none from `seen`, and every scanned SSID
   * not in `seen` appears in it.
   */
  lemma {:induction false} DedupUnique(seen: set<seq<u8>>, scan: seq<AccessPoint>)
    decreases |scan|
    ensures forall i :: 0 <= i < |Dedup(seen, scan)| ==> Dedup(seen, scan)[i].ssid !in seen
    ensures forall i, j :: 0 <= i < j < |Dedup(seen, scan)| ==>
      Dedup(seen, scan)[i].ssid != Dedup(seen, scan)[j].ssid
    ensures forall k :: 0 <= k < |scan| ==>
      scan[k].ssid in seen || exists i :: 0 <= i < |Dedup(seen, scan)| && Dedup(seen, scan)[i].ssid == scan[k].ssid
  {
    if scan != [] {
      var s0 := scan[0].ssid;
      if s0 in seen {
        DedupUnique(seen, scan[1..]);
        var d := Dedup(seen, scan);
        assert d == Dedup(seen, scan[1..]);
        forall k | 0 <= k < |scan|
          ensures scan[k].ssid in seen || exists i :: 0 <= i < |d| && d[i].ssid == scan[k].ssid
        {
          if k > 0 { assert scan[k] == scan[1..][k - 1]; }
        }
      } else {
        var tail := Dedup(seen + {s0}, scan[1..]);
        DedupUnique(seen + {s0}, scan[1..]);
        var d := Dedup(seen, scan);
        assert d == [scan[0]] + tail;
        forall k | 0 <= k < |scan|
          ensures scan[k].ssid in seen || exists i :: 0 <= i < |d| && d[i].ssid == scan[k].ssid
        {
          if k == 0 {
            assert d[0].ssid == s0;
          } else {
            assert scan[k] == scan[1..][k - 1];
            if scan[k].ssid == s0 {
              assert d[0].ssid == scan[k].ssid;
            } else if scan[k].ssid !in seen {
              var i :| 0 <= i < |tail| && tail[i].ssid == scan[k].ssid;
              assert d[i + 1] == tail[i];
            }
          }
        }
      }
    }
  }

  /** The seen set after looking at the first scanned access point. */
  function SeenAfterHead(seen: set<seq<u8>>, scan: seq<AccessPoint>): set<seq<u8>>
    requires scan != []
  {
    if scan[0].ssid in seen then seen else seen + {scan[0].ssid}
  }

  /**
   * One unfolding of `Dedup` and `DedupIndices`: the tail's positions moved
   * up by one, headed by 0 when the first access point is kept.
   */
  lemma DedupUnfold(seen: set<seq<u8>>, scan: seq<AccessPoint>)
    requires scan != []
    ensures scan[0].ssid in seen ==>
      DedupIndices(seen, scan) == Shift(DedupIndices(seen, scan[1..]))
      && Dedup(seen, scan) == Dedup(seen, scan[1..])
    ensures scan[0].ssid !in seen ==>
      DedupIndices(seen, scan) == [0] + Shift(DedupIndices(SeenAfterHead(seen, scan), scan[1..]))
      && Dedup(seen, scan) == [scan[0]] + Dedup(SeenAfterHead(seen, scan), scan[1..])
  {
  }

  /** The positions `Dedup` keeps strictly increase. */
  lemma {:induction false} DedupIndicesIncrease(seen: set<seq<u8>>, scan: seq<AccessPoint>)
    decreases |scan|
    ensures forall i, j :: 0 <= i < j < |DedupIndices(seen, scan)| ==>
      DedupIndices(seen, scan)[i] < DedupIndices(seen, scan)[j]
  {
    if scan != [] {
      var seen' := SeenAfterHead(seen, scan);
      DedupIndicesIncrease(seen', scan[1..]);
      DedupUnfold(seen, scan);
      IncreaseStep(DedupIndices(seen', scan[1..]), DedupIndices(seen, scan), scan[0].ssid !in seen);
    }
  }

  lemma IncreaseStep(ks: seq<nat>, idx: seq<nat>, kept: bool)
    requires forall i, j :: 0 <= i < j < |ks| ==> ks[i] < ks[j]
    requires idx == if kept then [0] + Shift(ks) else Shift(ks)
    ensures forall i, j :: 0 <= i < j < |idx| ==> idx[i] < idx[j]
  {
    var off := if kept then 1 else 0;
    forall i, j | 0 <= i < j < |idx| ensures idx[i] < idx[j] {
      assert idx[j] == ks[j - off] + 1;
      if i >= off { assert idx[i] == ks[i - off] + 1; } else { assert idx[i] == 0; }
    }
  }

  /**
   * `Dedup` keeps scan order: it is `scan` read at the strictly increasing
   * positions `DedupIndices`.
   */
  lemma {:induction false} DedupInOrder(seen: set<seq<u8>>, scan: seq<AccessPoint>)
    decreases |scan|
    ensures |DedupIndices(seen, scan)| == |Dedup(seen, scan)|
    ensures forall i :: 0 <= i < |DedupIndices(seen, scan)| ==>
      DedupIndices(seen, scan)[i] < |scan| && Dedup(seen, scan)[i] == scan[DedupIndices(seen, scan)[i]]
    ensures forall i, j :: 0 <= i < j < |DedupIndices(seen, scan)| ==>
      DedupIndices(seen, scan)[i] < DedupIndices(seen, scan)[j]
  {
    DedupIndicesIncrease(seen, scan);
    if scan != [] {
      var seen' := SeenAfterHead(seen, scan);
      DedupInOrder(seen', scan[1..]);
      DedupUnfold(seen, scan);
      ReadsAtStep(scan, DedupIndices(seen', scan[1..]), Dedup(seen', scan[1..]),
                  DedupIndices(seen, scan), Dedup(seen, scan), scan[0].ssid !in seen);
    }
  }

  lemma ReadsAtStep(scan: seq<AccessPoint>, ks: seq<nat>, tail: seq<AccessPoint>,
                    idx: seq<nat>, d: seq<AccessPoint>, kept: bool)
    requires scan != [] && |ks| == |tail|
    requires forall i :: 0 <= i < |ks| ==> ks[i] < |scan[1..]| && tail[i] == scan[1..][ks[i]]
    requires idx == if kept then [0] + Shift(ks) else Shift(ks)
    requires d == if kept then [scan[0]] + tail else tail
    ensures |idx| == |d|
    ensures forall i :: 0 <= i < |idx| ==> idx[i] < |scan| && d[i] == scan[idx[i]]
  {
    var off := if kept then 1 else 0;
    forall i | 0 <= i < |idx| ensures idx[i] < |scan| && d[i] == scan[idx[i]] {
      if i >= off {
        assert idx[i] == ks[i - off] + 1 && d[i] == tail[i - off];
        assert scan[1..][ks[i - off]] == scan[ks[i - off] + 1];
      }
    }
  }

  /** Every position `Dedup` keeps holds the first occurrence of an SSID not in `seen`. */
  lemma {:induction false} DedupKeepsFirst(seen: set<seq<u8>>, scan: seq<AccessPoint>)
    decreases |scan|
    ensures forall i :: 0 <= i < |DedupIndices(seen, scan)| ==>
      DedupIndices(seen, scan)[i] < |scan| && FirstUnseen(seen, scan, DedupIndices(seen, scan)[i])
  {
    if scan != [] {
      var seen' := SeenAfterHead(seen, scan);
      DedupKeepsFirst(seen', scan[1..]);
      DedupUnfold(seen, scan);
      KeepsFirstStep(seen, scan, DedupIndices(seen', scan[1..]), DedupIndices(seen, scan));
    }
  }

  lemma KeepsFirstStep(seen: set<seq<u8>>, scan: seq<AccessPoint>, ks: seq<nat>, idx: seq<nat>)
    requires scan != []
    requires forall i :: 0 <= i < |ks| ==>
      ks[i] < |scan[1..]| && FirstUnseen(SeenAfterHead(seen, scan), scan[1..], ks[i])
    requires idx == if scan[0].ssid !in seen then [0] + Shift(ks) else Shift(ks)
    ensures forall i :: 0 <= i < |idx| ==> idx[i] < |scan| && FirstUnseen(seen, scan, idx[i])
  {
    var off := if scan[0].ssid in seen then 0 else 1;
    forall i | 0 <= i < |idx| ensures idx[i] < |scan| && FirstUnseen(seen, scan, idx[i]) {
      if i >= off {
        assert idx[i] == ks[i - off] + 1;
        FirstUnseenStep(seen, scan, ks[i - off]);
      }
    }
  }

  /** A first unseen position of the scan's tail stays one in the whole scan. */
  lemma FirstUnseenStep(seen: set<seq<u8>>, scan: seq<AccessPoint>, k: nat)
    requires k + 1 < |scan|
    requires FirstUnseen(SeenAfterHead(seen, scan), scan[1..], k)
    ensures FirstUnseen(seen, scan, k + 1)
  {
    assert scan[k + 1] == scan[1..][k];
    forall j | 0 < j < k + 1 ensures scan[j].ssid != scan[k + 1].ssid {
      assert scan[j] == scan[1..][j - 1];
    }
  }

  /** Position k of `scan` holds an SSID outside `seen` met there for the first time. */
  predicate FirstUnseen(seen: set<seq<u8>>, scan: seq<AccessPoint>, k: nat)
    requires k < |scan|
  {
    scan[k].ssid !in seen && forall j :: 0 <= j < k ==> scan[j].ssid != scan[k].ssid
  }

  // ---------------------------------------------------------------- polling

  /**
   * The polled state reads (None for a failed read) leave "activating"
   * for "activated": every read before position k is 1 and the read at k is 2.
   */
  ghost predicate PolledToActivated(states: seq<Option<u32>>) {
    exists k :: 0 <= k < |states| && states[k] == Some(Activated)
      && forall j :: 0 <= j < k ==> states[j] == Some(Activating)
  }

  /** Some read is not "activating": the polling loop ends within `states`. */
  predicate Settles(states: seq<Option<u32>>) {
    exists k :: 0 <= k < |states| && states[k] != Some(Activating)
  }

  /**
   * The `while result == 1` loop: reads states until one is not 1.
   * Returns true iff that read succeeded with state 2.
   */
  method PollActivation(states: seq<Option<u32>>) returns (activated: bool)
    requires Settles(states)
    ensures activated <==> PolledToActivated(states)
  {
    var result: u32 := Activating;
    var i := 0;
    while result == Activating
      invariant 0 <= i <= |states|
      invariant forall j :: 0 <= j < i ==> states[j].Some?
      invariant result == Activating ==> forall j :: 0 <= j < i ==> states[j] == Some(Activating)
      invariant result != Activating ==>
        0 < i && states[i - 1] == Some(result) && forall j :: 0 <= j < i - 1 ==> states[j] == Some(Activating)
      decreases |states| - i
    {
      var read := states[i];
      if read.None? {
        assert states[i].None?;
        return false;
      }
      result := read.value;
      i := i + 1;
    }
    activated := result == Activated;
    assert activated ==> PolledToActivated(states) by {
      if activated { assert states[i - 1] == Some(Activated); }
    }
  }

  // ---------------------------------------------------------------- stored connections

  /**
   * One connection listed by the settings service with the outcome of
   * GetSettings on it (None when that call fails).
   */
  datatype ListedConnection = ListedConnection(path: Path, settings: Option<map<string, PropMap>>)

  /** A readable connection with a wireless section. */
  predicate IsWireless(c: ListedConnection) {
    c.settings.Some? && "802-11-wireless" in c.settings.value
  }

  /** `prop_cast(settings, "ssid").unwrap()` does not panic. */
  predicate SsidReadable(c: ListedConnection) {
    IsWireless(c) ==> CastBytes(c.settings.value["802-11-wireless"], "ssid").Some?
  }

  /** The SSID of a readable wireless connection. */
  function WirelessSsid(c: ListedConnection): seq<u8>
    requires IsWireless(c) && SsidReadable(c)
  {
    CastBytes(c.settings.value["802-11-wireless"], "ssid").value
  }

  /** The wireless connections with their SSIDs, in listing order. */
  function StoredWifi(conns: seq<ListedConnection>): seq<(Path, seq<u8>)>
    requires forall i :: 0 <= i < |conns| ==> SsidReadable(conns[i])
  {
    if conns == [] then []
    else
      var last := conns[|conns| - 1];
      StoredWifi(conns[..|conns| - 1])
      + if IsWireless(last) then [(last.path, WirelessSsid(last))] else []
  }

  /** A pair is stored exactly when a readable wireless connection of that path has that SSID. */
  lemma {:induction false} StoredWifiMembers(conns: seq<ListedConnection>, p: Path, ssid: seq<u8>)
    requires forall i :: 0 <= i < |conns| ==> SsidReadable(conns[i])
    ensures (p, ssid) in StoredWifi(conns) <==>
      exists i :: 0 <= i < |conns| && conns[i].path == p && IsWireless(conns[i])
        && WirelessSsid(conns[i]) == ssid
  {
    if conns != [] {
      var init := conns[..|conns| - 1];
      StoredWifiMembers(init, p, ssid);
      forall i | 0 <= i < |init| ensures init[i] == conns[i] { }
    }
  }

  /** `get_stored_connections`: skips connections whose settings cannot be read. */
  method GetStoredConnections(conns: seq<ListedConnection>) returns (wifi: seq<(Path, seq<u8>)>)
    requires forall i :: 0 <= i < |conns| ==> SsidReadable(conns[i])
    ensures wifi == StoredWifi(conns)
    ensures forall p, ssid :: (p, ssid) in wifi <==>
      exists i :: 0 <= i < |conns| && conns[i].path == p && IsWireless(conns[i])
        && WirelessSsid(conns[i]) == ssid
  {
    wifi := [];
    var i := 0;
    while i < |conns|
      invariant 0 <= i <= |conns|
      invariant wifi == StoredWifi(conns[..i])
    {
      assert conns[..i + 1][..i] == conns[..i];
      var c := conns[i];
      if c.settings.None? {
        i := i + 1;
        continue;
      }
      if "802-11-wireless" in c.settings.value {
        var ssid := CastBytes(c.settings.value["802-11-wireless"], "ssid").value;
        wifi := wifi + [(c.path, ssid)];
      }
      i := i + 1;
    }
    assert conns[..i] == conns;
    forall p, ssid {
      StoredWifiMembers(conns, p, ssid);
    }
  }

  // ---------------------------------------------------------------- Wi-Fi devices

  /** What is read about one device path: its "Interface" name (None when the read fails) and type code. */
  datatype DeviceProbe = DeviceProbe(path: Path, name: Option<string>, deviceType: u32)

  /** The Wi-Fi devices among the probes, with "empty" for a name that could not be read. */
  function WifiEntries(probes: seq<DeviceProbe>): seq<(Path, string)> {
    if probes == [] then []
    else
      var last := probes[|probes| - 1];
      WifiEntries(probes[..|probes| - 1])
      + if Network.DeviceTypeFromU32(last.deviceType) == Network.Wifi
        then [(last.path, last.name.UnwrapOr("empty"))] else []
  }

  /** Exactly the probes of type Wi-Fi (code 2) are kept, and no more entries than probes. */
  lemma {:induction false} WifiEntriesKeepWifi(probes: seq<DeviceProbe>)
    ensures |WifiEntries(probes)| <= |probes|
    ensures forall e :: e in WifiEntries(probes) <==>
      exists i :: 0 <= i < |probes| && probes[i].deviceType == 2
        && e == (probes[i].path, probes[i].name.UnwrapOr("empty"))
  {
    if probes != [] {
      var init := probes[..|probes| - 1];
      WifiEntriesKeepWifi(init);
      forall i | 0 <= i < |init| ensures init[i] == probes[i] { }
    }
  }

  // ---------------------------------------------------------------- Device

  class Device {
    var accessPoint: Option<AccessPoint>
    var connection: Option<Path>
    var dbusPath: Path
    var name: string
    var connected: bool
    var activeListener: bool

    ghost predicate Valid()
      reads this
    {
      connected ==> connection.Some?
    }

    /** `Device::new` */
    constructor New(path: Path, name: string)
      ensures Valid()
      ensures accessPoint.None? && connection.None? && dbusPath == path && this.name == name
      ensures !connected && !activeListener
    {
      accessPoint := None;
      connection := None;
      dbusPath := path;
      this.name := name;
      connected := false;
      activeListener := false;
    }

    /** `Clone`: copies every field except the listener flag, which starts false. */
    method Clone() returns (d: Device)
      requires Valid()
      ensures fresh(d) && d.Valid()
      ensures d.accessPoint == accessPoint && d.connection == connection && d.dbusPath == dbusPath
      ensures d.name == name && d.connected == connected && !d.activeListener
    {
      d := new Device.New(dbusPath, name);
      d.accessPoint := accessPoint;
      d.connection := connection;
      d.connected := connected;
    }

    /** `initialize`: the last active connection that lists this device wins. */
    method Initialize(active: seq<ActiveConnection>)
      requires Valid()
      modifies this
      ensures Valid()
      ensures dbusPath == old(dbusPath) && name == old(name) && activeListener == old(activeListener)
      ensures old(connected) ==> connected
      ensures Network.LastListing(active, dbusPath).None? ==>
        accessPoint == old(accessPoint) && connection == old(connection) && connected == old(connected)
      ensures Network.LastListing(active, dbusPath).Some? ==>
        var k := Network.LastListing(active, dbusPath).value;
        connection == Some(active[k].path) && accessPoint == active[k].accessPoint && connected
    {
      var i := 0;
      while i < |active|
        invariant 0 <= i <= |active|
        invariant Valid()
        invariant dbusPath == old(dbusPath) && name == old(name) && activeListener == old(activeListener)
        invariant old(connected) ==> connected
        invariant Network.LastListing(active[..i], dbusPath).None? ==>
          accessPoint == old(accessPoint) && connection == old(connection) && connected == old(connected)
        invariant Network.LastListing(active[..i], dbusPath).Some? ==>
          var k := Network.LastListing(active[..i], dbusPath).value;
          connection == Some(active[k].path) && accessPoint == active[k].accessPoint && connected
      {
        assert active[..i + 1][..i] == active[..i];
        if dbusPath in active[i].devices {
          connection := Some(active[i].path);
          accessPoint := active[i].accessPoint;
          connected := true;
        }
        i := i + 1;
      }
      assert active[..i] == active;
    }

    /**
     * `get_access_points`: `scan` is the device's access points with their
     * properties, in the order GetAllAccessPoints lists them. The current
     * access point comes first, then the scan without repeated SSIDs.
     */
    method GetAccessPoints(scan: seq<AccessPoint>) returns (aps: seq<AccessPoint>)
      ensures accessPoint.Some? ==> aps == [accessPoint.value] + Dedup({accessPoint.value.ssid}, scan)
      ensures accessPoint.None? ==> aps == Dedup({}, scan)
    {
      aps := [];
      var knownPoints: map<seq<u8>, int> := map[];
      if accessPoint.Some? {
        var connectedAccessPoint := accessPoint.value;
        knownPoints := knownPoints[connectedAccessPoint.ssid := 0];
        aps := aps + [connectedAccessPoint];
        assert knownPoints.Keys == {connectedAccessPoint.ssid};
      } else {
        assert knownPoints.Keys == {};
      }
      ghost var expected := aps + Dedup(knownPoints.Keys, scan);
      var i := 0;
      while i < |scan|
        invariant 0 <= i <= |scan|
        invariant aps + Dedup(knownPoints.Keys, scan[i..]) == expected
      {
        assert scan[i..][1..] == scan[i + 1..];
        var ap := scan[i];
        if ap.ssid in knownPoints {
          i := i + 1;
          continue;
        }
        assert knownPoints[ap.ssid := 0].Keys == knownPoints.Keys + {ap.ssid};
        knownPoints := knownPoints[ap.ssid := 0];
        aps := aps + [ap];
        i := i + 1;
      }
      assert scan[i..] == [];
      assert aps == expected;
    }

    /**
     * `connect_to_access_point`: `activated` is the active connection
     * returned by ActivateConnection (None when the call fails), `states`
     * the successive reads of its state and `associated` the access point
     * read from it afterwards.
     */
    method ConnectToAccessPoint(ap: AccessPoint, activated: Option<Path>, states: seq<Option<u32>>,
                                associated: Option<AccessPoint>)
      returns (r: Result<(), ConnectionError>)
      requires Valid()
      requires activated.Some? ==> Settles(states)
      modifies this
      ensures Valid()
      ensures dbusPath == old(dbusPath) && name == old(name) && activeListener == old(activeListener)
      ensures r.Ok? <==> activated.Some? && PolledToActivated(states)
      ensures activated.None? ==> r == Err(Network.ConnectionError("connect to"))
      ensures activated.Some? && r.Err? ==> r == Err(Network.ConnectionError("Password was wrong"))
      ensures r.Err? ==>
        accessPoint == old(accessPoint) && connection == old(connection) && connected == old(connected)
      ensures r.Ok? ==> connection == activated && accessPoint == associated && connected
    {
      if activated.None? {
        return Err(Network.ConnectionError("connect to"));
      }
      var ok := PollActivation(states);
      if !ok {
        return Err(Network.ConnectionError("Password was wrong"));
      }
      connection := activated;
      accessPoint := associated;
      connected := true;
      r := Ok(());
    }

    /**
     * `add_and_connect_to_access_point`: `added` is the pair returned by
     * AddAndActivateConnection (None when the call fails), `states` the
     * reads of the active connection's state and `properties` the access
     * point read from the first path of the pair. That path names the new
     * connection's settings object, not an access point, so the stored
     * access point is not the one connected to. `connected` is untouched.
     */
    method AddAndConnectToAccessPoint(ap: AccessPoint, password: string, added: Option<(Path, Path)>,
                                      states: seq<Option<u32>>, properties: AccessPoint)
      returns (r: Result<(), ConnectionError>)
      requires Valid()
      requires added.Some? ==> Settles(states) && properties.dbusPath == added.value.0
      modifies this
      ensures Valid()
      ensures dbusPath == old(dbusPath) && name == old(name) && activeListener == old(activeListener)
      ensures connected == old(connected)
      ensures r.Ok? <==> added.Some? && PolledToActivated(states)
      ensures added.None? ==> r == Err(Network.ConnectionError("connect to"))
      ensures added.Some? && r.Err? ==> r == Err(Network.ConnectionError("Password was wrong"))
      ensures r.Err? ==> accessPoint == old(accessPoint) && connection == old(connection)
      ensures r.Ok? ==> connection == Some(added.value.1) && accessPoint == Some(properties)
      ensures r.Ok? ==> accessPoint.value.dbusPath == added.value.0
    {
      if added.Some? {
        var (path, activeConnection) := added.value;
        var ok := PollActivation(states);
        if !ok {
          return Err(Network.ConnectionError("Password was wrong"));
        }
        connection, accessPoint := Some(activeConnection), Some(properties);
        return Ok(());
      }
      r := Err(Network.ConnectionError("connect to"));
    }

    /**
     * `add_and_connect_to_access_point` reading the access point back from
     * `ap.dbusPath`, as the older Device does: on success the stored access
     * point is the one connected to.
     */
    method AddAndConnectToRequestedAccessPoint(ap: AccessPoint, password: string, added: Option<(Path, Path)>,
                                               states: seq<Option<u32>>, properties: AccessPoint)
      returns (r: Result<(), ConnectionError>)
      requires Valid()
      requires added.Some? ==> Settles(states)
      requires properties.dbusPath == ap.dbusPath
      modifies this
      ensures Valid()
      ensures dbusPath == old(dbusPath) && name == old(name) && activeListener == old(activeListener)
      ensures connected == old(connected)
      ensures r.Ok? <==> added.Some? && PolledToActivated(states)
      ensures added.None? ==> r == Err(Network.ConnectionError("connect to"))
      ensures added.Some? && r.Err? ==> r == Err(Network.ConnectionError("Password was wrong"))
      ensures r.Err? ==> accessPoint == old(accessPoint) && connection == old(connection)
      ensures r.Ok? ==> connection == Some(added.value.1) && accessPoint == Some(properties)
      ensures r.Ok? ==> accessPoint.value.dbusPath == ap.dbusPath
    {
      if added.Some? {
        var (_, activeConnection) := added.value;
        var ok := PollActivation(states);
        if !ok {
          return Err(Network.ConnectionError("Password was wrong"));
        }
        connection, accessPoint := Some(activeConnection), Some(properties);
        return Ok(());
      }
      r := Err(Network.ConnectionError("connect to"));
    }

    /**
     * Some active connection lists this device and deactivates, and no
     * earlier listing connection failed to deactivate.
     */
    ghost predicate DeactivatedBeforeFailure(active: seq<ActiveConnection>, failing: set<Path>)
      reads this
    {
      DeactivatedBefore(dbusPath, active, failing)
    }

    /**
     * `disconnect_from_current`: `active` is the ActiveConnections read
     * (None when it fails); deactivating connection c fails iff c is in
     * `failing`. Every active connection that lists the device is
     * deactivated in turn, and the fields are cleared after each success.
     */
    method DisconnectFromCurrent(active: Option<seq<ActiveConnection>>, failing: set<Path>)
      returns (r: Result<(), ConnectionError>)
      requires Valid()
      modifies this
      ensures Valid()
      ensures dbusPath == old(dbusPath) && name == old(name) && activeListener == old(activeListener)
      ensures r.Err? ==> r.error == Network.ConnectionError("disconnect from")
      ensures active.None? ==> r.Err?
      ensures active.Some? ==>
        (r.Err? <==> exists i :: 0 <= i < |active.value| && dbusPath in active.value[i].devices
                                && active.value[i].path in failing)
      ensures active.Some? && DeactivatedBeforeFailure(active.value, failing) ==>
        !connected && accessPoint.None? && connection.None?
      ensures active.None? || !DeactivatedBeforeFailure(active.value, failing) ==>
        accessPoint == old(accessPoint) && connection == old(connection) && connected == old(connected)
    {
      if active.None? {
        return Err(Network.ConnectionError("disconnect from"));
      }
      var connections := active.value;
      var i := 0;
      while i < |connections|
        invariant 0 <= i <= |connections|
        invariant Valid()
        invariant dbusPath == old(dbusPath) && name == old(name) && activeListener == old(activeListener)
        invariant forall j :: 0 <= j < i && dbusPath in connections[j].devices ==> connections[j].path !in failing
        invariant DeactivatedBeforeFailure(connections[..i], failing) ==>
          !connected && accessPoint.None? && connection.None?
        invariant !DeactivatedBeforeFailure(connections[..i], failing) ==>
          accessPoint == old(accessPoint) && connection == old(connection) && connected == old(connected)
      {
        var c := connections[i];
        if dbusPath in c.devices && c.path in failing {
          FailureEndsPrefix(dbusPath, connections, failing, i);
          return Err(Network.ConnectionError("disconnect from"));
        }
        PrefixStep(dbusPath, connections, failing, i);
        if dbusPath in c.devices {
          connected := false;
          accessPoint := None;
          connection := None;
        }
        i := i + 1;
      }
      assert connections[..i] == connections;
      r := Ok(());
    }
  }

  /**
   * Some active connection listing `path` is deactivated successfully
   * before the first one whose deactivation fails.
   */
  ghost predicate DeactivatedBefore(path: Path, active: seq<ActiveConnection>, failing: set<Path>) {
    exists i :: 0 <= i < |active| && path in active[i].devices && active[i].path !in failing
      && forall j :: 0 <= j < i && path in active[j].devices ==> active[j].path !in failing
  }

  /** Extending the walked prefix by one connection. */
  lemma PrefixStep(path: Path, cs: seq<ActiveConnection>, failing: set<Path>, i: nat)
    requires i < |cs|
    requires forall j :: 0 <= j < i && path in cs[j].devices ==> cs[j].path !in failing
    requires path in cs[i].devices ==> cs[i].path !in failing
    ensures DeactivatedBefore(path, cs[..i + 1], failing) <==>
      DeactivatedBefore(path, cs[..i], failing) || path in cs[i].devices
  {
    var p, q := cs[..i], cs[..i + 1];
    assert forall j :: 0 <= j < i ==> q[j] == p[j] == cs[j];
    assert q[i] == cs[i];
    if DeactivatedBefore(path, q, failing) {
      var k :| 0 <= k < |q| && path in q[k].devices && q[k].path !in failing
        && forall j :: 0 <= j < k && path in q[j].devices ==> q[j].path !in failing;
      if k < i {
        assert path in p[k].devices && p[k].path !in failing;
      }
    }
    if DeactivatedBefore(path, p, failing) {
      var k :| 0 <= k < |p| && path in p[k].devices && p[k].path !in failing
        && forall j :: 0 <= j < k && path in p[j].devices ==> p[j].path !in failing;
      assert path in q[k].devices && q[k].path !in failing;
    }
    if path in cs[i].devices {
      assert path in q[i].devices && q[i].path !in failing;
    }
  }

  /** A failing deactivation ends the walk: only the prefix before it matters. */
  lemma FailureEndsPrefix(path: Path, cs: seq<ActiveConnection>, failing: set<Path>, i: nat)
    requires i < |cs| && path in cs[i].devices && cs[i].path in failing
    requires forall j :: 0 <= j < i && path in cs[j].devices ==> cs[j].path !in failing
    ensures DeactivatedBefore(path, cs, failing) <==> DeactivatedBefore(path, cs[..i], failing)
  {
    var p := cs[..i];
    assert forall j :: 0 <= j < i ==> p[j] == cs[j];
    if DeactivatedBefore(path, cs, failing) {
      var k :| 0 <= k < |cs| && path in cs[k].devices && cs[k].path !in failing
        && forall j :: 0 <= j < k && path in cs[j].devices ==> cs[j].path !in failing;
      assert k < i;
      assert path in p[k].devices && p[k].path !in failing;
    }
    if DeactivatedBefore(path, p, failing) {
      var k :| 0 <= k < i && path in p[k].devices && p[k].path !in failing
        && forall j :: 0 <= j < k && path in p[j].devices ==> p[j].path !in failing;
      assert path in cs[k].devices && cs[k].path !in failing;
    }
  }

  // ---------------------------------------------------------------- get_wifi_devices

  /**
   * The access point a freshly created device holds after `initialize`:
   * that of the last active connection listing it, or none.
   */
  function InitialAccessPoint(active: seq<ActiveConnection>, path: Path): Option<AccessPoint> {
    match Network.LastListing(active, path)
    case Some(k) => active[k].accessPoint
    case None => None
  }

  /**
   * `get_wifi_devices`: one device per probe of type Wi-Fi, named by its
   * interface ("empty" when that read fails) and initialized from `active`.
   */
  method GetWifiDevices(probes: seq<DeviceProbe>, active: seq<ActiveConnection>)
    returns (devices: seq<Device>)
    ensures |devices| == |WifiEntries(probes)|
    ensures forall i :: 0 <= i < |devices| ==>
      fresh(devices[i]) && devices[i].Valid() && !devices[i].activeListener
      && (devices[i].dbusPath, devices[i].name) == WifiEntries(probes)[i]
      && (devices[i].connected <==> Network.LastListing(active, devices[i].dbusPath).Some?)
      && devices[i].accessPoint == InitialAccessPoint(active, devices[i].dbusPath)
  {
    devices := [];
    var i := 0;
    while i < |probes|
      invariant 0 <= i <= |probes|
      invariant |devices| == |WifiEntries(probes[..i])|
      invariant forall j :: 0 <= j < |devices| ==>
        fresh(devices[j]) && devices[j].Valid() && !devices[j].activeListener
        && (devices[j].dbusPath, devices[j].name) == WifiEntries(probes[..i])[j]
        && (devices[j].connected <==> Network.LastListing(active, devices[j].dbusPath).Some?)
        && devices[j].accessPoint == InitialAccessPoint(active, devices[j].dbusPath)
    {
      assert probes[..i + 1][..i] == probes[..i];
      var probe := probes[i];
      var deviceType := Network.DeviceTypeFromU32(probe.deviceType);
      if deviceType == Network.Wifi {
        var device := new Device.New(probe.path, probe.name.UnwrapOr("empty"));
        device.Initialize(active);
        devices := devices + [device];
      }
      i := i + 1;
    }
    assert probes[..i] == probes;
  }
}
