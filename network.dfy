/**
 * The first generation of the Wi-Fi device model (src/network/network.rs):
 * NetworkManager device-type codes, the `AccessPoint` wire codec, the rule
 * that associates an access point with the LAST stored connection of the
 * same SSID, and a `Device` whose `connection`, `access_point` and
 * `connected` fields are updated by connect, add-and-connect, disconnect
 * and initialize. Every backend call is a parameter.
 */
module Network {
  import opened Wrappers
  import opened DBus

  /** `ConnectionError`, displayed as "Could not {action} Access Point." (the source names the field `method`). */
  datatype ConnectionError = ConnectionError(action: string)

  // ---------------------------------------------------------------- DeviceType

  /** NetworkManager's `NMDeviceType` codes for the kinds this daemon tells apart. */
  datatype DeviceType = Unknown | Generic | Wifi | Bt | Dummy | Other

  function DeviceTypeFromU32(n: u32): (r: DeviceType)
    ensures r == Other <==> n !in {0, 1, 2, 5, 22}
  {
    if n == 0 then Unknown
    else if n == 1 then Generic
    else if n == 2 then Wifi
    else if n == 5 then Bt
    else if n == 22 then Dummy
    else Other
  }

  /** `Other` is written as 90, which reads back as `Other`. */
  function DeviceTypeToU32(d: DeviceType): u32 {
    match d
    case Unknown => 0
    case Generic => 1
    case Wifi => 2
    case Bt => 5
    case Dummy => 22
    case Other => 90
  }

  lemma DeviceTypeRoundTrip(d: DeviceType)
    ensures DeviceTypeFromU32(DeviceTypeToU32(d)) == d
  {
  }

  /** The five named codes survive the reverse trip; every other code collapses to `Other`. */
  lemma DeviceTypeCodes(n: u32)
    ensures n in {0, 1, 2, 5, 22} ==> DeviceTypeToU32(DeviceTypeFromU32(n)) == n
    ensures n !in {0, 1, 2, 5, 22} ==> DeviceTypeToU32(DeviceTypeFromU32(n)) == 90
  {
  }

  // ---------------------------------------------------------------- AccessPoint

  datatype AccessPoint = AccessPoint(
    ssid: seq<u8>, strength: u8, associatedConnection: Path, dbusPath: Path)

  /** `AccessPoint::append_by_ref`: ssid bytes, strength, associated connection, own path. */
  function AppendAccessPoint(ap: AccessPoint): Wire {
    WStruct([
      WArray("y", BytesToWire(ap.ssid)),
      WByte(ap.strength),
      WPath(ap.associatedConnection),
      WPath(ap.dbusPath)])
  }

  /** `AccessPoint::get`: reads the struct `(Vec<u8>, u8, Path, Path)`. */
  function GetAccessPoint(w: Wire): Option<AccessPoint> {
    if w.WStruct? && |w.fields| == 4
       && w.fields[0].WArray? && w.fields[0].elementSignature == "y"
       && w.fields[1].WByte? && w.fields[2].WPath? && w.fields[3].WPath?
    then match WireToBytes(w.fields[0].items)
      case None => None
      case Some(ssid) =>
        Some(AccessPoint(ssid, w.fields[1].y, w.fields[2].p, w.fields[3].p))
    else None
  }

  const AccessPointSignature: string := "(ayyoo)"

  /** Get reads back exactly the four fields Append writes. */
  lemma {:induction false} AccessPointRoundTrip(ap: AccessPoint)
    ensures GetAccessPoint(AppendAccessPoint(ap)) == Some(ap)
  {
    BytesRoundTrip(ap.ssid);
  }

  /** The declared signature lists exactly the appended fields. */
  lemma AccessPointSignatureMatches(ap: AccessPoint)
    ensures Signature(AppendAccessPoint(ap)) == AccessPointSignature
  {
    var fs := AppendAccessPoint(ap).fields;
    assert fs[3..][1..] == [];
    assert Signatures(fs[3..]) == "o";
    assert fs[2..][1..] == fs[3..];
    assert Signatures(fs[2..]) == "oo";
    assert fs[1..][1..] == fs[2..];
    assert Signatures(fs[1..]) == "yoo";
    assert Signatures(fs) == "ay" + "yoo";
  }

  // ---------------------------------------------------------------- active connections

  /**
   * What `get_associations_of_active_connection` reads about one active
   * connection: its path, the devices it runs on and, for a wireless
   * connection, its access point.
   */
  datatype ActiveConnection<AP> = ActiveConnection(
    path: Path, devices: seq<Path>, accessPoint: Option<AP>)

  /** Index of the last active connection that lists `device`, if any. */
  function LastListing<AP>(active: seq<ActiveConnection<AP>>, device: Path): (r: Option<nat>)
    ensures r.Some? ==>
      r.value < |active| && device in active[r.value].devices
      && forall j :: r.value < j < |active| ==> device !in active[j].devices
    ensures r.None? ==> forall j :: 0 <= j < |active| ==> device !in active[j].devices
  {
    if active == [] then None
    else if device in active[|active| - 1].devices then Some(|active| - 1)
    else LastListing(active[..|active| - 1], device)
  }

  // ---------------------------------------------------------------- properties

  /**
   * `get_access_point_properties`: `ssid` and `strength` are the access
   * point's properties; `stored` lists the stored wireless connections with
   * their SSIDs. The associated connection is the last stored one with the
   * same SSID (the loop has no break), else "/".
   */
  method GetAccessPointProperties(path: Path, ssid: seq<u8>, strength: u8,
                                  stored: seq<(Path, seq<u8>)>)
    returns (ap: AccessPoint)
    ensures ap.ssid == ssid && ap.strength == strength && ap.dbusPath == path
    ensures (forall i :: 0 <= i < |stored| ==> stored[i].1 != ssid) ==>
      ap.associatedConnection == "/"
    ensures (exists i :: 0 <= i < |stored| && stored[i].1 == ssid) ==>
      exists i :: 0 <= i < |stored| && stored[i].1 == ssid && ap.associatedConnection == stored[i].0
        && forall j :: i < j < |stored| ==> stored[j].1 != ssid
  {
    var associated: Option<Path> := None;
    ghost var at: nat := 0;
    var i := 0;
    while i < |stored|
      invariant 0 <= i <= |stored|
      invariant associated.None? ==> forall j :: 0 <= j < i ==> stored[j].1 != ssid
      invariant associated.Some? ==>
        at < i && stored[at].1 == ssid && associated.value == stored[at].0
        && forall j :: at < j < i ==> stored[j].1 != ssid
    {
      if ssid == stored[i].1 {
        associated := Some(stored[i].0);
        at := i;
      }
      i := i + 1;
    }
    if associated.None? {
      associated := Some("/");
    }
    ap := AccessPoint(ssid, strength, associated.value, path);
  }

  // ---------------------------------------------------------------- Device

  class Device {
    var accessPoint: Option<AccessPoint>
    var connection: Option<Path>
    var dbusPath: Path
    var connected: bool

    /** A connected device always knows its connection: what makes the `unwrap` in disconnect safe. */
    ghost predicate Valid()
      reads this
    {
      connected ==> connection.Some?
    }

    /** `Device::from_path` */
    constructor FromPath(path: Path)
      ensures Valid()
      ensures accessPoint.None? && connection.None? && dbusPath == path && !connected
    {
      accessPoint := None;
      connection := None;
      dbusPath := path;
      connected := false;
    }

    /**
     * `initialize`: adopts every active connection that lists this device,
     * so the last one wins; `connected` is only ever set to true.
     */
    method Initialize(active: seq<ActiveConnection<AccessPoint>>)
      requires Valid()
      modifies this
      ensures Valid()
      ensures dbusPath == old(dbusPath)
      ensures old(connected) ==> connected
      ensures LastListing(active, dbusPath).None? ==>
        accessPoint == old(accessPoint) && connection == old(connection) && connected == old(connected)
      ensures LastListing(active, dbusPath).Some? ==>
        var k := LastListing(active, dbusPath).value;
        connection == Some(active[k].path) && accessPoint == active[k].accessPoint && connected
    {
      var i := 0;
      while i < |active|
        invariant 0 <= i <= |active|
        invariant Valid() && dbusPath == old(dbusPath)
        invariant old(connected) ==> connected
        invariant LastListing(active[..i], dbusPath).None? ==>
          accessPoint == old(accessPoint) && connection == old(connection) && connected == old(connected)
        invariant LastListing(active[..i], dbusPath).Some? ==>
          var k := LastListing(active[..i], dbusPath).value;
          connection == Some(active[k].path) && accessPoint == active[k].accessPoint && connected
      {
        assert active[..i + 1][..i] == active[..i];
        if dbusPath in active[i].devices {
          connection := Some(active[i].path);
          accessPoint := active[i].accessPoint;
          connected := true;
        }
        i := i + 1;
      }
      assert active[..i] == active;
    }

    /**
     * `connect_to_access_point`: `activated` is the outcome of
     * ActivateConnection (None when the call fails) together with what is
     * read about the new active connection.
     */
    method ConnectToAccessPoint(ap: AccessPoint, activated: Option<ActiveConnection<AccessPoint>>)
      returns (r: Result<(), ConnectionError>)
      requires Valid()
      modifies this
      ensures Valid() && dbusPath == old(dbusPath)
      ensures r.Ok? <==> activated.Some?
      ensures r.Err? ==> r.error == ConnectionError("connect to")
      ensures r.Err? ==>
        accessPoint == old(accessPoint) && connection == old(connection) && connected == old(connected)
      ensures r.Ok? ==>
        connection == Some(activated.value.path) && accessPoint == activated.value.accessPoint && connected
    {
      if activated.None? {
        return Err(ConnectionError("connect to"));
      }
      connection := Some(activated.value.path);
      accessPoint := activated.value.accessPoint;
      connected := true;
      r := Ok(());
    }

    /**
     * `add_and_connect_to_access_point`: `added` is the active connection
     * returned by AddAndActivateConnection (None when the call fails) and
     * `properties` the access point read back from `ap.dbusPath`. Only
     * `connection` and `access_point` are set; `connected` is untouched.
     */
    method AddAndConnectToAccessPoint(ap: AccessPoint, password: string, added: Option<Path>,
                                      properties: AccessPoint)
      returns (r: Result<(), ConnectionError>)
      requires Valid()
      requires properties.dbusPath == ap.dbusPath
      modifies this
      ensures Valid() && dbusPath == old(dbusPath) && connected == old(connected)
      ensures r.Ok? <==> added.Some?
      ensures r.Err? ==> r.error == ConnectionError("connect to")
      ensures r.Err? ==> accessPoint == old(accessPoint) && connection == old(connection)
      ensures r.Ok? ==> connection == added && accessPoint == Some(properties)
    {
      if added.Some? {
        connection, accessPoint := added, Some(properties);
        return Ok(());
      }
      r := Err(ConnectionError("connect to"));
    }

    /**
     * `disconnect_from_current`: `deactivated` is the outcome of
     * DeactivateConnection on the current connection.
     */
    method DisconnectFromCurrent(deactivated: bool) returns (r: Result<(), ConnectionError>)
      requires Valid()
      modifies this
      ensures Valid() && dbusPath == old(dbusPath)
      ensures r.Err? <==> old(connected) && !deactivated
      ensures r.Err? ==> r.error == ConnectionError("disconnect from")
      ensures !old(connected) || r.Err? ==>
        accessPoint == old(accessPoint) && connection == old(connection) && connected == old(connected)
      ensures old(connected) && r.Ok? ==> !connected && accessPoint.None? && connection.None?
    {
      if connected {
        var current := connection.value;
        if !deactivated {
          return Err(ConnectionError("disconnect from"));
        }
        connected := false;
        accessPoint := None;
        connection := None;
      }
      r := Ok(());
    }
  }
}
