/**
 * The bluez side of the daemon (src/bluetooth/bluetooth_manager.rs):
 * building a `BluetoothDevice` from an "org.bluez.Device1" property map,
 * filtering the managed objects into a path-to-device map, picking the
 * current adapter, and the `enabled` / `registered` flags. The managed
 * objects and every bluez call outcome are parameters.
 */
module BluetoothManager {
  import opened Wrappers
  import opened DBus

  /** Per object: interface name to its property map. */
  type Interfaces = map<string, PropMap>

  /** The reply of GetManagedObjects, in iteration order. */
  type ManagedObjects = seq<(Path, Interfaces)>

  const DeviceInterface: string := "org.bluez.Device1"
  const AdapterInterface: string := "org.bluez.Adapter1"

  datatype BluetoothDevice = BluetoothDevice(
    path: Path, rssi: i16, name: string, alias: string, adapter: Path,
    trusted: bool, bonded: bool, paired: bool, blocked: bool, connected: bool,
    icon: string, address: string)

  /**
   * The keys the builder unwraps are present with the right type, and
   * "RSSI", when present, holds an i16; otherwise the source panics.
   */
  predicate DeviceMapReadable(m: PropMap) {
    CastStr(m, "Alias").Some? && CastPath(m, "Adapter").Some?
    && CastBool(m, "Trusted").Some? && CastBool(m, "Blocked").Some?
    && CastBool(m, "Bonded").Some? && CastBool(m, "Paired").Some?
    && CastStr(m, "Address").Some?
    && ("RSSI" in m ==> m["RSSI"].Int16?)
  }

  /**
   * `bluetooth_device_from_map`: None for an empty map; otherwise the
   * required keys are copied and the optional ones take their defaults
   * (rssi -1, name and icon empty, connected false).
   */
  function BluetoothDeviceFromMap(path: Path, m: PropMap): (r: Option<BluetoothDevice>)
    requires m != map[] ==> DeviceMapReadable(m)
    ensures r.None? <==> m == map[]
    ensures r.Some? ==> r.value.path == path
    ensures r.Some? ==> r.value.rssi == CastI16(m, "RSSI").UnwrapOr(-1)
    ensures r.Some? ==> r.value.name == CastStr(m, "Name").UnwrapOr("")
    ensures r.Some? ==> r.value.icon == CastStr(m, "Icon").UnwrapOr("")
    ensures r.Some? ==> r.value.connected == CastBool(m, "Connected").UnwrapOr(false)
    ensures r.Some? ==> Some(r.value.alias) == CastStr(m, "Alias") && Some(r.value.adapter) == CastPath(m, "Adapter")
    ensures r.Some? ==> Some(r.value.trusted) == CastBool(m, "Trusted") && Some(r.value.blocked) == CastBool(m, "Blocked")
    ensures r.Some? ==> Some(r.value.bonded) == CastBool(m, "Bonded") && Some(r.value.paired) == CastBool(m, "Paired")
    ensures r.Some? ==> Some(r.value.address) == CastStr(m, "Address")
  {
    if m == map[] then None
    else
      var rssi: i16 := if "RSSI" in m then m["RSSI"].n else -1;
      var name := if CastStr(m, "Name").Some? then CastStr(m, "Name").value else "";
      var icon := if CastStr(m, "Icon").Some? then CastStr(m, "Icon").value else "";
      Some(BluetoothDevice(
        path, rssi, name, m["Alias"].s, m["Adapter"].p,
        m["Trusted"].b, m["Bonded"].b, m["Paired"].b, m["Blocked"].b,
        CastBool(m, "Connected").UnwrapOr(false), icon, m["Address"].s))
  }

  /** The property map bluez would publish for a device: every key, each with its value. */
  function DeviceProperties(d: BluetoothDevice): PropMap {
    map["RSSI" := Int16(d.rssi), "Name" := Str(d.name), "Alias" := Str(d.alias),
        "Adapter" := ObjPath(d.adapter), "Trusted" := Bool(d.trusted), "Bonded" := Bool(d.bonded),
        "Paired" := Bool(d.paired), "Blocked" := Bool(d.blocked), "Connected" := Bool(d.connected),
        "Icon" := Str(d.icon), "Address" := Str(d.address)]
  }

  /** The builder reads back every field of a device from its full property map. */
  lemma DevicePropertiesRoundTrip(d: BluetoothDevice)
    ensures DeviceMapReadable(DeviceProperties(d))
    ensures BluetoothDeviceFromMap(d.path, DeviceProperties(d)) == Some(d)
  {
    var m := DeviceProperties(d);
    assert "RSSI" in m;
  }

  /** The source panics on a device interface whose required keys are missing. */
  predicate ObjectReadable(ifaces: Interfaces) {
    DeviceInterface in ifaces && ifaces[DeviceInterface] != map[] ==> DeviceMapReadable(ifaces[DeviceInterface])
  }

  /**
   * `convert_device`: None iff there is no device interface or it has no
   * properties; otherwise the device built from that interface's map.
   */
  function ConvertDevice(path: Path, ifaces: Interfaces): (r: Option<BluetoothDevice>)
    requires ObjectReadable(ifaces)
    ensures r.None? <==> DeviceInterface !in ifaces || ifaces[DeviceInterface] == map[]
    ensures r.Some? ==> r == BluetoothDeviceFromMap(path, ifaces[DeviceInterface]) && r.value.path == path
  {
    if DeviceInterface !in ifaces then None
    else BluetoothDeviceFromMap(path, ifaces[DeviceInterface])
  }

  predicate AllReadable(objects: ManagedObjects) {
    forall i :: 0 <= i < |objects| ==> ObjectReadable(objects[i].1)
  }

  /** The devices of the managed objects, later objects overwriting earlier ones of the same path. */
  function Connections(objects: ManagedObjects): map<Path, BluetoothDevice>
    requires AllReadable(objects)
  {
    if objects == [] then map[]
    else
      var (path, ifaces) := objects[|objects| - 1];
      var earlier := Connections(objects[..|objects| - 1]);
      match ConvertDevice(path, ifaces)
      case Some(d) => earlier[path := d]
      case None => earlier
  }

  /**
   * The keys of `Connections` are exactly the paths whose object converts,
   * and each maps to a device with that path. With distinct paths, each
   * value is the conversion of its own object.
   */
  lemma {:induction false} ConnectionsMembers(objects: ManagedObjects, p: Path)
    requires AllReadable(objects)
    ensures p in Connections(objects) <==>
      exists i :: 0 <= i < |objects| && objects[i].0 == p && ConvertDevice(p, objects[i].1).Some?
    ensures p in Connections(objects) ==> Connections(objects)[p].path == p
    ensures p in Connections(objects) && (forall i, j :: 0 <= i < j < |objects| ==> objects[i].0 != objects[j].0) ==>
      exists i :: 0 <= i < |objects| && objects[i].0 == p && Some(Connections(objects)[p]) == ConvertDevice(p, objects[i].1)
  {
    if objects != [] {
      var init := objects[..|objects| - 1];
      assert AllReadable(init) by {
        forall i | 0 <= i < |init| ensures ObjectReadable(init[i].1) { assert init[i] == objects[i]; }
      }
      ConnectionsMembers(init, p);
      forall i | 0 <= i < |init| ensures init[i] == objects[i] { }
      var last := |objects| - 1;
      if objects[last].0 != p || ConvertDevice(p, objects[last].1).None? {
        if p in Connections(objects) && (forall i, j :: 0 <= i < j < |objects| ==> objects[i].0 != objects[j].0) {
          var i :| 0 <= i < |init| && init[i].0 == p && Some(Connections(init)[p]) == ConvertDevice(p, init[i].1);
          assert objects[i] == init[i];
        }
      }
    }
  }

  /** `get_connections`: an empty map when the object query (`objects`) fails. */
  method GetConnections(objects: Option<ManagedObjects>) returns (devices: map<Path, BluetoothDevice>)
    requires objects.Some? ==> AllReadable(objects.value)
    ensures objects.None? ==> devices == map[]
    ensures objects.Some? ==> devices == Connections(objects.value)
  {
    devices := map[];
    if objects.None? {
      return devices;
    }
    var res := objects.value;
    var i := 0;
    while i < |res|
      invariant 0 <= i <= |res|
      invariant AllReadable(res[..i])
      invariant devices == Connections(res[..i])
    {
      assert res[..i + 1][..i] == res[..i];
      var (path, map_) := res[i];
      var device := ConvertDevice(path, map_);
      if device.Some? {
        devices := devices[path := device.value];
      }
      i := i + 1;
    }
    assert res[..i] == res;
  }

  /** The paths of the objects that expose an adapter interface, in order. */
  function AdapterPaths(objects: ManagedObjects): seq<Path> {
    if objects == [] then []
    else
      var (path, ifaces) := objects[|objects| - 1];
      AdapterPaths(objects[..|objects| - 1]) + if AdapterInterface in ifaces then [path] else []
  }

  /** A path is among the adapters exactly when some object of that path exposes the adapter interface. */
  lemma {:induction false} AdapterPathsMembers(objects: ManagedObjects, p: Path)
    ensures |AdapterPaths(objects)| <= |objects|
    ensures p in AdapterPaths(objects) <==>
      exists i :: 0 <= i < |objects| && objects[i].0 == p && AdapterInterface in objects[i].1
  {
    if objects != [] {
      var init := objects[..|objects| - 1];
      AdapterPathsMembers(init, p);
      forall i | 0 <= i < |init| ensures init[i] == objects[i] { }
    }
  }

  /** The loop of `create` that collects the adapters. */
  method CollectAdapters(objects: ManagedObjects) returns (adapters: seq<Path>)
    ensures adapters == AdapterPaths(objects)
  {
    adapters := [];
    var i := 0;
    while i < |objects|
      invariant 0 <= i <= |objects|
      invariant adapters == AdapterPaths(objects[..i])
    {
      assert objects[..i + 1][..i] == objects[..i];
      var (path, ifaces) := objects[i];
      if AdapterInterface !in ifaces {
        i := i + 1;
        continue;
      }
      adapters := adapters + [path];
      i := i + 1;
    }
    assert objects[..i] == objects;
  }

  class BluetoothInterface {
    var adapters: seq<Path>
    var currentAdapter: Path
    var devices: map<Path, BluetoothDevice>
    var enabled: bool
    var isReal: bool
    var registered: bool

    /** `empty`: no adapter, current path "/", every flag false. */
    constructor Empty()
      ensures adapters == [] && currentAdapter == "/" && devices == map[]
      ensures !enabled && !isReal && !registered
    {
      adapters := [];
      currentAdapter := "/";
      devices := map[];
      enabled := false;
      isReal := false;
      registered := false;
    }

    constructor WithAdapters(adapters: seq<Path>, current: Path)
      ensures this.adapters == adapters && currentAdapter == current && devices == map[]
      ensures !enabled && isReal && !registered
    {
      this.adapters := adapters;
      currentAdapter := current;
      devices := map[];
      enabled := false;
      isReal := true;
      registered := false;
    }

    /**
     * `create`: `objects` is the reply of GetManagedObjects (None when it
     * fails) and `powerOk` the outcome of powering the adapter on. The last
     * adapter found becomes current and the others stay in `adapters`.
     */
    static method Create(objects: Option<ManagedObjects>, powerOk: bool) returns (r: Option<BluetoothInterface>)
      ensures objects.None? ==> r.None?
      ensures objects.Some? ==> (r.None? <==> AdapterPaths(objects.value) == [])
      ensures r.Some? ==>
        var found := AdapterPaths(objects.value);
        fresh(r.value) && |found| > 0
        && r.value.currentAdapter == found[|found| - 1] && r.value.adapters == found[..|found| - 1]
        && r.value.devices == map[] && r.value.isReal && !r.value.registered && r.value.enabled == powerOk
    {
      if objects.None? {
        return None;
      }
      var adapters := CollectAdapters(objects.value);
      if adapters == [] {
        return None;
      }
      var current := adapters[|adapters| - 1];
      adapters := adapters[..|adapters| - 1];
      var interface := new BluetoothInterface.WithAdapters(adapters, current);
      interface.SetBluetooth(true, powerOk);
      r := Some(interface);
    }

    /** `set_bluetooth`: `enabled` follows `value` when powering succeeds and is false otherwise. */
    method SetBluetooth(value: bool, backendOk: bool)
      modifies this
      ensures enabled == (backendOk && value)
      ensures adapters == old(adapters) && currentAdapter == old(currentAdapter) && devices == old(devices)
      ensures isReal == old(isReal) && registered == old(registered)
    {
      if !backendOk {
        enabled := false;
        return;
      }
      enabled := value;
    }

    /** `register_agent`: refuses when already registered; registers on backend success. */
    method RegisterAgent(backendOk: bool) returns (ok: bool)
      modifies this
      ensures ok <==> !old(registered) && backendOk
      ensures registered == (old(registered) || ok)
      ensures adapters == old(adapters) && currentAdapter == old(currentAdapter) && devices == old(devices)
      ensures enabled == old(enabled) && isReal == old(isReal)
    {
      if registered {
        return false;
      }
      if !backendOk {
        return false;
      }
      registered := true;
      ok := true;
    }

    /** `unregister_agent`: the mirror image of `register_agent`. */
    method UnregisterAgent(backendOk: bool) returns (ok: bool)
      modifies this
      ensures ok <==> old(registered) && backendOk
      ensures registered == (old(registered) && !ok)
      ensures adapters == old(adapters) && currentAdapter == old(currentAdapter) && devices == old(devices)
      ensures enabled == old(enabled) && isReal == old(isReal)
    {
      if !registered {
        return false;
      }
      if !backendOk {
        return false;
      }
      registered := false;
      ok := true;
    }

    /**
     * `pair_with`: registers the agent first when it is not registered
     * (`registerOk` is that call's outcome); the reply is the outcome of
     * Pair (`pairOk`), whatever the registration did.
     */
    method PairWith(device: Path, registerOk: bool, pairOk: bool) returns (r: Result<(), string>)
      modifies this
      ensures r.Ok? <==> pairOk
      ensures registered == (old(registered) || registerOk)
      ensures adapters == old(adapters) && currentAdapter == old(currentAdapter) && devices == old(devices)
      ensures enabled == old(enabled) && isReal == old(isReal)
    {
      if !registered {
        var _ := RegisterAgent(registerOk);
      }
      r := if pairOk then Ok(()) else Err("Pair");
    }
  }
}
