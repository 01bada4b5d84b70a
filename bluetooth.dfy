/**
 * The older bluez model (src/bluetooth/bluetooth.rs): a nine-field
 * `BluetoothDevice` with its own message codec, a `convert_device` that
 * names the device after its alias, and an interface whose device map
 * is updated in place. The managed objects and bluez call outcomes are
 * parameters.
 */
module Bluetooth {
  import opened Wrappers
  import opened DBus
  import BluetoothManager

  type ManagedObjects = BluetoothManager.ManagedObjects
  type Interfaces = BluetoothManager.Interfaces

  datatype BluetoothDevice = BluetoothDevice(
    path: Path, rssi: i16, name: string, adapter: Path,
    trusted: bool, bonded: bool, paired: bool, blocked: bool, address: string)

  // ---------------------------------------------------------------- codec

  /** `append_by_ref`: one struct holding the nine fields in declaration order. */
  function AppendDevice(d: BluetoothDevice): Wire {
    WStruct([WPath(d.path), WInt16(d.rssi), WStr(d.name), WPath(d.adapter),
             WBool(d.trusted), WBool(d.bonded), WBool(d.paired), WBool(d.blocked), WStr(d.address)])
  }

  /**
   * `<T>::get` on a message iterator: the argument under the iterator, when
   * it has type T. It neither steps into a struct nor moves the iterator on.
   */
  function PeekPath(w: Wire): Option<Path> {
    if w.WPath? then Some(w.p) else None
  }

  function PeekI16(w: Wire): Option<i16> {
    if w.WInt16? then Some(w.n) else None
  }

  function PeekStr(w: Wire): Option<string> {
    if w.WStr? then Some(w.s) else None
  }

  function PeekBool(w: Wire): Option<bool> {
    if w.WBool? then Some(w.b) else None
  }

  /**
   * `get` as written: nine `<T>::get` calls on the same iterator, each
   * looking at the same argument `w`, each failing the whole read.
   */
  function GetDeviceAsWritten(w: Wire): Option<BluetoothDevice> {
    match PeekPath(w)
    case None => None
    case Some(path) =>
      match PeekI16(w)
      case None => None
      case Some(rssi) =>
        match PeekStr(w)
        case None => None
        case Some(name) =>
          match PeekPath(w)
          case None => None
          case Some(adapter) =>
            match PeekBool(w)
            case None => None
            case Some(trusted) =>
              match PeekBool(w)
              case None => None
              case Some(bonded) =>
                match PeekBool(w)
                case None => None
                case Some(paired) =>
                  match PeekBool(w)
                  case None => None
                  case Some(blocked) =>
                    match PeekStr(w)
                    case None => None
                    case Some(address) =>
                      Some(BluetoothDevice(path, rssi, name, adapter, trusted, bonded, paired, blocked, address))
  }

  /**
   * The reader as written fails on every argument: no single argument is
   * both an object path and an `i16`.
   */
  lemma AsWrittenReaderFails(w: Wire)
    ensures GetDeviceAsWritten(w).None?
  {
    if PeekPath(w).Some? {
      assert PeekI16(w).None?;
    }
  }

  /**
   * So no appended device is ever read back by it, while the reader that
   * enters the struct reads every one back.
   */
  lemma AsWrittenRoundTripFails(d: BluetoothDevice)
    ensures GetDeviceAsWritten(AppendDevice(d)).None?
    ensures GetDevice(AppendDevice(d)) == Some(d)
  {
    AsWrittenReaderFails(AppendDevice(d));
    DeviceRoundTrip(d);
  }

  /**
   * `get` as evidently intended: enter the struct and read the nine fields
   * in turn, in the order Append writes them; None on any other layout.
   */
  function GetDevice(w: Wire): (r: Option<BluetoothDevice>)
    ensures r.Some? ==> w.WStruct? && |w.fields| == 9 && w.fields[0] == WPath(r.value.path)
  {
    if w.WStruct? && |w.fields| == 9
       && w.fields[0].WPath? && w.fields[1].WInt16? && w.fields[2].WStr? && w.fields[3].WPath?
       && w.fields[4].WBool? && w.fields[5].WBool? && w.fields[6].WBool? && w.fields[7].WBool?
       && w.fields[8].WStr?
    then
      var fs := w.fields;
      Some(BluetoothDevice(fs[0].p, fs[1].n, fs[2].s, fs[3].p, fs[4].b, fs[5].b, fs[6].b, fs[7].b, fs[8].s))
    else None
  }

  /** The struct-entering reader reads back every field Append writes. */
  lemma DeviceRoundTrip(d: BluetoothDevice)
    ensures GetDevice(AppendDevice(d)) == Some(d)
  {
  }

  /** The signature the type declares. */
  const DeclaredDeviceSignature: string := "(nsobbbbs)"

  /** The signature of what Append writes: the object path comes first. */
  const DeviceSignature: string := "(onsobbbbs)"

  /**
   * Append writes the layout "(onsobbbbs)", which is not the declared
   * signature: the declaration leaves out the leading object path.
   */
  lemma DeviceSignatureMismatch(d: BluetoothDevice)
    ensures Signature(AppendDevice(d)) == DeviceSignature
    ensures Signature(AppendDevice(d)) != DeclaredDeviceSignature
  {
    var fs := AppendDevice(d).fields;
    FieldsSignature(fs);
    assert DeviceSignature[1] != DeclaredDeviceSignature[1];
  }

  /** The nine appended fields are written as "onsobbbbs". */
  lemma FieldsSignature(fs: seq<Wire>)
    requires |fs| == 9 && fs[0].WPath? && fs[1].WInt16? && fs[2].WStr? && fs[3].WPath?
    requires fs[4].WBool? && fs[5].WBool? && fs[6].WBool? && fs[7].WBool? && fs[8].WStr?
    ensures Signatures(fs) == "onsobbbbs"
  {
    FlagsSignature(fs[4..]);
    SignaturesAt(fs, 3);
    SignaturesAt(fs, 2);
    var tail := Signatures(fs[2..]);
    assert tail == "sobbbbs";
    SignaturesAt(fs, 1);
    SignaturesAt(fs, 0);
    assert fs[0..] == fs;
  }

  /** Four booleans and a string are written as "bbbbs". */
  lemma FlagsSignature(fs: seq<Wire>)
    requires |fs| == 5 && fs[0].WBool? && fs[1].WBool? && fs[2].WBool? && fs[3].WBool? && fs[4].WStr?
    ensures Signatures(fs) == "bbbbs"
  {
    SignaturesAt(fs, 4);
    SignaturesAt(fs, 3);
    SignaturesAt(fs, 2);
    SignaturesAt(fs, 1);
    SignaturesAt(fs, 0);
    assert fs[5..] == [] && fs[0..] == fs;
  }

  lemma SignaturesAt(ws: seq<Wire>, k: nat)
    requires k < |ws|
    ensures Signatures(ws[k..]) == Signature(ws[k]) + Signatures(ws[k + 1..])
  {
    assert ws[k..][1..] == ws[k + 1..];
  }

  /** Whatever Get accepts has a signature starting with "(o". */
  lemma ReadableStartsWithPath(w: Wire)
    requires GetDevice(w).Some?
    ensures |Signature(w)| > 1 && Signature(w)[1] == 'o'
  {
    SignaturesAt(w.fields, 0);
    assert w.fields[0..] == w.fields;
  }

  /** No value laid out as the declared signature says can be read as a device. */
  lemma DeclaredLayoutUnreadable(w: Wire)
    requires Signature(w) == DeclaredDeviceSignature
    ensures GetDevice(w).None?
  {
    if GetDevice(w).Some? {
      ReadableStartsWithPath(w);
    }
  }

  // ---------------------------------------------------------------- devices

  /**
   * `convert_device`: None without a device interface; otherwise the
   * device named after its "Alias", with rssi -1 when "RSSI" is missing.
   */
  function ConvertDevice(path: Path, ifaces: Interfaces): (r: Option<BluetoothDevice>)
    requires BluetoothManager.DeviceInterface in ifaces ==>
      BluetoothManager.DeviceMapReadable(ifaces[BluetoothManager.DeviceInterface])
    ensures r.None? <==> BluetoothManager.DeviceInterface !in ifaces
    ensures r.Some? ==>
      var m := ifaces[BluetoothManager.DeviceInterface];
      r.value.path == path && r.value.rssi == CastI16(m, "RSSI").UnwrapOr(-1)
      && Some(r.value.name) == CastStr(m, "Alias") && Some(r.value.adapter) == CastPath(m, "Adapter")
      && Some(r.value.trusted) == CastBool(m, "Trusted") && Some(r.value.blocked) == CastBool(m, "Blocked")
      && Some(r.value.bonded) == CastBool(m, "Bonded") && Some(r.value.paired) == CastBool(m, "Paired")
      && Some(r.value.address) == CastStr(m, "Address")
  {
    if BluetoothManager.DeviceInterface !in ifaces then None
    else
      var m := ifaces[BluetoothManager.DeviceInterface];
      var rssi: i16 := if "RSSI" !in m then -1 else m["RSSI"].n;
      Some(BluetoothDevice(path, rssi, m["Alias"].s, m["Adapter"].p,
                           m["Trusted"].b, m["Bonded"].b, m["Paired"].b, m["Blocked"].b, m["Address"].s))
  }

  predicate AllReadable(objects: ManagedObjects) {
    forall i :: 0 <= i < |objects| ==>
      BluetoothManager.DeviceInterface in objects[i].1 ==>
        BluetoothManager.DeviceMapReadable(objects[i].1[BluetoothManager.DeviceInterface])
  }

  /** The devices of the managed objects, later objects overwriting earlier ones of the same path. */
  function Connections(objects: ManagedObjects): map<Path, BluetoothDevice>
    requires AllReadable(objects)
  {
    if objects == [] then map[]
    else
      var (path, ifaces) := objects[|objects| - 1];
      var earlier := Connections(objects[..|objects| - 1]);
      match ConvertDevice(path, ifaces)
      case Some(d) => earlier[path := d]
      case None => earlier
  }

  /** The keys of `Connections` are exactly the paths of objects with a device interface. */
  lemma {:induction false} ConnectionsMembers(objects: ManagedObjects, p: Path)
    requires AllReadable(objects)
    ensures p in Connections(objects) <==>
      exists i :: 0 <= i < |objects| && objects[i].0 == p && BluetoothManager.DeviceInterface in objects[i].1
    ensures p in Connections(objects) ==> Connections(objects)[p].path == p
  {
    if objects != [] {
      var init := objects[..|objects| - 1];
      assert AllReadable(init) by {
        forall i | 0 <= i < |init| ensures init[i] == objects[i] { }
      }
      ConnectionsMembers(init, p);
      forall i | 0 <= i < |init| ensures init[i] == objects[i] { }
    }
  }

  /** `BluetoothAdapter` list of `create`, shared with the newer model. */
  function AdapterPaths(objects: ManagedObjects): seq<Path> {
    BluetoothManager.AdapterPaths(objects)
  }

  class BluetoothInterface {
    var adapters: seq<Path>
    var currentAdapter: Path
    var devices: map<Path, BluetoothDevice>
    var enabled: bool
    var isReal: bool

    /** `empty`: no adapter, current path "/", no device, both flags false. */
    constructor Empty()
      ensures adapters == [] && currentAdapter == "/" && devices == map[]
      ensures !enabled && !isReal
    {
      adapters := [];
      currentAdapter := "/";
      devices := map[];
      enabled := false;
      isReal := false;
    }

    constructor WithAdapters(adapters: seq<Path>, current: Path)
      ensures this.adapters == adapters && currentAdapter == current && devices == map[]
      ensures !enabled && isReal
    {
      this.adapters := adapters;
      currentAdapter := current;
      devices := map[];
      enabled := false;
      isReal := true;
    }

    /**
     * `create`: None when the object query fails or finds no adapter;
     * otherwise the popped last adapter is current, the device map is
     * empty, and `enabled` is the outcome of powering the adapter on.
     */
    static method Create(objects: Option<ManagedObjects>, powerOk: bool) returns (r: Option<BluetoothInterface>)
      ensures objects.None? ==> r.None?
      ensures objects.Some? ==> (r.None? <==> AdapterPaths(objects.value) == [])
      ensures r.Some? ==>
        var found := AdapterPaths(objects.value);
        fresh(r.value) && |found| > 0
        && r.value.currentAdapter == found[|found| - 1] && r.value.adapters == found[..|found| - 1]
        && r.value.devices == map[] && r.value.isReal && r.value.enabled == powerOk
    {
      if objects.None? {
        return None;
      }
      var adapters := BluetoothManager.CollectAdapters(objects.value);
      if |adapters| < 1 {
        return None;
      }
      var current := adapters[|adapters| - 1];
      adapters := adapters[..|adapters| - 1];
      var interface := new BluetoothInterface.WithAdapters(adapters, current);
      interface.SetBluetooth(true, powerOk);
      r := Some(interface);
    }

    /**
     * `get_connections`: inserts or overwrites one entry per object with a
     * device interface; entries for other paths stay, and a failed query
     * (`objects` None) changes nothing.
     */
    method GetConnections(objects: Option<ManagedObjects>)
      requires objects.Some? ==> AllReadable(objects.value)
      modifies this
      ensures objects.None? ==> devices == old(devices)
      ensures objects.Some? ==> devices == old(devices) + Connections(objects.value)
      ensures adapters == old(adapters) && currentAdapter == old(currentAdapter)
      ensures enabled == old(enabled) && isReal == old(isReal)
    {
      if objects.None? {
        return;
      }
      var res := objects.value;
      var i := 0;
      while i < |res|
        invariant 0 <= i <= |res|
        invariant AllReadable(res[..i])
        invariant devices == old(devices) + Connections(res[..i])
        invariant adapters == old(adapters) && currentAdapter == old(currentAdapter)
        invariant enabled == old(enabled) && isReal == old(isReal)
      {
        assert res[..i + 1][..i] == res[..i];
        var (path, map_) := res[i];
        var device := ConvertDevice(path, map_);
        if device.Some? {
          MergeStep(old(devices), Connections(res[..i]), path, device.value);
          devices := devices[path := device.value];
        }
        i := i + 1;
      }
      assert res[..i] == res;
    }

    /** `set_bluetooth`: `enabled` follows `value` when powering succeeds and is false otherwise. */
    method SetBluetooth(value: bool, backendOk: bool)
      modifies this
      ensures enabled == (backendOk && value)
      ensures adapters == old(adapters) && currentAdapter == old(currentAdapter) && devices == old(devices)
      ensures isReal == old(isReal)
    {
      if !backendOk {
        enabled := false;
        return;
      }
      enabled := value;
    }
  }

  lemma MergeStep<K, V>(a: map<K, V>, c: map<K, V>, k: K, v: V)
    ensures (a + c)[k := v] == a + c[k := v]
  {
  }

  /**
   * Merging the converted devices into an existing map keeps the entries
   * of every other path and holds a device with its own path for each
   * converted object.
   */
  lemma MergeKeepsOthers(before: map<Path, BluetoothDevice>, objects: ManagedObjects, p: Path)
    requires AllReadable(objects)
    requires forall q :: q in before ==> before[q].path == q
    ensures p in before + Connections(objects) <==>
      p in before || exists i :: 0 <= i < |objects| && objects[i].0 == p && BluetoothManager.DeviceInterface in objects[i].1
    ensures p in before + Connections(objects) ==> (before + Connections(objects))[p].path == p
    ensures (forall i :: 0 <= i < |objects| ==> objects[i].0 != p) && p in before ==>
      (before + Connections(objects))[p] == before[p]
  {
    ConnectionsMembers(objects, p);
  }
}
