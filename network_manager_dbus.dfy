/**
 * The decision logic of the Wi-Fi D-Bus handlers
 * (src/network/network_manager_dbus.rs): choosing the current device,
 * the listener guards, and the `WifiDevice` records handed to clients.
 * Spawning the listener thread is reported as a returned flag; backend
 * calls are parameters.
 */
module NetworkManagerDbus {
  import opened Wrappers
  import opened DBus
  import NetworkManager

  type Device = NetworkManager.Device

  /** The part of the daemon state the Wi-Fi handlers use. */
  class DaemonData {
    var nDevices: seq<Device>
    var currentDevice: Device
    var listenerActive: bool
    var stopRequested: bool

    constructor (devices: seq<Device>, current: Device)
      ensures nDevices == devices && currentDevice == current
      ensures !listenerActive && !stopRequested
    {
      nDevices := devices;
      currentDevice := current;
      listenerActive := false;
      stopRequested := false;
    }

    /** Some known device has this path. */
    predicate HasDevice(path: Path)
      reads this, nDevices
    {
      exists i :: 0 <= i < |nDevices| && nDevices[i].dbusPath == path
    }

    /**
     * `SetWifiDevice` as written: `iter` counts every device, so after the
     * loop it equals the list length, and `remove(iter)` takes back the
     * device `push` just appended. The reply says whether the path is
     * known, yet neither the list nor the current device changes.
     */
    method SetWifiDevice(path: Path) returns (res: bool)
      modifies this
      ensures res <==> old(HasDevice(path))
      ensures nDevices == old(nDevices) && currentDevice == old(currentDevice)
      ensures listenerActive == old(listenerActive) && stopRequested == old(stopRequested)
    {
      res := false;
      var iter := 0;
      while iter < |nDevices|
        invariant 0 <= iter <= |nDevices|
        invariant res <==> exists i :: 0 <= i < iter && nDevices[i].dbusPath == path
      {
        if nDevices[iter].dbusPath == path {
          res := true;
        }
        iter := iter + 1;
      }
      if res {
        nDevices := nDevices + [currentDevice];
        currentDevice := nDevices[iter];
        nDevices := nDevices[..iter] + nDevices[iter + 1..];
        assert nDevices == old(nDevices);
      }
    }

    /**
     * `SetWifiDevice` as documented ("sets the current network device based
     * on the dbus path"): the first device with that path becomes current
     * and the previous current device takes its place in the list. Stopping
     * the loop at the match and keeping the push/remove pair would select
     * the same device but move the previous one to the end of the list;
     * the swap is chosen because it keeps every other device where it was,
     * and the list's order is not relied on by any handler.
     */
    method SetWifiDeviceSwapping(path: Path) returns (res: bool)
      modifies this
      ensures res <==> old(HasDevice(path))
      ensures !res ==> nDevices == old(nDevices) && currentDevice == old(currentDevice)
      ensures res ==>
        exists k :: 0 <= k < |old(nDevices)| && old(nDevices)[k].dbusPath == path
          && (forall j :: 0 <= j < k ==> old(nDevices)[j].dbusPath != path)
          && currentDevice == old(nDevices)[k] && nDevices == old(nDevices)[k := old(currentDevice)]
      ensures res ==> currentDevice.dbusPath == path
      ensures |nDevices| == |old(nDevices)|
      ensures listenerActive == old(listenerActive) && stopRequested == old(stopRequested)
    {
      res := false;
      var iter := 0;
      while iter < |nDevices|
        invariant 0 <= iter <= |nDevices|
        invariant forall j :: 0 <= j < iter ==> nDevices[j].dbusPath != path
        invariant !res
      {
        if nDevices[iter].dbusPath == path {
          res := true;
          break;
        }
        iter := iter + 1;
      }
      if res {
        var previous := currentDevice;
        currentDevice := nDevices[iter];
        nDevices := nDevices[iter := previous];
      }
    }

    /**
     * `StartNetworkListener`: replies false when the current device has no
     * path or a listener is already running, and only otherwise spawns one.
     */
    method StartNetworkListener() returns (result: bool, spawned: bool)
      ensures result <==> currentDevice.dbusPath != [] && !listenerActive
      ensures spawned == result
    {
      result := true;
      spawned := false;
      if currentDevice.dbusPath == [] || listenerActive {
        result := false;
      } else {
        spawned := true;
      }
    }

    /**
     * `SetWifiEnabled`: `backendOk` is the outcome of setting
     * "WirelessEnabled". Enabling spawns a listener only when none is
     * active. Disabling hands `stopRequested` to `stop_listener`, which
     * stores false into it; `listenerActive`, the flag the listener loop
     * watches, is untouched, so a running listener keeps running.
     */
    method SetWifiEnabled(enabled: bool, backendOk: bool) returns (result: bool, spawned: bool)
      modifies this
      ensures result == backendOk
      ensures spawned <==> enabled && !old(listenerActive)
      ensures enabled ==> stopRequested == old(stopRequested)
      ensures !enabled ==> !stopRequested
      ensures nDevices == old(nDevices) && currentDevice == old(currentDevice)
      ensures listenerActive == old(listenerActive)
    {
      spawned := false;
      if enabled {
        if !listenerActive {
          spawned := true;
        }
      } else {
        stopRequested := false;
      }
      result := backendOk;
    }

    /**
     * `StopNetworkListener`: hands `stopRequested` to `stop_listener`, which
     * clears it, and replies true. `listenerActive` is untouched, so a
     * running listener keeps running.
     */
    method StopNetworkListener() returns (result: bool)
      modifies this
      ensures result && !stopRequested
      ensures nDevices == old(nDevices) && currentDevice == old(currentDevice)
      ensures listenerActive == old(listenerActive)
    {
      stopRequested := false;
      result := true;
    }

    /** `GetCurrentWifiDevice` */
    method GetCurrentWifiDevice() returns (w: WifiDevice)
      ensures w.path == currentDevice.dbusPath && w.name == currentDevice.name
      ensures w.activeAccessPoint == ActiveSsid(currentDevice.accessPoint)
    {
      w := Report(currentDevice);
    }
  }

  /** What the handlers send for one device. */
  datatype WifiDevice = WifiDevice(path: Path, name: string, activeAccessPoint: seq<u8>)

  /** The SSID of the device's access point, or empty when it has none. */
  function ActiveSsid(ap: Option<NetworkManager.AccessPoint>): (ssid: seq<u8>)
    ensures ap.None? ==> ssid == []
    ensures ap.Some? ==> ssid == ap.value.ssid
  {
    if ap.Some? then ap.value.ssid else []
  }

  /** The record the handlers build from one device. */
  method Report(d: Device) returns (w: WifiDevice)
    ensures w == WifiDevice(d.dbusPath, d.name, ActiveSsid(d.accessPoint))
  {
    var activeAccessPoint: seq<u8>;
    if d.accessPoint.Some? {
      activeAccessPoint := d.accessPoint.value.ssid;
    } else {
      activeAccessPoint := [];
    }
    w := WifiDevice(d.dbusPath, d.name, activeAccessPoint);
  }

  /**
   * `GetAllWifiDevices`: one record per Wi-Fi device found by
   * `get_wifi_devices`, in its order, whose SSID is that of the last active
   * connection listing the device, or empty.
   */
  method GetAllWifiDevices(probes: seq<NetworkManager.DeviceProbe>,
                           active: seq<NetworkManager.ActiveConnection>)
    returns (ws: seq<WifiDevice>)
    ensures |ws| == |NetworkManager.WifiEntries(probes)|
    ensures forall i :: 0 <= i < |ws| ==>
      (ws[i].path, ws[i].name) == NetworkManager.WifiEntries(probes)[i]
      && ws[i].activeAccessPoint == ActiveSsid(NetworkManager.InitialAccessPoint(active, ws[i].path))
  {
    var devices := NetworkManager.GetWifiDevices(probes, active);
    ws := [];
    var i := 0;
    while i < |devices|
      invariant 0 <= i <= |devices|
      invariant |ws| == i
      invariant forall j :: 0 <= j < |devices| ==>
        (devices[j].dbusPath, devices[j].name) == NetworkManager.WifiEntries(probes)[j]
        && devices[j].accessPoint == NetworkManager.InitialAccessPoint(active, devices[j].dbusPath)
      invariant forall j :: 0 <= j < i ==> ws[j] == WifiDevice(devices[j].dbusPath, devices[j].name,
        ActiveSsid(NetworkManager.InitialAccessPoint(active, devices[j].dbusPath)))
    {
      var d := devices[i];
      var w := Report(d);
      ws := ws + [w];
      i := i + 1;
    }
  }
}
