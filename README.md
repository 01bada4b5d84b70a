# ReSet-Daemon core, modelled in Dafny

ReSet-Daemon is a D-Bus daemon that puts one interface in front of
NetworkManager (Wi-Fi), bluez (Bluetooth) and PulseAudio. Nearly all of it
forwards requests to those services. The daemon's own logic is:

- turning backend property maps into value types;
- the small state updates around those conversions;
- a few guards around listener threads.

This project models that logic in one module per source file:

| module | file | source |
|---|---|---|
| `Wrappers` | wrappers.dfy | `Option` and `Result` (shared) |
| `DBus` | dbus.dfy | D-Bus values, property maps, wire model, signatures (shared) |
| `Connection` | connection.dfy | `src/network/connection.rs`: settings enums, `EnumWrapper`, `FromPropmap` builders |
| `Network` | network.dfy | `src/network/network.rs`: the older Wi-Fi device (last stored match wins, no polling) |
| `NetworkManager` | network_manager.dfy | `src/network/network_manager.rs`: the newer Wi-Fi device (first match wins, activation polling, SSID de-duplication) |
| `NetworkManagerDbus` | network_manager_dbus.dfy | `src/network/network_manager_dbus.rs`: device selection, listener guards, device reports |
| `BluetoothManager` | bluetooth_manager.dfy | `src/bluetooth/bluetooth_manager.rs`: bluez device conversion, adapter choice, agent/enabled flags |
| `Bluetooth` | bluetooth.dfy | `src/bluetooth/bluetooth.rs`: `BluetoothDevice` wire codec, device map merge |
| `Variant` | variant.dfy | `src/mock/variant.rs`: type-tagged mock variant and its kind strings |
| `Daemon` | daemon.dfy | `src/lib.rs`: feature list and base-interface client registry |

## How the backends are modelled

Every call into NetworkManager or bluez becomes a parameter:

- a call that can fail is an `Option` or a `bool`;
- the active-connection states read while polling are a `seq<Option<u32>>`;
- the active connections, each with its device list, are a sequence;
- bluez managed objects are a sequence of (path, interfaces) pairs.

Iteration over a Rust `HashMap` is modelled as iteration over such a
sequence, in sequence order.

State that the source updates in place is held in classes whose methods
state the whole new state:

- the Wi-Fi `Device` (both generations);
- the daemon's Wi-Fi data (`DaemonData`);
- `BluetoothInterface` (both generations);
- the base interface's client map.

Loops in the source become `while` loops. Each is proved against a
specification function (`Dedup`, `StoredWifi`, `Connections`, `AdapterPaths`,
`WifiEntries`, `LastListing`), and the specification function's own
properties are proved as lemmas.

## Model

| member | source | states |
|---|---|---|
| Connection.TrustFromStr | src/network/connection.rs:73-84 | never fails; any string other than "Home", "Work" or "Public" gives the default `Trust` |
| Connection.TrustFromU32 | src/network/connection.rs:97-104 | total; every code 3 or above gives the default `Trust` |
| Connection.TrustStringRoundTrip | src/network/connection.rs:73-95 | parsing the printed name gives back every `Trust`, including the default via "null" |
| Connection.TrustU32RoundTrip | src/network/connection.rs:97-115 | decoding the code of every `Trust` gives it back |
| Connection.ModeFromStr | src/network/connection.rs:125-135 | never fails; anything other than "adhoc" or "ap" gives infrastructure |
| Connection.ModeFromU32 | src/network/connection.rs:147-153 | total; every code 2 or above gives `Ap`, which is not the enum's default |
| Connection.ModeStringRoundTrip | src/network/connection.rs:125-145 | parsing the printed name gives back every `Mode` |
| Connection.ModeU32RoundTrip | src/network/connection.rs:147-163 | decoding the code of every `Mode` gives it back |
| Connection.BandFromStr | src/network/connection.rs:173-183 | never fails; anything other than "a" or "bg" gives `Dyn` |
| Connection.BandFromU32 | src/network/connection.rs:195-201 | total; every code 2 or above gives `Dyn` |
| Connection.BandStringSwaps | src/network/connection.rs:173-193 | parsing the printed name swaps the 5 GHz and 2.4 GHz bands and fixes `Dyn`; it is not a round trip |
| Connection.BandU32RoundTrip | src/network/connection.rs:195-211 | decoding the code of every `Band` gives it back |
| Connection.DuplexFromStr | src/network/connection.rs:220-229 | never fails; anything other than "half" gives `Full` |
| Connection.DuplexFromU32 | src/network/connection.rs:240-245 | total; every code 1 or above gives `Full` |
| Connection.DuplexStringRoundTrip | src/network/connection.rs:220-238 | parsing the printed name gives back every `Duplex` |
| Connection.DuplexU32RoundTrip | src/network/connection.rs:240-254 | decoding the code of every `Duplex` gives it back |
| Connection.WrapperRoundTrip | src/network/connection.rs:21-40 | reading back an appended `EnumWrapper` gives the same value whenever the u32 mapping round-trips |
| Connection.AllWrappersRoundTrip | src/network/connection.rs:21-40 | the wrapper round trip holds for all four enums |
| Connection.WrapperSignatureMismatch | src/network/connection.rs:21-50 | the wrapper is appended as a one-field struct "(u)", but its declared signature is "u" |
| Connection.WrapperSignatureCorrected | src/network/connection.rs:21-40 | what is appended matches the corrected signature "(u)" |
| Connection.EthernetFromPropmap | src/network/connection.rs:270-307 | each field is copied when its key is present with the right type; otherwise auto-negotiate is true, duplex is `Full` (read from "mode"), and numbers and strings are 0 and "" |
| Connection.VpnFromPropmap | src/network/connection.rs:309-369 | each field is copied when present with the right type; the name defaults to "vpn", maps to empty, persistent to false, numbers and strings to 0 and "" |
| Connection.WifiFromPropmap | src/network/connection.rs:371-421 | each field is copied when present; mode defaults to infrastructure and band to `Dyn`; numbers default to 0 and the SSID to empty |
| Connection.X802FromPropmap | src/network/connection.rs:423-504 | each of the ten fields is copied when present with the right type, else it is empty or 0 |
| Connection.ConnectionSettingsFromPropmap | src/network/connection.rs:530-574 | present keys are copied; autoconnect defaults to false, priority and metered to -1, the zone to the default `Trust`, and strings to "" |
| Connection.EmptySectionDefaults | src/network/connection.rs:270-574 | the full default record of every settings section built from an empty map |
| Connection.WrongTypeIsAbsent | src/network/connection.rs:274-328 | a key present with the wrong value type is treated like a missing key |
| DBus.BytesToWire | src/network/network.rs:85-99 | a byte string is appended element by element as bytes |
| DBus.BytesRoundTrip | src/network/network.rs:85-112 | reading back an appended byte array gives the same bytes |
| Network.DeviceTypeFromU32 | src/network/network.rs:54-64 | the result is `Other` exactly when the code is not 0, 1, 2, 5 or 22 |
| Network.DeviceTypeRoundTrip | src/network/network.rs:54-74 | decoding the code of every device type gives it back, `Other` via 90 |
| Network.DeviceTypeCodes | src/network/network.rs:54-74 | the five known codes survive decode then encode; every other code becomes 90 |
| Network.AccessPointRoundTrip | src/network/network.rs:85-112 | `Get` reads the SSID, strength, associated connection and path that `Append` writes, in the same order |
| Network.AccessPointSignatureMatches | src/network/network.rs:85-119 | the appended access point has exactly the signature "(ayyoo)" |
| Network.LastListing | src/network/network.rs:378-388 | finds the last active connection that lists the device, or reports that none does |
| Network.GetAccessPointProperties | src/network/network.rs:271-298 | the associated connection is the last stored connection with the same SSID, or "/" if none |
| Network.Device.FromPath | src/network/network.rs:129-137 | a new device is not connected and has neither connection nor access point |
| Network.Device.Initialize | src/network/network.rs:378-388 | the last listing active connection sets connection, access point and `connected`; without one nothing changes; `connected` is never cleared |
| Network.Device.ConnectToAccessPoint | src/network/network.rs:420-450 | Ok iff the backend activated a connection, which then sets connection, access point and `connected`; on Err nothing changes |
| Network.Device.AddAndConnectToAccessPoint | src/network/network.rs:452-490 | Ok iff the backend added the connection, which then sets connection and access point but not `connected`; on Err nothing changes |
| Network.Device.DisconnectFromCurrent | src/network/network.rs:492-505 | when not connected, Ok with no change; when connected, a successful deactivation clears all three fields, and a failed one gives Err with no change |
| NetworkManager.GetAccessPointProperties | src/network/network_manager.rs:371-402 | SSID and strength default to empty and 130; `stored` iff some stored connection has the SSID; the associated connection is the first such one, else "/" |
| NetworkManager.DedupUnique | src/network/network_manager.rs:533-558 | the de-duplicated list has no two entries with the same SSID, avoids the seen SSIDs, and covers every scanned SSID |
| NetworkManager.DedupInOrder | src/network/network_manager.rs:544-558 | every kept entry is a scanned entry, taken in scan order |
| NetworkManager.DedupKeepsFirst | src/network/network_manager.rs:544-558 | every kept entry is the first scanned occurrence of its SSID |
| NetworkManager.PollActivation | src/network/network_manager.rs:600-619 | keeps reading while the state is 1; succeeds iff the first other read is state 2 |
| NetworkManager.StoredWifiMembers | src/network/network_manager.rs:465-490 | a (path, SSID) pair is stored iff some listed connection at that path is wireless with that SSID |
| NetworkManager.GetStoredConnections | src/network/network_manager.rs:465-490 | the loop returns exactly the wireless stored connections, in listing order: a (path, SSID) pair is returned iff a wireless connection at that path has that SSID |
| NetworkManager.WifiEntriesKeepWifi | src/network/network_manager.rs:254-280 | the kept entries are exactly the devices of type 2, named "empty" when the name lookup fails |
| NetworkManager.Device.New | src/network/network_manager.rs:54-63 | a new device is idle: not connected, no listener, no connection or access point |
| NetworkManager.Device.Clone | src/network/network_manager.rs:40-52 | copies every field except the listener flag, which the copy has cleared |
| NetworkManager.Device.Initialize | src/network/network_manager.rs:510-520 | the last listing active connection sets connection, access point and `connected`; without one nothing changes |
| NetworkManager.Device.GetAccessPoints | src/network/network_manager.rs:533-558 | the current access point comes first, followed by the scan with repeated SSIDs (and the current SSID) removed |
| NetworkManager.Device.ConnectToAccessPoint | src/network/network_manager.rs:575-625 | Ok iff activation was requested and the poll reached state 2; a failed request or a bad poll state gives its own error and changes nothing |
| NetworkManager.Device.AddAndConnectToAccessPoint | src/network/network_manager.rs:627-683 | Ok iff the connection was added and the poll reached state 2; on Ok the access point is read from the new settings path, so its path is that settings path; `connected` never changes |
| NetworkManager.Device.AddAndConnectToRequestedAccessPoint | src/network/network_manager.rs:627-683 | as above, but on Ok the stored access point is the one that was requested |
| NetworkManager.Device.DisconnectFromCurrent | src/network/network_manager.rs:685-715 | Err iff the listing fails or deactivating a connection that lists this device fails; all three fields are cleared only after such a deactivation succeeded, else nothing changes |
| NetworkManager.GetWifiDevices | src/network/network_manager.rs:254-280 | one fresh device per Wi-Fi probe, in order; each is connected iff an active connection lists it, and carries that connection's access point |
| NetworkManagerDbus.DaemonData.SetWifiDevice | src/network/network_manager_dbus.rs:123-142 | replies true iff some device has the path, but the device list and the current device are left exactly as they were |
| NetworkManagerDbus.DaemonData.SetWifiDeviceSwapping | src/api.rs:98-100 | replies true iff some device has the path; then the first such device becomes current and the old current device takes its place in the list |
| NetworkManagerDbus.DaemonData.StartNetworkListener | src/network/network_manager_dbus.rs:235-269 | replies false iff the current device path is empty or a listener is active; a listener starts only on a true reply |
| NetworkManagerDbus.DaemonData.SetWifiEnabled | src/network/network_manager_dbus.rs:37-64 | enabling starts a listener only when none is active; disabling clears `stopRequested`, never starts a listener and leaves `listenerActive` as it was, so a running listener keeps running; the reply is the backend's result |
| NetworkManagerDbus.DaemonData.StopNetworkListener | src/network/network_manager_dbus.rs:270-282 | replies true and clears `stopRequested`, as the called `stop_listener` does; `listenerActive` is untouched, so a running listener keeps running |
| NetworkManagerDbus.DaemonData.GetCurrentWifiDevice | src/network/network_manager_dbus.rs:65-91 | reports the current device's path and name, and the SSID of its access point |
| NetworkManagerDbus.ActiveSsid | src/network/network_manager_dbus.rs:76-83 | the SSID of the access point, or empty when there is none |
| NetworkManagerDbus.Report | src/network/network_manager_dbus.rs:104-111 | one device report: path, name and active SSID |
| NetworkManagerDbus.GetAllWifiDevices | src/network/network_manager_dbus.rs:92-121 | one report per Wi-Fi device, in order, each with the SSID of the access point it started with |
| BluetoothManager.BluetoothDeviceFromMap | src/bluetooth/bluetooth_manager.rs:88-139 | None iff the map is empty; otherwise the path is the argument, RSSI, name, icon and connected default to -1, "", "" and false, and the required keys are copied |
| BluetoothManager.DevicePropertiesRoundTrip | src/bluetooth/bluetooth_manager.rs:88-139 | a device's own property map is readable and converts back to the same device |
| BluetoothManager.ConvertDevice | src/bluetooth/bluetooth_manager.rs:81-86 | None iff there is no `org.bluez.Device1` entry or it is empty; otherwise the device built from it |
| BluetoothManager.ConnectionsMembers | src/bluetooth/bluetooth_manager.rs:141-157 | the keys are exactly the objects that convert; every device's path equals its key; with distinct paths each entry is that object's conversion |
| BluetoothManager.GetConnections | src/bluetooth/bluetooth_manager.rs:141-157 | the loop builds exactly that map; a failed object query gives the empty map |
| BluetoothManager.AdapterPathsMembers | src/bluetooth/bluetooth_manager.rs:174-203 | the adapters are exactly the objects exposing `org.bluez.Adapter1` |
| BluetoothManager.CollectAdapters | src/bluetooth/bluetooth_manager.rs:177-190 | the loop collects exactly those adapter paths, in order |
| BluetoothManager.BluetoothInterface.Empty | src/bluetooth/bluetooth_manager.rs:160-172 | no adapters, current adapter "/", no devices, every flag false |
| BluetoothManager.BluetoothInterface.Create | src/bluetooth/bluetooth_manager.rs:174-203 | None iff the query fails or finds no adapter; otherwise the last adapter is current, the others are kept, `real` is true, and `enabled` is the power-on result |
| BluetoothManager.BluetoothInterface.SetBluetooth | src/bluetooth/bluetooth_manager.rs:348-361 | `enabled` becomes the requested value on backend success and false on failure; nothing else changes |
| BluetoothManager.BluetoothInterface.RegisterAgent | src/bluetooth/bluetooth_manager.rs:363-380 | succeeds iff not yet registered and the backend succeeds, and only then sets `registered` |
| BluetoothManager.BluetoothInterface.UnregisterAgent | src/bluetooth/bluetooth_manager.rs:382-399 | succeeds iff registered and the backend succeeds, and only then clears `registered` |
| BluetoothManager.BluetoothInterface.PairWith | src/bluetooth/bluetooth_manager.rs:322-335 | registers the agent first when it is not registered; the reply is the pairing result |
| Bluetooth.AsWrittenReaderFails | src/bluetooth/bluetooth.rs:35-46 | `get` as written peeks nine times at the same argument without entering the struct, and fails on every argument |
| Bluetooth.AsWrittenRoundTripFails | src/bluetooth/bluetooth.rs:35-74 | so no appended device is read back by the reader as written, while the struct-entering reader reads each one back |
| Bluetooth.GetDevice | src/bluetooth/bluetooth.rs:35-58 | the corrected reader: a device is read only from a nine-field struct that starts with its object path |
| Bluetooth.DeviceRoundTrip | src/bluetooth/bluetooth.rs:35-74 | the corrected reader reads the nine fields in the order `append_by_ref` writes them |
| Bluetooth.DeviceSignatureMismatch | src/bluetooth/bluetooth.rs:60-81 | the appended device has signature "(onsobbbbs)", not the declared "(nsobbbbs)" |
| Bluetooth.DeclaredLayoutUnreadable | src/bluetooth/bluetooth.rs:35-81 | a value laid out by the declared signature can never be read back as a device |
| Bluetooth.ConvertDevice | src/bluetooth/bluetooth.rs:123-163 | None iff there is no `org.bluez.Device1` entry; RSSI defaults to -1; the name comes from "Alias" |
| Bluetooth.ConnectionsMembers | src/bluetooth/bluetooth.rs:207-220 | the keys are exactly the objects with a device entry, and each device's path equals its key |
| Bluetooth.BluetoothInterface.Empty | src/bluetooth/bluetooth.rs:166-176 | no adapters, current adapter "/", no devices, `enabled` and `real` false |
| Bluetooth.BluetoothInterface.Create | src/bluetooth/bluetooth.rs:177-205 | None iff the query fails or there is no adapter; otherwise the popped last adapter is current, `real` is true and there are no devices |
| Bluetooth.BluetoothInterface.GetConnections | src/bluetooth/bluetooth.rs:207-220 | inserts or overwrites one entry per converted object; other entries stay; a failed query changes nothing |
| Bluetooth.MergeKeepsOthers | src/bluetooth/bluetooth.rs:207-220 | after the merge, entries for paths no object names are unchanged and every device's path equals its key |
| Bluetooth.BluetoothInterface.SetBluetooth | src/bluetooth/bluetooth.rs:305-318 | `enabled` becomes the requested value on backend success and false on failure |
| Variant.HeadWord | src/mock/variant.rs:162-242 | the first word of a kind string is non-empty and contains no space |
| Variant.Parameters | src/mock/variant.rs:162-242 | a kind string is its first word followed by space-separated parameter kinds |
| Variant.HeadWordNamesConstructor | src/mock/variant.rs:162-242 | the first word determines the type constructor, and a primitive type entirely |
| Variant.KindPrefixUnique | src/mock/variant.rs:162-242 | a kind string followed by a space-led rest can be split back into its type in only one way |
| Variant.GetTypeInjective | src/mock/variant.rs:162-242 | distinct types have distinct kind strings |
| Variant.New | src/mock/variant.rs:115-120 | stores the value with the given kind |
| Variant.Empty | src/mock/variant.rs:111-113 | the empty variant has kind "None" and holds the empty value |
| Variant.IntoMockVariant | src/mock/variant.rs:24-101 | the kind of a wrapped value is the kind string of its type |
| Variant.ToValue | src/mock/variant.rs:122-127 | Err "Conversion Failed" iff the requested kind differs from the stored one; otherwise the stored value |
| Variant.ToValueCloned | src/mock/variant.rs:129-137 | Err "Conversion Failed" iff the requested kind differs from the stored one; otherwise the stored value |
| Variant.KindStringOnlyGuard | src/mock/variant.rs:122-140 | the guard compares strings only: 5 stored as an `i32` and asked for as a `bool` under the string "i32" comes back as a value that is not a `bool` |
| Variant.KindCheckSound | src/mock/variant.rs:122-140 | extraction by a type's kind succeeds iff it is the stored type, so the returned value always has the requested type |
| Variant.TestI32 | src/mock/variant.rs:244-250 | 5 has kind "i32" and reads back as 5 |
| Variant.TestOption | src/mock/variant.rs:251-260 | Some(10) has kind "Option i32" and reads back |
| Variant.TestVec | src/mock/variant.rs:261-270 | a vector of i32 has kind "Vec i32" |
| Variant.TestHashmap | src/mock/variant.rs:271-288 | a String-to-i32 map has kind "HashMap String i32" |
| Variant.TestConversionFail | src/mock/variant.rs:289-295 | asking a String for the wrong kind fails |
| Daemon.FeatureList | src/lib.rs:77-105 | "WiFi" iff the NetworkManager probe succeeded, "Bluetooth" iff the bluez probe did, "Audio" always and last, in the order WiFi, Bluetooth, Audio |
| Daemon.BaseInterface.constructor | src/lib.rs:142-145 | the base interface keeps the feature list and starts with no clients |
| Daemon.BaseInterface.GetCapabilities | src/lib.rs:148-151 | returns the feature list unchanged |
| Daemon.BaseInterface.APIVersion | src/lib.rs:152-156 | always "1.0.1" |
| Daemon.BaseInterface.RegisterClient | src/lib.rs:157-165 | replies true; the client's number is the map size before the call; the size grows iff the name was new; other clients are untouched |
| Daemon.BaseInterface.UnregisterClient | src/lib.rs:166-174 | replies true; the client is gone; the size shrinks iff it was present; other clients are untouched |

## Left out

- Listener threads and Bluetooth discovery (`start_listener`, `stop_listener` loops, `start_discovery`, `stop_discovery`): their point is concurrency and timing. Only the guards that decide whether one is started, and the flags the handlers set, are modelled.
- Audio (PulseAudio), the D-Bus interface registration, signal emission, plugins, the `src/dbus/` tree and `Shutdown` (process exit): transport plumbing and process control with no retained state.
- Every D-Bus call to NetworkManager or bluez is an input to the model. This covers scans, passwords, secrets, connection settings reads and writes, deletion, `request_scan` and `set_active_access_point`. `GetWifiStatus` and the handlers that only forward such a call (list access points, connect, disconnect) are not modelled separately.
- NetworkManager.PollActivation: the source polls for as long as the state reads 1, so it can spin forever. The model requires the polled sequence to leave state 1 or fail at some point (`Settles`); it does not model a poll that never ends.
- NetworkManager.Device.ConnectToAccessPoint and AddAndConnectToAccessPoint: these take `Settles` on the polled states for the same reason.
- Connection.Ipv4FromPropmap and Ipv6FromPropmap: the source's IPv4 and IPv6 sections have no fields, so there is nothing to state about them.
- The `Arc`/`AtomicBool` sharing of device and listener state across threads is not modelled. The flags are plain fields.
- NetworkManagerDbus.DaemonData.StopNetworkListener: as written it only clears `stopRequested` (`stop_listener`, src/network/network_manager.rs:250-252). The listener loop shown exits on `active_listener` (src/network/network_manager.rs:236-239), so the listener is not stopped. The model states this as-written effect and has no member that stops the listener.
- NetworkManagerDbus.DaemonData.StartNetworkListener: the handlers spawn `start_listener` with five arguments, but the routine shown takes four (src/network/network_manager.rs:67-72). The model records only whether a listener is spawned.
- NetworkManagerDbus.DaemonData.SetWifiEnabled: the backend call is a `bool` input. Disabling clears `stopRequested` only, as `StopNetworkListener` does, so a running listener keeps running; no member models a stop that reaches the listener.
- `src/network/network.rs`'s `get_access_points`, `get_wifi_devices` and `get_stored_connections` are not part of this model. They are direct backend calls and loops whose newer versions in `src/network/network_manager.rs` are modelled.
- Daemon.BaseInterface.RegisterClient: after a client unregisters, the next one can receive a number already held by another client. The model states the numbering rule exactly but proves nothing about uniqueness, since the source promises none.
- Bluetooth.ConvertDevice: the source unwraps the device's required keys (src/bluetooth/bluetooth.rs:123-163) and panics without them. The model requires them (`DeviceMapReadable`) instead of modelling the panic.
- NetworkManager.GetStoredConnections: the source panics when a wireless section has no byte-array "ssid" (src/network/network_manager.rs:484). The model, and `StoredWifi` with it, requires that key (`SsidReadable`) instead of modelling the panic.
- Variant.ToValue and Variant.ToValueCloned: the source compares the stored kind with the caller's string and then casts to the requested type unchecked. When the string matches but the type differs, the source reinterprets the stored bytes. The model hands back the stored value unchanged and does not model that reinterpretation. `KindStringOnlyGuard` shows the case, and `KindCheckSound` shows that asking by the type's own name is safe.
- BluetoothManager.BluetoothDeviceFromMap: the source panics when a required key (Alias, Adapter, Trusted, Blocked, Bonded, Paired, Address) is missing or has the wrong type. The model requires these keys instead of modelling the panic.
- Logging to `/tmp/reset_daemon_log` is left out.

## Findings

| source | as written | input that shows it | evidently intended | confidence | as-written member | corrected member |
|---|---|---|---|---|---|---|
| src/network/network_manager_dbus.rs:128-140 | the loop counts past the match, so the `push` then `remove` at the list end take back the device just pushed; nothing is selected | a list whose first device has the path: the reply is true and the current device is unchanged | the matching device becomes current, as described at src/api.rs:98-100 | not executed | NetworkManagerDbus.DaemonData.SetWifiDevice | NetworkManagerDbus.DaemonData.SetWifiDeviceSwapping |
| src/bluetooth/bluetooth.rs:76-81 | the declared signature "(nsobbbbs)" leaves out the leading object path that `Append` writes | any device: its appended value has signature "(onsobbbbs)" | signature "(onsobbbbs)" | not executed | Bluetooth.DeclaredLayoutUnreadable | Bluetooth.DeviceSignatureMismatch |
| src/bluetooth/bluetooth.rs:35-46 | `get` calls `<T>::get` nine times on the same iterator; it neither enters the struct that `append_by_ref` writes nor moves on between reads | any device: the first read meets the struct, not an object path, so reading back what was appended gives None | enter the struct and read the nine fields in turn | not executed | Bluetooth.AsWrittenRoundTripFails | Bluetooth.DeviceRoundTrip |
| src/network/connection.rs:42-50 | `EnumWrapper` declares signature "u" but appends a struct holding one u32 | any enum value: the appended signature is "(u)" | signature "(u)" | not executed | Connection.WrapperSignatureMismatch | Connection.WrapperSignatureCorrected |
| src/network/network_manager.rs:677 | after adding a connection, the access point is read from the new settings path, not from the requested access point's path | add-and-connect to an access point at "/ap/1" that yields settings path "/settings/7": the stored access point's path is "/settings/7" | read the properties of the requested access point | not executed | NetworkManager.Device.AddAndConnectToAccessPoint | NetworkManager.Device.AddAndConnectToRequestedAccessPoint |
