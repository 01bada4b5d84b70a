/**
 * NetworkManager connection settings: the four setting enums with their
 * string and u32 codes, the `EnumWrapper` that marshals an enum as its u32
 * code, and the `from_propmap` builders that turn a settings section into a
 * record, filling a fixed default for every key that is absent or of
 * another type.
 */
module Connection {
  import opened Wrappers
  import opened DBus

  /** `FromStr::Err` of the enums; never produced. */
  datatype ConversionError = ConversionError(message: string)

  // ---------------------------------------------------------------- Trust

  /** Firewall zone of a connection; `Default` is the `#[default]` variant. */
  datatype Trust = Home | Work | Public | Default

  function TrustFromStr(s: string): (r: Result<Trust, ConversionError>)
    ensures r.Ok?
    ensures s != "Home" && s != "Work" && s != "Public" ==> r.value == Default
  {
    if s == "Home" then Ok(Home)
    else if s == "Work" then Ok(Work)
    else if s == "Public" then Ok(Public)
    else Ok(Default)
  }

  function TrustToString(t: Trust): string {
    match t
    case Home => "Home"
    case Work => "Work"
    case Public => "Public"
    case Default => "null"
  }

  function TrustFromU32(n: u32): (r: Trust)
    ensures n >= 3 ==> r == Default
  {
    if n == 0 then Home else if n == 1 then Work else if n == 2 then Public else Default
  }

  function TrustToU32(t: Trust): u32 {
    match t
    case Home => 0
    case Work => 1
    case Public => 2
    case Default => 3
  }

  /** Every zone survives the string round trip, `Default` through "null". */
  lemma TrustStringRoundTrip(t: Trust)
    ensures TrustFromStr(TrustToString(t)) == Ok(t)
  {
  }

  lemma TrustU32RoundTrip(t: Trust)
    ensures TrustFromU32(TrustToU32(t)) == t
  {
  }

  // ---------------------------------------------------------------- Mode

  /** Wi-Fi mode; `Infrastructure` is the `#[default]` variant. */
  datatype Mode = Infrastructure | Adhoc | Ap

  function ModeFromStr(s: string): (r: Result<Mode, ConversionError>)
    ensures r.Ok?
    ensures s != "adhoc" && s != "ap" ==> r.value == Infrastructure
  {
    if s == "adhoc" then Ok(Adhoc) else if s == "ap" then Ok(Ap) else Ok(Infrastructure)
  }

  function ModeToString(m: Mode): string {
    match m
    case Adhoc => "adhoc"
    case Ap => "ap"
    case Infrastructure => "infrastructure"
  }

  /** Out-of-range codes give `Ap`, which is not the default variant. */
  function ModeFromU32(n: u32): (r: Mode)
    ensures n >= 2 ==> r == Ap
  {
    if n == 0 then Infrastructure else if n == 1 then Adhoc else Ap
  }

  function ModeToU32(m: Mode): u32 {
    match m
    case Infrastructure => 0
    case Adhoc => 1
    case Ap => 2
  }

  lemma ModeStringRoundTrip(m: Mode)
    ensures ModeFromStr(ModeToString(m)) == Ok(m)
  {
  }

  lemma ModeU32RoundTrip(m: Mode)
    ensures ModeFromU32(ModeToU32(m)) == m
  {
  }

  // ---------------------------------------------------------------- Band

  /** Wi-Fi band; `Dyn` is the `#[default]` variant. */
  datatype Band = Ghz5 | Ghz24 | Dyn

  function BandFromStr(s: string): (r: Result<Band, ConversionError>)
    ensures r.Ok?
    ensures s != "a" && s != "bg" ==> r.value == Dyn
  {
    if s == "a" then Ok(Ghz5) else if s == "bg" then Ok(Ghz24) else Ok(Dyn)
  }

  /** Writes "bg" for 5 GHz and "a" for 2.4 GHz: the reverse of what `BandFromStr` reads. */
  function BandToString(b: Band): string {
    match b
    case Ghz5 => "bg"
    case Ghz24 => "a"
    case Dyn => ""
  }

  function BandFromU32(n: u32): (r: Band)
    ensures n >= 2 ==> r == Dyn
  {
    if n == 0 then Ghz5 else if n == 1 then Ghz24 else Dyn
  }

  function BandToU32(b: Band): u32 {
    match b
    case Ghz5 => 0
    case Ghz24 => 1
    case Dyn => 2
  }

  /** The two band names are swapped: the string round trip exchanges the bands and fixes `Dyn`. */
  function SwapBand(b: Band): Band {
    match b
    case Ghz5 => Ghz24
    case Ghz24 => Ghz5
    case Dyn => Dyn
  }

  lemma BandStringSwaps(b: Band)
    ensures BandFromStr(BandToString(b)) == Ok(SwapBand(b))
    ensures b != Dyn ==> BandFromStr(BandToString(b)).value != b
  {
  }

  lemma BandU32RoundTrip(b: Band)
    ensures BandFromU32(BandToU32(b)) == b
  {
  }

  // ---------------------------------------------------------------- Duplex

  /** Ethernet duplex; `Full` is the `#[default]` variant. */
  datatype Duplex = Half | Full

  function DuplexFromStr(s: string): (r: Result<Duplex, ConversionError>)
    ensures r.Ok?
    ensures s != "half" ==> r.value == Full
  {
    if s == "half" then Ok(Half) else Ok(Full)
  }

  function DuplexToString(d: Duplex): string {
    match d
    case Half => "half"
    case Full => "full"
  }

  function DuplexFromU32(n: u32): (r: Duplex)
    ensures n >= 1 ==> r == Full
  {
    if n == 0 then Half else Full
  }

  function DuplexToU32(d: Duplex): u32 {
    match d
    case Half => 0
    case Full => 1
  }

  lemma DuplexStringRoundTrip(d: Duplex)
    ensures DuplexFromStr(DuplexToString(d)) == Ok(d)
  {
  }

  lemma DuplexU32RoundTrip(d: Duplex)
    ensures DuplexFromU32(DuplexToU32(d)) == d
  {
  }

  // ---------------------------------------------------------------- EnumWrapper

  /** `EnumWrapper::append_by_ref`: a struct holding the enum's u32 code. */
  function WrapperAppend<T>(e: T, toU32: T -> u32): Wire {
    WStruct([WUInt32(toU32(e))])
  }

  /** `EnumWrapper::get`: reads a one-field struct of u32 and decodes it with `from_u32`. */
  function WrapperGet<T>(w: Wire, fromU32: u32 -> T): Option<T> {
    if w.WStruct? && |w.fields| == 1 && w.fields[0].WUInt32? then Some(fromU32(w.fields[0].u))
    else None
  }

  /** The signature `EnumWrapper` declares for itself (connection.rs:47-49). */
  const WrapperDeclaredSignature: string := "u"

  /** Whenever `from_u32` undoes `to_u32`, reading back an appended wrapper gives the same enum. */
  lemma WrapperRoundTrip<T>(e: T, toU32: T -> u32, fromU32: u32 -> T)
    requires fromU32(toU32(e)) == e
    ensures WrapperGet(WrapperAppend(e, toU32), fromU32) == Some(e)
  {
  }

  /** The wrapper round trip holds for each of the four setting enums. */
  lemma AllWrappersRoundTrip(t: Trust, m: Mode, b: Band, d: Duplex)
    ensures WrapperGet(WrapperAppend(t, TrustToU32), TrustFromU32) == Some(t)
    ensures WrapperGet(WrapperAppend(m, ModeToU32), ModeFromU32) == Some(m)
    ensures WrapperGet(WrapperAppend(b, BandToU32), BandFromU32) == Some(b)
    ensures WrapperGet(WrapperAppend(d, DuplexToU32), DuplexFromU32) == Some(d)
  {
    TrustU32RoundTrip(t);
    WrapperRoundTrip(t, TrustToU32, TrustFromU32);
    ModeU32RoundTrip(m);
    WrapperRoundTrip(m, ModeToU32, ModeFromU32);
    BandU32RoundTrip(b);
    WrapperRoundTrip(b, BandToU32, BandFromU32);
    DuplexU32RoundTrip(d);
    WrapperRoundTrip(d, DuplexToU32, DuplexFromU32);
  }

  /**
   * The declared signature "u" is not the signature of what is appended,
   * a struct "(u)".
   */
  lemma WrapperSignatureMismatch<T>(e: T, toU32: T -> u32)
    ensures Signature(WrapperAppend(e, toU32)) == "(u)"
    ensures Signature(WrapperAppend(e, toU32)) != WrapperDeclaredSignature
  {
    assert Signatures([WUInt32(toU32(e))]) == "u";
  }

  /** Signature matching what `append_by_ref` writes. */
  const WrapperSignature: string := "(u)"

  lemma WrapperSignatureCorrected<T>(e: T, toU32: T -> u32)
    ensures Signature(WrapperAppend(e, toU32)) == WrapperSignature
  {
    WrapperSignatureMismatch(e, toU32);
  }

  // ---------------------------------------------------------------- settings records

  datatype EthernetSettings = EthernetSettings(
    autoNegotiate: bool, duplex: Duplex, mtu: u32, name: string, speed: u32)

  datatype VpnSettings = VpnSettings(
    data: map<string, string>, name: string, persistent: bool, secrets: map<string, string>,
    serviceType: string, timeout: u32, userName: string)

  datatype WifiSettings = WifiSettings(
    band: Band, channel: u32, mode: Mode, mtu: u32, powersave: u32, rate: u32, ssid: seq<u8>)

  datatype X802Settings = X802Settings(
    caCert: seq<u8>, caCertString: string, clientCert: seq<u8>, domainSuffix: string,
    eap: seq<string>, identity: string, pacFile: string, password: string,
    passwordFlags: u32, passwordRawFlags: seq<u8>)

  datatype Ipv4Settings = Ipv4Settings
  datatype Ipv6Settings = Ipv6Settings

  datatype ConnectionSettings = ConnectionSettings(
    autoconnect: bool, autoconnectPriority: i32, metered: i32, name: string,
    deviceType: string, uuid: string, zone: Trust)

  datatype TypeSettings =
    | Wifi(wifi: WifiSettings)
    | Ethernet(ethernet: EthernetSettings)
    | Vpn(vpn: VpnSettings)

  datatype Connection = Connection(
    settings: ConnectionSettings, x802: X802Settings, device: TypeSettings,
    ipv4: Ipv4Settings, ipv6: Ipv6Settings)

  // ---------------------------------------------------------------- from_propmap

  /** Duplex comes from the "mode" key; absent, it is `Full`. */
  function EthernetFromPropmap(m: PropMap): (r: EthernetSettings)
    ensures CastBool(m, "auto-negotiate").Some? ==> r.autoNegotiate == m["auto-negotiate"].b
    ensures CastBool(m, "auto-negotiate").None? ==> r.autoNegotiate
    ensures CastStr(m, "mode").Some? ==> r.duplex == DuplexFromStr(m["mode"].s).value
    ensures CastStr(m, "mode").None? ==> r.duplex == Full
    ensures r.mtu == (if CastU32(m, "mtu").Some? then m["mtu"].u else 0)
    ensures r.name == (if CastStr(m, "name").Some? then m["name"].s else "")
    ensures r.speed == (if CastU32(m, "speed").Some? then m["speed"].u else 0)
  {
    var duplex := match CastStr(m, "mode")
      case None => Full
      case Some(s) => DuplexFromStr(s).value;
    EthernetSettings(
      CastBool(m, "auto-negotiate").UnwrapOr(true),
      duplex,
      CastU32(m, "mtu").UnwrapOr(0),
      CastStr(m, "name").UnwrapOr(""),
      CastU32(m, "speed").UnwrapOr(0))
  }

  /** A missing name gives "vpn"; the other fields default to empty, false or 0. */
  function VpnFromPropmap(m: PropMap): (r: VpnSettings)
    ensures CastStr(m, "name").None? ==> r.name == "vpn"
    ensures CastStr(m, "name").Some? ==> r.name == m["name"].s
    ensures r.data == (if CastStrMap(m, "data").Some? then m["data"].entries else map[])
    ensures r.persistent == (CastBool(m, "persistent").Some? && m["persistent"].b)
    ensures r.secrets == (if CastStrMap(m, "secrets").Some? then m["secrets"].entries else map[])
    ensures r.serviceType == (if CastStr(m, "service-type").Some? then m["service-type"].s else "")
    ensures r.timeout == (if CastU32(m, "timeout").Some? then m["timeout"].u else 0)
    ensures r.userName == (if CastStr(m, "user-name").Some? then m["user-name"].s else "")
  {
    VpnSettings(
      CastStrMap(m, "data").UnwrapOr(map[]),
      CastStr(m, "name").UnwrapOr("vpn"),
      CastBool(m, "persistent").UnwrapOr(false),
      CastStrMap(m, "secrets").UnwrapOr(map[]),
      CastStr(m, "service-type").UnwrapOr(""),
      CastU32(m, "timeout").UnwrapOr(0),
      CastStr(m, "user-name").UnwrapOr(""))
  }

  /** Mode and band go through `from_str`, reading "" (hence the defaults) when absent. */
  function WifiFromPropmap(m: PropMap): (r: WifiSettings)
    ensures CastStr(m, "mode").None? ==> r.mode == Infrastructure
    ensures CastStr(m, "mode").Some? ==> r.mode == ModeFromStr(m["mode"].s).value
    ensures CastStr(m, "band").None? ==> r.band == Dyn
    ensures CastStr(m, "band").Some? ==> r.band == BandFromStr(m["band"].s).value
    ensures r.channel == (if CastU32(m, "channel").Some? then m["channel"].u else 0)
    ensures r.mtu == (if CastU32(m, "mtu").Some? then m["mtu"].u else 0)
    ensures r.powersave == (if CastU32(m, "powersave").Some? then m["powersave"].u else 0)
    ensures r.rate == (if CastU32(m, "rate").Some? then m["rate"].u else 0)
    ensures r.ssid == (if CastBytes(m, "ssid").Some? then m["ssid"].bytes else [])
  {
    WifiSettings(
      BandFromStr(CastStr(m, "band").UnwrapOr("")).value,
      CastU32(m, "channel").UnwrapOr(0),
      ModeFromStr(CastStr(m, "mode").UnwrapOr("")).value,
      CastU32(m, "mtu").UnwrapOr(0),
      CastU32(m, "powersave").UnwrapOr(0),
      CastU32(m, "rate").UnwrapOr(0),
      CastBytes(m, "ssid").UnwrapOr([]))
  }

  function X802FromPropmap(m: PropMap): (r: X802Settings)
    ensures r.caCert == (if CastBytes(m, "ca-cert").Some? then m["ca-cert"].bytes else [])
    ensures r.caCertString == (if CastStr(m, "ca-cert-string").Some? then m["ca-cert-string"].s else "")
    ensures r.clientCert == (if CastBytes(m, "client-cert").Some? then m["client-cert"].bytes else [])
    ensures r.domainSuffix == (if CastStr(m, "domain-suffix").Some? then m["domain-suffix"].s else "")
    ensures r.eap == (if CastStrs(m, "eap").Some? then m["eap"].strs else [])
    ensures r.identity == (if CastStr(m, "identity").Some? then m["identity"].s else "")
    ensures r.pacFile == (if CastStr(m, "pac-file").Some? then m["pac-file"].s else "")
    ensures r.password == (if CastStr(m, "password").Some? then m["password"].s else "")
    ensures r.passwordFlags == (if CastU32(m, "password-flags").Some? then m["password-flags"].u else 0)
    ensures r.passwordRawFlags ==
      (if CastBytes(m, "password-raw-flags").Some? then m["password-raw-flags"].bytes else [])
  {
    X802Settings(
      CastBytes(m, "ca-cert").UnwrapOr([]),
      CastStr(m, "ca-cert-string").UnwrapOr(""),
      CastBytes(m, "client-cert").UnwrapOr([]),
      CastStr(m, "domain-suffix").UnwrapOr(""),
      CastStrs(m, "eap").UnwrapOr([]),
      CastStr(m, "identity").UnwrapOr(""),
      CastStr(m, "pac-file").UnwrapOr(""),
      CastStr(m, "password").UnwrapOr(""),
      CastU32(m, "password-flags").UnwrapOr(0),
      CastBytes(m, "password-raw-flags").UnwrapOr([]))
  }

  /** The IP sections carry no fields: any map gives the same value. */
  function Ipv4FromPropmap(m: PropMap): Ipv4Settings {
    Ipv4Settings
  }

  function Ipv6FromPropmap(m: PropMap): Ipv6Settings {
    Ipv6Settings
  }

  /** The zone comes from the "trust" key through `Trust::from_str`. */
  function ConnectionSettingsFromPropmap(m: PropMap): (r: ConnectionSettings)
    ensures CastBool(m, "autoconnect").None? ==> !r.autoconnect
    ensures CastBool(m, "autoconnect").Some? ==> r.autoconnect == m["autoconnect"].b
    ensures CastI32(m, "autoconnect-priority").None? ==> r.autoconnectPriority == -1
    ensures CastI32(m, "autoconnect-priority").Some? ==>
      r.autoconnectPriority == m["autoconnect-priority"].i
    ensures CastI32(m, "metered").None? ==> r.metered == -1
    ensures CastI32(m, "metered").Some? ==> r.metered == m["metered"].i
    ensures CastStr(m, "trust").None? ==> r.zone == Default
    ensures CastStr(m, "trust").Some? ==> r.zone == TrustFromStr(m["trust"].s).value
    ensures r.name == (if CastStr(m, "name").Some? then m["name"].s else "")
    ensures r.deviceType == (if CastStr(m, "type").Some? then m["type"].s else "")
    ensures r.uuid == (if CastStr(m, "uuid").Some? then m["uuid"].s else "")
  {
    ConnectionSettings(
      CastBool(m, "autoconnect").UnwrapOr(false),
      CastI32(m, "autoconnect-priority").UnwrapOr(-1),
      CastI32(m, "metered").UnwrapOr(-1),
      CastStr(m, "name").UnwrapOr(""),
      CastStr(m, "type").UnwrapOr(""),
      CastStr(m, "uuid").UnwrapOr(""),
      TrustFromStr(CastStr(m, "trust").UnwrapOr("")).value)
  }

  /** The fixed default record of every builder is what an empty section yields. */
  lemma EmptySectionDefaults()
    ensures EthernetFromPropmap(map[]) == EthernetSettings(true, Full, 0, "", 0)
    ensures VpnFromPropmap(map[]) == VpnSettings(map[], "vpn", false, map[], "", 0, "")
    ensures WifiFromPropmap(map[]) == WifiSettings(Dyn, 0, Infrastructure, 0, 0, 0, [])
    ensures X802FromPropmap(map[]) == X802Settings([], "", [], "", [], "", "", "", 0, [])
    ensures ConnectionSettingsFromPropmap(map[]) ==
      ConnectionSettings(false, -1, -1, "", "", "", Default)
  {
  }

  /** A key holding a value of the wrong type is treated as absent. */
  lemma WrongTypeIsAbsent(m: PropMap, v: Value)
    requires !v.UInt32? && !v.Str?
    ensures EthernetFromPropmap(m["mtu" := v]).mtu == 0
    ensures EthernetFromPropmap(m["mode" := v]).duplex == Full
    ensures VpnFromPropmap(m["name" := v]).name == "vpn"
  {
  }
}
