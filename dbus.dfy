/**
 * The D-Bus vocabulary shared by the daemon's modules: fixed-width integers,
 * object paths, the variant values found in property maps (`PropMap`) and a
 * model of what `Append` writes to, and `Get` reads from, a message.
 */
module DBus {
  import opened Wrappers

  newtype u8 = x: int | 0 <= x < 0x100
  newtype i16 = x: int | -0x8000 <= x < 0x8000
  newtype i32 = x: int | -0x8000_0000 <= x < 0x8000_0000
  newtype u32 = x: int | 0 <= x < 0x1_0000_0000

  /** A D-Bus object path, e.g. "/org/freedesktop/NetworkManager". */
  type Path = string

  /** The value inside a `Variant<Box<dyn RefArg>>` of a property map. */
  datatype Value =
    | Bool(b: bool)
    | Byte(y: u8)
    | Int16(n: i16)
    | Int32(i: i32)
    | UInt32(u: u32)
    | Str(s: string)
    | ObjPath(p: Path)
    | Bytes(bytes: seq<u8>)
    | Strs(strs: seq<string>)
    | StrMap(entries: map<string, string>)

  /** `PropMap`: property name to variant value. */
  type PropMap = map<string, Value>

  // `prop_cast::<T>(map, key)`: Some exactly when the key is present and holds a T.

  function CastBool(m: PropMap, key: string): Option<bool> {
    if key in m && m[key].Bool? then Some(m[key].b) else None
  }

  function CastI16(m: PropMap, key: string): Option<i16> {
    if key in m && m[key].Int16? then Some(m[key].n) else None
  }

  function CastI32(m: PropMap, key: string): Option<i32> {
    if key in m && m[key].Int32? then Some(m[key].i) else None
  }

  function CastU32(m: PropMap, key: string): Option<u32> {
    if key in m && m[key].UInt32? then Some(m[key].u) else None
  }

  function CastStr(m: PropMap, key: string): Option<string> {
    if key in m && m[key].Str? then Some(m[key].s) else None
  }

  function CastPath(m: PropMap, key: string): Option<Path> {
    if key in m && m[key].ObjPath? then Some(m[key].p) else None
  }

  function CastBytes(m: PropMap, key: string): Option<seq<u8>> {
    if key in m && m[key].Bytes? then Some(m[key].bytes) else None
  }

  function CastStrs(m: PropMap, key: string): Option<seq<string>> {
    if key in m && m[key].Strs? then Some(m[key].strs) else None
  }

  function CastStrMap(m: PropMap, key: string): Option<map<string, string>> {
    if key in m && m[key].StrMap? then Some(m[key].entries) else None
  }

  /** One marshalled D-Bus value, as `Append` writes it and `Get` reads it back. */
  datatype Wire =
    | WByte(y: u8)
    | WBool(b: bool)
    | WInt16(n: i16)
    | WUInt32(u: u32)
    | WStr(s: string)
    | WPath(p: Path)
    | WArray(elementSignature: string, items: seq<Wire>)
    | WStruct(fields: seq<Wire>)

  /** The D-Bus type signature of a marshalled value. */
  function Signature(w: Wire): string
    decreases w, 1
  {
    match w
    case WByte(_) => "y"
    case WBool(_) => "b"
    case WInt16(_) => "n"
    case WUInt32(_) => "u"
    case WStr(_) => "s"
    case WPath(_) => "o"
    case WArray(e, _) => "a" + e
    case WStruct(fs) => "(" + Signatures(fs) + ")"
  }

  function Signatures(ws: seq<Wire>): string
    decreases ws, 0
  {
    if ws == [] then "" else Signature(ws[0]) + Signatures(ws[1..])
  }

  /** Appends a byte vector as an array of signature "y". */
  function BytesToWire(bytes: seq<u8>): (ws: seq<Wire>)
    ensures |ws| == |bytes|
    ensures forall k :: 0 <= k < |ws| ==> ws[k] == WByte(bytes[k])
  {
    if bytes == [] then [] else [WByte(bytes[0])] + BytesToWire(bytes[1..])
  }

  /** Reads a byte vector back; None as soon as an item is not a byte. */
  function WireToBytes(ws: seq<Wire>): Option<seq<u8>> {
    if ws == [] then Some([])
    else if !ws[0].WByte? then None
    else match WireToBytes(ws[1..])
      case None => None
      case Some(rest) => Some([ws[0].y] + rest)
  }

  /** Reading back what `BytesToWire` wrote gives the same bytes. */
  lemma {:induction false} BytesRoundTrip(bytes: seq<u8>)
    ensures WireToBytes(BytesToWire(bytes)) == Some(bytes)
  {
    if bytes != [] {
      var ws := BytesToWire(bytes);
      BytesRoundTrip(bytes[1..]);
      assert ws[1..] == BytesToWire(bytes[1..]);
      assert ws[0] == WByte(bytes[0]);
      assert [bytes[0]] + bytes[1..] == bytes;
    }
  }
}
