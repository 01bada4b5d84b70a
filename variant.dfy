/**
 * The type-tagged mock variant (src/mock/variant.rs): every value carries
 * a `kind` string naming its type, built by recursive string
 * concatenation, and extraction compares the requested kind with the
 * stored one before an unchecked cast. Rust's types are modelled by
 * `TypeDesc`, the boxed values by `MockValue`.
 */
module Variant {
  import opened Wrappers

  /** The types that implement `IntrospectType`. */
  datatype TypeDesc =
    | TBool | TU8 | TI8 | TU16 | TI16 | TU32 | TI32 | TU64 | TI64 | TString
    | TEmpty
    | TOption(inner: TypeDesc)
    | TVec(element: TypeDesc)
    | THashMap(key: TypeDesc, value: TypeDesc)

  /** A value of one of those types. Integers of every width share `VInt`. */
  datatype MockValue =
    | VBool(b: bool)
    | VInt(n: int)
    | VString(s: string)
    | VEmpty
    | VNone
    | VSome(v: MockValue)
    | VVec(items: seq<MockValue>)
    | VMap(entries: seq<(MockValue, MockValue)>)

  /** The value is a well-formed inhabitant of the type (integers in range, map keys distinct). */
  predicate HasType(v: MockValue, t: TypeDesc)
    decreases t
  {
    match t
    case TBool => v.VBool?
    case TU8 => v.VInt? && 0 <= v.n < 0x100
    case TI8 => v.VInt? && -0x80 <= v.n < 0x80
    case TU16 => v.VInt? && 0 <= v.n < 0x1_0000
    case TI16 => v.VInt? && -0x8000 <= v.n < 0x8000
    case TU32 => v.VInt? && 0 <= v.n < 0x1_0000_0000
    case TI32 => v.VInt? && -0x8000_0000 <= v.n < 0x8000_0000
    case TU64 => v.VInt? && 0 <= v.n < 0x1_0000_0000_0000_0000
    case TI64 => v.VInt? && -0x8000_0000_0000_0000 <= v.n < 0x8000_0000_0000_0000
    case TString => v.VString?
    case TEmpty => v.VEmpty?
    case TOption(a) => v.VNone? || (v.VSome? && HasType(v.v, a))
    case TVec(a) => v.VVec? && forall i :: 0 <= i < |v.items| ==> HasType(v.items[i], a)
    case THashMap(k, w) =>
      v.VMap?
      && (forall i :: 0 <= i < |v.entries| ==> HasType(v.entries[i].0, k) && HasType(v.entries[i].1, w))
      && (forall i, j :: 0 <= i < j < |v.entries| ==> v.entries[i].0 != v.entries[j].0)
  }

  /** The `Copy` bound of `to_value`: no `String`, `Vec` or `HashMap` inside. */
  predicate IsCopy(t: TypeDesc) {
    match t
    case TString => false
    case TVec(_) => false
    case THashMap(_, _) => false
    case TOption(a) => IsCopy(a)
    case _ => true
  }

  // ---------------------------------------------------------------- type names

  /** `IntrospectType::get_type`. */
  function GetType(t: TypeDesc): string {
    match t
    case TBool => "bool"
    case TU8 => "u8"
    case TI8 => "i8"
    case TU16 => "u16"
    case TI16 => "i16"
    case TU32 => "u32"
    case TI32 => "i32"
    case TU64 => "u64"
    case TI64 => "i64"
    case TString => "String"
    case TEmpty => "None"
    case TOption(a) => "Option" + " " + GetType(a)
    case TVec(a) => "Vec" + " " + GetType(a)
    case THashMap(k, v) => "HashMap" + " " + GetType(k) + " " + GetType(v)
  }

  /** The first word of a type name. */
  function HeadWord(t: TypeDesc): (w: string)
    ensures w != [] && ' ' !in w
  {
    match t
    case TOption(_) => "Option"
    case TVec(_) => "Vec"
    case THashMap(_, _) => "HashMap"
    case _ => GetType(t)
  }

  /** What follows the first word: nothing for a primitive, otherwise a space and the parameters. */
  function Parameters(t: TypeDesc): (p: string)
    ensures p == [] || p[0] == ' '
    ensures GetType(t) == HeadWord(t) + p
  {
    match t
    case TOption(a) => " " + GetType(a)
    case TVec(a) => " " + GetType(a)
    case THashMap(k, v) => " " + GetType(k) + " " + GetType(v)
    case _ => []
  }

  /** Only a primitive has no parameters, and its head word names it. */
  lemma HeadWordNamesConstructor(t1: TypeDesc, t2: TypeDesc)
    requires HeadWord(t1) == HeadWord(t2)
    ensures t1.TOption? <==> t2.TOption?
    ensures t1.TVec? <==> t2.TVec?
    ensures t1.THashMap? <==> t2.THashMap?
    ensures !t1.TOption? && !t1.TVec? && !t1.THashMap? ==> t1 == t2
  {
    var w := HeadWord(t1);
    assert |w| == |HeadWord(t2)|;
    assert w[0] == HeadWord(t2)[0];
  }

  /** A word without spaces, then nothing or a space: the first space, if any, ends the word. */
  lemma WordEnds(w: string, s: string)
    requires ' ' !in w
    requires s == [] || s[0] == ' '
    ensures forall k :: 0 <= k < |w| ==> (w + s)[k] != ' '
    ensures |w| < |w + s| ==> (w + s)[|w|] == ' '
  {
    forall k | 0 <= k < |w| ensures (w + s)[k] != ' ' {
      assert (w + s)[k] == w[k];
    }
  }

  /**
   * Two words without spaces, each followed by nothing or by a space, can
   * only be split one way.
   */
  lemma WordSplit(w1: string, s1: string, w2: string, s2: string)
    requires ' ' !in w1 && ' ' !in w2
    requires s1 == [] || s1[0] == ' '
    requires s2 == [] || s2[0] == ' '
    requires w1 + s1 == w2 + s2
    ensures w1 == w2 && s1 == s2
  {
    var x := w1 + s1;
    WordEnds(w1, s1);
    WordEnds(w2, s2);
    assert |w1| == |w2|;
    assert w1 == x[..|w1|] == w2;
    assert s1 == x[|w1|..] == s2;
  }

  /** Equal names followed by nothing or a space share their head word and what follows it. */
  lemma SplitHead(t1: TypeDesc, r1: string, t2: TypeDesc, r2: string)
    requires r1 == [] || r1[0] == ' '
    requires r2 == [] || r2[0] == ' '
    requires GetType(t1) + r1 == GetType(t2) + r2
    ensures HeadWord(t1) == HeadWord(t2)
    ensures Parameters(t1) + r1 == Parameters(t2) + r2
  {
    var p1, p2 := Parameters(t1), Parameters(t2);
    Assoc(HeadWord(t1), p1, r1);
    Assoc(HeadWord(t2), p2, r2);
    WordSplit(HeadWord(t1), p1 + r1, HeadWord(t2), p2 + r2);
  }

  /**
   * Type names are prefix-free at word boundaries: a name followed by
   * nothing or by a space determines the type and the rest. This is what
   * makes comparing kind strings a sound guard for the unchecked cast.
   */
  lemma {:induction false} KindPrefixUnique(t1: TypeDesc, r1: string, t2: TypeDesc, r2: string)
    requires r1 == [] || r1[0] == ' '
    requires r2 == [] || r2[0] == ' '
    requires GetType(t1) + r1 == GetType(t2) + r2
    ensures t1 == t2 && r1 == r2
    decreases t1
  {
    SplitHead(t1, r1, t2, r2);
    HeadWordNamesConstructor(t1, t2);
    if t1.TOption? {
      UnaryStep(t1.inner, r1, t2.inner, r2);
      KindPrefixUnique(t1.inner, r1, t2.inner, r2);
    } else if t1.TVec? {
      UnaryStep(t1.element, r1, t2.element, r2);
      KindPrefixUnique(t1.element, r1, t2.element, r2);
    } else if t1.THashMap? {
      var rest1 := " " + GetType(t1.value) + r1;
      var rest2 := " " + GetType(t2.value) + r2;
      MapParameters(t1, r1);
      MapParameters(t2, r2);
      UnaryStep(t1.key, rest1, t2.key, rest2);
      KindPrefixUnique(t1.key, rest1, t2.key, rest2);
      UnaryStep(t1.value, r1, t2.value, r2);
      KindPrefixUnique(t1.value, r1, t2.value, r2);
    } else {
      NoParameters(t1);
      assert [] + r1 == r1 && [] + r2 == r2;
    }
  }

  lemma NoParameters(t: TypeDesc)
    requires !t.TOption? && !t.TVec? && !t.THashMap?
    ensures Parameters(t) == []
  {
  }

  lemma Assoc(a: string, b: string, c: string)
    ensures (a + b) + c == a + (b + c)
  {
  }

  /** The parameters of a map type, followed by a rest, regrouped around the key. */
  lemma MapParameters(t: TypeDesc, r: string)
    requires t.THashMap?
    ensures Parameters(t) + r == " " + GetType(t.key) + (" " + GetType(t.value) + r)
  {
    var k, v := GetType(t.key), GetType(t.value);
    assert Parameters(t) == ((" " + k) + " ") + v;
    Assoc((" " + k) + " ", v, r);
    Assoc(" " + k, " ", v + r);
    Assoc(" ", v, r);
  }

  /** Removing a common leading space. */
  lemma UnaryStep(a1: TypeDesc, r1: string, a2: TypeDesc, r2: string)
    requires " " + GetType(a1) + r1 == " " + GetType(a2) + r2
    ensures GetType(a1) + r1 == GetType(a2) + r2
  {
    Assoc(" ", GetType(a1), r1);
    Assoc(" ", GetType(a2), r2);
    DropSpace(GetType(a1) + r1);
    DropSpace(GetType(a2) + r2);
  }

  /** Dropping a leading space. */
  lemma DropSpace(x: string)
    ensures (" " + x)[1..] == x
  {
  }

  /** Distinct types have distinct names. */
  lemma GetTypeInjective(t1: TypeDesc, t2: TypeDesc)
    requires GetType(t1) == GetType(t2)
    ensures t1 == t2
  {
    KindPrefixUnique(t1, [], t2, []);
  }

  // ---------------------------------------------------------------- variants

  datatype MockConversionError = MockConversionError(message: string)

  datatype MockVariant = MockVariant(value: MockValue, kind: string)

  /** `MockVariant::new`: stores the value under the given kind, unchecked. */
  function New(value: MockValue, kind: string): (r: MockVariant)
    ensures r.value == value && r.kind == kind
  {
    MockVariant(value, kind)
  }

  /** `MockVariant::empty`: the empty placeholder, of kind "None". */
  function Empty(): (r: MockVariant)
    ensures r.kind == GetType(TEmpty) && HasType(r.value, TEmpty)
  {
    New(VEmpty, "None")
  }

  /**
   * `into_mock_variant`: each primitive names itself with a literal, each
   * composite prefixes its parameters' `get_type`. The kind is exactly the
   * type's `get_type`.
   */
  function IntoMockVariant(v: MockValue, t: TypeDesc): (r: MockVariant)
    requires HasType(v, t)
    ensures r.value == v
    ensures r.kind == GetType(t)
  {
    match t
    case TBool => New(v, "bool")
    case TU8 => New(v, "u8")
    case TI8 => New(v, "i8")
    case TU16 => New(v, "u16")
    case TI16 => New(v, "i16")
    case TU32 => New(v, "u32")
    case TI32 => New(v, "i32")
    case TU64 => New(v, "u64")
    case TI64 => New(v, "i64")
    case TString => New(v, "String")
    case TEmpty => New(v, "None")
    case TOption(a) => New(v, "Option " + GetType(a))
    case TVec(a) => New(v, "Vec " + GetType(a))
    case THashMap(k, w) => New(v, "HashMap " + GetType(k) + " " + GetType(w))
  }

  /**
   * `to_value::<T>`: Err iff the requested kind differs from the stored
   * one; otherwise the stored value, read as T (`requested`).
   */
  function ToValue(mv: MockVariant, conversionType: string, requested: TypeDesc): (r: Result<MockValue, MockConversionError>)
    requires IsCopy(requested)
    ensures r.Err? <==> mv.kind != conversionType
    ensures r.Err? ==> r.error == MockConversionError("Conversion Failed")
    ensures r.Ok? ==> r.value == mv.value
  {
    if mv.kind != conversionType then Err(MockConversionError("Conversion Failed"))
    else Ok(mv.value)
  }

  /** `to_value_cloned::<T>`: the same check, for any T. */
  function ToValueCloned(mv: MockVariant, conversionType: string, requested: TypeDesc): (r: Result<MockValue, MockConversionError>)
    ensures r.Err? <==> mv.kind != conversionType
    ensures r.Err? ==> r.error == MockConversionError("Conversion Failed")
    ensures r.Ok? ==> r.value == mv.value
  {
    if mv.kind != conversionType then Err(MockConversionError("Conversion Failed"))
    else Ok(mv.value)
  }

  /**
   * The kind check guards the cast: asking a variant built from a T-value
   * for the name of type U succeeds exactly when U is T, and then yields a
   * well-formed U-value.
   */
  lemma KindCheckSound(v: MockValue, t: TypeDesc, requested: TypeDesc)
    requires HasType(v, t)
    ensures ToValueCloned(IntoMockVariant(v, t), GetType(requested), requested).Ok? <==> requested == t
    ensures ToValueCloned(IntoMockVariant(v, t), GetType(requested), requested).Ok? ==>
      HasType(ToValueCloned(IntoMockVariant(v, t), GetType(requested), requested).value, requested)
  {
    if GetType(t) == GetType(requested) {
      GetTypeInjective(t, requested);
    }
  }

  /**
   * The guard compares the kind with the caller's string only; the type
   * asked for takes no part. A matching string hands back the stored value
   * even when it is not of that type (where the source reinterprets the
   * stored bytes): here an `i32` asked for as a `bool`.
   */
  lemma KindStringOnlyGuard()
    ensures ToValue(IntoMockVariant(VInt(5), TI32), "i32", TBool).Ok?
    ensures !HasType(ToValue(IntoMockVariant(VInt(5), TI32), "i32", TBool).value, TBool)
    ensures ToValueCloned(IntoMockVariant(VInt(5), TI32), "i32", TBool).Ok?
    ensures !HasType(ToValueCloned(IntoMockVariant(VInt(5), TI32), "i32", TBool).value, TBool)
  {
  }

  /** `test_i32` */
  lemma TestI32()
    ensures IntoMockVariant(VInt(5), TI32).kind == "i32"
    ensures ToValue(IntoMockVariant(VInt(5), TI32), "i32", TI32) == Ok(VInt(5))
  {
  }

  /** `test_option` */
  lemma TestOption()
    ensures IntoMockVariant(VSome(VInt(10)), TOption(TI32)).kind == "Option i32"
    ensures ToValue(IntoMockVariant(VSome(VInt(10)), TOption(TI32)), "Option i32", TOption(TI32)) == Ok(VSome(VInt(10)))
  {
    assert GetType(TOption(TI32)) == "Option i32";
  }

  /** `test_vec` */
  lemma TestVec()
    ensures HasType(VVec([VInt(3), VInt(2), VInt(4), VInt(5), VInt(10)]), TVec(TI32))
    ensures IntoMockVariant(VVec([VInt(3), VInt(2), VInt(4), VInt(5), VInt(10)]), TVec(TI32)).kind == "Vec i32"
  {
    assert GetType(TVec(TI32)) == "Vec i32";
  }

  /** `test_hashmap` */
  lemma TestHashmap()
    ensures HasType(VMap([(VString("Something"), VInt(20))]), THashMap(TString, TI32))
    ensures IntoMockVariant(VMap([(VString("Something"), VInt(20))]), THashMap(TString, TI32)).kind == "HashMap String i32"
  {
    assert GetType(THashMap(TString, TI32)) == "HashMap String i32";
  }

  /** `test_conversion_fail`, and the kind of the empty variant. */
  lemma TestConversionFail()
    ensures IntoMockVariant(VString("hello"), TString).kind == "String"
    ensures ToValueCloned(IntoMockVariant(VString("hello"), TString), "Not String", TI32).Err?
    ensures Empty().kind == "None"
  {
  }
}
