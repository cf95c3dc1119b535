/** Wasm component values and the schema (`Field` tree) that describes their Protobuf coding. */
module Values {
  import opened Prelude

  /** A component value. Floats are opaque bit patterns; strings are byte sequences. */
  datatype Val =
    | Bool(flag: bool)
    | U8(octet: byte)
    | S32(s32: i32)
    | U32(n32: u32)
    | S64(s64: i64)
    | U64(n64: u64)
    | Float32(bits32: u32)
    | Float64(bits64: u64)
    | String(utf8: seq<byte>)
    | List(items: seq<Val>)
    | Record(fields: seq<NamedVal>)
    | Variant(variant: string, payload: Option<Val>)
    | Enum(enumerator: string)
    | Opt(option: Option<Val>)
    // Every other component type; no Protobuf coding accepts it.
    | Other(tag: nat)

  datatype NamedVal = NamedVal(name: string, value: Val)

  datatype Coding =
    | NoCoding
    | ScalarCoding(code: i32)
    | CompoundCoding(code: i32)

  datatype Field = Field(number: u32, name: string, subfields: seq<Field>, coding: Coding)

  datatype ScalarType =
    | BytesType
    | StringUtf8
    | StringPermissive
    | BoolType
    | Int32
    | Sint32
    | Sfixed32
    | Uint32
    | Fixed32
    | Int64
    | Sint64
    | Sfixed64
    | Uint64
    | Fixed64
    | FloatType
    | DoubleType

  datatype Presence = Implicit | Packed | Explicit | Expanded

  datatype Scalar = Scalar(scalarType: ScalarType, presence: Presence)

  datatype Compound =
    | EnumCompound(presence: Presence)
    | MessageSingular
    | MessageExpanded
    | OneofCompound

  const SCALAR_TYPES: seq<ScalarType> := [
    BytesType, StringUtf8, StringPermissive, BoolType, Int32, Sint32, Sfixed32, Uint32,
    Fixed32, Int64, Sint64, Sfixed64, Uint64, Fixed64, FloatType, DoubleType
  ]

  const PRESENCES: seq<Presence> := [Implicit, Packed, Explicit, Expanded]

  predicate IsStringy(t: ScalarType) {
    t.BytesType? || t.StringUtf8? || t.StringPermissive?
  }

  /**
    * The scalar coding with number `code`, if there is one. Types follow one another in steps of
    * four and each cycles through the four presences; strings and bytes have no packed form.
    */
  function ScalarOf(code: i32): (r: Option<Scalar>)
    ensures r.Some? ==> !(IsStringy(r.value.scalarType) && r.value.presence.Packed?)
    ensures r.Some? ==> (r.value.presence.Explicit? <==> ExplicitScalar(code))
  {
    if 0 <= code < 64 then
      var scalar := Scalar(SCALAR_TYPES[code / 4], PRESENCES[code % 4]);
      if IsStringy(scalar.scalarType) && scalar.presence.Packed? then None else Some(scalar)
    else
      None
  }

  function CompoundOf(code: i32): Option<Compound> {
    match code
    case 0 => Some(EnumCompound(Implicit))
    case 1 => Some(EnumCompound(Packed))
    case 2 => Some(EnumCompound(Explicit))
    case 3 => Some(EnumCompound(Expanded))
    case 6 => Some(MessageSingular)
    case 7 => Some(MessageExpanded)
    case 8 => Some(OneofCompound)
    case _ => None
  }

  /** `scalar_coding % 4 == 2` with the remainder of the machine, which keeps the sign. */
  predicate ExplicitScalar(code: i32) {
    code >= 0 && code % 4 == 2
  }

  // ---------------------------------------------------------------------------------------
  // UTF-8 validity (section 4 of RFC 3629)
  // ---------------------------------------------------------------------------------------

  predicate Tail(b: byte) {
    0x80 <= b <= 0xBF
  }

  predicate Utf8Three(a: byte, b: byte) {
    || (a == 0xE0 && 0xA0 <= b <= 0xBF)
    || ((0xE1 <= a <= 0xEC || 0xEE <= a <= 0xEF) && Tail(b))
    || (a == 0xED && 0x80 <= b <= 0x9F)
  }

  predicate Utf8Four(a: byte, b: byte) {
    || (a == 0xF0 && 0x90 <= b <= 0xBF)
    || (0xF1 <= a <= 0xF3 && Tail(b))
    || (a == 0xF4 && 0x80 <= b <= 0x8F)
  }

  predicate ValidUtf8(s: seq<byte>) {
    ValidUtf8From(s, 0)
  }

  predicate ValidUtf8From(s: seq<byte>, i: nat)
    requires i <= |s|
    decreases |s| - i
  {
    if i == |s| then true
    else if s[i] <= 0x7F then ValidUtf8From(s, i + 1)
    else if i + 2 <= |s| && 0xC2 <= s[i] <= 0xDF && Tail(s[i + 1]) then ValidUtf8From(s, i + 2)
    else if i + 3 <= |s| && Utf8Three(s[i], s[i + 1]) && Tail(s[i + 2]) then
      ValidUtf8From(s, i + 3)
    else if i + 4 <= |s| && Utf8Four(s[i], s[i + 1]) && Tail(s[i + 2]) && Tail(s[i + 3]) then
      ValidUtf8From(s, i + 4)
    else false
  }
}
