/**
  * The `*_encode_inner`, `*_length_inner`, `*_default` and `*_decode_inner` functions of the
  * scalar codings, grouped by the shape of the payload: length-delimited, one byte, varint or
  * fixed width. `Image` says what a payload decodes to.
  */
module Scalars {
  import opened Prelude
  import opened Wire
  import opened Values
  import opened Reading

  datatype EncodeError =
    | NoEncoderForField
    | MessageNonOptional
    | ValueNonRecord
    | RepeatedNonListValue
    | ExplicitNonOption
    | ScalarMismatch(scalarType: ScalarType)
    | ByteNonByte
    | EnumNonEnum
    | EnumVariantUnrecognized
    | OneofNonOptional
    | OneofNonVariant
    | OneofVariantUnrecognized
    | OneofVariantNoPayload
    | LengthInconsistency

  /** The value has the component type that the coding expects. */
  predicate HasForm(t: ScalarType, v: Val) {
    match t
    case BytesType => v.List?
    case StringUtf8 => v.String?
    case StringPermissive => v.String?
    case BoolType => v.Bool?
    case Int32 => v.S32?
    case Sint32 => v.S32?
    case Sfixed32 => v.S32?
    case Uint32 => v.U32?
    case Fixed32 => v.U32?
    case Int64 => v.S64?
    case Sint64 => v.S64?
    case Sfixed64 => v.S64?
    case Uint64 => v.U64?
    case Fixed64 => v.U64?
    case FloatType => v.Float32?
    case DoubleType => v.Float64?
  }

  /** As `HasForm`, and a byte list holds bytes only. */
  predicate HasScalarType(t: ScalarType, v: Val) {
    HasForm(t, v) && (t.BytesType? ==> AllOctets(v.items))
  }

  predicate AllOctets(items: seq<Val>) {
    forall i :: 0 <= i < |items| ==> items[i].U8?
  }

  function Octets(items: seq<Val>): (r: seq<byte>)
    requires AllOctets(items)
  {
    seq(|items|, i requires 0 <= i < |items| => items[i].octet)
  }

  function OctetVals(bytes: seq<byte>): (r: seq<Val>)
    ensures AllOctets(r)
  {
    seq(|bytes|, i requires 0 <= i < |bytes| => U8(bytes[i]))
  }

  /** The value is left out of the buffer under implicit presence. */
  predicate IsDefault(t: ScalarType, v: Val)
    requires HasForm(t, v)
  {
    match v
    case List(items) => items == []
    case String(s) => s == []
    case Bool(b) => !b
    case S32(x) => x == 0
    case U32(x) => x == 0
    case S64(x) => x == 0
    case U64(x) => x == 0
    // Both zeros compare equal to 0.0.
    case Float32(bits) => bits == 0 || bits == 0x8000_0000
    case Float64(bits) => bits == 0 || bits == 0x8000_0000_0000_0000
  }

  /** What the decoder puts into a slot of implicit presence before it reads anything. */
  function DefaultScalar(t: ScalarType): (r: Val)
    ensures HasScalarType(t, r) && IsDefault(t, r)
  {
    match t
    case BytesType => List([])
    case StringUtf8 => String([])
    case StringPermissive => String([])
    case BoolType => Bool(false)
    case Int32 => S32(0)
    case Sint32 => S32(0)
    case Sfixed32 => S32(0)
    case Uint32 => U32(0)
    case Fixed32 => U32(0)
    case Int64 => S64(0)
    case Sint64 => S64(0)
    case Sfixed64 => S64(0)
    case Uint64 => U64(0)
    case Fixed64 => U64(0)
    case FloatType => Float32(0)
    case DoubleType => Float64(0)
  }

  // ---------------------------------------------------------------------------------------
  // Payloads
  // ---------------------------------------------------------------------------------------

  /** Bytes of a fixed-width payload; 0 if the payload is of variable width. */
  function Width(t: ScalarType): nat {
    match t
    case BoolType => 1
    case Sfixed32 => 4
    case Fixed32 => 4
    case FloatType => 4
    case Sfixed64 => 8
    case Fixed64 => 8
    case DoubleType => 8
    case _ => 0
  }

  predicate IsVarint(t: ScalarType) {
    t.Int32? || t.Sint32? || t.Uint32? || t.Int64? || t.Sint64? || t.Uint64?
  }

  function ToVarint(t: ScalarType, v: Val): u64
    requires IsVarint(t) && HasForm(t, v)
  {
    match t
    case Int32 => AsU64(v.s32)
    case Sint32 => Zigzag32(v.s32)
    case Uint32 => v.n32
    case Int64 => AsU64(v.s64)
    case Sint64 => Zigzag64(v.s64)
    case Uint64 => v.n64
  }

  function FromVarint(t: ScalarType, n: u64): (r: Result<Val, DecodeError>)
    requires IsVarint(t)
    ensures r.Ok? ==> HasScalarType(t, r.value)
    ensures r.Err? ==> r.error == Overflow32Bit
  {
    match t
    case Int32 => if n < 0x8000_0000 then Ok(S32(n)) else Err(Overflow32Bit)
    case Sint32 => if n <= U32_MAX then Ok(S32(Unzigzag32(n))) else Err(Overflow32Bit)
    case Uint32 => if n <= U32_MAX then Ok(U32(n)) else Err(Overflow32Bit)
    case Int64 => Ok(S64(AsI64(n)))
    case Sint64 => Ok(S64(Unzigzag64(n)))
    case Uint64 => Ok(U64(n))
  }

  predicate IsFixed(t: ScalarType) {
    Width(t) == 4 || Width(t) == 8
  }

  function ToBits(t: ScalarType, v: Val): (r: nat)
    requires IsFixed(t) && HasForm(t, v)
    ensures r < if Width(t) == 4 then 0x1_0000_0000 else 0x1_0000_0000_0000_0000
  {
    match t
    case Sfixed32 => AsU32(v.s32)
    case Fixed32 => v.n32
    case FloatType => v.bits32
    case Sfixed64 => AsU64(v.s64)
    case Fixed64 => v.n64
    case DoubleType => v.bits64
  }

  function FromBits(t: ScalarType, n: nat): (r: Val)
    requires IsFixed(t)
    requires n < if Width(t) == 4 then 0x1_0000_0000 else 0x1_0000_0000_0000_0000
    ensures HasScalarType(t, r)
  {
    match t
    case Sfixed32 => S32(AsI32(n))
    case Fixed32 => U32(n)
    case FloatType => Float32(n)
    case Sfixed64 => S64(AsI64(n))
    case Fixed64 => U64(n)
    case DoubleType => Float64(n)
  }

  function EncodeScalar(t: ScalarType, v: Val): (r: Result<seq<byte>, EncodeError>)
    ensures r.Ok? <==> HasScalarType(t, v)
    ensures r.Ok? ==> |r.value| >= 1
    ensures r.Ok? && Width(t) > 0 ==> |r.value| == Width(t)
  {
    if !HasForm(t, v) then
      Err(ScalarMismatch(t))
    else if t.BytesType? then
      if AllOctets(v.items) then Ok(EncodeVarint(|v.items|) + Octets(v.items))
      else Err(ByteNonByte)
    else if IsStringy(t) then
      Ok(EncodeVarint(|v.utf8|) + v.utf8)
    else if t.BoolType? then
      Ok([if v.flag then 1 else 0])
    else if IsVarint(t) then
      Ok(EncodeVarint(ToVarint(t, v)))
    else
      Ok(LittleEndian(ToBits(t, v), Width(t)))
  }

  /** The length pass: fixed-width payloads are not looked at, and byte lists not looked into. */
  function ScalarLength(t: ScalarType, v: Val): (r: Result<nat, EncodeError>) {
    if Width(t) > 0 then Ok(Width(t))
    else if !HasForm(t, v) then Err(ScalarMismatch(t))
    else if t.BytesType? then Ok(VarintLength(|v.items|) + |v.items|)
    else if IsStringy(t) then Ok(VarintLength(|v.utf8|) + |v.utf8|)
    else Ok(VarintLength(ToVarint(t, v)))
  }

  /** The string reader stops at the end of the buffer instead of failing there. */
  function ReadString(strict: bool, validate: bool, c: Cursor): (r: Read<Val>)
    ensures r.Ok? ==> r.value.0.String?
    ensures r.Ok? ==> r.value.1.limit < c.limit
  {
    var (length, c1) :- ReadLength(strict, c);
    var n := Min(length, |c1.rest|);
    var s := c1.rest[..n];
    if validate && !ValidUtf8(s) then Err(InvalidUtf8)
    else Ok((String(s), Cursor(c1.limit, c1.rest[n..])))
  }

  function DecodeScalar(strict: bool, t: ScalarType, c: Cursor): (r: Read<Val>)
    ensures r.Ok? ==> HasScalarType(t, r.value.0)
    ensures r.Ok? ==> r.value.1.limit < c.limit
  {
    if t.BytesType? then
      var (length, c1) :- ReadLength(strict, c);
      var (bytes, c2) :- Take(c1, length);
      Ok((List(OctetVals(bytes)), c2))
    else if IsStringy(t) then
      ReadString(strict, t.StringUtf8?, c)
    else if t.BoolType? then
      if c.limit < 1 then Err(BufferOverflow)
      else if c.rest == [] then Err(ReadPastEnd)
      else if c.rest[0] > 1 then Err(InvalidBool)
      else Ok((Bool(c.rest[0] != 0), Cursor(c.limit - 1, c.rest[1..])))
    else if IsVarint(t) then
      var (n, c1) :- ReadVarint(strict, c, InvalidVarint);
      var v :- FromVarint(t, n);
      Ok((v, c1))
    else
      Pow256Values();
      var (n, c1) :- ReadFixed(c, Width(t), BufferUnderflow);
      Ok((FromBits(t, n), c1))
  }

  // ---------------------------------------------------------------------------------------
  // What a payload decodes to
  // ---------------------------------------------------------------------------------------

  /**
    * The outcome of decoding the payload that `EncodeScalar` writes for `v`. A value that has no
    * payload is its own image.
    */
  function ScalarImage(t: ScalarType, v: Val): (r: Result<Val, DecodeError>) {
    if !HasScalarType(t, v) then Ok(v) else
    match t
    case Int32 => if v.s32 < 0 then Err(Overflow32Bit) else Ok(v)
    case Sint64 => Ok(S64(Unzigzag64(Zigzag64(v.s64))))
    case StringUtf8 => if ValidUtf8(v.utf8) then Ok(v) else Err(InvalidUtf8)
    case _ => Ok(v)
  }

  /** The read that has this outcome and, on success, stops at `rest` with `limit` left. */
  function Landed<T>(outcome: Result<T, DecodeError>, limit: nat, rest: seq<byte>): Read<T> {
    match outcome
    case Ok(w) => Ok((w, Cursor(limit, rest)))
    case Err(error) => Err(error)
  }

  /** The payload alone survives the trip exactly when the value is in this set. */
  predicate Survives(t: ScalarType, v: Val) {
    HasScalarType(t, v) ==>
    match t
    case Int32 => v.s32 >= 0
    case Sint64 => FitsSixtyThreeBits(v.s64)
    case StringUtf8 => ValidUtf8(v.utf8)
    case _ => true
  }

  lemma ScalarImageExact(t: ScalarType, v: Val)
    ensures ScalarImage(t, v) == Ok(v) <==> Survives(t, v)
  {
    if t.Sint64? && v.S64? { Zigzag64RoundTrip(v.s64); }
  }

  lemma VarintImage(t: ScalarType, v: Val)
    requires IsVarint(t) && HasForm(t, v)
    ensures FromVarint(t, ToVarint(t, v)) == ScalarImage(t, v)
  {
    if t.Sint32? { Zigzag32RoundTrip(v.s32); }
  }

  lemma BitsImage(t: ScalarType, v: Val)
    requires IsFixed(t) && HasForm(t, v)
    ensures FromBits(t, ToBits(t, v)) == v
  {}

  lemma ReadVarintInverts(strict: bool, n: u64, limit: nat, rest: seq<byte>, error: DecodeError)
    ensures ReadVarint(strict, Cursor(|EncodeVarint(n)| + limit, EncodeVarint(n) + rest), error)
         == Ok((n, Cursor(limit, rest)))
  {
    VarintRoundTrip(n, rest);
  }

  lemma ReadLengthInverts(strict: bool, body: seq<byte>, limit: nat, rest: seq<byte>)
    requires |body| <= U32_MAX
    ensures var prefix := EncodeVarint(|body|);
      ReadLength(strict, Cursor(|prefix| + |body| + limit, prefix + body + rest))
      == Ok((|body|, Cursor(limit, body + rest)))
  {
    var prefix := EncodeVarint(|body|);
    assert prefix + body + rest == prefix + (body + rest);
    ReadVarintInverts(strict, |body|, |body| + limit, body + rest, InvalidLengthVarint);
  }

  lemma DecodeBytes(strict: bool, v: Val, limit: nat, rest: seq<byte>)
    requires HasScalarType(BytesType, v)
    requires |v.items| <= U32_MAX
    ensures var payload := EncodeScalar(BytesType, v).value;
      DecodeScalar(strict, BytesType, Cursor(|payload| + limit, payload + rest))
      == Landed(ScalarImage(BytesType, v), limit, rest)
  {
    hide ReadVarint, ReadLength, ReadString, ReadFixed, FromVarint, EncodeVarint;
    var body := Octets(v.items);
    ReadLengthInverts(strict, body, limit, rest);
    assert (body + rest)[..|body|] == body;
    assert (body + rest)[|body|..] == rest;
    assert OctetVals(body) == v.items;
  }

  lemma ReadStringInverts(strict: bool, validate: bool, s: seq<byte>, limit: nat, rest: seq<byte>)
    requires |s| <= U32_MAX
    ensures var payload := EncodeVarint(|s|) + s;
      ReadString(strict, validate, Cursor(|payload| + limit, payload + rest))
      == if validate && !ValidUtf8(s) then Err(InvalidUtf8)
         else Ok((String(s), Cursor(limit, rest)))
  {
    var payload := EncodeVarint(|s|) + s;
    var c := Cursor(|payload| + limit, payload + rest);
    assert ReadLength(strict, c) == Ok((|s|, Cursor(limit, s + rest))) by {
      ReadLengthInverts(strict, s, limit, rest);
    }
    assert Min(|s|, |s + rest|) == |s|;
    assert (s + rest)[..|s|] == s;
    assert (s + rest)[|s|..] == rest;
  }

  lemma DecodeString(strict: bool, t: ScalarType, v: Val, limit: nat, rest: seq<byte>)
    requires IsStringy(t) && !t.BytesType? && v.String?
    requires |v.utf8| <= U32_MAX
    ensures var payload := EncodeScalar(t, v).value;
      DecodeScalar(strict, t, Cursor(|payload| + limit, payload + rest))
      == Landed(ScalarImage(t, v), limit, rest)
  {
    hide ReadVarint, ReadLength, ReadString, ReadFixed, Take, FromVarint, EncodeVarint, ValidUtf8;
    ReadStringInverts(strict, t.StringUtf8?, v.utf8, limit, rest);
  }

  lemma DecodeVarintScalar(strict: bool, t: ScalarType, v: Val, limit: nat, rest: seq<byte>)
    requires IsVarint(t) && HasForm(t, v)
    ensures var payload := EncodeScalar(t, v).value;
      DecodeScalar(strict, t, Cursor(|payload| + limit, payload + rest))
      == Landed(ScalarImage(t, v), limit, rest)
  {
    hide DecodeScalar, FromVarint, EncodeVarint;
    var n := ToVarint(t, v);
    var payload := EncodeVarint(n);
    assert EncodeScalar(t, v) == Ok(payload);
    DecodeVarintPayload(strict, t, n, limit, rest);
    VarintImage(t, v);
  }

  lemma DecodeVarintPayload(strict: bool, t: ScalarType, n: u64, limit: nat, rest: seq<byte>)
    requires IsVarint(t)
    ensures DecodeScalar(strict, t, Cursor(|EncodeVarint(n)| + limit, EncodeVarint(n) + rest))
         == Landed(FromVarint(t, n), limit, rest)
  {
    hide ReadVarint, ReadLength, ReadString, ReadFixed, Take, FromVarint, EncodeVarint;
    ReadVarintInverts(strict, n, limit, rest, InvalidVarint);
  }

  lemma DecodeBool(strict: bool, v: Val, limit: nat, rest: seq<byte>)
    requires v.Bool?
    ensures var payload := EncodeScalar(BoolType, v).value;
      DecodeScalar(strict, BoolType, Cursor(|payload| + limit, payload + rest))
      == Landed(ScalarImage(BoolType, v), limit, rest)
  {
    assert (EncodeScalar(BoolType, v).value + rest)[1..] == rest;
  }

  lemma DecodeFixedScalar(strict: bool, t: ScalarType, v: Val, limit: nat, rest: seq<byte>)
    requires IsFixed(t) && HasForm(t, v)
    ensures var payload := EncodeScalar(t, v).value;
      DecodeScalar(strict, t, Cursor(|payload| + limit, payload + rest))
      == Landed(ScalarImage(t, v), limit, rest)
  {
    hide ReadVarint, ReadLength, ReadString, FromVarint, EncodeVarint, FromBits, ToBits;
    var payload := LittleEndian(ToBits(t, v), Width(t));
    var c := Cursor(|payload| + limit, payload + rest);
    Pow256Values();
    LittleEndianRoundTrip(ToBits(t, v), Width(t));
    assert (payload + rest)[..Width(t)] == payload;
    assert (payload + rest)[Width(t)..] == rest;
    assert ReadFixed(c, Width(t), BufferUnderflow) == Ok((ToBits(t, v), Cursor(limit, rest)));
    BitsImage(t, v);
  }

  lemma DecodeStringy(strict: bool, t: ScalarType, v: Val, limit: nat, rest: seq<byte>)
    requires IsStringy(t) && HasScalarType(t, v)
    requires |EncodeScalar(t, v).value| <= U32_MAX
    ensures var payload := EncodeScalar(t, v).value;
      DecodeScalar(strict, t, Cursor(|payload| + limit, payload + rest))
      == Landed(ScalarImage(t, v), limit, rest)
  {
    hide DecodeScalar, EncodeVarint;
    if t.BytesType? {
      DecodeBytes(strict, v, limit, rest);
    } else {
      DecodeString(strict, t, v, limit, rest);
    }
  }

  /** Decoding a scalar payload yields its image and stops right behind it. */
  lemma DecodeScalarInverts(strict: bool, t: ScalarType, v: Val, limit: nat, rest: seq<byte>)
    requires HasScalarType(t, v)
    requires |EncodeScalar(t, v).value| <= U32_MAX
    ensures var payload := EncodeScalar(t, v).value;
      DecodeScalar(strict, t, Cursor(|payload| + limit, payload + rest))
      == Landed(ScalarImage(t, v), limit, rest)
  {
    hide DecodeScalar, EncodeScalar, ScalarImage;
    if IsStringy(t) {
      DecodeStringy(strict, t, v, limit, rest);
    } else if t.BoolType? {
      DecodeBool(strict, v, limit, rest);
    } else if IsVarint(t) {
      DecodeVarintScalar(strict, t, v, limit, rest);
    } else {
      DecodeFixedScalar(strict, t, v, limit, rest);
    }
  }

  /** Where the encoder succeeds, the length pass has predicted its output exactly. */
  lemma ScalarLengthExact(t: ScalarType, v: Val)
    requires HasScalarType(t, v)
    ensures ScalarLength(t, v) == Ok(|EncodeScalar(t, v).value|)
  {
    if t.BytesType? { EncodeVarintLength(|v.items|); }
    else if IsStringy(t) { EncodeVarintLength(|v.utf8|); }
    else if IsVarint(t) { EncodeVarintLength(ToVarint(t, v)); }
  }
}
