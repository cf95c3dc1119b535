/** The decoder compiled from a schema reads records as the numbers of its codings call for. */
module FormatDecode {
  import opened Prelude
  import opened Wire
  import opened Values
  import opened Reading
  import opened Scalars
  import opened Merging
  import opened EncoderCompiler
  import opened MergerCompiler
  import opened Accounting
  import opened Framing
  import opened Typing
  import opened Format
  import opened FormatEncode

  // ---------------------------------------------------------------------------------------
  // Tags and payloads
  // ---------------------------------------------------------------------------------------

  /** The kind of a wire code. */
  lemma CodeIsKind(t: Token)
    ensures TokenCode(t) < 6
    ensures WireTypeOf(TokenCode(t)) ==
      match t
      case Num(_) => VarintType
      case Eight(_) => SixtyFourBit
      case Chunk(_) => LengthDelimited
      case GroupStart => StartGroup
      case GroupEnd => EndGroup
      case Four(_) => ThirtyTwoBit
  {
  }

  lemma TagReads(strict: bool, number: u32, code: nat, limit: nat, rest: seq<byte>)
    requires code < 6
    ensures var tag := EncodeVarint(8 * number + code);
      ReadTag(strict, Cursor(|tag| + limit, tag + rest)) == Ok(((number, WireTypeOf(code)), Cursor(limit, rest)))
  {
    hide *;
    var n: u64 := 8 * number + code;
    ReadVarintInverts(strict, n, limit, rest, InvalidTagVarint);
    TagOf(strict, number, code, n, Cursor(|EncodeVarint(n)| + limit, EncodeVarint(n) + rest), Cursor(limit, rest));
  }

  lemma TagOf(strict: bool, number: u32, code: nat, n: nat, c: Cursor, d: Cursor)
    requires code < 6 && n == 8 * number + code && ReadVarint(strict, c, InvalidTagVarint) == Ok((n, d))
    ensures ReadTag(strict, c) == Ok(((number, WireTypeOf(code)), d))
  {
    hide ReadVarint, WireTypeOf;
    TagParts(number, code);
  }

  lemma TagParts(number: u32, code: nat)
    requires code < 8
    ensures (8 * number + code) / 8 == number && (8 * number + code) % 8 == code
  {
  }

  /** The item is the leaf as its merger has it. */
  predicate MergeItemOf(item: MergeItem, leaf: Leaf) {
    match leaf
    case ScalarLeaf(code) => ScalarOf(code).Some? && item == ReadScalar(ScalarOf(code).value.scalarType)
    case EnumLeaf(enumerators) => item == ReadEnum(EnumNames(enumerators))
  }

  lemma {:induction false} EnumNameIs(enumerators: seq<Field>, number: u32)
    ensures number in EnumNames(enumerators) <==> LastNumbered(enumerators, number).Some?
    ensures number in EnumNames(enumerators) ==>
      EnumNames(enumerators)[number] == enumerators[LastNumbered(enumerators, number).value].name
  {
    if enumerators != [] { EnumNameIs(enumerators[..|enumerators| - 1], number); }
  }

  /** The kind of record that the item is read from. */
  predicate OfKind(item: MergeItem, t: Token) {
    ItemWireType(item) == WireTypeOf(TokenCode(t))
  }

  lemma NumReads(strict: bool, t: ScalarType, n: u64, limit: nat, rest: seq<byte>)
    requires IsVarint(t)
    ensures DecodeScalar(strict, t, Cursor(|EncodeVarint(n)| + limit, EncodeVarint(n) + rest))
         == Landed(FromVarint(t, n), limit, rest)
  {
    DecodeVarintPayload(strict, t, n, limit, rest);
  }

  lemma BoolReads(strict: bool, n: u64, limit: nat, rest: seq<byte>)
    ensures var payload := EncodeVarint(n);
      DecodeScalar(strict, BoolType, Cursor(|payload| + limit, payload + rest))
      == if n <= 1 then Ok((Bool(n == 1), Cursor(limit, rest))) else Err(InvalidBool)
  {
    var payload := EncodeVarint(n);
    assert n <= 1 ==> payload == [n] && (payload + rest)[1..] == rest;
    assert n > 1 ==> payload[0] > 1;
    assert (payload + rest)[0] == payload[0];
  }

  lemma FixedReads(strict: bool, t: ScalarType, n: nat, payload: seq<byte>, limit: nat, rest: seq<byte>)
    requires IsFixed(t) && n < Pow256(Width(t)) && payload == LittleEndian(n, Width(t))
    ensures n < if Width(t) == 4 then 0x1_0000_0000 else 0x1_0000_0000_0000_0000
    ensures DecodeScalar(strict, t, Cursor(|payload| + limit, payload + rest))
         == Ok((FromBits(t, n), Cursor(limit, rest)))
  {
    hide FromBits, FromLittleEndian, LittleEndian, Pow256;
    Pow256Values();
    LittleEndianRoundTrip(n, Width(t));
    assert (payload + rest)[..Width(t)] == payload;
    assert (payload + rest)[Width(t)..] == rest;
    assert ReadFixed(Cursor(|payload| + limit, payload + rest), Width(t), BufferUnderflow)
        == Ok((n, Cursor(limit, rest)));
  }

  lemma ChunkReads(strict: bool, t: ScalarType, bytes: seq<byte>, limit: nat, rest: seq<byte>)
    requires IsStringy(t) && |bytes| <= U32_MAX
    ensures var payload := EncodeVarint(|bytes|) + bytes;
      DecodeScalar(strict, t, Cursor(|payload| + limit, payload + rest))
      == if t.BytesType? then Ok((List(U8s(bytes)), Cursor(limit, rest)))
         else if t.StringUtf8? && !ValidUtf8(bytes) then Err(InvalidUtf8)
         else Ok((String(bytes), Cursor(limit, rest)))
  {
    hide ReadLength, ReadString, EncodeVarint, ValidUtf8;
    if t.BytesType? {
      var payload := EncodeVarint(|bytes|) + bytes;
      assert payload + rest == EncodeVarint(|bytes|) + bytes + rest;
      ReadLengthInverts(strict, bytes, limit, rest);
      assert (bytes + rest)[..|bytes|] == bytes && (bytes + rest)[|bytes|..] == rest;
      assert OctetVals(bytes) == U8s(bytes);
    } else {
      ReadStringInverts(strict, t.StringUtf8?, bytes, limit, rest);
    }
  }

  /** A token of the item's kind is read as the value of the leaf, and its bytes are taken. */
  lemma TokenReads(strict: bool, item: MergeItem, leaf: Leaf, t: Token, limit: nat, rest: seq<byte>)
    requires MergeItemOf(item, leaf) && Readable(leaf) && OfKind(item, t) && (t.Chunk? ==> |t.bytes| <= U32_MAX)
    ensures DecodeItem(strict, item, Cursor(|Payload(t)| + limit, Payload(t) + rest))
         == Landed(LeafValue(leaf, t), limit, rest)
  {
    CodeIsKind(t);
    hide EncodeVarint, DecodeScalar, WireTypeOf, ValidUtf8, LittleEndian, FourBytes, ReadVarint;
    match leaf
    case EnumLeaf(enumerators) =>
      ReadVarintInverts(strict, t.n, limit, rest, InvalidVarint);
      if t.n <= U32_MAX { EnumNameIs(enumerators, t.n); }
      EnumNameIs(enumerators, 0);
    case ScalarLeaf(code) => ScalarReads(strict, code, t, limit, rest);
  }

  predicate ReadsAs(strict: bool, code: i32, t: Token, limit: nat, rest: seq<byte>)
    requires ScalarOf(code).Some? && 0 <= code <= 63
  {
    DecodeScalar(strict, ScalarOf(code).value.scalarType, Cursor(|Payload(t)| + limit, Payload(t) + rest))
    == Landed(ScalarValue(code, t), limit, rest)
  }

  lemma ScalarReads(strict: bool, code: i32, t: Token, limit: nat, rest: seq<byte>)
    requires ScalarOf(code).Some? && 0 <= code <= 63 && (t.Chunk? ==> |t.bytes| <= U32_MAX)
    requires ScalarWireType(ScalarOf(code).value.scalarType) == WireTypeOf(TokenCode(t))
    ensures ReadsAs(strict, code, t, limit, rest)
  {
    CodeIsKind(t);
    ScalarTypeIs(code);
    hide ScalarOf, WireTypeOf, ReadsAs;
    match t
    case Num(n) => ScalarNumReads(strict, code, n, limit, rest);
    case Chunk(bytes) =>
      ChunkReads(strict, ScalarOf(code).value.scalarType, bytes, limit, rest);
      ChunkReadsAs(strict, code, bytes, limit, rest);
    case Four(n) => ScalarFourReads(strict, code, n, limit, rest);
    case Eight(n) => ScalarEightReads(strict, code, n, limit, rest);
    case _ =>
  }

  lemma ScalarNumReads(strict: bool, code: i32, n: u64, limit: nat, rest: seq<byte>)
    requires ScalarOf(code).Some? && 12 <= code <= 63
    requires var st := ScalarOf(code).value.scalarType; IsVarint(st) || st.BoolType?
    ensures ReadsAs(strict, code, Num(n), limit, rest)
  {
    var st := ScalarOf(code).value.scalarType;
    NumValue(code, n);
    if st.BoolType? { BoolReads(strict, n, limit, rest); } else { NumReads(strict, st, n, limit, rest); }
    hide ScalarOf, EncodeVarint, DecodeScalar, ScalarValue, FromVarint, IsVarint;
  }

  lemma NumValue(code: i32, n: u64)
    requires ScalarOf(code).Some? && 12 <= code <= 63
    ensures var st := ScalarOf(code).value.scalarType;
      && (st.BoolType? ==> ScalarValue(code, Num(n)) == if n <= 1 then Ok(Bool(n == 1)) else Err(InvalidBool))
      && (IsVarint(st) ==> ScalarValue(code, Num(n)) == FromVarint(st, n))
  {
    ScalarTypeIs(code);
    hide ScalarOf;
  }

  lemma ChunkReadsAs(strict: bool, code: i32, bytes: seq<byte>, limit: nat, rest: seq<byte>)
    requires ScalarOf(code).Some? && 0 <= code <= 11 && |bytes| <= U32_MAX
    ensures ReadsAs(strict, code, Chunk(bytes), limit, rest)
  {
    hide ScalarOf, ScalarValue, EncodeVarint, DecodeScalar, ValidUtf8, U8s, IsStringy;
    ChunkValue(code, bytes);
    ChunkReads(strict, ScalarOf(code).value.scalarType, bytes, limit, rest);
  }

  lemma ChunkValue(code: i32, bytes: seq<byte>)
    requires ScalarOf(code).Some? && 0 <= code <= 11
    ensures IsStringy(ScalarOf(code).value.scalarType)
    ensures var st := ScalarOf(code).value.scalarType;
      ScalarValue(code, Chunk(bytes)) ==
      if st.BytesType? then Ok(List(U8s(bytes)))
      else if st.StringUtf8? && !ValidUtf8(bytes) then Err(InvalidUtf8) else Ok(String(bytes))
  {
    ScalarTypeIs(code);
    hide ScalarOf, ValidUtf8, U8s;
  }

  lemma ScalarFourReads(strict: bool, code: i32, n: u32, limit: nat, rest: seq<byte>)
    requires ScalarOf(code).Some? && 0 <= code <= 63 && Width(ScalarOf(code).value.scalarType) == 4
    ensures ReadsAs(strict, code, Four(n), limit, rest)
  {
    LittleEndianFour(n);
    Pow256Values();
    hide Pow256, LittleEndian, FourBytes, DecodeScalar;
    FixedReads(strict, ScalarOf(code).value.scalarType, n, FourBytes(n), limit, rest);
    ScalarTypeIs(code);
    hide ScalarOf;
  }

  lemma ScalarEightReads(strict: bool, code: i32, n: u64, limit: nat, rest: seq<byte>)
    requires ScalarOf(code).Some? && 0 <= code <= 63 && Width(ScalarOf(code).value.scalarType) == 8
    ensures ReadsAs(strict, code, Eight(n), limit, rest)
  {
    LittleEndianEight(n);
    Pow256Values();
    hide Pow256, LittleEndian, FourBytes, DecodeScalar;
    FixedReads(strict, ScalarOf(code).value.scalarType, n, Payload(Eight(n)), limit, rest);
    ScalarTypeIs(code);
    hide ScalarOf;
  }

  // ---------------------------------------------------------------------------------------
  // Slots
  // ---------------------------------------------------------------------------------------

  /** The slot is the one of the place. */
  predicate SlotAt(subfields: seq<Field>, place: Place, slot: Slot) {
    && place.index < |subfields| && slot.index == place.index
    && match place.variant
       case None => CompileMerger(subfields[place.index]).Ok? && CompileMerger(subfields[place.index]).value.merger == slot.merger
       case Some(j) =>
         j < |subfields[place.index].subfields|
         && CompileVariant(subfields[place.index].subfields[j]) == Ok(slot.merger)
  }

  lemma {:induction false} VariantSlots(slots: map<u32, Slot>, index: nat, variants: seq<Field>, number: u32)
    requires CompileVariants(slots, index, variants).Ok?
    ensures var out, j := CompileVariants(slots, index, variants).value, LastNumbered(variants, number);
      && (j.Some? ==> number in out && out[number].index == index && CompileVariant(variants[j.value]) == Ok(out[number].merger))
      && (j.None? ==> (number in out <==> number in slots) && (number in out ==> out[number] == slots[number]))
  {
    hide CompileVariant;
    if variants != [] { VariantSlots(slots, index, variants[..|variants| - 1], number); }
  }

  /** A number has a slot exactly when it has a place, and then the slot is the one of the place. */
  lemma {:induction false} SlotOfPlace(subfields: seq<Field>, number: u32)
    requires CompileTable(subfields).Ok?
    ensures var slots, place := CompileTable(subfields).value.slots, PlaceOf(subfields, number);
      (number in slots <==> place.Some?) && (place.Some? ==> SlotAt(subfields, place.value, slots[number]))
  {
    hide CompileMerger, CompileVariant, CompileVariants, LastNumbered;
    if subfields != [] {
      var n := |subfields| - 1;
      SlotOfPlace(subfields[..n], number);
      IsOneofEight(subfields[n]);
      if IsOneof(subfields[n]) {
        VariantSlots(CompileTable(subfields[..n]).value.slots, n, subfields[n].subfields, number);
      }
    }
  }

  lemma IsOneofEight(f: Field)
    ensures IsOneof(f) <==> f.coding == CompoundCoding(8)
  {
  }

  /** The merger of a scalar or an enumeration, by presence. */
  predicate MergerOf(m: Merger, f: Field)
    requires IsLeaf(f)
  {
    && m.ItemMerger? && MergeItemOf(m.item, LeafOf(f))
    && m.form == if PresenceOf(f) == 0 then IntoValue else if PresenceOf(f) == 2 then IntoOption else IntoList
  }

  lemma LeafMergerCompiled(f: Field)
    requires IsLeaf(f)
    ensures CompileMerger(f).Ok? ==> MergerOf(CompileMerger(f).value.merger, f)
    ensures CompileVariant(f).Ok? ==>
      && CompileVariant(f).value.VariantMerger? && CompileVariant(f).value.variant == f.name
      && MergerOf(CompileVariant(f).value.inner, f) && PresenceOf(f) == 2
  {
    if f.coding.ScalarCoding? && ScalarOf(f.coding.code).Some? { ScalarTypeIs(f.coding.code); }
  }

  /** A record of another kind than the item is refused with the error of the item's kind. */
  lemma OtherKind(item: MergeItem, leaf: Leaf, t: Token)
    requires MergeItemOf(item, leaf) && Readable(leaf) && !OfKind(item, t)
    ensures LeafValue(leaf, t) == Err(WireTypeError(ItemWireType(item)))
  {
    CodeIsKind(t);
    hide WireTypeOf;
    if leaf.ScalarLeaf? {
      ScalarTypeIs(leaf.code);
      hide ScalarOf;
    }
  }
}
