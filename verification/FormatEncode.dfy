/** The encoder compiled from a schema writes the bytes that the numbers of its codings call for. */
module FormatEncode {
  import opened Prelude
  import opened Wire
  import opened Values
  import opened Scalars
  import opened Merging
  import opened Encoding
  import opened EncoderCompiler
  import opened Format

  /** The encoding succeeds exactly where there is something to write, and writes that. */
  predicate Agrees(r: Result<seq<byte>, EncodeError>, o: Option<seq<byte>>) {
    (r.Ok? <==> o.Some?) && (r.Ok? ==> r.value == o.value)
  }

  // ---------------------------------------------------------------------------------------
  // Payloads
  // ---------------------------------------------------------------------------------------

  lemma LittleEndianFour(n: u32)
    ensures LittleEndian(n, 4) == FourBytes(n)
  {
    assert LittleEndian(n / 0x100_0000, 1) == [n / 0x100_0000];
    assert LittleEndian(n / 0x1_0000, 2) == [n / 0x1_0000 % 0x100] + LittleEndian(n / 0x100_0000, 1);
    assert LittleEndian(n / 0x100, 3) == [n / 0x100 % 0x100] + LittleEndian(n / 0x1_0000, 2);
  }

  lemma LittleEndianEight(n: u64)
    ensures LittleEndian(n, 8) == Payload(Eight(n))
  {
    var low, high := n % 0x1_0000_0000, n / 0x1_0000_0000;
    LittleEndianFour(high);
    Shifted(n, low, high, 0x100, 0x100_0000);
    Shifted(n, low, high, 0x1_0000, 0x1_0000);
    Shifted(n, low, high, 0x100_0000, 0x100);
    var a, b, c := n / 0x100, n / 0x1_0000, n / 0x100_0000;
    assert a == n / 0x100 && b == a / 0x100 && c == b / 0x100 && high == c / 0x100;
    LowByte(n, 8);
    LowByte(a, 7);
    LowByte(b, 6);
    LowByte(c, 5);
    hide LittleEndian;
  }

  /** The bytes of the lower word are those of the whole. */
  lemma Shifted(n: nat, low: nat, high: nat, d: nat, e: nat)
    requires n == low + 0x1_0000_0000 * high && low < 0x1_0000_0000
    requires (d, e) in {(0x100, 0x100_0000), (0x1_0000, 0x1_0000), (0x100_0000, 0x100)}
    ensures n / d == low / d + e * high && n % 0x100 == low % 0x100
    ensures n / d % 0x100 == low / d % 0x100
  {
  }

  lemma LowByte(n: nat, width: nat)
    requires width > 0
    ensures LittleEndian(n, width) == [n % 0x100] + LittleEndian(n / 0x100, width - 1)
  {
  }

  /** The item is the leaf as its encoder has it. */
  predicate ItemOf(item: EncodeItem, leaf: Leaf) {
    match leaf
    case ScalarLeaf(code) => ScalarOf(code).Some? && item == ScalarItem(ScalarOf(code).value.scalarType)
    case EnumLeaf(enumerators) => item == EnumItem(EnumNumbers(enumerators))
  }

  lemma {:induction false} EnumNumberIs(enumerators: seq<Field>, name: string)
    ensures name in EnumNumbers(enumerators) <==> LastNamed(enumerators, name).Some?
    ensures name in EnumNumbers(enumerators) ==>
      EnumNumbers(enumerators)[name] == enumerators[LastNamed(enumerators, name).value].number
  {
    if enumerators != [] { EnumNumberIs(enumerators[..|enumerators| - 1], name); }
  }

  /** The scalar type that a coding number stands for. */
  lemma ScalarTypeIs(code: i32)
    requires ScalarOf(code).Some?
    ensures 0 <= code <= 63 && code !in {1, 5, 9}
    ensures ScalarOf(code).value.scalarType ==
      if code <= 3 then BytesType else if code <= 7 then StringUtf8 else if code <= 11 then StringPermissive
      else if code <= 15 then BoolType else if code <= 19 then Int32 else if code <= 23 then Sint32
      else if code <= 27 then Sfixed32 else if code <= 31 then Uint32 else if code <= 35 then Fixed32
      else if code <= 39 then Int64 else if code <= 43 then Sint64 else if code <= 47 then Sfixed64
      else if code <= 51 then Uint64 else if code <= 55 then Fixed64 else if code <= 59 then FloatType else DoubleType
    ensures ScalarOf(code).value.presence ==
      if code % 4 == 0 then Implicit else if code % 4 == 1 then Packed
      else if code % 4 == 2 then Explicit else Expanded
  {
  }

  function PayloadOf(t: Option<Token>): Option<seq<byte>> {
    match t
    case None => None
    case Some(token) => Some(Payload(token))
  }

  /** The payload is that of the token, and zeros are what the scalar type has for defaults. */
  predicate ScalarAgrees(t: ScalarType, code: i32, v: Val) {
    && Agrees(EncodeScalar(t, v), PayloadOf(ScalarToken(code, v)))
    && (ScalarToken(code, v).Some? ==> HasForm(t, v) && (IsDefault(t, v) <==> Zero(v)))
  }

  lemma ShortPayload(code: i32, v: Val)
    requires ScalarOf(code).Some? && (v.S32? || v.U32? || v.Float32?)
    ensures ScalarAgrees(ScalarOf(code).value.scalarType, code, v)
  {
    ScalarTypeIs(code);
    hide ScalarOf, EncodeVarint, LittleEndian, FourBytes;
    if v.S32? { SignedWord(code, v.s32); } else { LittleEndianFour(if v.U32? then v.n32 else v.bits32); }
  }

  lemma SignedWord(code: i32, x: i32)
    requires ScalarOf(code).Some?
    ensures ScalarAgrees(ScalarOf(code).value.scalarType, code, S32(x))
  {
    ScalarTypeIs(code);
    LittleEndianFour(AsU32(x));
    hide ScalarOf, EncodeVarint, LittleEndian, FourBytes;
  }

  lemma LongPayload(code: i32, v: Val)
    requires ScalarOf(code).Some? && (v.S64? || v.U64? || v.Float64?)
    ensures ScalarAgrees(ScalarOf(code).value.scalarType, code, v)
  {
    ScalarTypeIs(code);
    hide ScalarOf, EncodeVarint, LittleEndian, FourBytes;
    if v.S64? { SignedPayload(code, v.s64); } else { LittleEndianEight(if v.U64? then v.n64 else v.bits64); }
  }

  lemma SignedPayload(code: i32, x: i64)
    requires ScalarOf(code).Some?
    ensures ScalarAgrees(ScalarOf(code).value.scalarType, code, S64(x))
  {
    ScalarTypeIs(code);
    LittleEndianEight(AsU64(x));
    hide ScalarOf, EncodeVarint, LittleEndian, FourBytes;
  }

  lemma ScalarPayload(code: i32, v: Val)
    requires ScalarOf(code).Some?
    ensures ScalarAgrees(ScalarOf(code).value.scalarType, code, v)
  {
    if v.S32? || v.U32? || v.Float32? {
      ShortPayload(code, v);
    } else if v.S64? || v.U64? || v.Float64? {
      LongPayload(code, v);
    } else {
      ScalarTypeIs(code);
      SmallVarints();
      hide ScalarOf, EncodeVarint, LittleEndian, FourBytes;
    }
  }

  lemma SmallVarints()
    ensures EncodeVarint(0) == [0] && EncodeVarint(1) == [1]
  {
  }

  // ---------------------------------------------------------------------------------------
  // Fields without fields of their own
  // ---------------------------------------------------------------------------------------

  predicate LeafAgrees(item: EncodeItem, leaf: Leaf, v: Val) {
    && Agrees(EncodePayload(item, v), PayloadOf(LeafToken(leaf, v)))
    && (LeafToken(leaf, v).Some? ==> ItemHasForm(item, v) && (ItemIsDefault(item, v) <==> LeftOut(leaf, v)))
    && (LeafToken(leaf, v).Some? ==> TokenCode(LeafToken(leaf, v).value) == CodeOf(item))
  }

  function CodeOf(item: EncodeItem): nat {
    WireCode(match item case ScalarItem(t) => ScalarWireType(t) case EnumItem(_) => VarintType)
  }

  lemma LeafPayload(item: EncodeItem, leaf: Leaf, v: Val)
    requires ItemOf(item, leaf)
    ensures LeafAgrees(item, leaf, v)
  {
    match leaf
    case ScalarLeaf(code) =>
      ScalarPayload(code, v);
      ScalarTypeIs(code);
      hide ScalarOf, EncodeScalar, IsDefault, Zero, Payload;
    case EnumLeaf(enumerators) =>
      if v.Enum? { EnumNumberIs(enumerators, v.enumerator); }
  }

  lemma LeafTokensStep(leaf: Leaf, items: seq<Val>)
    ensures items == [] ==> LeafTokens(leaf, items) == Some([])
    ensures items != [] ==>
      (LeafTokens(leaf, items).Some? <==> LeafToken(leaf, items[0]).Some? && LeafTokens(leaf, items[1..]).Some?)
    ensures items != [] && LeafTokens(leaf, items).Some? ==>
      var t, ts := LeafToken(leaf, items[0]).value, LeafTokens(leaf, items[1..]).value;
      && LeafTokens(leaf, items).value == [t] + ts
      && Payloads([t] + ts) == Payload(t) + Payloads(ts)
      && forall number :: Records(number, [t] + ts) == RecordBytes(number, t) + Records(number, ts)
  {
    hide LeafToken, Payload, RecordBytes;
    if items != [] && LeafTokens(leaf, items).Some? {
      var t, ts := LeafToken(leaf, items[0]).value, LeafTokens(leaf, items[1..]).value;
      assert ([t] + ts)[1..] == ts;
    }
  }

  function PackedOf(ts: Option<seq<Token>>): Option<seq<byte>> {
    match ts
    case None => None
    case Some(tokens) => Some(Payloads(tokens))
  }

  function ExpandedOf(number: u32, ts: Option<seq<Token>>): Option<seq<byte>> {
    match ts
    case None => None
    case Some(tokens) => Some(Records(number, tokens))
  }

  lemma {:induction false} PackedPayloads(item: EncodeItem, leaf: Leaf, items: seq<Val>)
    requires ItemOf(item, leaf)
    ensures Agrees(EncodePayloads(item, [], items), PackedOf(LeafTokens(leaf, items)))
  {
    hide EncodePayload, LeafToken, LeafTokens, Payload, CodeOf, LeftOut, ItemIsDefault, ItemHasForm, ItemOf;
    LeafTokensStep(leaf, items);
    if items != [] {
      LeafPayload(item, leaf, items[0]);
      PackedPayloads(item, leaf, items[1..]);
    }
  }

  lemma {:induction false} ExpandedPayloads(item: EncodeItem, leaf: Leaf, number: u32, items: seq<Val>)
    requires ItemOf(item, leaf)
    ensures Agrees(EncodePayloads(item, EncodeVarint(8 * number + CodeOf(item)), items),
                   ExpandedOf(number, LeafTokens(leaf, items)))
  {
    hide EncodePayload, LeafToken, LeafTokens, Payload, CodeOf, LeftOut, ItemIsDefault, ItemHasForm, ItemOf;
    hide EncodeVarint, TokenCode;
    LeafTokensStep(leaf, items);
    if items != [] {
      LeafPayload(item, leaf, items[0]);
      ExpandedPayloads(item, leaf, number, items[1..]);
    }
  }

  /** How a presence is numbered. */
  function NumberOf(presence: Presence): nat {
    match presence
    case Implicit => 0
    case Packed => 1
    case Explicit => 2
    case Expanded => 3
  }

  lemma DelimitedIs(number: u32, body: seq<byte>)
    ensures Delimited(8 * number + 2, body) == RecordBytes(number, Chunk(body))
  {
    hide EncodeVarint;
  }

  lemma SingleWrites(item: EncodeItem, leaf: Leaf, presence: Presence, number: u32, v: Val)
    requires ItemOf(item, leaf) && (presence.Implicit? || presence.Explicit?)
    ensures Agrees(WireItem(item, presence, 8 * number + CodeOf(item), v),
                   LeafWritten(number, NumberOf(presence), leaf, v))
  {
    var x := if presence.Explicit? && item.ScalarItem? && v.Opt? && v.option.Some? then v.option.value else v;
    LeafPayload(item, leaf, x);
    hide EncodePayload, LeafToken, CodeOf, LeftOut, ItemIsDefault, EncodeVarint, ScalarOf, Payload, EnumNumbers, TokenCode;
    hide LeafTokens, EncodePayloads, Payloads, Records;
  }

  lemma ManyWrites(item: EncodeItem, leaf: Leaf, presence: Presence, number: u32, v: Val)
    requires ItemOf(item, leaf) && (presence.Packed? || presence.Expanded?)
    ensures Agrees(WireItem(item, presence, 8 * number + if presence.Packed? then 2 else CodeOf(item), v),
                   LeafWritten(number, NumberOf(presence), leaf, v))
  {
    hide EncodePayload, EncodePayloads, LeafToken, LeafTokens, Payloads, Records, CodeOf, EncodeVarint, ItemOf;
    hide LeftOut, ItemIsDefault, ItemHasForm;
    if v.List? && presence.Packed? {
      PackedPayloads(item, leaf, v.items);
      LeafTokensStep(leaf, v.items);
      if LeafTokens(leaf, v.items).Some? { DelimitedIs(number, Payloads(LeafTokens(leaf, v.items).value)); }
    } else if v.List? {
      ExpandedPayloads(item, leaf, number, v.items);
    }
  }

  lemma LeafCompiled(f: Field, inOneof: bool)
    requires CompileEncoder(f, inOneof).Ok? && CompileEncoder(f, inOneof).value.ItemEncoder?
    ensures var ItemEncoder(item, presence, tag) := CompileEncoder(f, inOneof).value;
      && !f.coding.NoCoding? && ItemOf(item, LeafOf(f))
      && tag == 8 * f.number + (if presence.Packed? then 2 else CodeOf(item))
      && forall v :: Written(f, v) == LeafWritten(f.number, NumberOf(presence), LeafOf(f), v)
  {
    if f.coding.ScalarCoding? { ScalarTypeIs(f.coding.code); }
    hide LeafWritten, CompileEncoders;
  }

  /** The encoder of a field that is a scalar or an enumeration. */
  lemma LeafWrites(f: Field, inOneof: bool, v: Val)
    requires CompileEncoder(f, inOneof).Ok? && CompileEncoder(f, inOneof).value.ItemEncoder?
    ensures Agrees(WireBytes(CompileEncoder(f, inOneof).value, v), Written(f, v))
  {
    LeafCompiled(f, inOneof);
    var ItemEncoder(item, presence, tag) := CompileEncoder(f, inOneof).value;
    hide LeafWritten, CodeOf, ItemOf, CompileEncoder, Written;
    if presence.Implicit? || presence.Explicit? {
      SingleWrites(item, LeafOf(f), presence, f.number, v);
    } else {
      ManyWrites(item, LeafOf(f), presence, f.number, v);
    }
  }

  // ---------------------------------------------------------------------------------------
  // Messages
  // ---------------------------------------------------------------------------------------

  /** The encoders by name are those of the fields, the last of each name. */
  lemma {:induction false} EncodersByName(subfields: seq<Field>, inOneof: bool, name: string)
    requires CompileEncoders(subfields, inOneof).Ok?
    ensures var table, i := CompileEncoders(subfields, inOneof).value, LastNamed(subfields, name);
      (name in table <==> i.Some?) && (i.Some? ==> CompileEncoder(subfields[i.value], inOneof) == Ok(table[name]))
  {
    if subfields != [] { EncodersByName(subfields[..|subfields| - 1], inOneof, name); }
  }

  /** The table of encoders is that of the field. */
  predicate TableOf(e: Encoder, f: Field) {
    e.MessageEncoder? && CompileEncoders(f.subfields, false) == Ok(e.subfields)
  }

  /** Every encoder writes what the numbers of its schema call for, or fails if they call for nothing. */
  lemma {:induction false} EncoderWrites(f: Field, inOneof: bool, v: Val)
    requires CompileEncoder(f, inOneof).Ok?
    ensures Agrees(WireBytes(CompileEncoder(f, inOneof).value, v), Written(f, v))
    decreases f, 5, 0
  {
    hide CompileEncoders, WireBytes, Written;
    match CompileEncoder(f, inOneof).value
    case ItemEncoder(_, _, _) => LeafWrites(f, inOneof, v);
    case MessageEncoder(_, _, _) => MessageWrites(f, inOneof, v);
    case OneofEncoder(_) => OneofWrites(f, inOneof, v);
  }

  lemma MessageCompiled(f: Field, inOneof: bool)
    requires CompileEncoder(f, inOneof).Ok? && CompileEncoder(f, inOneof).value.MessageEncoder?
    ensures var e := CompileEncoder(f, inOneof).value;
      && TableOf(e, f) && e.tag == 8 * f.number + 2
      && ((e.shape.Outer? && f.coding == CompoundCoding(6)) || (e.shape.Repeated? && f.coding == CompoundCoding(7)))
  {
    hide CompileEncoders;
  }

  lemma {:induction false} MessageWrites(f: Field, inOneof: bool, v: Val)
    requires CompileEncoder(f, inOneof).Ok? && CompileEncoder(f, inOneof).value.MessageEncoder?
    ensures Agrees(WireBytes(CompileEncoder(f, inOneof).value, v), Written(f, v))
    decreases f, 4, 0
  {
    MessageCompiled(f, inOneof);
    var e := CompileEncoder(f, inOneof).value;
    hide CompileEncoder, TableOf, WireBytes, Written;
    if e.shape.Outer? { OuterWrites(f, e, v); } else { RepeatedWrites(f, e, v); }
  }

  lemma {:induction false} OuterWrites(f: Field, e: Encoder, v: Val)
    requires TableOf(e, f) && e.tag == 8 * f.number + 2 && e.shape.Outer? && f.coding == CompoundCoding(6)
    ensures Agrees(WireBytes(e, v), Written(f, v))
    decreases f, 2, 0
  {
    hide FieldsWritten, WireFields, CompileEncoders, EncodeVarint, Delimited, RecordBytes;
    if v.Opt? && v.option.Some? && v.option.value.Record? {
      BodyWrites(f, e, v.option.value.fields);
    }
  }

  /** A message with its tag and its length in front. */
  lemma {:induction false} BodyWrites(f: Field, e: Encoder, fields: seq<NamedVal>)
    requires TableOf(e, f) && e.tag == 8 * f.number + 2
    ensures WireFields(e, fields).Ok? <==> Body(f, fields).Some?
    ensures WireFields(e, fields).Ok? ==>
      Delimited(e.tag, WireFields(e, fields).value) == RecordBytes(f.number, Body(f, fields).value)
    decreases f, 1, 0
  {
    hide FieldsWritten, WireFields, CompileEncoders, EncodeVarint;
    FieldsWrite(f, e, fields);
    if WireFields(e, fields).Ok? { DelimitedIs(f.number, WireFields(e, fields).value); }
  }

  lemma {:induction false} RepeatedWrites(f: Field, e: Encoder, v: Val)
    requires TableOf(e, f) && e.tag == 8 * f.number + 2 && e.shape.Repeated? && f.coding == CompoundCoding(7)
    ensures Agrees(WireBytes(e, v), Written(f, v))
    decreases f, 3, 0
  {
    hide EachWritten, WireMessages, CompileEncoders, EncodeVarint;
    if v.List? { EachWrites(f, e, v.items); }
  }

  lemma {:induction false} OneofWrites(f: Field, inOneof: bool, v: Val)
    requires CompileEncoder(f, inOneof).Ok? && CompileEncoder(f, inOneof).value.OneofEncoder?
    ensures Agrees(WireBytes(CompileEncoder(f, inOneof).value, v), Written(f, v))
    decreases f, 3, 0
  {
    var e := CompileEncoder(f, inOneof).value;
    assert CompileEncoders(f.subfields, true) == Ok(e.subfields) && f.coding == CompoundCoding(8);
    hide CompileEncoder, CompileEncoders, LastNamed;
    if v.Opt? && v.option.Some? && v.option.value.Variant? {
      var Variant(name, payload) := v.option.value;
      EncodersByName(f.subfields, true, name);
      var i := LastNamed(f.subfields, name);
      if i.Some? && payload.Some? { EncoderWrites(f.subfields[i.value], true, Opt(payload)); }
    }
  }

  lemma {:induction false} FieldsWrite(f: Field, e: Encoder, fields: seq<NamedVal>)
    requires TableOf(e, f)
    ensures Agrees(WireFields(e, fields), FieldsWritten(f, fields))
    decreases f, 0, |fields|
  {
    hide Written, WireBytes, CompileEncoders, CompileEncoder, LastNamed, EachWritten, WireMessages;
    if fields != [] {
      EncodersByName(f.subfields, false, fields[0].name);
      var i := LastNamed(f.subfields, fields[0].name);
      if i.Some? { EncoderWrites(f.subfields[i.value], false, fields[0].value); }
      FieldsWrite(f, e, fields[1..]);
    }
  }

  lemma {:induction false} EachWrites(f: Field, e: Encoder, items: seq<Val>)
    requires TableOf(e, f) && e.tag == 8 * f.number + 2
    ensures Agrees(WireMessages(e, items), EachWritten(f, items))
    decreases f, 2, |items|
  {
    hide WireFields, FieldsWritten, CompileEncoders, EncodeVarint, WireBytes, Written, Delimited, RecordBytes, Body;
    if items != [] {
      EachWrites(f, e, items[1..]);
      if items[0].Record? { BodyWrites(f, e, items[0].fields); }
    }
  }

  /** A whole response is the fields of its record. */
  lemma ResponseWrites(f: Field, v: Val)
    requires CompileMessageEncoder(f, Inner).Ok?
    ensures Agrees(WireBytes(CompileMessageEncoder(f, Inner).value, v),
                   if v.Record? then FieldsWritten(f, v.fields) else None)
  {
    if v.Record? { FieldsWrite(f, CompileMessageEncoder(f, Inner).value, v.fields); }
  }

  // ---------------------------------------------------------------------------------------
  // What is refused, and how
  // ---------------------------------------------------------------------------------------

  /** The error for a value that is not of the form that the coding takes, without looking into lists and records. */
  function Refusal(f: Field, v: Val): Option<EncodeError> {
    match f.coding
    case NoCoding => None
    case ScalarCoding(code) =>
      if code < 0 then None
      else if code % 4 == 2 then if v.Opt? then None else Some(ExplicitNonOption)
      else if code % 4 == 1 || code % 4 == 3 then if v.List? then None else Some(RepeatedNonListValue)
      else None
    case CompoundCoding(code) =>
      if code in {1, 3, 7} then if v.List? then None else Some(RepeatedNonListValue)
      else if code in {0, 2} then
        if !v.Enum? then Some(EnumNonEnum)
        else if LastNamed(f.subfields, v.enumerator).None? then Some(EnumVariantUnrecognized)
        else None
      else if code == 6 then
        match v
        case Opt(None) => None
        case Opt(Some(Record(_))) => None
        case Opt(_) => Some(ValueNonRecord)
        case _ => Some(MessageNonOptional)
      else if code == 8 then
        match v
        case Opt(None) => None
        case Opt(Some(Variant(name, payload))) =>
          if LastNamed(f.subfields, name).None? then Some(OneofVariantUnrecognized)
          else if payload.None? then Some(OneofVariantNoPayload) else None
        case Opt(_) => Some(OneofNonVariant)
        case _ => Some(OneofNonOptional)
      else None
  }

  /** Both the reference and the length pass, which comes first, refuse with that error. */
  lemma RefusedWith(f: Field, inOneof: bool, v: Val)
    requires CompileEncoder(f, inOneof).Ok? && Refusal(f, v).Some?
    ensures WireBytes(CompileEncoder(f, inOneof).value, v) == Err(Refusal(f, v).value)
    ensures Measure(CompileEncoder(f, inOneof).value, v) == Err(Refusal(f, v).value)
  {
    hide WireFields, WireMessages, MeasureFields, MeasureMessages, EncodePayloads, PayloadLengths;
    match f.coding
    case ScalarCoding(code) =>
      ScalarTypeIs(code);
      hide ScalarOf, EncodeScalar, ScalarLength;
    case CompoundCoding(code) =>
      if v.Enum? { EnumNumberIs(f.subfields, v.enumerator); }
      if code == 8 && v.Opt? && v.option.Some? && v.option.value.Variant? {
        EncodersByName(f.subfields, true, v.option.value.variant);
      }
      hide CompileEncoders, LastNamed, EnumNumbers;
  }

  /** A record with a field that the schema does not have is refused for it, if all the fields behind it can be measured. */
  lemma UnknownFieldRefused(f: Field, e: Encoder, fields: seq<NamedVal>)
    requires TableOf(e, f) && fields != [] && LastNamed(f.subfields, fields[0].name).None?
    ensures WireFields(e, fields) == Err(NoEncoderForField)
    ensures MeasureFields(e, fields[1..]).Ok? ==> MeasureFields(e, fields) == Err(NoEncoderForField)
  {
    EncodersByName(f.subfields, false, fields[0].name);
    hide CompileEncoders, LastNamed, Measure, WireBytes;
  }

  /** The error for a coding that does not exist, or not in a oneof. */
  function SchemaRefusal(f: Field, inOneof: bool): Option<SchemaError> {
    match f.coding
    case NoCoding => Some(MissingCoding)
    case ScalarCoding(code) =>
      if inOneof && (code < 0 || code % 4 != 2) then Some(NotExplicit)
      else if 0 <= code <= 63 && code !in {1, 5, 9} then None
      else Some(InvalidScalarCoding)
    case CompoundCoding(code) =>
      if inOneof && code !in {2, 6} then Some(NotExplicit)
      else if code in {0, 1, 2, 3, 6, 7, 8} then None
      else Some(InvalidCompoundCoding)
  }

  lemma SchemaRefused(f: Field, inOneof: bool)
    requires SchemaRefusal(f, inOneof).Some?
    ensures CompileEncoder(f, inOneof) == Err(SchemaRefusal(f, inOneof).value)
  {
    hide CompileEncoders;
  }

  // ---------------------------------------------------------------------------------------
  // Which schemas have encoders
  // ---------------------------------------------------------------------------------------

  lemma {:induction false} EncodableExact(f: Field, inOneof: bool)
    ensures CompileEncoder(f, inOneof).Ok? <==> Encodable(f, inOneof)
    decreases f, 1, 0
  {
    if f.coding.CompoundCoding? {
      AllEncodable(f, |f.subfields|, false);
      AllEncodable(f, |f.subfields|, true);
      assert f.subfields[..|f.subfields|] == f.subfields;
    }
    hide CompileEncoders;
  }

  lemma {:induction false} AllEncodable(f: Field, n: nat, inOneof: bool)
    requires n <= |f.subfields|
    ensures CompileEncoders(f.subfields[..n], inOneof).Ok? <==> forall i | 0 <= i < n :: Encodable(f.subfields[i], inOneof)
    decreases f, 0, n
  {
    if n > 0 {
      AllEncodable(f, n - 1, inOneof);
      EncodableExact(f.subfields[n - 1], inOneof);
      assert f.subfields[..n][..n - 1] == f.subfields[..n - 1];
      hide CompileEncoder, Encodable;
    }
  }
}
