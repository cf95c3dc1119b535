/** Requests record by record: what each record does to the value that the request is read as. */
module FormatRequests {
  import opened Prelude
  import opened Wire
  import opened Values
  import opened Reading
  import opened Scalars
  import opened Merging
  import opened EncoderCompiler
  import opened MergerCompiler
  import opened Accounting
  import opened Framing
  import opened Typing
  import opened Format
  import opened FormatEncode
  import opened FormatDecode

  // ---------------------------------------------------------------------------------------
  // One record
  // ---------------------------------------------------------------------------------------

  /** The read that took the record, or failed on it. */
  function Taken<T>(r: Result<T, DecodeError>, limit: nat, rest: seq<byte>): Read<T> {
    match r
    case Ok(v) => Ok((v, Cursor(limit, rest)))
    case Err(error) => Err(error)
  }

  lemma TagFirst(strict: bool, number: u32, t: Token, limit: nat, rest: seq<byte>)
    ensures var r := RecordBytes(number, t);
      TokenCode(t) < 6 &&
      ReadTag(strict, Cursor(|r| + limit, r + rest))
      == Ok(((number, WireTypeOf(TokenCode(t))), Cursor(|Payload(t)| + limit, Payload(t) + rest)))
  {
    hide *;
    CodeIsKind(t);
    var tag := EncodeVarint(8 * number + TokenCode(t));
    TagReads(strict, number, TokenCode(t), |Payload(t)| + limit, Payload(t) + rest);
    RecordParts(number, t);
    assert tag + Payload(t) + rest == tag + (Payload(t) + rest);
  }

  lemma RecordParts(number: u32, t: Token)
    ensures RecordBytes(number, t) == EncodeVarint(8 * number + TokenCode(t)) + Payload(t)
  {
  }

  /** A record of a number that the message does not know is skipped whole, whatever its kind. */
  lemma TokenSkips(strict: bool, t: Token, limit: nat, rest: seq<byte>)
    requires TokenCode(t) < 6 && (t.Chunk? ==> |t.bytes| <= U32_MAX)
    ensures Skip(strict, WireTypeOf(TokenCode(t)), Cursor(|Payload(t)| + limit, Payload(t) + rest))
         == Ok(((), Cursor(limit, rest)))
  {
    CodeIsKind(t);
    hide EncodeVarint, ReadVarint, ReadLength, WireTypeOf, FourBytes;
    match t
    case Num(n) => ReadVarintInverts(strict, n, limit, rest, InvalidVarint);
    case Chunk(bytes) =>
      assert Payload(t) + rest == EncodeVarint(|bytes|) + bytes + rest;
      ReadLengthInverts(strict, bytes, limit, rest);
      assert (bytes + rest)[|bytes|..] == rest;
    case Four(n) =>
      FourLong(n);
      assert (Payload(t) + rest)[4..] == rest;
    case Eight(n) =>
      FourLong(n % 0x1_0000_0000);
      FourLong(n / 0x1_0000_0000);
      assert (Payload(t) + rest)[8..] == rest;
    case _ => assert Payload(t) + rest == rest;
  }

  lemma FourLong(n: u32)
    ensures |FourBytes(n)| == 4
  {
  }

  lemma UnknownMerges(strict: bool, m: Merger, number: u32, t: Token, fields: seq<NamedVal>, limit: nat, rest: seq<byte>)
    requires m.MessageMerger? && number !in m.subfields && (t.Chunk? ==> |t.bytes| <= U32_MAX)
    ensures var r := RecordBytes(number, t);
      MergeOne(strict, m, Cursor(|r| + limit, r + rest), fields) == Ok((fields, Cursor(limit, rest)))
  {
    TagFirst(strict, number, t, limit, rest);
    TokenSkips(strict, t, limit, rest);
    hide ReadTag, Skip, RecordBytes, Payload, TokenCode, WireTypeOf;
  }

  lemma KnownMerges(strict: bool, m: Merger, number: u32, t: Token, fields: seq<NamedVal>, limit: nat, rest: seq<byte>)
    requires m.MessageMerger? && number in m.subfields && m.subfields[number].index < |fields|
    ensures var r, Slot(i, merger) := RecordBytes(number, t), m.subfields[number];
      TokenCode(t) < 6 &&
      MergeOne(strict, m, Cursor(|r| + limit, r + rest), fields) ==
      match MergeField(strict, merger, WireTypeOf(TokenCode(t)), Cursor(|Payload(t)| + limit, Payload(t) + rest), fields[i].value)
      case Ok((v, c)) => Ok((fields[i := NamedVal(fields[i].name, v)], c))
      case Err(error) => Err(error)
  {
    TagFirst(strict, number, t, limit, rest);
    hide ReadTag, Skip, RecordBytes, Payload, TokenCode, WireTypeOf, MergeField;
  }

  /** A record that is not a packed run is read as its leaf and its presence say. */
  lemma LeafMerges(strict: bool, f: Field, m: Merger, t: Token, before: Val, limit: nat, rest: seq<byte>)
    requires IsLeaf(f) && MergerOf(m, f) && (t.Chunk? ==> |t.bytes| <= U32_MAX)
    requires PresenceOf(f) in {1, 3} ==> before.List? && !(t.Chunk? && Packs(LeafOf(f)))
    requires TokenCode(t) < 6
    ensures MergeField(strict, m, WireTypeOf(TokenCode(t)), Cursor(|Payload(t)| + limit, Payload(t) + rest), before)
         == Taken(LeafRead(PresenceOf(f), LeafOf(f), before, t), limit, rest)
  {
    var item, leaf := m.item, LeafOf(f);
    hide DecodeItem, LeafValue, Payload, WireTypeOf, MergeItemOf, ItemWireType, WireTypeError, TokenCode, LeafOf, LeafRead;
    ChunkKind(item, leaf, t);
    var c, k := Cursor(|Payload(t)| + limit, Payload(t) + rest), WireTypeOf(TokenCode(t));
    if OfKind(item, t) {
      TokenReads(strict, item, leaf, t, limit, rest);
      KindMerges(strict, item, m.form, k, c, before);
    } else {
      OtherKind(item, leaf, t);
    }
    hide Taken;
    LeafReadIs(PresenceOf(f), leaf, before, t, limit, rest);
  }

  /** A record of the item's kind, or one that is refused. */
  lemma KindMerges(strict: bool, item: MergeItem, form: MergeForm, wireType: WireType, c: Cursor, before: Val)
    requires wireType == ItemWireType(item) && (form.IntoList? ==> before.List?)
    ensures MergeField(strict, ItemMerger(item, form), wireType, c, before) ==
      match DecodeItem(strict, item, c)
      case Err(error) => Err(error)
      case Ok((v, d)) =>
        Ok((if form.IntoValue? then v else if form.IntoOption? then Opt(Some(v)) else List(before.items + [v]), d))
  {
    hide DecodeItem, ItemWireType;
  }

  lemma LeafReadIs(presence: nat, leaf: Leaf, before: Val, t: Token, limit: nat, rest: seq<byte>)
    requires Readable(leaf) && presence < 4 && (presence in {1, 3} ==> before.List?)
    ensures Taken(LeafRead(presence, leaf, before, t), limit, rest) ==
      match LeafValue(leaf, t)
      case Err(error) => Err(error)
      case Ok(v) =>
        Ok((if presence == 0 then v else if presence == 2 then Opt(Some(v)) else List(before.items + [v]),
            Cursor(limit, rest)))
  {
    hide LeafValue;
  }

  /** Of the items, strings and bytes are the ones that come in chunks and so do not pack. */
  lemma ChunkKind(item: MergeItem, leaf: Leaf, t: Token)
    requires MergeItemOf(item, leaf) && Readable(leaf)
    ensures ItemWireType(item) == LengthDelimited <==> !Packs(leaf)
    ensures ItemWireType(item) !in {StartGroup, EndGroup}
    ensures WireTypeOf(TokenCode(t)) == LengthDelimited <==> t.Chunk?
  {
    CodeIsKind(t);
    hide WireTypeOf;
    if leaf.ScalarLeaf? {
      ScalarTypeIs(leaf.code);
      hide ScalarOf;
    }
  }

  // ---------------------------------------------------------------------------------------
  // Packed runs
  // ---------------------------------------------------------------------------------------

  /** The tokens are of the kind that the leaf is read from. */
  predicate Kindred(leaf: Leaf, ts: seq<Token>)
    requires Readable(leaf)
  {
    forall i | 0 <= i < |ts| :: LeafValue(leaf, ts[i]) !in
      {Err(WireTypeNonVarint), Err(WireTypeNonLengthDelimited), Err(WireTypeNon32Bit), Err(WireTypeNon64Bit)}
  }

  lemma KindredIsKind(item: MergeItem, leaf: Leaf, ts: seq<Token>)
    requires MergeItemOf(item, leaf) && Readable(leaf) && Kindred(leaf, ts)
    ensures forall i | 0 <= i < |ts| :: OfKind(item, ts[i])
  {
    forall i | 0 <= i < |ts| ensures OfKind(item, ts[i]) {
      if !OfKind(item, ts[i]) { OtherKind(item, leaf, ts[i]); }
    }
  }

  lemma {:induction false} PackedReads(strict: bool, item: MergeItem, leaf: Leaf, ts: seq<Token>, rest: seq<byte>)
    requires MergeItemOf(item, leaf) && Readable(leaf) && Packs(leaf) && (forall i | 0 <= i < |ts| :: OfKind(item, ts[i]))
    ensures DecodePacked(strict, item, Cursor(|Payloads(ts)|, Payloads(ts) + rest))
         == Taken(LeafValues(leaf, ts), 0, rest)
  {
    hide DecodeItem, LeafValue, Payload, MergeItemOf, TokenCode, WireTypeOf, ItemWireType;
    if ts == [] {
      assert Payloads(ts) + rest == rest;
    } else {
      var tail := Payloads(ts[1..]);
      ChunkKind(item, leaf, ts[0]);
      PayloadSome(ts[0]);
      TokenReads(strict, item, leaf, ts[0], |tail|, tail + rest);
      assert Payloads(ts) + rest == Payload(ts[0]) + (tail + rest);
      PackedReads(strict, item, leaf, ts[1..], rest);
    }
  }

  lemma PayloadSome(t: Token)
    ensures !t.GroupStart? && !t.GroupEnd? ==> |Payload(t)| >= 1
    ensures WireTypeOf(TokenCode(t)) in {StartGroup, EndGroup} <==> t.GroupStart? || t.GroupEnd?
  {
    CodeIsKind(t);
    hide EncodeVarint;
  }

  /** A packed run adds its items to those before it. */
  lemma PackedMerges(strict: bool, f: Field, m: Merger, ts: seq<Token>, before: seq<Val>, limit: nat, rest: seq<byte>)
    requires IsLeaf(f) && MergerOf(m, f) && PresenceOf(f) in {1, 3} && Packs(LeafOf(f)) && Kindred(LeafOf(f), ts)
    requires |Payloads(ts)| <= U32_MAX
    ensures var payload := Payload(Chunk(Payloads(ts)));
      MergeField(strict, m, LengthDelimited, Cursor(|payload| + limit, payload + rest), List(before)) ==
      match LeafValues(LeafOf(f), ts)
      case Ok(items) => Ok((List(before + items), Cursor(limit, rest)))
      case Err(error) => Err(error)
  {
    KindredIsKind(m.item, LeafOf(f), ts);
    ChunkKind(m.item, LeafOf(f), Chunk([]));
    assert m == ItemMerger(m.item, IntoList);
    hide *;
    PackedItems(strict, m.item, LeafOf(f), ts, before, limit, rest);
  }

  lemma PackedItems(
    strict: bool, item: MergeItem, leaf: Leaf, ts: seq<Token>, before: seq<Val>, limit: nat, rest: seq<byte>)
    requires MergeItemOf(item, leaf) && Readable(leaf) && Packs(leaf) && (forall i | 0 <= i < |ts| :: OfKind(item, ts[i]))
    requires ItemWireType(item) != LengthDelimited && |Payloads(ts)| <= U32_MAX
    ensures var payload := Payload(Chunk(Payloads(ts)));
      MergeField(strict, ItemMerger(item, IntoList), LengthDelimited, Cursor(|payload| + limit, payload + rest), List(before)) ==
      match LeafValues(leaf, ts)
      case Ok(items) => Ok((List(before + items), Cursor(limit, rest)))
      case Err(error) => Err(error)
  {
    hide *;
    var body := Payloads(ts);
    var c := Cursor(|Payload(Chunk(body))| + limit, Payload(Chunk(body)) + rest);
    PackedReads(strict, item, leaf, ts, rest);
    TakenIs(LeafValues(leaf, ts), 0, rest);
    ChunkLength(strict, body, limit, rest);
    PackedUnfolds(strict, item, c, before, |body|, Cursor(limit, body + rest));
  }

  lemma ChunkBytes(bytes: seq<byte>)
    ensures Payload(Chunk(bytes)) == EncodeVarint(|bytes|) + bytes
  {
  }

  lemma TakenIs<T>(r: Result<T, DecodeError>, limit: nat, rest: seq<byte>)
    ensures r.Ok? ==> Taken(r, limit, rest) == Ok((r.value, Cursor(limit, rest)))
    ensures r.Err? ==> Taken(r, limit, rest) == Err(r.error)
  {
  }

  lemma PackedUnfolds(strict: bool, item: MergeItem, c: Cursor, before: seq<Val>, length: nat, d: Cursor)
    requires ItemWireType(item) != LengthDelimited && ReadLength(strict, c) == Ok((length, d))
    ensures MergeField(strict, ItemMerger(item, IntoList), LengthDelimited, c, List(before)) ==
      match DecodePacked(strict, item, Cursor(length, d.rest))
      case Err(error) => Err(error)
      case Ok((vs, e)) => Ok((List(before + vs), Cursor(d.limit, e.rest)))
  {
    hide DecodePacked, ReadLength, ItemWireType;
  }

  // ---------------------------------------------------------------------------------------
  // Messages within messages
  // ---------------------------------------------------------------------------------------

  /** A message in a field is read as its bytes are read as a request of its own. */
  lemma NestedReads(strict: bool, m: Merger, inner: Merger, bytes: seq<byte>, v: Val, limit: nat, rest: seq<byte>)
    requires m.MessageMerger? && inner == m.(shape := InnerRecord) && FieldMergers(m)
    requires DecodeRequest(true, inner, bytes) == Ok(v)
    ensures var payload := Payload(Chunk(bytes));
      MergeNested(strict, m, LengthDelimited, Cursor(|payload| + limit, payload + rest)) == Ok((v, Cursor(limit, rest)))
  {
    hide *;
    NestedFields(strict, m, inner, bytes, v, rest);
    ChunkLength(strict, bytes, limit, rest);
    NestedUnfolds(strict, m, Cursor(|Payload(Chunk(bytes))| + limit, Payload(Chunk(bytes)) + rest), |bytes|,
                  Cursor(limit, bytes + rest), v.fields, Cursor(0, rest));
  }

  lemma NestedFields(strict: bool, m: Merger, inner: Merger, bytes: seq<byte>, v: Val, rest: seq<byte>)
    requires m.MessageMerger? && inner == m.(shape := InnerRecord) && FieldMergers(m)
    requires DecodeRequest(true, inner, bytes) == Ok(v)
    ensures v.Record? && |bytes| <= U32_MAX
    ensures MergeFields(strict, m, Cursor(|bytes|, bytes + rest), m.defaults) == Ok((v.fields, Cursor(0, rest)))
  {
    RequestIsFields(inner, bytes, v);
    hide DecodeRequest, MergeFields;
    MergeIsFold(strict, inner, bytes, inner.defaults, v.fields, 0, rest);
    SameFields(strict, m, inner, Cursor(|bytes|, bytes + rest), m.defaults);
    FieldsEnd(strict, inner, v.fields, rest);
  }

  lemma ChunkLength(strict: bool, bytes: seq<byte>, limit: nat, rest: seq<byte>)
    requires |bytes| <= U32_MAX
    ensures var payload := Payload(Chunk(bytes));
      ReadLength(strict, Cursor(|payload| + limit, payload + rest)) == Ok((|bytes|, Cursor(limit, bytes + rest)))
  {
    hide *;
    ChunkBytes(bytes);
    assert EncodeVarint(|bytes|) + bytes + rest == Payload(Chunk(bytes)) + rest;
    ReadLengthInverts(strict, bytes, limit, rest);
  }

  lemma NestedUnfolds(strict: bool, m: Merger, c: Cursor, length: nat, d: Cursor, fields: seq<NamedVal>, e: Cursor)
    requires m.MessageMerger? && ReadLength(strict, c) == Ok((length, d))
    requires MergeFields(strict, m, Cursor(length, d.rest), m.defaults) == Ok((fields, e))
    ensures MergeNested(strict, m, LengthDelimited, c) == Ok((Record(fields), Cursor(d.limit, e.rest)))
  {
    hide MergeFields, ReadLength;
  }

  lemma FieldsEnd(strict: bool, m: Merger, fields: seq<NamedVal>, rest: seq<byte>)
    requires m.MessageMerger?
    ensures MergeFields(strict, m, Cursor(0, rest), fields) == Ok((fields, Cursor(0, rest)))
  {
  }

  lemma RequestIsFields(m: Merger, bytes: seq<byte>, v: Val)
    requires m.MessageMerger? && m.shape.InnerRecord? && DecodeRequest(true, m, bytes) == Ok(v)
    ensures v.Record? && |bytes| <= U32_MAX
    ensures MergeFields(true, m, Cursor(|bytes|, bytes), m.defaults) == Ok((v.fields, Cursor(0, [])))
  {
    RequestSound(m, bytes);
    hide MergeFields;
  }

  /** The shape of a message does not matter to its fields. */
  lemma {:induction false} SameFields(strict: bool, m: Merger, n: Merger, c: Cursor, fields: seq<NamedVal>)
    requires m.MessageMerger? && n.MessageMerger? && m.subfields == n.subfields
    ensures MergeFields(strict, m, c, fields) == MergeFields(strict, n, c, fields)
    decreases c.limit
  {
    if c.limit > 0 {
      hide ReadTag, Skip, MergeField;
      assert MergeOne(strict, m, c, fields) == MergeOne(strict, n, c, fields);
      if MergeOne(strict, m, c, fields).Ok? {
        var (fields1, c1) := MergeOne(strict, m, c, fields).value;
        SameFields(strict, m, n, c1, fields1);
      }
    }
  }

  // ---------------------------------------------------------------------------------------
  // Requests
  // ---------------------------------------------------------------------------------------

  /** The decoder of the schema. */
  predicate Decodes(m: Merger, f: Field) {
    CompileMessageMerger(f, InnerRecord) == Ok(m)
  }

  /** A request goes on from where its front, if a request of its own, was read to. */
  lemma GoesOn(strict: bool, m: Merger, a: seq<byte>, fields: seq<NamedVal>, b: seq<byte>)
    requires m.MessageMerger? && m.shape.InnerRecord? && FieldMergers(m)
    requires DecodeRequest(true, m, a) == Ok(Record(fields)) && |a + b| <= U32_MAX
    ensures DecodeRequest(strict, m, a + b) ==
      match MergeFields(strict, m, Cursor(|b|, b), fields)
      case Ok((merged, _)) => Ok(Record(merged))
      case Err(error) => Err(error)
  {
    RequestIsFields(m, a, Record(fields));
    hide MergeFields, FieldMergers, MergeOne, MergeNested, DecodeRequest;
    MergeIsFold(strict, m, a, m.defaults, fields, |b|, b);
    WholeRequest(strict, m, a + b);
  }

  /** A request is merged into the defaults. */
  lemma WholeRequest(strict: bool, m: Merger, bytes: seq<byte>)
    requires m.MessageMerger? && m.shape.InnerRecord? && |bytes| <= U32_MAX
    ensures DecodeRequest(strict, m, bytes) ==
      match MergeFields(strict, m, Cursor(|bytes|, bytes), m.defaults)
      case Ok((merged, _)) => Ok(Record(merged))
      case Err(error) => Err(error)
  {
    hide MergeFields;
  }

  /** The fields of a request after one record more. */
  function Ended(r: Read<seq<NamedVal>>): Result<Val, DecodeError> {
    match r
    case Ok((merged, _)) => Ok(Record(merged))
    case Err(error) => Err(error)
  }

  lemma OneMore(strict: bool, m: Merger, a: seq<byte>, fields: seq<NamedVal>, r: seq<byte>)
    requires m.MessageMerger? && m.shape.InnerRecord? && FieldMergers(m) && r != []
    requires DecodeRequest(true, m, a) == Ok(Record(fields)) && |a + r| <= U32_MAX
    requires var one := MergeOne(strict, m, Cursor(|r|, r), fields); one.Ok? ==> one.value.1.limit == 0
    ensures DecodeRequest(strict, m, a + r) == Ended(MergeOne(strict, m, Cursor(|r|, r), fields))
  {
    GoesOn(strict, m, a, fields, r);
    hide MergeOne, DecodeRequest;
  }

  lemma RecordSome(number: u32, t: Token)
    ensures RecordBytes(number, t) != []
    ensures t.Chunk? ==> |t.bytes| <= |RecordBytes(number, t)|
  {
    hide EncodeVarint;
  }

  /**
    * Records of a number that the message does not know change nothing, wherever they stand between
    * others: not a varint, not four bytes or eight, not a chunk of any length, not the ends of a group.
    */
  lemma UnknownIgnored(strict: bool, m: Merger, a: seq<byte>, number: u32, t: Token, b: seq<byte>)
    requires m.MessageMerger? && m.shape.InnerRecord? && FieldMergers(m) && number !in m.subfields
    requires DecodeRequest(true, m, a).Ok? && |a + RecordBytes(number, t) + b| <= U32_MAX
    ensures DecodeRequest(strict, m, a + RecordBytes(number, t) + b) == DecodeRequest(strict, m, a + b)
  {
    hide RecordBytes, DecodeRequest, MergeOne, FieldMergers;
    var r, v := RecordBytes(number, t), DecodeRequest(true, m, a).value;
    RecordSome(number, t);
    RequestIsFields(m, a, v);
    UnknownMerges(strict, m, number, t, v.fields, |b|, b);
    hide *;
    assert v == Record(v.fields);
    Between(strict, m, a, v.fields, r, b);
  }

  lemma Between(strict: bool, m: Merger, a: seq<byte>, fields: seq<NamedVal>, r: seq<byte>, b: seq<byte>)
    requires m.MessageMerger? && m.shape.InnerRecord? && FieldMergers(m) && r != []
    requires DecodeRequest(true, m, a) == Ok(Record(fields)) && |a + r + b| <= U32_MAX
    requires MergeOne(strict, m, Cursor(|r| + |b|, r + b), fields) == Ok((fields, Cursor(|b|, b)))
    ensures DecodeRequest(strict, m, a + r + b) == DecodeRequest(strict, m, a + b)
  {
    hide *;
    assert a + r + b == a + (r + b);
    GoesOn(strict, m, a, fields, r + b);
    GoesOn(strict, m, a, fields, b);
    FieldsStep(strict, m, Cursor(|r + b|, r + b), fields, fields, Cursor(|b|, b));
  }

  lemma FieldsStep(strict: bool, m: Merger, c: Cursor, fields: seq<NamedVal>, merged: seq<NamedVal>, d: Cursor)
    requires m.MessageMerger? && c.limit > 0 && MergeOne(strict, m, c, fields) == Ok((merged, d))
    ensures MergeFields(strict, m, c, fields) == MergeFields(strict, m, d, merged)
  {
    hide MergeOne;
  }

  /** What a request of nothing is read as. */
  lemma EmptyRequest(strict: bool, f: Field, m: Merger)
    requires Decodes(m, f)
    ensures DecodeRequest(strict, m, []) == Ok(Record(m.defaults)) && |m.defaults| == |f.subfields|
    ensures forall i | 0 <= i < |f.subfields| :: m.defaults[i] == NamedVal(f.subfields[i].name, Absent(f.subfields[i]))
  {
    DefaultsAbsent(f.subfields);
    FieldsEnd(strict, m, m.defaults, []);
    hide CompileTable, MergeFields, Absent;
  }

  lemma {:induction false} DefaultsAbsent(subfields: seq<Field>)
    requires CompileTable(subfields).Ok?
    ensures forall i | 0 <= i < |subfields| ::
      CompileTable(subfields).value.defaults[i] == NamedVal(subfields[i].name, Absent(subfields[i]))
  {
    hide Absent, CompileMerger, CompileVariants, IsOneof;
    if subfields != [] {
      DefaultsAbsent(subfields[..|subfields| - 1]);
      DefaultAbsent(subfields[|subfields| - 1]);
    }
  }

  lemma DefaultAbsent(f: Field)
    ensures CompileMerger(f).Ok? ==> CompileMerger(f).value.default == Absent(f)
    ensures IsOneof(f) ==> Absent(f) == Opt(None)
  {
    hide CompileMessageMerger;
    if f.coding.ScalarCoding? {
      ScalarAbsent(f);
    } else {
      EnumNameIs(f.subfields, 0);
    }
  }

  lemma ScalarAbsent(f: Field)
    requires f.coding.ScalarCoding?
    ensures CompileMerger(f).Ok? ==> CompileMerger(f).value.default == Absent(f)
  {
    if ScalarOf(f.coding.code).Some? { ScalarTypeIs(f.coding.code); }
    hide ScalarOf;
  }

  /** The record that a request is read as has the fields of its schema. */
  lemma RequestFields(f: Field, m: Merger, a: seq<byte>, fields: seq<NamedVal>)
    requires Decodes(m, f) && DecodeRequest(true, m, a) == Ok(Record(fields))
    ensures m.MessageMerger? && m.shape.InnerRecord? && FieldMergers(m) && |fields| == |f.subfields|
    ensures forall i | 0 <= i < |fields| && IsLeaf(f.subfields[i]) && PresenceOf(f.subfields[i]) in {1, 3} ::
      fields[i].value.List?
    ensures forall i | 0 <= i < |fields| && f.subfields[i].coding == CompoundCoding(7) :: fields[i].value.List?
  {
    hide DecodeRequest, CompileTable;
    CompiledFieldMergers(f, InnerRecord);
    RequestTyped(true, f, a);
    forall i | 0 <= i < |fields| && IsLeaf(f.subfields[i]) && PresenceOf(f.subfields[i]) in {1, 3}
      ensures fields[i].value.List?
    {
      RepeatedTyped(f.subfields[i], fields[i].value);
    }
    forall i | 0 <= i < |fields| && f.subfields[i].coding == CompoundCoding(7) ensures fields[i].value.List? {
      assert Typed(f.subfields[i], fields[i].value);
    }
  }

  lemma RepeatedTyped(f: Field, v: Val)
    requires IsLeaf(f) && PresenceOf(f) in {1, 3} && Typed(f, v)
    ensures v.List?
  {
    if f.coding.ScalarCoding? && ScalarOf(f.coding.code).Some? { ScalarTypeIs(f.coding.code); }
    hide ScalarOf, TypedRecord, ItemTyped;
  }

  /** The record comes to this in the request that it ends. */
  predicate Ends(strict: bool, m: Merger, a: seq<byte>, fields: seq<NamedVal>, r: seq<byte>, i: nat, v: Result<Val, DecodeError>)
    requires m.MessageMerger? && i < |fields|
  {
    DecodeRequest(strict, m, a + r) ==
    match v
    case Ok(w) => Ok(Record(fields[i := NamedVal(fields[i].name, w)]))
    case Err(error) => Err(error)
  }

  /** From what a record does to its slot to what it does to the request. */
  lemma SlotEnds(
    strict: bool, m: Merger, a: seq<byte>, fields: seq<NamedVal>, number: u32, t: Token, v: Result<Val, DecodeError>)
    requires m.MessageMerger? && m.shape.InnerRecord? && FieldMergers(m)
    requires DecodeRequest(true, m, a) == Ok(Record(fields)) && |a + RecordBytes(number, t)| <= U32_MAX
    requires number in m.subfields && m.subfields[number].index < |fields| && TokenCode(t) < 6
    requires var Slot(i, merger) := m.subfields[number];
      MergeField(strict, merger, WireTypeOf(TokenCode(t)), Cursor(|Payload(t)| + 0, Payload(t) + []), fields[i].value)
      == Taken(v, 0, [])
    ensures Ends(strict, m, a, fields, RecordBytes(number, t), m.subfields[number].index, v)
  {
    hide RecordBytes, Payload, TokenCode, WireTypeOf, MergeOne, MergeField, DecodeRequest, FieldMergers, Ends;
    var r, i := RecordBytes(number, t), m.subfields[number].index;
    RecordSome(number, t);
    KnownMerges(strict, m, number, t, fields, 0, []);
    assert r + [] == r;
    PutEnds(strict, m, a, fields, r, i, v);
  }

  function Put(fields: seq<NamedVal>, i: nat, v: Result<Val, DecodeError>): Read<seq<NamedVal>>
    requires i < |fields|
  {
    match v
    case Ok(w) => Ok((fields[i := NamedVal(fields[i].name, w)], Cursor(0, [])))
    case Err(error) => Err(error)
  }

  lemma PutEnds(
    strict: bool, m: Merger, a: seq<byte>, fields: seq<NamedVal>, r: seq<byte>, i: nat, v: Result<Val, DecodeError>)
    requires m.MessageMerger? && m.shape.InnerRecord? && FieldMergers(m) && i < |fields| && r != []
    requires DecodeRequest(true, m, a) == Ok(Record(fields)) && |a + r| <= U32_MAX
    requires MergeOne(strict, m, Cursor(|r|, r), fields) == Put(fields, i, v)
    ensures Ends(strict, m, a, fields, r, i, v)
  {
    hide MergeOne, DecodeRequest, FieldMergers;
    OneMore(strict, m, a, fields, r);
  }

  /**
    * A record at the end of a request, of a scalar or an enumeration, is read as its coding says: into
    * its field or its oneof, after whatever the field held before. Everything else stays.
    */
  lemma LeafRecord(strict: bool, f: Field, m: Merger, a: seq<byte>, fields: seq<NamedVal>, number: u32, t: Token)
    requires Decodes(m, f) && DecodeRequest(true, m, a) == Ok(Record(fields))
    requires |a + RecordBytes(number, t)| <= U32_MAX
    requires PlaceOf(f.subfields, number).Some? && IsLeaf(At(f.subfields, PlaceOf(f.subfields, number).value))
    requires var g := At(f.subfields, PlaceOf(f.subfields, number).value);
      PresenceOf(g) in {1, 3} ==> !(t.Chunk? && Packs(LeafOf(g)))
    ensures |fields| == |f.subfields|
    ensures var place := PlaceOf(f.subfields, number).value;
      Ends(strict, m, a, fields, RecordBytes(number, t), place.index,
           PlaceRead(f.subfields, place, fields[place.index].value, t))
  {
    var place := PlaceOf(f.subfields, number).value;
    RequestFields(f, m, a, fields);
    SlotOfPlace(f.subfields, number);
    RecordSome(number, t);
    CodeIsKind(t);
    var v := PlaceRead(f.subfields, place, fields[place.index].value, t);
    assert t.Chunk? ==> |t.bytes| <= U32_MAX;
    hide DecodeRequest, RecordBytes, MergeField, PlaceRead, Payload, WireTypeOf, FieldMergers, Ends, TokenCode;
    SlotReads(strict, f.subfields, place, m.subfields[number], t, fields[place.index].value);
    SlotEnds(strict, m, a, fields, number, t, v);
  }

  lemma SlotReads(strict: bool, subfields: seq<Field>, place: Place, slot: Slot, t: Token, before: Val)
    requires place.index < |subfields|
    requires place.variant.Some? ==> place.variant.value < |subfields[place.index].subfields|
    requires SlotAt(subfields, place, slot) && IsLeaf(At(subfields, place)) && TokenCode(t) < 6
    requires t.Chunk? ==> |t.bytes| <= U32_MAX
    requires var g := At(subfields, place);
      PresenceOf(g) in {1, 3} ==> !(t.Chunk? && Packs(LeafOf(g))) && (place.variant.None? ==> before.List?)
    ensures MergeField(strict, slot.merger, WireTypeOf(TokenCode(t)), Cursor(|Payload(t)| + 0, Payload(t) + []), before)
         == Taken(PlaceRead(subfields, place, before, t), 0, [])
  {
    hide MergeField, LeafOf, PresenceOf, PlaceRead, Payload, WireTypeOf, TokenCode, IsLeaf, CompileMerger, CompileVariant;
    hide MergeItemOf, Packs;
    var g := At(subfields, place);
    LeafMergerCompiled(g);
    if place.variant.None? {
      LeafMerges(strict, g, slot.merger, t, before, 0, []);
      PlainPlace(subfields, place, before, t);
    } else {
      LeafMerges(strict, g, slot.merger.inner, t, Opt(None), 0, []);
      VariantMerges(strict, g, slot.merger, t, before, 0, []);
      VariantPlace(subfields, place, before, t);
    }
  }

  lemma PlainPlace(subfields: seq<Field>, place: Place, before: Val, t: Token)
    requires place.index < |subfields| && place.variant.None? && IsLeaf(subfields[place.index])
    ensures PlaceRead(subfields, place, before, t)
         == LeafRead(PresenceOf(subfields[place.index]), LeafOf(subfields[place.index]), before, t)
  {
  }

  lemma VariantPlace(subfields: seq<Field>, place: Place, before: Val, t: Token)
    requires place.index < |subfields| && place.variant.Some? && place.variant.value < |subfields[place.index].subfields|
    requires IsLeaf(At(subfields, place))
    ensures PlaceRead(subfields, place, before, t) == VariantRead(At(subfields, place), t)
  {
    hide LeafValue;
  }

  function VariantRead(f: Field, t: Token): Result<Val, DecodeError>
    requires IsLeaf(f)
  {
    match LeafValue(LeafOf(f), t)
    case Ok(v) => Ok(Opt(Some(Variant(f.name, Some(v)))))
    case Err(error) => Err(error)
  }

  lemma VariantMerges(strict: bool, f: Field, m: Merger, t: Token, before: Val, limit: nat, rest: seq<byte>)
    requires IsLeaf(f) && PresenceOf(f) == 2 && m.VariantMerger? && m.variant == f.name && TokenCode(t) < 6
    requires MergeField(strict, m.inner, WireTypeOf(TokenCode(t)), Cursor(|Payload(t)| + limit, Payload(t) + rest), Opt(None))
          == Taken(LeafRead(2, LeafOf(f), Opt(None), t), limit, rest)
    ensures MergeField(strict, m, WireTypeOf(TokenCode(t)), Cursor(|Payload(t)| + limit, Payload(t) + rest), before)
         == Taken(VariantRead(f, t), limit, rest)
  {
    hide LeafValue, Payload, WireTypeOf, TokenCode, LeafOf, DecodeItem, MergeNested, MergeItemInto;
  }

  function Added(before: seq<Val>, items: Result<seq<Val>, DecodeError>): Result<Val, DecodeError> {
    match items
    case Ok(vs) => Ok(List(before + vs))
    case Err(error) => Err(error)
  }

  /** The field of the place is a list of items that may come packed. */
  predicate PacksAt(fields: seq<Field>, place: Place) {
    && place.index < |fields| && place.variant.None? && IsLeaf(fields[place.index])
    && PresenceOf(fields[place.index]) in {1, 3} && Packs(LeafOf(fields[place.index]))
  }

  /** A packed record adds its items, in order, to those the field held before. */
  lemma PackedRecord(
    strict: bool, f: Field, m: Merger, a: seq<byte>, fields: seq<NamedVal>, number: u32, i: nat, ts: seq<Token>)
    requires Decodes(m, f) && DecodeRequest(true, m, a) == Ok(Record(fields))
    requires |a + RecordBytes(number, Chunk(Payloads(ts)))| <= U32_MAX
    requires PlaceOf(f.subfields, number) == Some(Place(i, None)) && PacksAt(f.subfields, Place(i, None))
    requires Kindred(LeafOf(f.subfields[i]), ts)
    ensures |fields| == |f.subfields| && fields[i].value.List?
    ensures Ends(strict, m, a, fields, RecordBytes(number, Chunk(Payloads(ts))), i,
                 Added(fields[i].value.items, LeafValues(LeafOf(f.subfields[i]), ts)))
  {
    hide DecodeRequest, RecordBytes, MergeField, LeafOf, PresenceOf, Payload, Payloads, FieldMergers, Ends, MergeItemOf;
    hide LeafValues, Kindred, Packs, CompileMerger;
    var t, g := Chunk(Payloads(ts)), f.subfields[i];
    RequestFields(f, m, a, fields);
    SlotOfPlace(f.subfields, number);
    LeafMergerCompiled(g);
    hide IsLeaf;
    RecordSome(number, t);
    CodeIsKind(t);
    PackedMerges(strict, g, m.subfields[number].merger, ts, fields[i].value.items, 0, []);
    SlotEnds(strict, m, a, fields, number, t, Added(fields[i].value.items, LeafValues(LeafOf(g), ts)));
  }

  // ---------------------------------------------------------------------------------------
  // Messages in requests
  // ---------------------------------------------------------------------------------------

  predicate IsMessage(f: Field) {
    f.coding == CompoundCoding(6) || f.coding == CompoundCoding(7)
  }

  /** What a place holds after a message that was read as the record `v`. */
  function MessageRead(fields: seq<Field>, place: Place, before: Val, v: Val): Val
    requires place.index < |fields|
    requires place.variant.Some? ==> place.variant.value < |fields[place.index].subfields|
  {
    var f := At(fields, place);
    if place.variant.Some? then Opt(Some(Variant(f.name, Some(v))))
    else if f.coding == CompoundCoding(6) then Opt(Some(v))
    else if before.List? then List(before.items + [v])
    else before
  }

  /** The merger of a message field has the tables of the decoder of that message. */
  predicate MessageMergerOf(m: Merger, f: Field, inner: Merger) {
    && m.MessageMerger? && inner == m.(shape := InnerRecord) && FieldMergers(m)
    && Decodes(inner, f)
    && (f.coding == CompoundCoding(6) ==> m.shape.OptionalRecord?)
    && (f.coding == CompoundCoding(7) ==> m.shape.ListOfRecords?)
  }

  lemma MessageMergerCompiled(f: Field)
    requires IsMessage(f)
    ensures CompileMerger(f).Ok? ==>
      && CompileMerger(f).value.merger.MessageMerger?
      && MessageMergerOf(CompileMerger(f).value.merger, f, CompileMerger(f).value.merger.(shape := InnerRecord))
    ensures CompileVariant(f).Ok? ==>
      && CompileVariant(f).value.VariantMerger? && CompileVariant(f).value.variant == f.name
      && CompileVariant(f).value.inner.MessageMerger? && f.coding == CompoundCoding(6)
      && MessageMergerOf(CompileVariant(f).value.inner, f, CompileVariant(f).value.inner.(shape := InnerRecord))
  {
    hide CompileTable, FieldMergers;
    if CompileTable(f.subfields).Ok? {
      CompiledFieldMergers(f, OptionalRecord);
      CompiledFieldMergers(f, ListOfRecords);
    }
  }

  /** A message at a place is read as its bytes are read as a request of its own. */
  lemma MessageReads(
    strict: bool, subfields: seq<Field>, place: Place, slot: Slot, inner: Merger, bytes: seq<byte>, v: Val, before: Val)
    requires place.index < |subfields|
    requires place.variant.Some? ==> place.variant.value < |subfields[place.index].subfields|
    requires SlotAt(subfields, place, slot) && IsMessage(At(subfields, place))
    requires At(subfields, place).coding == CompoundCoding(7) && place.variant.None? ==> before.List?
    requires Decodes(inner, At(subfields, place)) && DecodeRequest(true, inner, bytes) == Ok(v)
    ensures MergeField(strict, slot.merger, LengthDelimited, Cursor(|Payload(Chunk(bytes))| + 0, Payload(Chunk(bytes)) + []), before)
         == Ok((MessageRead(subfields, place, before, v), Cursor(0, [])))
  {
    hide CompileMerger, CompileVariant, CompileMessageMerger, DecodeRequest, Payload, MergeNested, FieldMergers;
    hide MergeItemInto, MergeFields;
    var g := At(subfields, place);
    MessageMergerCompiled(g);
    if place.variant.None? {
      NestedReads(strict, slot.merger, inner, bytes, v, 0, []);
    } else {
      NestedReads(strict, slot.merger.inner, inner, bytes, v, 0, []);
    }
  }

  /** A record of a message at the end of a request. */
  lemma MessageRecord(
    strict: bool, f: Field, m: Merger, a: seq<byte>, fields: seq<NamedVal>, number: u32, inner: Merger,
    bytes: seq<byte>, v: Val)
    requires Decodes(m, f) && DecodeRequest(true, m, a) == Ok(Record(fields))
    requires |a + RecordBytes(number, Chunk(bytes))| <= U32_MAX
    requires PlaceOf(f.subfields, number).Some? && IsMessage(At(f.subfields, PlaceOf(f.subfields, number).value))
    requires Decodes(inner, At(f.subfields, PlaceOf(f.subfields, number).value))
    requires DecodeRequest(true, inner, bytes) == Ok(v)
    ensures |fields| == |f.subfields|
    ensures var place := PlaceOf(f.subfields, number).value;
      Ends(strict, m, a, fields, RecordBytes(number, Chunk(bytes)), place.index,
           Ok(MessageRead(f.subfields, place, fields[place.index].value, v)))
  {
    hide DecodeRequest, RecordBytes, MergeField, Payload, FieldMergers, Ends, IsMessage, MessageRead, CompileMerger, CompileVariant;
    var place := PlaceOf(f.subfields, number).value;
    RequestFields(f, m, a, fields);
    SlotOfPlace(f.subfields, number);
    CodeIsKind(Chunk(bytes));
    MessageReads(strict, f.subfields, place, m.subfields[number], inner, bytes, v, fields[place.index].value);
    SlotEnds(strict, m, a, fields, number, Chunk(bytes), Ok(MessageRead(f.subfields, place, fields[place.index].value, v)));
  }

  /** A record of a number that the schema does not have changes nothing, wherever it stands. */
  lemma UnknownRecord(strict: bool, f: Field, m: Merger, a: seq<byte>, number: u32, t: Token, b: seq<byte>)
    requires Decodes(m, f) && PlaceOf(f.subfields, number).None?
    requires DecodeRequest(true, m, a).Ok? && |a + RecordBytes(number, t) + b| <= U32_MAX
    ensures DecodeRequest(strict, m, a + RecordBytes(number, t) + b) == DecodeRequest(strict, m, a + b)
  {
    hide DecodeRequest, RecordBytes, CompileTable, FieldMergers;
    CompiledFieldMergers(f, InnerRecord);
    SlotOfPlace(f.subfields, number);
    UnknownIgnored(strict, m, a, number, t, b);
  }

  // ---------------------------------------------------------------------------------------
  // What is no record
  // ---------------------------------------------------------------------------------------

  /** The request fails on what follows a front that is a request of its own. */
  lemma FailsAt(strict: bool, m: Merger, a: seq<byte>, fields: seq<NamedVal>, b: seq<byte>, error: DecodeError)
    requires m.MessageMerger? && m.shape.InnerRecord? && FieldMergers(m) && b != []
    requires DecodeRequest(true, m, a) == Ok(Record(fields)) && |a + b| <= U32_MAX
    requires MergeOne(strict, m, Cursor(|b|, b), fields) == Err(error)
    ensures DecodeRequest(strict, m, a + b) == Err(error)
  {
    hide MergeOne, DecodeRequest, FieldMergers;
    GoesOn(strict, m, a, fields, b);
  }

  lemma FailsAfter(strict: bool, m: Merger, a: seq<byte>, b: seq<byte>, error: DecodeError)
    requires m.MessageMerger? && m.shape.InnerRecord? && FieldMergers(m) && b != []
    requires DecodeRequest(true, m, a).Ok? && |a + b| <= U32_MAX
    requires forall fields :: MergeOne(strict, m, Cursor(|b|, b), fields) == Err(error)
    ensures DecodeRequest(strict, m, a + b) == Err(error)
  {
    var v := DecodeRequest(true, m, a).value;
    RequestIsFields(m, a, v);
    hide MergeOne, DecodeRequest, FieldMergers;
    assert v == Record(v.fields);
    FailsAt(strict, m, a, v.fields, b, error);
  }

  /** Numbers of fields have at most 32 bits. */
  lemma BadNumber(strict: bool, m: Merger, a: seq<byte>, tag: u64, b: seq<byte>)
    requires m.MessageMerger? && m.shape.InnerRecord? && FieldMergers(m) && tag >= 8 * 0x1_0000_0000
    requires DecodeRequest(true, m, a).Ok? && |a + (EncodeVarint(tag) + b)| <= U32_MAX
    ensures DecodeRequest(strict, m, a + (EncodeVarint(tag) + b)) == Err(InvalidFieldNumber)
  {
    hide *;
    BigTag(strict, m, tag, b);
    FailsAfter(strict, m, a, EncodeVarint(tag) + b, InvalidFieldNumber);
  }

  lemma BigTag(strict: bool, m: Merger, tag: u64, b: seq<byte>)
    requires m.MessageMerger? && tag >= 8 * 0x1_0000_0000
    ensures forall fields ::
      MergeOne(strict, m, Cursor(|EncodeVarint(tag) + b|, EncodeVarint(tag) + b), fields) == Err(InvalidFieldNumber)
  {
    hide ReadVarint, EncodeVarint, MergeField, Skip;
    ReadVarintInverts(strict, tag, |b|, b, InvalidTagVarint);
    assert tag / 8 > U32_MAX;
  }

  /** There are no wire codes 6 and 7. */
  lemma BadCode(strict: bool, m: Merger, a: seq<byte>, number: u32, code: nat, b: seq<byte>)
    requires m.MessageMerger? && m.shape.InnerRecord? && FieldMergers(m) && code in {6, 7}
    requires DecodeRequest(true, m, a).Ok? && |a + (EncodeVarint(8 * number + code) + b)| <= U32_MAX
    ensures DecodeRequest(strict, m, a + (EncodeVarint(8 * number + code) + b)) == Err(InvalidWireType)
  {
    hide *;
    var r := EncodeVarint(8 * number + code) + b;
    BadTag(strict, m, number, code, b);
    FailsAfter(strict, m, a, r, InvalidWireType);
  }

  lemma BadTag(strict: bool, m: Merger, number: u32, code: nat, b: seq<byte>)
    requires m.MessageMerger? && code in {6, 7}
    ensures var r := EncodeVarint(8 * number + code) + b;
      forall fields :: MergeOne(strict, m, Cursor(|r|, r), fields) == Err(InvalidWireType)
  {
    hide ReadVarint, EncodeVarint, MergeField, Skip;
    var tag: u64 := 8 * number + code;
    ReadVarintInverts(strict, tag, |b|, b, InvalidTagVarint);
    TagParts(number, code);
    assert ReadTag(strict, Cursor(|EncodeVarint(tag) + b|, EncodeVarint(tag) + b)) == Err(InvalidWireType);
  }

  /** A record of an unknown number whose payload goes beyond the end of the request. */
  lemma CutShort(strict: bool, m: Merger, a: seq<byte>, number: u32, code: nat, b: seq<byte>)
    requires m.MessageMerger? && m.shape.InnerRecord? && FieldMergers(m) && number !in m.subfields
    requires DecodeRequest(true, m, a).Ok? && |a + (EncodeVarint(8 * number + code) + b)| <= U32_MAX
    requires (code == 1 && |b| < 8) || (code == 5 && |b| < 4)
          || (code == 2 && exists n: u32 :: EncodeVarint(n) <= b && |b| < |EncodeVarint(n)| + n)
    ensures DecodeRequest(strict, m, a + (EncodeVarint(8 * number + code) + b)) == Err(BufferOverflow)
  {
    SkipCut(strict, code, b);
    hide *;
    var r := EncodeVarint(8 * number + code) + b;
    CutRecord(strict, m, number, code, b);
    FailsAfter(strict, m, a, r, BufferOverflow);
  }

  lemma CutRecord(strict: bool, m: Merger, number: u32, code: nat, b: seq<byte>)
    requires m.MessageMerger? && number !in m.subfields && code < 6
    requires Skip(strict, WireTypeOf(code), Cursor(|b|, b)) == Err(BufferOverflow)
    ensures var r := EncodeVarint(8 * number + code) + b;
      forall fields :: MergeOne(strict, m, Cursor(|r|, r), fields) == Err(BufferOverflow)
  {
    hide EncodeVarint, MergeField, ReadTag, Skip, WireTypeOf;
    TagReads(strict, number, code, |b|, b);
  }

  lemma SkipCut(strict: bool, code: nat, b: seq<byte>)
    requires (code == 1 && |b| < 8) || (code == 5 && |b| < 4)
          || (code == 2 && exists n: u32 :: EncodeVarint(n) <= b && |b| < |EncodeVarint(n)| + n)
    ensures Skip(strict, WireTypeOf(code), Cursor(|b|, b)) == Err(BufferOverflow)
  {
    hide ReadVarint, EncodeVarint, ReadLength;
    if code == 2 { ChunkCut(strict, b); }
  }

  lemma ChunkCut(strict: bool, b: seq<byte>)
    requires exists n: u32 :: EncodeVarint(n) <= b && |b| < |EncodeVarint(n)| + n
    ensures ReadLength(strict, Cursor(|b|, b)) == Err(BufferOverflow)
  {
    hide EncodeVarint, ReadVarint;
    var n: u32 :| EncodeVarint(n) <= b && |b| < |EncodeVarint(n)| + n;
    var rest := b[|EncodeVarint(n)|..];
    assert b == EncodeVarint(n) + rest;
    ReadVarintInverts(strict, n, |rest|, rest, InvalidLengthVarint);
  }

  /** How many bytes a coding takes whatever the value, if it does. */
  function FixedWidth(f: Field): nat
    requires IsLeaf(f)
  {
    if !f.coding.ScalarCoding? then 0
    else if f.coding.code in {24, 25, 26, 27, 32, 33, 34, 35, 56, 57, 58, 59} then 4
    else if f.coding.code in {44, 45, 46, 47, 52, 53, 54, 55, 60, 61, 62, 63} then 8
    else 0
  }

  /** A word of a known field that goes beyond the end of the request is refused as an underflow. */
  lemma WordCutShort(strict: bool, f: Field, m: Merger, a: seq<byte>, fields: seq<NamedVal>, number: u32, i: nat, b: seq<byte>)
    requires Decodes(m, f) && DecodeRequest(true, m, a) == Ok(Record(fields))
    requires PlaceOf(f.subfields, number) == Some(Place(i, None)) && IsLeaf(f.subfields[i])
    requires FixedWidth(f.subfields[i]) > 0 && |b| < FixedWidth(f.subfields[i])
    requires var code := if FixedWidth(f.subfields[i]) == 4 then 5 else 1;
      |a + (EncodeVarint(8 * number + code) + b)| <= U32_MAX
    ensures var code := if FixedWidth(f.subfields[i]) == 4 then 5 else 1;
      DecodeRequest(strict, m, a + (EncodeVarint(8 * number + code) + b)) == Err(BufferUnderflow)
  {
    var g := f.subfields[i];
    var code := if FixedWidth(g) == 4 then 5 else 1;
    RequestFields(f, m, a, fields);
    SlotOfPlace(f.subfields, number);
    LeafMergerCompiled(g);
    var merger := m.subfields[number].merger;
    hide DecodeRequest, FieldMergers, EncodeVarint, CompileMerger, PlaceOf, FixedWidth, LeafOf, PresenceOf;
    WordCut(strict, g, merger, b, fields[i].value);
    KnownFails(strict, m, number, code, b, fields, BufferUnderflow);
    FailsAt(strict, m, a, fields, EncodeVarint(8 * number + code) + b, BufferUnderflow);
  }

  lemma WordCut(strict: bool, f: Field, m: Merger, b: seq<byte>, before: Val)
    requires IsLeaf(f) && MergerOf(m, f) && FixedWidth(f) > 0 && |b| < FixedWidth(f)
    requires PresenceOf(f) in {1, 3} ==> before.List?
    ensures MergeField(strict, m, WireTypeOf(if FixedWidth(f) == 4 then 5 else 1), Cursor(|b|, b), before) == Err(BufferUnderflow)
  {
    assert m == ItemMerger(m.item, m.form) && (m.form.IntoList? ==> before.List?);
    WordItem(f, m.item);
    hide *;
    var code := if FixedWidth(f) == 4 then 5 else 1;
    KindMerges(strict, m.item, m.form, WireTypeOf(code), Cursor(|b|, b), before);
    ItemCut(strict, m.item, FixedWidth(f), b);
  }

  lemma WordItem(f: Field, item: MergeItem)
    requires IsLeaf(f) && FixedWidth(f) > 0 && MergeItemOf(item, LeafOf(f))
    ensures item.ReadScalar? && IsFixed(item.scalarType) && Width(item.scalarType) == FixedWidth(f)
    ensures ItemWireType(item) == WireTypeOf(if FixedWidth(f) == 4 then 5 else 1)
  {
    ScalarTypeIs(f.coding.code);
    hide ScalarOf;
  }

  lemma ItemCut(strict: bool, item: MergeItem, width: nat, b: seq<byte>)
    requires item.ReadScalar? && IsFixed(item.scalarType) && Width(item.scalarType) == width && |b| < width
    ensures DecodeItem(strict, item, Cursor(|b|, b)) == Err(BufferUnderflow)
  {
  }

  lemma KnownFails(
    strict: bool, m: Merger, number: u32, code: nat, b: seq<byte>, fields: seq<NamedVal>, error: DecodeError)
    requires m.MessageMerger? && number in m.subfields && m.subfields[number].index < |fields| && code < 6
    requires var Slot(i, merger) := m.subfields[number];
      MergeField(strict, merger, WireTypeOf(code), Cursor(|b|, b), fields[i].value) == Err(error)
    ensures var r := EncodeVarint(8 * number + code) + b;
      MergeOne(strict, m, Cursor(|r|, r), fields) == Err(error)
  {
    hide EncodeVarint, MergeField, ReadTag, Skip, WireTypeOf;
    TagReads(strict, number, code, |b|, b);
  }

  // ---------------------------------------------------------------------------------------
  // Which schemas have decoders
  // ---------------------------------------------------------------------------------------

  lemma {:induction false} DecodableExact(f: Field)
    ensures CompileMerger(f).Ok? || (IsOneof(f) && AllVariants(f.subfields)) <==> Decodable(f)
    ensures CompileVariant(f).Ok? <==> DecodableVariant(f)
    decreases f, 2
  {
    hide CompileTable, CompileVariants, EnumNames;
    if f.coding.CompoundCoding? {
      EnumNameIs(f.subfields, 0);
      TableDecodable(f, |f.subfields|);
      assert f.subfields[..|f.subfields|] == f.subfields;
      forall j | 0 <= j < |f.subfields|
        ensures CompileVariant(f.subfields[j]).Ok? <==> DecodableVariant(f.subfields[j])
      {
        DecodableExact(f.subfields[j]);
      }
    }
    hide DecodableVariant, CompileVariant;
  }

  predicate AllVariants(variants: seq<Field>) {
    forall j | 0 <= j < |variants| :: CompileVariant(variants[j]).Ok?
  }

  lemma {:induction false} VariantsCompile(slots: map<u32, Slot>, index: nat, variants: seq<Field>)
    ensures CompileVariants(slots, index, variants).Ok? <==> AllVariants(variants)
  {
    hide CompileVariant;
    if variants != [] { VariantsCompile(slots, index, variants[..|variants| - 1]); }
  }

  /** The table of a message compiles if and only if all its fields are decodable. */
  lemma {:induction false} TableDecodable(f: Field, n: nat)
    requires n <= |f.subfields|
    ensures CompileTable(f.subfields[..n]).Ok? <==> forall i | 0 <= i < n :: Decodable(f.subfields[i])
    decreases f, 1, n
  {
    hide CompileMerger, Decodable, CompileVariants, IsOneof, AllVariants;
    if n > 0 {
      var g := f.subfields[n - 1];
      assert f.subfields[..n][..n - 1] == f.subfields[..n - 1];
      TableDecodable(f, n - 1);
      DecodableExact(g);
      OneofMerger(g);
      if CompileTable(f.subfields[..n - 1]).Ok? {
        VariantsCompile(CompileTable(f.subfields[..n - 1]).value.slots, n - 1, g.subfields);
      }
    }
  }

  lemma OneofMerger(f: Field)
    ensures IsOneof(f) ==> CompileMerger(f).Err?
  {
  }

  /** A schema has a decoder if and only if all its fields are decodable. */
  lemma DecoderExact(f: Field)
    ensures CompileMessageMerger(f, InnerRecord).Ok? <==> AllDecodable(f)
  {
    TableDecodable(f, |f.subfields|);
    assert f.subfields[..|f.subfields|] == f.subfields;
    hide CompileTable, Decodable;
  }

  /** The error for a field, or for a variant of a oneof, that has no merger whatever its own fields are. */
  function FieldRefusal(f: Field, inOneof: bool): Option<SchemaError> {
    match f.coding
    case NoCoding => Some(MissingCoding)
    case ScalarCoding(code) =>
      if inOneof && (code < 0 || code % 4 != 2) then Some(NotExplicit)
      else if 0 <= code <= 63 && code !in {1, 5, 9} then None
      else Some(InvalidScalarCoding)
    case CompoundCoding(code) =>
      if code !in {0, 1, 2, 3, 6, 7, 8} then Some(InvalidCompoundCoding)
      else if inOneof && code !in {2, 6} then Some(NotExplicit)
      else if code == 0 && LastNumbered(f.subfields, 0).None? then Some(ImplicitEnumWithoutDefault)
      else None
  }

  lemma FieldRefused(f: Field)
    ensures FieldRefusal(f, false).Some? ==> CompileMerger(f) == Err(FieldRefusal(f, false).value)
    ensures FieldRefusal(f, true).Some? ==> CompileVariant(f) == Err(FieldRefusal(f, true).value)
  {
    hide CompileTable, LastNumbered;
    EnumNameIs(f.subfields, 0);
  }
}
