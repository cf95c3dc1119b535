/**
  * Padded varints. A merge takes from the buffer at least what it takes from the budget, and no
  * more exactly when every varint was minimal; unless the buffer ended within a string, which is
  * then cut short. So a request decodes with its strings whole if and only if it is minimal.
  */
module Padding {
  import opened Prelude
  import opened Wire
  import opened Values
  import opened Reading
  import opened Scalars
  import opened Merging
  import opened Accounting

  // ---------------------------------------------------------------------------------------
  // Whole strings
  // ---------------------------------------------------------------------------------------

  predicate ReadsString(item: MergeItem) {
    item.ReadScalar? && IsStringy(item.scalarType) && !item.scalarType.BytesType?
  }

  /** The string that is next in the buffer, if it is a string, is there in full. */
  predicate ItemWhole(item: MergeItem, c: Cursor) {
    ReadsString(item) && ReadLength(false, c).Ok? ==>
      ReadLength(false, c).value.0 <= |ReadLength(false, c).value.1.rest|
  }

  /** No string that the decoder's merge reads is cut short by the end of the buffer. */
  predicate FieldWhole(m: Merger, wireType: WireType, c: Cursor, dst: Val)
    decreases c.limit, 3, m
  {
    match m
    case ItemMerger(item, _) => ItemWhole(item, c)
    case MessageMerger(InnerRecord, _, _) => dst.Record? ==> FieldsWhole(m, c, dst.fields)
    case MessageMerger(_, _, _) => NestedWhole(m, c)
    case VariantMerger(_, inner) => FieldWhole(inner, wireType, c, Opt(None))
  }

  predicate NestedWhole(m: Merger, c: Cursor)
    requires m.MessageMerger?
    decreases c.limit, 2
  {
    match ReadLength(false, c)
    case Err(_) => true
    case Ok((length, c1)) => FieldsWhole(m, Cursor(length, c1.rest), m.defaults)
  }

  predicate FieldsWhole(m: Merger, c: Cursor, fields: seq<NamedVal>)
    requires m.MessageMerger?
    decreases c.limit, 1
  {
    c.limit > 0 ==>
      && OneWhole(m, c, fields)
      && match MergeOne(false, m, c, fields)
         case Err(_) => true
         case Ok((fields1, c1)) => FieldsWhole(m, c1, fields1)
  }

  predicate OneWhole(m: Merger, c: Cursor, fields: seq<NamedVal>)
    requires m.MessageMerger?
    decreases c.limit, 0
  {
    match ReadTag(false, c)
    case Err(_) => true
    case Ok(((number, wireType), c1)) =>
      number in m.subfields && m.subfields[number].index < |fields| ==>
        var slot := m.subfields[number];
        FieldWhole(slot.merger, wireType, c1, fields[slot.index].value)
  }

  predicate RequestWhole(m: Merger, src: seq<byte>)
    requires m.MessageMerger?
  {
    FieldWhole(m, LengthDelimited, Cursor(|src|, src), Record(m.defaults))
  }

  // ---------------------------------------------------------------------------------------
  // Weighing the decoder's reads
  // ---------------------------------------------------------------------------------------

  /** At least as many bytes are read as are charged; if just as many, the strict read is the same. */
  predicate Heavy<T(==)>(c: Cursor, strict: Read<T>, lax: Read<T>) {
    lax.Ok? ==>
      var d := lax.value.1;
      && |d.rest| <= |c.rest|
      && c.limit - d.limit <= |c.rest| - |d.rest|
      && (c.limit - d.limit == |c.rest| - |d.rest| ==> strict == lax)
  }

  lemma ReadVarintHeavy(c: Cursor, error: DecodeError)
    ensures Heavy(c, ReadVarint(true, c, error), ReadVarint(false, c, error))
  {
  }

  lemma ReadTagHeavy(c: Cursor)
    ensures Heavy(c, ReadTag(true, c), ReadTag(false, c))
  {
    hide ReadVarint;
    ReadVarintHeavy(c, InvalidTagVarint);
  }

  /** The length alone: the bytes it covers are charged but not yet read. */
  lemma ReadLengthHeavy(c: Cursor)
    ensures ReadLength(false, c).Ok? ==>
      var (length, c1) := ReadLength(false, c).value;
      && |c1.rest| <= |c.rest|
      && c.limit - (c1.limit + length) <= |c.rest| - |c1.rest|
      && (c.limit - (c1.limit + length) == |c.rest| - |c1.rest| ==> ReadLength(true, c) == ReadLength(false, c))
  {
    hide ReadVarint;
    ReadVarintHeavy(c, InvalidLengthVarint);
  }

  lemma SkipHeavy(wireType: WireType, c: Cursor)
    ensures Heavy(c, Skip(true, wireType, c), Skip(false, wireType, c))
  {
    hide ReadVarint, ReadLength;
    ReadVarintHeavy(c, InvalidVarint);
    ReadLengthHeavy(c);
  }

  lemma StringHeavy(validate: bool, c: Cursor)
    requires ReadLength(false, c).Ok? ==> ReadLength(false, c).value.0 <= |ReadLength(false, c).value.1.rest|
    ensures Heavy(c, ReadString(true, validate, c), ReadString(false, validate, c))
  {
    hide ReadLength, ValidUtf8;
    ReadLengthHeavy(c);
  }

  lemma DecodeScalarHeavy(t: ScalarType, c: Cursor)
    requires ItemWhole(ReadScalar(t), c)
    ensures Heavy(c, DecodeScalar(true, t, c), DecodeScalar(false, t, c))
  {
    hide ReadVarint, ReadLength, ReadString, FromVarint, OctetVals, FromLittleEndian;
    if t.BytesType? {
      ReadLengthHeavy(c);
    } else if IsStringy(t) {
      StringHeavy(t.StringUtf8?, c);
    } else {
      ReadVarintHeavy(c, InvalidVarint);
    }
  }

  lemma DecodeItemHeavy(item: MergeItem, c: Cursor)
    requires ItemWhole(item, c)
    ensures Heavy(c, DecodeItem(true, item, c), DecodeItem(false, item, c))
  {
    hide DecodeScalar, ReadVarint, ReadLength;
    match item
    case ReadScalar(t) => DecodeScalarHeavy(t, c);
    case ReadEnum(_) => ReadVarintHeavy(c, InvalidVarint);
  }

  lemma {:induction false} DecodePackedHeavy(item: MergeItem, c: Cursor)
    requires !ReadsString(item)
    ensures Heavy(c, DecodePacked(true, item, c), DecodePacked(false, item, c))
    decreases c.limit
  {
    hide DecodeItem, ReadLength;
    if c.limit > 0 {
      DecodeItemHeavy(item, c);
      if DecodeItem(false, item, c).Ok? { DecodePackedHeavy(item, DecodeItem(false, item, c).value.1); }
    }
  }

  lemma MergeItemHeavy(item: MergeItem, form: MergeForm, wireType: WireType, c: Cursor, dst: Val)
    requires ItemWhole(item, c)
    ensures Heavy(c, MergeItemInto(true, item, form, wireType, c, dst), MergeItemInto(false, item, form, wireType, c, dst))
  {
    hide DecodeItem, ReadLength, DecodePacked, ItemWhole;
    DecodeItemHeavy(item, c);
    ReadLengthHeavy(c);
    if !ReadsString(item) && ReadLength(false, c).Ok? {
      var (length, c1) := ReadLength(false, c).value;
      DecodePackedHeavy(item, Cursor(length, c1.rest));
    }
  }

  lemma {:induction false} FieldHeavy(m: Merger, wireType: WireType, c: Cursor, dst: Val)
    requires FieldWhole(m, wireType, c, dst)
    ensures Heavy(c, MergeField(true, m, wireType, c, dst), MergeField(false, m, wireType, c, dst))
    decreases c.limit, 3, m
  {
    hide MergeItemInto, MergeNested, MergeFields, NestedWhole, FieldsWhole, ItemWhole;
    match m
    case ItemMerger(item, form) => MergeItemHeavy(item, form, wireType, c, dst);
    case MessageMerger(shape, _, _) =>
      if shape.InnerRecord? {
        if dst.Record? { FieldsHeavy(m, c, dst.fields); }
      } else {
        NestedHeavy(m, wireType, c);
        NestedFieldHeavy(m, wireType, c, dst);
      }
    case VariantMerger(_, inner) => FieldHeavy(inner, wireType, c, Opt(None));
  }

  lemma NestedFieldHeavy(m: Merger, wireType: WireType, c: Cursor, dst: Val)
    requires m.MessageMerger? && !m.shape.InnerRecord?
    requires Heavy(c, MergeNested(true, m, wireType, c), MergeNested(false, m, wireType, c))
    ensures Heavy(c, MergeField(true, m, wireType, c, dst), MergeField(false, m, wireType, c, dst))
  {
    hide MergeNested, MergeFields;
  }

  lemma {:induction false} NestedHeavy(m: Merger, wireType: WireType, c: Cursor)
    requires m.MessageMerger? && NestedWhole(m, c)
    ensures Heavy(c, MergeNested(true, m, wireType, c), MergeNested(false, m, wireType, c))
    decreases c.limit, 2
  {
    hide ReadLength, MergeFields, FieldsWhole;
    ReadLengthHeavy(c);
    if ReadLength(false, c).Ok? {
      var (length, c1) := ReadLength(false, c).value;
      FieldsHeavy(m, Cursor(length, c1.rest), m.defaults);
    }
  }

  lemma {:induction false} FieldsHeavy(m: Merger, c: Cursor, fields: seq<NamedVal>)
    requires m.MessageMerger? && FieldsWhole(m, c, fields)
    ensures Heavy(c, MergeFields(true, m, c, fields), MergeFields(false, m, c, fields))
    decreases c.limit, 1
  {
    hide MergeOne, OneWhole;
    if c.limit > 0 {
      OneHeavy(m, c, fields);
      if MergeOne(false, m, c, fields).Ok? {
        var (fields1, c1) := MergeOne(false, m, c, fields).value;
        FieldsHeavy(m, c1, fields1);
      }
    }
  }

  lemma {:induction false} OneHeavy(m: Merger, c: Cursor, fields: seq<NamedVal>)
    requires m.MessageMerger? && OneWhole(m, c, fields)
    ensures Heavy(c, MergeOne(true, m, c, fields), MergeOne(false, m, c, fields))
    decreases c.limit, 0
  {
    hide ReadTag, Skip, MergeField, FieldWhole;
    ReadTagHeavy(c);
    if ReadTag(false, c).Ok? {
      var ((number, wireType), c1) := ReadTag(false, c).value;
      SkipHeavy(wireType, c1);
      if number in m.subfields && m.subfields[number].index < |fields| {
        var slot := m.subfields[number];
        FieldHeavy(slot.merger, wireType, c1, fields[slot.index].value);
      }
    }
  }

  // ---------------------------------------------------------------------------------------
  // Minimal varints leave strings whole
  // ---------------------------------------------------------------------------------------

  lemma ReadLengthSame(c: Cursor)
    ensures ReadLength(true, c).Ok? ==> ReadLength(false, c) == ReadLength(true, c)
  {
    hide DecodeVarint;
  }

  lemma ReadTagSame(c: Cursor)
    ensures ReadTag(true, c).Ok? ==> ReadTag(false, c) == ReadTag(true, c)
  {
    hide DecodeVarint;
  }

  lemma StrictItemWhole(item: MergeItem, form: MergeForm, wireType: WireType, c: Cursor, dst: Val)
    requires c.Covered() && MergeItemInto(true, item, form, wireType, c, dst).Ok?
    ensures ItemWhole(item, c)
  {
    hide ReadLength, ReadVarint, ValidUtf8, DecodePacked;
    ReadLengthSame(c);
    ReadLengthSound(c);
  }

  lemma {:induction false} StrictFieldWhole(m: Merger, wireType: WireType, c: Cursor, dst: Val)
    requires c.Covered() && MergeField(true, m, wireType, c, dst).Ok?
    ensures FieldWhole(m, wireType, c, dst)
    decreases c.limit, 3, m
  {
    hide MergeItemInto, MergeNested, MergeFields, NestedWhole, FieldsWhole, ItemWhole;
    match m
    case ItemMerger(item, form) => StrictItemWhole(item, form, wireType, c, dst);
    case MessageMerger(shape, _, _) =>
      if shape.InnerRecord? { StrictFieldsWhole(m, c, dst.fields); } else { StrictNestedWhole(m, wireType, c); }
    case VariantMerger(_, inner) => StrictFieldWhole(inner, wireType, c, Opt(None));
  }

  lemma {:induction false} StrictNestedWhole(m: Merger, wireType: WireType, c: Cursor)
    requires m.MessageMerger? && c.Covered() && MergeNested(true, m, wireType, c).Ok?
    ensures NestedWhole(m, c)
    decreases c.limit, 2
  {
    hide ReadLength, MergeFields, FieldsWhole;
    ReadLengthSame(c);
    ReadLengthSound(c);
    var (length, c1) := ReadLength(true, c).value;
    StrictFieldsWhole(m, Cursor(length, c1.rest), m.defaults);
  }

  lemma {:induction false} StrictFieldsWhole(m: Merger, c: Cursor, fields: seq<NamedVal>)
    requires m.MessageMerger? && c.Covered() && MergeFields(true, m, c, fields).Ok?
    ensures FieldsWhole(m, c, fields)
    decreases c.limit, 1
  {
    hide MergeOne, OneWhole;
    if c.limit > 0 {
      StrictOneWhole(m, c, fields);
      MergeOneSame(m, c, fields);
      MergeOneSound(m, c, fields);
      var (fields1, c1) := MergeOne(true, m, c, fields).value;
      AccountedTrans(c, c1, c1);
      StrictFieldsWhole(m, c1, fields1);
    }
  }

  lemma {:induction false} StrictOneWhole(m: Merger, c: Cursor, fields: seq<NamedVal>)
    requires m.MessageMerger? && c.Covered() && MergeOne(true, m, c, fields).Ok?
    ensures OneWhole(m, c, fields)
    decreases c.limit, 0
  {
    hide ReadTag, Skip, MergeField, FieldWhole;
    ReadTagSame(c);
    ReadTagSound(c);
    var ((number, wireType), c1) := ReadTag(true, c).value;
    AccountedTrans(c, c1, c1);
    if number in m.subfields {
      var slot := m.subfields[number];
      StrictFieldWhole(slot.merger, wireType, c1, fields[slot.index].value);
    }
  }

  // ---------------------------------------------------------------------------------------
  // Merges and requests
  // ---------------------------------------------------------------------------------------

  /** A merge that cuts no string is accounted for exactly when all its varints are minimal. */
  lemma MergeAccountedIffMinimal(m: Merger, wireType: WireType, c: Cursor, dst: Val)
    requires c.Covered() && MergeField(false, m, wireType, c, dst).Ok? && FieldWhole(m, wireType, c, dst)
    ensures Accounted(c, MergeField(false, m, wireType, c, dst).value.1)
       <==> MergeField(true, m, wireType, c, dst) == MergeField(false, m, wireType, c, dst)
  {
    hide MergeField, FieldWhole;
    MergeFieldSound(m, wireType, c, dst);
    FieldHeavy(m, wireType, c, dst);
  }

  /**
    * A request decodes with all its strings whole if and only if it decodes and all its varints
    * are minimal; then it decodes to the same.
    */
  lemma WholeIffMinimal(m: Merger, src: seq<byte>)
    requires m.MessageMerger? && m.shape.InnerRecord?
    ensures DecodeRequest(false, m, src).Ok? && RequestWhole(m, src) <==> DecodeRequest(true, m, src).Ok?
    ensures DecodeRequest(true, m, src).Ok? ==> DecodeRequest(false, m, src) == DecodeRequest(true, m, src)
  {
    var c, dst := Cursor(|src|, src), Record(m.defaults);
    MergeFieldSame(m, LengthDelimited, c, dst);
    RequestSpent(m, src);
    hide MergeField, FieldWhole;
    if DecodeRequest(true, m, src).Ok? { StrictFieldWhole(m, LengthDelimited, c, dst); }
    if RequestWhole(m, src) { FieldHeavy(m, LengthDelimited, c, dst); }
  }

  lemma RequestSpent(m: Merger, src: seq<byte>)
    requires m.MessageMerger? && m.shape.InnerRecord?
    ensures var r := MergeField(false, m, LengthDelimited, Cursor(|src|, src), Record(m.defaults));
      r.Ok? ==> r.value.1.limit == 0
  {
    hide MergeFields;
  }

  // ---------------------------------------------------------------------------------------
  // Schemas without strings
  // ---------------------------------------------------------------------------------------

  /** No field at any depth is a string. */
  predicate StringFree(m: Merger) {
    match m
    case ItemMerger(item, _) => !ReadsString(item)
    case MessageMerger(_, _, subfields) => forall n <- subfields :: StringFree(subfields[n].merger)
    case VariantMerger(_, inner) => StringFree(inner)
  }

  lemma {:induction false} StringFreeField(m: Merger, wireType: WireType, c: Cursor, dst: Val)
    requires StringFree(m)
    ensures FieldWhole(m, wireType, c, dst)
    decreases c.limit, 3, m
  {
    hide FieldsWhole;
    match m
    case ItemMerger(item, _) =>
    case MessageMerger(shape, _, _) =>
      if shape.InnerRecord? {
        if dst.Record? { StringFreeFields(m, c, dst.fields); }
      } else if ReadLength(false, c).Ok? {
        var (length, c1) := ReadLength(false, c).value;
        StringFreeFields(m, Cursor(length, c1.rest), m.defaults);
      }
    case VariantMerger(_, inner) => StringFreeField(inner, wireType, c, Opt(None));
  }

  lemma {:induction false} StringFreeFields(m: Merger, c: Cursor, fields: seq<NamedVal>)
    requires m.MessageMerger? && StringFree(m)
    ensures FieldsWhole(m, c, fields)
    decreases c.limit, 1
  {
    hide MergeOne, FieldWhole, ReadTag;
    if c.limit > 0 {
      if ReadTag(false, c).Ok? {
        var ((number, wireType), c1) := ReadTag(false, c).value;
        if number in m.subfields && m.subfields[number].index < |fields| {
          var slot := m.subfields[number];
          StringFreeField(slot.merger, wireType, c1, fields[slot.index].value);
        }
      }
      if MergeOne(false, m, c, fields).Ok? {
        var (fields1, c1) := MergeOne(false, m, c, fields).value;
        StringFreeFields(m, c1, fields1);
      }
    }
  }

  /** A schema without strings accepts minimal requests only. */
  lemma StringFreeIffMinimal(m: Merger, src: seq<byte>)
    requires m.MessageMerger? && m.shape.InnerRecord? && StringFree(m)
    ensures DecodeRequest(false, m, src).Ok? <==> DecodeRequest(true, m, src).Ok?
    ensures DecodeRequest(false, m, src).Ok? ==> DecodeRequest(false, m, src) == DecodeRequest(true, m, src)
  {
    StringFreeField(m, LengthDelimited, Cursor(|src|, src), Record(m.defaults));
    hide FieldWhole, DecodeRequest;
    WholeIffMinimal(m, src);
  }

  /**
    * With a string the decoder can accept a padded request, and cut the string: the tag takes two
    * bytes, and of the one byte that the length announces nothing is left.
    */
  lemma CutStringDecodes()
    ensures var text := Slot(0, ItemMerger(ReadScalar(StringPermissive), IntoValue));
      var m := MessageMerger(InnerRecord, [NamedVal("text", String([]))], map[1 := text]);
      DecodeRequest(true, m, [0x8A, 0x00, 0x01]) == Err(NonMinimalVarint)
      && DecodeRequest(false, m, [0x8A, 0x00, 0x01]) == Ok(Record([NamedVal("text", String([]))]))
      && !RequestWhole(m, [0x8A, 0x00, 0x01])
  {
    var src: seq<byte> := [0x8A, 0x00, 0x01];
    var text := Slot(0, ItemMerger(ReadScalar(StringPermissive), IntoValue));
    var fields := [NamedVal("text", String([]))];
    var m := MessageMerger(InnerRecord, fields, map[1 := text]);
    assert src[1..] == [0x00, 0x01] && src[2..] == [0x01];
    assert DecodeGroups(src[1..], 1) == Some(Varint(0, 1));
    assert DecodeVarint(src) == Some(Varint(10, 2));
    assert ReadTag(false, Cursor(3, src)) == Ok(((1, LengthDelimited), Cursor(2, [0x01])));
    assert ReadTag(true, Cursor(3, src)) == Err(NonMinimalVarint);
    CutStringReads();
    assert fields[0 := NamedVal("text", String([]))] == fields;
    hide ReadTag, DecodeScalar;
    assert MergeOne(false, m, Cursor(3, src), fields) == Ok((fields, Cursor(0, [])));
    assert MergeFields(false, m, Cursor(3, src), fields) == Ok((fields, Cursor(0, [])));
    hide FieldWhole, MergeOne;
    WholeIffMinimal(m, src);
  }

  lemma CutStringReads()
    ensures DecodeScalar(false, StringPermissive, Cursor(2, [0x01])) == Ok((String([]), Cursor(0, [])))
  {
    var src: seq<byte> := [0x01];
    assert src[1..] == [];
    assert DecodeVarint(src) == Some(Varint(1, 1));
    assert ReadLength(false, Cursor(2, src)) == Ok((1, Cursor(0, [])));
  }

  /** The decoder of a message with one field, number 1, a permissive string. */
  const TEXT := MessageMerger(InnerRecord, [NamedVal("text", String([]))],
                              map[1 := Slot(0, ItemMerger(ReadScalar(StringPermissive), IntoValue))])

  /** A string that is cut keeps all that is left of the buffer: here all of the bytes but the one that is missing. */
  lemma CutStringKeepsRest(bytes: seq<byte>, length: seq<byte>)
    requires |bytes| + 20 <= U32_MAX && length == EncodeVarint(|bytes| + 1)
    ensures DecodeRequest(false, TEXT, [0x8A, 0x00] + (length + bytes)) == Ok(Record([NamedVal("text", String(bytes))]))
  {
    hide EncodeVarint, DecodeRequest, DecodeScalar, ReadTag;
    VarintShort(|bytes| + 1);
    CutReads(bytes);
    PaddedText(length + bytes, bytes);
  }

  lemma PaddedText(rest: seq<byte>, bytes: seq<byte>)
    requires |rest| + 2 <= U32_MAX
    requires DecodeScalar(false, StringPermissive, Cursor(1 + |rest|, rest)) == Ok((String(bytes), Cursor(0, [])))
    ensures DecodeRequest(false, TEXT, [0x8A, 0x00] + rest) == Ok(Record([NamedVal("text", String(bytes))]))
  {
    hide DecodeRequest, ReadTag, DecodeScalar;
    PaddedTag(rest);
    TextMerges([0x8A, 0x00] + rest, rest, bytes);
  }

  lemma TextMerges(src: seq<byte>, rest: seq<byte>, bytes: seq<byte>)
    requires ReadTag(false, Cursor(|src|, src)) == Ok(((1, LengthDelimited), Cursor(1 + |rest|, rest)))
    requires DecodeScalar(false, StringPermissive, Cursor(1 + |rest|, rest)) == Ok((String(bytes), Cursor(0, [])))
    requires 0 < |src| <= U32_MAX
    ensures DecodeRequest(false, TEXT, src) == Ok(Record([NamedVal("text", String(bytes))]))
  {
    hide ReadTag, DecodeScalar;
    var fields, merged := [NamedVal("text", String([]))], [NamedVal("text", String(bytes))];
    assert fields[0 := NamedVal("text", String(bytes))] == merged;
    assert MergeOne(false, TEXT, Cursor(|src|, src), fields) == Ok((merged, Cursor(0, [])));
    hide MergeOne;
    assert MergeFields(false, TEXT, Cursor(|src|, src), fields) == Ok((merged, Cursor(0, [])));
  }

  lemma VarintShort(n: u64)
    requires n <= U32_MAX
    ensures |EncodeVarint(n)| <= 5
  {
    EncodeVarintLength(n);
    var a := n / 128;
    var b := a / 128;
    var c := b / 128;
    assert VarintLength(c / 128) == 1;
    assert VarintLength(c) <= 2 && VarintLength(b) <= 3 && VarintLength(a) <= 4;
  }

  /** Two bytes that read as the tag of a chunk in field 1, at the price of one. */
  lemma PaddedTag(rest: seq<byte>)
    ensures ReadTag(false, Cursor(2 + |rest|, [0x8A, 0x00] + rest)) == Ok(((1, LengthDelimited), Cursor(1 + |rest|, rest)))
  {
    var src := [0x8A, 0x00] + rest;
    assert src[1..][0] == 0x00 && src[2..] == rest;
    assert DecodeGroups(src[1..], 1) == Some(Varint(0, 1));
    assert DecodeVarint(src) == Some(Varint(10, 2));
  }

  lemma CutReads(bytes: seq<byte>)
    requires |bytes| + 1 <= U32_MAX
    ensures var prefix := EncodeVarint(|bytes| + 1);
      DecodeScalar(false, StringPermissive, Cursor(1 + |prefix + bytes|, prefix + bytes)) == Ok((String(bytes), Cursor(0, [])))
  {
    hide EncodeVarint, ReadVarint, ReadLength;
    var prefix := EncodeVarint(|bytes| + 1);
    CutLength(bytes);
    assert bytes[..|bytes|] == bytes && bytes[|bytes|..] == [];
  }

  lemma CutLength(bytes: seq<byte>)
    requires |bytes| + 1 <= U32_MAX
    ensures var prefix := EncodeVarint(|bytes| + 1);
      ReadLength(false, Cursor(1 + |prefix + bytes|, prefix + bytes)) == Ok((|bytes| + 1, Cursor(0, bytes)))
  {
    hide EncodeVarint, ReadVarint;
    ReadVarintInverts(false, |bytes| + 1, |bytes| + 1, bytes, InvalidLengthVarint);
  }
}
