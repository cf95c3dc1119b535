/**
  * Byte accounting. Reading minimal varints, the budget drops by exactly the bytes read, no read
  * passes the end of the buffer, and the strict reader is the decoder. What happens on padded
  * varints is in `Padding`.
  */
module Accounting {
  import opened Prelude
  import opened Wire
  import opened Values
  import opened Reading
  import opened Scalars
  import opened Merging

  /** `d` is `c` after reading as many bytes as the budget dropped. */
  predicate Accounted(c: Cursor, d: Cursor) {
    && d.limit <= c.limit
    && c.limit - d.limit <= |c.rest|
    && d.rest == c.rest[c.limit - d.limit..]
  }

  /** The read stays inside the buffer and, if it succeeds, is accounted for. */
  predicate Sound<T>(c: Cursor, r: Read<T>) {
    && r != Err(ReadPastEnd)
    && (r.Ok? ==> Accounted(c, r.value.1))
  }

  lemma AccountedTrans(c: Cursor, d: Cursor, e: Cursor)
    requires Accounted(c, d) && Accounted(d, e)
    ensures Accounted(c, e)
    ensures c.Covered() ==> d.Covered() && e.Covered()
  {
    assert c.rest[c.limit - d.limit..][d.limit - e.limit..] == c.rest[c.limit - e.limit..];
  }

  // ---------------------------------------------------------------------------------------
  // Accounting of the strict reader
  // ---------------------------------------------------------------------------------------

  lemma ReadVarintSound(c: Cursor, error: DecodeError)
    requires c.Covered() && error != ReadPastEnd
    ensures Sound(c, ReadVarint(true, c, error))
  {}

  lemma ReadTagSound(c: Cursor)
    requires c.Covered()
    ensures Sound(c, ReadTag(true, c))
  {
    hide ReadVarint;
    ReadVarintSound(c, InvalidTagVarint);
  }

  /** After a length is read, the bytes it covers are still to come, then those of the budget. */
  lemma ReadLengthSound(c: Cursor)
    requires c.Covered()
    ensures ReadLength(true, c) != Err(ReadPastEnd)
    ensures ReadLength(true, c).Ok? ==>
      var (length, c1) := ReadLength(true, c).value;
      Accounted(c, Cursor(c1.limit + length, c1.rest)) && c1.limit + length <= |c1.rest|
  {
    hide ReadVarint;
    ReadVarintSound(c, InvalidLengthVarint);
  }

  /** Reading `length` bytes behind a length prefix, however they are read. */
  lemma DelimitedSound(c: Cursor, length: nat, c1: Cursor, body: Cursor)
    requires c.Covered()
    requires Accounted(c, Cursor(c1.limit + length, c1.rest))
    requires Accounted(Cursor(length, c1.rest), body) && body.limit == 0
    ensures Accounted(c, Cursor(c1.limit, body.rest))
  {
    AccountedTrans(c, Cursor(c1.limit + length, c1.rest), Cursor(c1.limit, body.rest));
  }

  lemma SkipSound(wireType: WireType, c: Cursor)
    requires c.Covered()
    ensures Sound(c, Skip(true, wireType, c))
  {
    hide ReadVarint, ReadLength;
    ReadVarintSound(c, InvalidVarint);
    ReadLengthSound(c);
    if wireType.LengthDelimited? && ReadLength(true, c).Ok? {
      var (length, c1) := ReadLength(true, c).value;
      DelimitedSound(c, length, c1, Cursor(0, c1.rest[length..]));
    }
  }

  lemma ReadStringSound(validate: bool, c: Cursor)
    requires c.Covered()
    ensures Sound(c, ReadString(true, validate, c))
  {
    hide ReadLength, ValidUtf8;
    ReadLengthSound(c);
    if ReadLength(true, c).Ok? {
      var (length, c1) := ReadLength(true, c).value;
      DelimitedSound(c, length, c1, Cursor(0, c1.rest[length..]));
    }
  }

  lemma DecodeBytesSound(c: Cursor)
    requires c.Covered()
    ensures Sound(c, DecodeScalar(true, BytesType, c))
  {
    hide ReadVarint, ReadLength, ReadString, ReadFixed, FromVarint;
    ReadLengthSound(c);
    if ReadLength(true, c).Ok? {
      var (length, c1) := ReadLength(true, c).value;
      DelimitedSound(c, length, c1, Cursor(0, c1.rest[length..]));
    }
  }

  lemma DecodeScalarSound(t: ScalarType, c: Cursor)
    requires c.Covered()
    ensures Sound(c, DecodeScalar(true, t, c))
  {
    hide ReadVarint, ReadLength, ReadString, FromVarint;
    if t.BytesType? {
      DecodeBytesSound(c);
    } else if IsStringy(t) {
      ReadStringSound(t.StringUtf8?, c);
    } else {
      ReadVarintSound(c, InvalidVarint);
    }
  }

  lemma DecodeItemSound(item: MergeItem, c: Cursor)
    requires c.Covered()
    ensures Sound(c, DecodeItem(true, item, c))
  {
    hide DecodeScalar, ReadVarint;
    match item
    case ReadScalar(t) => DecodeScalarSound(t, c);
    case ReadEnum(_) => ReadVarintSound(c, InvalidVarint);
  }

  lemma {:induction false} DecodePackedSound(item: MergeItem, c: Cursor)
    requires c.Covered()
    ensures Sound(c, DecodePacked(true, item, c))
    decreases c.limit
  {
    hide DecodeItem;
    if c.limit > 0 {
      DecodeItemSound(item, c);
      if DecodeItem(true, item, c).Ok? {
        var c1 := DecodeItem(true, item, c).value.1;
        AccountedTrans(c, c1, c1);
        DecodePackedSound(item, c1);
        if DecodePacked(true, item, c1).Ok? {
          AccountedTrans(c, c1, DecodePacked(true, item, c1).value.1);
        }
      }
    }
  }

  lemma MergeItemSound(item: MergeItem, form: MergeForm, wireType: WireType, c: Cursor, dst: Val)
    requires c.Covered()
    ensures Sound(c, MergeItemInto(true, item, form, wireType, c, dst))
  {
    hide DecodeItem, ReadLength, DecodePacked;
    DecodeItemSound(item, c);
    ReadLengthSound(c);
    if ReadLength(true, c).Ok? {
      var (length, c1) := ReadLength(true, c).value;
      DecodePackedSound(item, Cursor(length, c1.rest));
      if DecodePacked(true, item, Cursor(length, c1.rest)).Ok? {
        DelimitedSound(c, length, c1, DecodePacked(true, item, Cursor(length, c1.rest)).value.1);
      }
    }
  }

  /**
    * On minimal varints every merge stays inside the buffer and consumes exactly the drop of the
    * budget; a nested message ends with its own budget at zero.
    */
  lemma {:induction false} MergeFieldSound(m: Merger, wireType: WireType, c: Cursor, dst: Val)
    requires c.Covered()
    ensures Sound(c, MergeField(true, m, wireType, c, dst))
    decreases c.limit, 3, m
  {
    hide MergeItemInto, MergeNested, MergeFields;
    match m
    case ItemMerger(item, form) => MergeItemSound(item, form, wireType, c, dst);
    case MessageMerger(shape, _, _) =>
      MergeNestedSound(m, wireType, c);
      if dst.Record? { MergeFieldsSound(m, c, dst.fields); }
    case VariantMerger(_, inner) => MergeFieldSound(inner, wireType, c, Opt(None));
  }

  lemma {:induction false} MergeNestedSound(m: Merger, wireType: WireType, c: Cursor)
    requires m.MessageMerger? && c.Covered()
    ensures Sound(c, MergeNested(true, m, wireType, c))
    decreases c.limit, 2
  {
    hide ReadLength, MergeFields;
    ReadLengthSound(c);
    if wireType == LengthDelimited && ReadLength(true, c).Ok? {
      var (length, c1) := ReadLength(true, c).value;
      MergeFieldsSound(m, Cursor(length, c1.rest), m.defaults);
      if MergeFields(true, m, Cursor(length, c1.rest), m.defaults).Ok? {
        var c2 := MergeFields(true, m, Cursor(length, c1.rest), m.defaults).value.1;
        DelimitedSound(c, length, c1, c2);
      }
    }
  }

  lemma {:induction false} MergeFieldsSound(m: Merger, c: Cursor, fields: seq<NamedVal>)
    requires m.MessageMerger? && c.Covered()
    ensures Sound(c, MergeFields(true, m, c, fields))
    decreases c.limit, 1
  {
    hide MergeOne;
    if c.limit > 0 {
      MergeOneSound(m, c, fields);
      if MergeOne(true, m, c, fields).Ok? {
        var (fields1, c1) := MergeOne(true, m, c, fields).value;
        AccountedTrans(c, c1, c1);
        MergeFieldsSound(m, c1, fields1);
        if MergeFields(true, m, c1, fields1).Ok? {
          AccountedTrans(c, c1, MergeFields(true, m, c1, fields1).value.1);
        }
      }
    }
  }

  lemma {:induction false} MergeOneSound(m: Merger, c: Cursor, fields: seq<NamedVal>)
    requires m.MessageMerger? && c.Covered()
    ensures Sound(c, MergeOne(true, m, c, fields))
    decreases c.limit, 0
  {
    hide ReadTag, Skip, MergeField;
    ReadTagSound(c);
    if ReadTag(true, c).Ok? {
      var ((number, wireType), c1) := ReadTag(true, c).value;
      AccountedTrans(c, c1, c1);
      SkipSound(wireType, c1);
      if Skip(true, wireType, c1).Ok? {
        AccountedTrans(c, c1, Skip(true, wireType, c1).value.1);
      }
      if number in m.subfields && m.subfields[number].index < |fields| {
        var slot := m.subfields[number];
        var dst := fields[slot.index].value;
        MergeFieldSound(slot.merger, wireType, c1, dst);
        if MergeField(true, slot.merger, wireType, c1, dst).Ok? {
          AccountedTrans(c, c1, MergeField(true, slot.merger, wireType, c1, dst).value.1);
        }
      }
    }
  }

  /** A request whose varints are all minimal is read to its end, inside the buffer. */
  lemma RequestSound(m: Merger, src: seq<byte>)
    requires m.MessageMerger?
    ensures DecodeRequest(true, m, src) != Err(ReadPastEnd)
    ensures DecodeRequest(true, m, src).Ok? ==>
      var c := Cursor(|src|, src);
      MergeField(true, m, LengthDelimited, c, Record(m.defaults)).Ok? &&
      (m.shape.InnerRecord? ==>
         MergeField(true, m, LengthDelimited, c, Record(m.defaults)).value.1 == Cursor(0, []))
  {
    hide MergeFields, MergeNested;
    MergeFieldSound(m, LengthDelimited, Cursor(|src|, src), Record(m.defaults));
  }

  // ---------------------------------------------------------------------------------------
  // The strict reader is the decoder wherever it does not complain
  // ---------------------------------------------------------------------------------------

  predicate Same<T(==)>(s: Read<T>, r: Read<T>) {
    s == Err(NonMinimalVarint) || r == s
  }

  lemma DecodeScalarSame(t: ScalarType, c: Cursor)
    ensures Same(DecodeScalar(true, t, c), DecodeScalar(false, t, c))
  {
    hide DecodeVarint, ValidUtf8, OctetVals, FromLittleEndian;
  }

  lemma DecodeItemSame(item: MergeItem, c: Cursor)
    ensures Same(DecodeItem(true, item, c), DecodeItem(false, item, c))
  {
    hide DecodeScalar, DecodeVarint;
    if item.ReadScalar? { DecodeScalarSame(item.scalarType, c); }
  }

  lemma {:induction false} DecodePackedSame(item: MergeItem, c: Cursor)
    ensures Same(DecodePacked(true, item, c), DecodePacked(false, item, c))
    decreases c.limit
  {
    hide DecodeItem;
    if c.limit > 0 {
      DecodeItemSame(item, c);
      if DecodeItem(true, item, c).Ok? {
        DecodePackedSame(item, DecodeItem(true, item, c).value.1);
      }
    }
  }

  lemma MergeItemSame(item: MergeItem, form: MergeForm, wireType: WireType, c: Cursor, dst: Val)
    ensures Same(MergeItemInto(true, item, form, wireType, c, dst),
                 MergeItemInto(false, item, form, wireType, c, dst))
  {
    hide DecodeItem, DecodePacked, DecodeVarint;
    DecodeItemSame(item, c);
    if ReadLength(true, c).Ok? {
      var (length, c1) := ReadLength(true, c).value;
      DecodePackedSame(item, Cursor(length, c1.rest));
    }
  }

  /** If the strict merge does not complain about a varint, the decoder's merge is the same. */
  lemma {:induction false} MergeFieldSame(m: Merger, wireType: WireType, c: Cursor, dst: Val)
    ensures Same(MergeField(true, m, wireType, c, dst), MergeField(false, m, wireType, c, dst))
    decreases c.limit, 3, m
  {
    hide MergeItemInto, MergeNested, MergeFields;
    match m
    case ItemMerger(item, form) => MergeItemSame(item, form, wireType, c, dst);
    case MessageMerger(_, _, _) =>
      MergeNestedSame(m, wireType, c);
      if dst.Record? { MergeFieldsSame(m, c, dst.fields); }
    case VariantMerger(_, inner) => MergeFieldSame(inner, wireType, c, Opt(None));
  }

  lemma {:induction false} MergeNestedSame(m: Merger, wireType: WireType, c: Cursor)
    requires m.MessageMerger?
    ensures Same(MergeNested(true, m, wireType, c), MergeNested(false, m, wireType, c))
    decreases c.limit, 2
  {
    hide MergeFields, DecodeVarint;
    if ReadLength(true, c).Ok? {
      var (length, c1) := ReadLength(true, c).value;
      MergeFieldsSame(m, Cursor(length, c1.rest), m.defaults);
    }
  }

  lemma {:induction false} MergeFieldsSame(m: Merger, c: Cursor, fields: seq<NamedVal>)
    requires m.MessageMerger?
    ensures Same(MergeFields(true, m, c, fields), MergeFields(false, m, c, fields))
    decreases c.limit, 1
  {
    hide MergeOne;
    if c.limit > 0 {
      MergeOneSame(m, c, fields);
      if MergeOne(true, m, c, fields).Ok? {
        var (fields1, c1) := MergeOne(true, m, c, fields).value;
        MergeFieldsSame(m, c1, fields1);
      }
    }
  }

  lemma {:induction false} MergeOneSame(m: Merger, c: Cursor, fields: seq<NamedVal>)
    requires m.MessageMerger?
    ensures Same(MergeOne(true, m, c, fields), MergeOne(false, m, c, fields))
    decreases c.limit, 0
  {
    hide MergeField, DecodeVarint;
    if ReadTag(true, c).Ok? {
      var ((number, wireType), c1) := ReadTag(true, c).value;
      if number in m.subfields && m.subfields[number].index < |fields| {
        var slot := m.subfields[number];
        MergeFieldSame(slot.merger, wireType, c1, fields[slot.index].value);
      }
    }
  }

  // ---------------------------------------------------------------------------------------
  // Non-minimal varints
  // ---------------------------------------------------------------------------------------

  /** A varint that the decoder reads is accounted for exactly when it is minimal. */
  lemma VarintAccountedIffMinimal(c: Cursor, error: DecodeError)
    requires c.Covered() && ReadVarint(false, c, error).Ok?
    ensures Accounted(c, ReadVarint(false, c, error).value.1)
       <==> ReadVarint(true, c, error) == ReadVarint(false, c, error)
  {
    var v := DecodeVarint(c.rest).value;
    var d := ReadVarint(false, c, error).value.1;
    assert |d.rest| == |c.rest| - v.used;
  }

  /**
    * The budget outlives the buffer once a tag is padded: a boolean field whose tag takes two
    * bytes is read past the end of a two-byte request.
    */
  lemma PaddedTagReadsPastEnd()
    ensures var flag := Slot(0, ItemMerger(ReadScalar(BoolType), IntoValue));
      var m := MessageMerger(InnerRecord, [NamedVal("flag", Bool(false))], map[1 := flag]);
      DecodeRequest(true, m, [0x88, 0x00]) == Err(NonMinimalVarint)
      && DecodeRequest(false, m, [0x88, 0x00]) == Err(ReadPastEnd)
  {
    var src: seq<byte> := [0x88, 0x00];
    assert src[1..] == [0x00] && src[2..] == [];
    assert DecodeGroups(src[1..], 1) == Some(Varint(0, 1));
    assert DecodeVarint(src) == Some(Varint(8, 2));
    assert ReadTag(false, Cursor(2, src)) == Ok(((1, VarintType), Cursor(1, [])));
  }
}
