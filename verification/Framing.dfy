/**
  * Locality: a merge that succeeds on a covered cursor does not look beyond the bytes it reads.
  * Extending the buffer and the budget changes neither its value nor where it stops.
  */
module Framing {
  import opened Prelude
  import opened Wire
  import opened Values
  import opened Reading
  import opened Scalars
  import opened Merging
  import opened Accounting

  function Grow(c: Cursor, k: nat, tail: seq<byte>): Cursor {
    Cursor(c.limit + k, c.rest + tail)
  }

  predicate Framed<T(==)>(r: Read<T>, grown: Read<T>, k: nat, tail: seq<byte>) {
    r.Ok? ==> grown == Ok((r.value.0, Grow(r.value.1, k, tail)))
  }

  lemma DropGrown(s: seq<byte>, n: nat, tail: seq<byte>)
    requires n <= |s|
    ensures (s + tail)[n..] == s[n..] + tail
    ensures (s + tail)[..n] == s[..n]
  {}

  lemma ReadVarintFramed(c: Cursor, error: DecodeError, k: nat, tail: seq<byte>)
    ensures Framed(ReadVarint(true, c, error), ReadVarint(true, Grow(c, k, tail), error), k, tail)
  {
    if ReadVarint(true, c, error).Ok? {
      DecodeGroupsExtend(c.rest, 0, tail);
      DropGrown(c.rest, DecodeVarint(c.rest).value.used, tail);
    }
  }

  lemma ReadTagFramed(c: Cursor, k: nat, tail: seq<byte>)
    ensures Framed(ReadTag(true, c), ReadTag(true, Grow(c, k, tail)), k, tail)
  {
    hide ReadVarint;
    ReadVarintFramed(c, InvalidTagVarint, k, tail);
  }

  lemma ReadLengthFramed(c: Cursor, k: nat, tail: seq<byte>)
    ensures Framed(ReadLength(true, c), ReadLength(true, Grow(c, k, tail)), k, tail)
  {
    hide ReadVarint;
    ReadVarintFramed(c, InvalidLengthVarint, k, tail);
  }

  lemma TakeFramed(c: Cursor, count: nat, k: nat, tail: seq<byte>)
    ensures Framed(Take(c, count), Take(Grow(c, k, tail), count), k, tail)
  {
    if count <= |c.rest| { DropGrown(c.rest, count, tail); }
  }

  lemma ReadFixedFramed(c: Cursor, width: nat, error: DecodeError, k: nat, tail: seq<byte>)
    ensures Framed(ReadFixed(c, width, error), ReadFixed(Grow(c, k, tail), width, error), k, tail)
  {
    hide Take;
    TakeFramed(c, width, k, tail);
  }

  lemma SkipFramed(wireType: WireType, c: Cursor, k: nat, tail: seq<byte>)
    ensures Framed(Skip(true, wireType, c), Skip(true, wireType, Grow(c, k, tail)), k, tail)
  {
    hide ReadVarint, ReadFixed, ReadLength, Take;
    ReadVarintFramed(c, InvalidVarint, k, tail);
    ReadFixedFramed(c, 8, BufferOverflow, k, tail);
    ReadFixedFramed(c, 4, BufferOverflow, k, tail);
    ReadLengthFramed(c, k, tail);
    if ReadLength(true, c).Ok? {
      var (length, c1) := ReadLength(true, c).value;
      TakeFramed(c1, length, k, tail);
    }
  }

  lemma ReadStringFramed(validate: bool, c: Cursor, k: nat, tail: seq<byte>)
    requires c.Covered()
    ensures Framed(ReadString(true, validate, c), ReadString(true, validate, Grow(c, k, tail)), k, tail)
  {
    hide ReadLength, ValidUtf8;
    ReadLengthFramed(c, k, tail);
    ReadLengthSound(c);
    if ReadLength(true, c).Ok? {
      var (length, c1) := ReadLength(true, c).value;
      DropGrown(c1.rest, length, tail);
    }
  }

  lemma DecodeScalarFramed(t: ScalarType, c: Cursor, k: nat, tail: seq<byte>)
    requires c.Covered()
    ensures Framed(DecodeScalar(true, t, c), DecodeScalar(true, t, Grow(c, k, tail)), k, tail)
  {
    hide ReadVarint, ReadString, ReadFixed, ReadLength, Take, FromVarint, FromBits, OctetVals;
    if t.BytesType? {
      ReadLengthFramed(c, k, tail);
      if ReadLength(true, c).Ok? {
        var (length, c1) := ReadLength(true, c).value;
        TakeFramed(c1, length, k, tail);
      }
    } else if IsStringy(t) {
      ReadStringFramed(t.StringUtf8?, c, k, tail);
    } else if t.BoolType? {
      if c.limit >= 1 { DropGrown(c.rest, 1, tail); }
    } else if IsVarint(t) {
      ReadVarintFramed(c, InvalidVarint, k, tail);
    } else {
      ReadFixedFramed(c, Width(t), BufferUnderflow, k, tail);
    }
  }

  lemma DecodeItemFramed(item: MergeItem, c: Cursor, k: nat, tail: seq<byte>)
    requires c.Covered()
    ensures Framed(DecodeItem(true, item, c), DecodeItem(true, item, Grow(c, k, tail)), k, tail)
  {
    hide DecodeScalar, ReadVarint;
    match item
    case ReadScalar(t) => DecodeScalarFramed(t, c, k, tail);
    case ReadEnum(_) => ReadVarintFramed(c, InvalidVarint, k, tail);
  }

  /** A packed list is bounded by its own budget, so only the buffer may grow. */
  lemma {:induction false} DecodePackedFramed(item: MergeItem, c: Cursor, tail: seq<byte>)
    requires c.Covered()
    ensures Framed(DecodePacked(true, item, c), DecodePacked(true, item, Grow(c, 0, tail)), 0, tail)
    decreases c.limit
  {
    hide DecodeItem;
    if c.limit > 0 {
      DecodeItemFramed(item, c, 0, tail);
      DecodeItemSound(item, c);
      if DecodeItem(true, item, c).Ok? {
        DecodePackedFramed(item, DecodeItem(true, item, c).value.1, tail);
      }
    }
  }

  lemma MergeItemFramed(item: MergeItem, form: MergeForm, wireType: WireType, c: Cursor, dst: Val,
                        k: nat, tail: seq<byte>)
    requires c.Covered()
    ensures Framed(MergeItemInto(true, item, form, wireType, c, dst),
                   MergeItemInto(true, item, form, wireType, Grow(c, k, tail), dst), k, tail)
  {
    hide DecodeItem, ReadLength, DecodePacked;
    DecodeItemFramed(item, c, k, tail);
    ReadLengthFramed(c, k, tail);
    ReadLengthSound(c);
    if ReadLength(true, c).Ok? {
      var (length, c1) := ReadLength(true, c).value;
      DecodePackedFramed(item, Cursor(length, c1.rest), tail);
    }
  }

  /** The merger of a field, as opposed to that of a whole request, which reads to the end. */
  predicate FieldMerger(m: Merger) {
    match m
    case ItemMerger(_, _) => true
    case MessageMerger(shape, _, _) => !shape.InnerRecord?
    case VariantMerger(_, inner) => FieldMerger(inner)
  }

  predicate FieldMergers(m: Merger)
    requires m.MessageMerger?
  {
    forall number :: number in m.subfields ==> FieldMerger(m.subfields[number].merger)
  }

  lemma {:induction false} MergeFieldFramed(m: Merger, wireType: WireType, c: Cursor, dst: Val,
                                            k: nat, tail: seq<byte>)
    requires c.Covered()
    requires FieldMerger(m) || k == 0
    ensures Framed(MergeField(true, m, wireType, c, dst),
                   MergeField(true, m, wireType, Grow(c, k, tail), dst), k, tail)
    decreases c.limit, 4, m
  {
    hide MergeItemInto, MergeNested, MergeFields, Grow;
    match m
    case ItemMerger(item, form) => MergeItemFramed(item, form, wireType, c, dst, k, tail);
    case MessageMerger(_, _, _) => MergeMessageFramed(m, wireType, c, dst, k, tail);
    case VariantMerger(_, inner) => MergeFieldFramed(inner, wireType, c, Opt(None), k, tail);
  }

  lemma {:induction false} MergeMessageFramed(m: Merger, wireType: WireType, c: Cursor, dst: Val,
                                              k: nat, tail: seq<byte>)
    requires m.MessageMerger? && c.Covered()
    requires FieldMerger(m) || k == 0
    ensures Framed(MergeField(true, m, wireType, c, dst),
                   MergeField(true, m, wireType, Grow(c, k, tail), dst), k, tail)
    decreases c.limit, 3
  {
    hide MergeItemInto, MergeNested, MergeFields, Grow;
    match m.shape
    case InnerRecord => if dst.Record? { MergeFieldsFramed(m, c, dst.fields, tail); }
    case OptionalRecord => MergeNestedFramed(m, wireType, c, k, tail);
    case ListOfRecords => MergeNestedFramed(m, wireType, c, k, tail);
  }

  lemma {:induction false} MergeNestedFramed(m: Merger, wireType: WireType, c: Cursor,
                                             k: nat, tail: seq<byte>)
    requires m.MessageMerger? && c.Covered()
    ensures Framed(MergeNested(true, m, wireType, c),
                   MergeNested(true, m, wireType, Grow(c, k, tail)), k, tail)
    decreases c.limit, 2
  {
    hide ReadLength, MergeFields;
    ReadLengthFramed(c, k, tail);
    ReadLengthSound(c);
    if ReadLength(true, c).Ok? {
      var (length, c1) := ReadLength(true, c).value;
      MergeFieldsFramed(m, Cursor(length, c1.rest), m.defaults, tail);
    }
  }

  lemma {:induction false} MergeFieldsFramed(m: Merger, c: Cursor, fields: seq<NamedVal>, tail: seq<byte>)
    requires m.MessageMerger? && c.Covered()
    ensures Framed(MergeFields(true, m, c, fields),
                   MergeFields(true, m, Grow(c, 0, tail), fields), 0, tail)
    decreases c.limit, 1
  {
    hide MergeOne;
    if c.limit > 0 {
      MergeOneFramed(m, c, fields, 0, tail);
      MergeOneSound(m, c, fields);
      if MergeOne(true, m, c, fields).Ok? {
        var (fields1, c1) := MergeOne(true, m, c, fields).value;
        MergeFieldsFramed(m, c1, fields1, tail);
      }
    }
  }

  lemma {:induction false} MergeOneFramed(m: Merger, c: Cursor, fields: seq<NamedVal>,
                                          k: nat, tail: seq<byte>)
    requires m.MessageMerger? && c.Covered()
    requires FieldMergers(m) || k == 0
    ensures Framed(MergeOne(true, m, c, fields),
                   MergeOne(true, m, Grow(c, k, tail), fields), k, tail)
    decreases c.limit, 0
  {
    hide ReadTag, Skip, MergeField;
    ReadTagFramed(c, k, tail);
    ReadTagSound(c);
    if ReadTag(true, c).Ok? {
      var ((number, wireType), c1) := ReadTag(true, c).value;
      SkipFramed(wireType, c1, k, tail);
      if number in m.subfields && m.subfields[number].index < |fields| {
        var slot := m.subfields[number];
        MergeFieldFramed(slot.merger, wireType, c1, fields[slot.index].value, k, tail);
      }
    }
  }

  // ---------------------------------------------------------------------------------------
  // Decoding is a fold
  // ---------------------------------------------------------------------------------------

  /**
    * If `a`, whole fields with minimal varints, merges into `fields` as `merged`, then merging
    * `a` and whatever follows is merging what follows into `merged`, errors included.
    */
  lemma {:induction false} MergeIsFold(strict: bool, m: Merger, a: seq<byte>, fields: seq<NamedVal>,
                                       merged: seq<NamedVal>, k: nat, rest: seq<byte>)
    requires m.MessageMerger? && FieldMergers(m)
    requires MergeFields(true, m, Cursor(|a|, a), fields) == Ok((merged, Cursor(0, [])))
    ensures MergeFields(strict, m, Cursor(|a| + k, a + rest), fields)
         == MergeFields(strict, m, Cursor(k, rest), merged)
    decreases |a|
  {
    hide MergeOne;
    var c := Cursor(|a|, a);
    if |a| == 0 {
      assert a + rest == rest;
    } else {
      var (fields1, c1) := MergeOne(true, m, c, fields).value;
      MergeOneSound(m, c, fields);
      MergeOneFramed(m, c, fields, k, rest);
      MergeOneSame(m, Grow(c, k, rest), fields);
      MergeIsFold(strict, m, c1.rest, fields1, merged, k, rest);
    }
  }
}
