/**
  * The merger tree (`runtime/decode/compound.rs`, `runtime/decode/scalar.rs`): decoding as a
  * sequence of merges into a record that starts out as the defaults. Every function is total on
  * every buffer; each tag, and each item of a packed list, lowers the budget of the cursor.
  */
module Merging {
  import opened Prelude
  import opened Wire
  import opened Values
  import opened Reading
  import opened Scalars

  datatype MergeItem =
    | ReadScalar(scalarType: ScalarType)
    | ReadEnum(names: map<u32, string>)

  /** Where the item goes: replaces the value, replaces the option, or is appended to the list. */
  datatype MergeForm = IntoValue | IntoOption | IntoList

  datatype MergeShape = InnerRecord | OptionalRecord | ListOfRecords

  datatype Merger =
    | ItemMerger(item: MergeItem, form: MergeForm)
    | MessageMerger(shape: MergeShape, defaults: seq<NamedVal>, subfields: map<u32, Slot>)
    | VariantMerger(variant: string, inner: Merger)

  /** The position in the record that a field number merges into, and how. */
  datatype Slot = Slot(index: nat, merger: Merger)

  // ---------------------------------------------------------------------------------------
  // Items
  // ---------------------------------------------------------------------------------------

  function ItemWireType(item: MergeItem): WireType {
    match item
    case ReadEnum(_) => VarintType
    case ReadScalar(t) => ScalarWireType(t)
  }

  function ScalarWireType(t: ScalarType): WireType {
    if IsStringy(t) then LengthDelimited
    else if Width(t) == 4 then ThirtyTwoBit
    else if Width(t) == 8 then SixtyFourBit
    else VarintType
  }

  function WireTypeError(wireType: WireType): DecodeError {
    match wireType
    case LengthDelimited => WireTypeNonLengthDelimited
    case ThirtyTwoBit => WireTypeNon32Bit
    case SixtyFourBit => WireTypeNon64Bit
    case _ => WireTypeNonVarint
  }

  /** Unknown enumerators fall back to number zero. */
  function EnumName(names: map<u32, string>, number: nat): (r: Result<Val, DecodeError>)
    ensures r.Ok? ==> r.value.Enum? && r.value.enumerator in names.Values
  {
    if number > U32_MAX then Err(Overflow32Bit)
    else if number in names then Ok(Enum(names[number]))
    else if 0 in names then Ok(Enum(names[0]))
    else Err(EnumNoDefault)
  }

  function DecodeItem(strict: bool, item: MergeItem, c: Cursor): (r: Read<Val>)
    ensures r.Ok? ==> r.value.1.limit < c.limit
  {
    match item
    case ReadScalar(t) => DecodeScalar(strict, t, c)
    case ReadEnum(names) =>
      var (number, c1) :- ReadVarint(strict, c, InvalidVarint);
      var v :- EnumName(names, number);
      Ok((v, c1))
  }

  /** Items until the budget is spent. */
  function DecodePacked(strict: bool, item: MergeItem, c: Cursor): (r: Read<seq<Val>>)
    ensures r.Ok? ==> r.value.1.limit == 0
    decreases c.limit
  {
    if c.limit == 0 then Ok(([], c))
    else
      var (head, c1) :- DecodeItem(strict, item, c);
      var (tail, c2) :- DecodePacked(strict, item, c1);
      Ok(([head] + tail, c2))
  }

  function MergeItemInto(strict: bool, item: MergeItem, form: MergeForm, wireType: WireType,
                         c: Cursor, dst: Val): (r: Read<Val>)
    ensures r.Ok? ==> r.value.1.limit <= c.limit
  {
    match form
    case IntoValue =>
      if wireType == ItemWireType(item) then DecodeItem(strict, item, c)
      else Err(WireTypeError(ItemWireType(item)))
    case IntoOption =>
      if wireType == ItemWireType(item) then
        var (v, c1) :- DecodeItem(strict, item, c);
        Ok((Opt(Some(v)), c1))
      else Err(WireTypeError(ItemWireType(item)))
    case IntoList =>
      if !dst.List? then Err(RepeatedNonList)
      else if wireType == LengthDelimited && ItemWireType(item) != LengthDelimited then
        var (length, c1) :- ReadLength(strict, c);
        var (vs, c2) :- DecodePacked(strict, item, Cursor(length, c1.rest));
        Ok((List(dst.items + vs), Cursor(c1.limit, c2.rest)))
      else if wireType == ItemWireType(item) then
        var (v, c1) :- DecodeItem(strict, item, c);
        Ok((List(dst.items + [v]), c1))
      else Err(WireTypeError(ItemWireType(item)))
  }

  // ---------------------------------------------------------------------------------------
  // Messages
  // ---------------------------------------------------------------------------------------

  function MergeField(strict: bool, m: Merger, wireType: WireType, c: Cursor, dst: Val)
    : (r: Read<Val>)
    ensures r.Ok? ==> r.value.1.limit <= c.limit
    decreases c.limit, 3, m
  {
    match m
    case ItemMerger(item, form) => MergeItemInto(strict, item, form, wireType, c, dst)
    case MessageMerger(InnerRecord, _, _) =>
      if !dst.Record? then Err(MessageNonRecord)
      else
        var (fields, c1) :- MergeFields(strict, m, c, dst.fields);
        Ok((Record(fields), c1))
    case MessageMerger(OptionalRecord, _, _) =>
      var (v, c1) :- MergeNested(strict, m, wireType, c);
      Ok((Opt(Some(v)), c1))
    case MessageMerger(ListOfRecords, _, _) =>
      if !dst.List? then Err(RepeatedNonList)
      else
        var (v, c1) :- MergeNested(strict, m, wireType, c);
        Ok((List(dst.items + [v]), c1))
    case VariantMerger(variant, inner) =>
      var (v, c1) :- MergeField(strict, inner, wireType, c, Opt(None));
      if !v.Opt? then Err(NonExplicitOneofVariant)
      else Ok((Opt(Some(Variant(variant, v.option))), c1))
  }

  /** A length-delimited message, merged into its defaults under a budget of its own. */
  function MergeNested(strict: bool, m: Merger, wireType: WireType, c: Cursor): (r: Read<Val>)
    requires m.MessageMerger?
    ensures r.Ok? ==> r.value.0.Record?
    ensures r.Ok? ==> r.value.1.limit < c.limit
    decreases c.limit, 2
  {
    if wireType != LengthDelimited then Err(WireTypeNonLengthDelimited)
    else
      var (length, c1) :- ReadLength(strict, c);
      var (fields, c2) :- MergeFields(strict, m, Cursor(length, c1.rest), m.defaults);
      Ok((Record(fields), Cursor(c1.limit, c2.rest)))
  }

  /** Merges whole fields until the budget is spent. */
  function MergeFields(strict: bool, m: Merger, c: Cursor, fields: seq<NamedVal>)
    : (r: Read<seq<NamedVal>>)
    requires m.MessageMerger?
    ensures r.Ok? ==> r.value.1.limit == 0
    decreases c.limit, 1
  {
    if c.limit == 0 then Ok((fields, c))
    else
      var (fields1, c1) :- MergeOne(strict, m, c, fields);
      MergeFields(strict, m, c1, fields1)
  }

  /** One field: its tag, then its merge into the slot of its number, or a skip. */
  function MergeOne(strict: bool, m: Merger, c: Cursor, fields: seq<NamedVal>)
    : (r: Read<seq<NamedVal>>)
    requires m.MessageMerger?
    ensures r.Ok? ==> r.value.1.limit < c.limit
    decreases c.limit, 0
  {
    var ((number, wireType), c1) :- ReadTag(strict, c);
    if number !in m.subfields then
      var (_, c2) :- Skip(strict, wireType, c1);
      Ok((fields, c2))
    else
      var slot := m.subfields[number];
      if slot.index >= |fields| then Err(FieldIndexOutOfBounds)
      else
        var (v, c2) :- MergeField(strict, slot.merger, wireType, c1, fields[slot.index].value);
        Ok((fields[slot.index := NamedVal(fields[slot.index].name, v)], c2))
  }

  /** A whole request: the buffer is the budget. */
  function DecodeRequest(strict: bool, m: Merger, src: seq<byte>): (r: Result<Val, DecodeError>)
    requires m.MessageMerger?
  {
    if |src| > U32_MAX then Err(RequestTooBig)
    else
      var (v, _) :- MergeField(strict, m, LengthDelimited, Cursor(|src|, src), Record(m.defaults));
      Ok(v)
  }
}
