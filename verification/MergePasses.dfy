/**
  * The decoder as it runs: a buffer that is consumed, a budget that counts down, and loops that
  * merge one field after another into the record.
  */
module MergePasses {
  import opened Prelude
  import opened Wire
  import opened Values
  import opened Reading
  import opened Scalars
  import opened Merging

  class DecodeBuf {
    var rest: seq<byte>

    constructor (bytes: seq<byte>)
      ensures rest == bytes
    {
      rest := bytes;
    }

    method Advance(count: nat) returns (r: Result<seq<byte>, DecodeError>)
      modifies this
      ensures count > |old(rest)| ==> r == Err(ReadPastEnd) && rest == old(rest)
      ensures count <= |old(rest)| ==> r == Ok(old(rest)[..count]) && rest == old(rest)[count..]
    {
      if count > |rest| {
        return Err(ReadPastEnd);
      }
      r := Ok(rest[..count]);
      rest := rest[count..];
    }
  }

  /** A value read, and the budget left. */
  type Step<T> = Result<(T, nat), DecodeError>

  ghost predicate Tracks<T>(spec: Read<T>, r: Step<T>, rest: seq<byte>) {
    match spec
    case Ok((v, c)) => r == Ok((v, c.limit)) && rest == c.rest
    case Err(error) => r == Err(error)
  }

  method GetVarint(limit: nat, src: DecodeBuf, error: DecodeError) returns (r: Step<nat>)
    modifies src
    ensures Tracks(ReadVarint(false, Cursor(limit, old(src.rest)), error), r, src.rest)
  {
    var varint := DecodeVarint(src.rest);
    if varint.None? { return Err(error); }
    src.rest := src.rest[varint.value.used..];
    var bytesRead := VarintLength(varint.value.value);
    if bytesRead > limit { return Err(BufferOverflow); }
    return Ok((varint.value.value, limit - bytesRead));
  }

  method GetTag(limit: nat, src: DecodeBuf) returns (r: Step<(nat, WireType)>)
    modifies src
    ensures Tracks(ReadTag(false, Cursor(limit, old(src.rest))), r, src.rest)
  {
    hide ReadVarint;
    var tag := GetVarint(limit, src, InvalidTagVarint);
    if tag.Err? { return Err(tag.error); }
    var (value, left) := tag.value;
    if value / 8 > U32_MAX { return Err(InvalidFieldNumber); }
    if value % 8 >= 6 { return Err(InvalidWireType); }
    return Ok(((value / 8, WireTypeOf(value % 8)), left));
  }

  method GetLength(limit: nat, src: DecodeBuf) returns (r: Step<nat>)
    modifies src
    ensures Tracks(ReadLength(false, Cursor(limit, old(src.rest))), r, src.rest)
  {
    hide ReadVarint;
    var length := GetVarint(limit, src, InvalidLengthVarint);
    if length.Err? { return Err(length.error); }
    var (value, left) := length.value;
    if value > U32_MAX { return Err(InvalidLengthVarint); }
    if value > left { return Err(BufferOverflow); }
    return Ok((value, left - value));
  }

  method GetFixed(limit: nat, src: DecodeBuf, width: nat, error: DecodeError) returns (r: Step<nat>)
    modifies src
    ensures Tracks(ReadFixed(Cursor(limit, old(src.rest)), width, error), r, src.rest)
  {
    if limit < width { return Err(error); }
    var bytes := src.Advance(width);
    if bytes.Err? { return Err(bytes.error); }
    return Ok((FromLittleEndian(bytes.value), limit - width));
  }

  method SkipField(wireType: WireType, limit: nat, src: DecodeBuf) returns (r: Step<()>)
    modifies src
    ensures Tracks(Skip(false, wireType, Cursor(limit, old(src.rest))), r, src.rest)
  {
    hide ReadVarint, ReadLength, ReadFixed;
    match wireType {
      case VarintType =>
        var varint := GetVarint(limit, src, InvalidVarint);
        if varint.Err? { return Err(varint.error); }
        return Ok(((), varint.value.1));
      case SixtyFourBit =>
        var bits := GetFixed(limit, src, 8, BufferOverflow);
        if bits.Err? { return Err(bits.error); }
        return Ok(((), bits.value.1));
      case LengthDelimited =>
        var length := GetLength(limit, src);
        if length.Err? { return Err(length.error); }
        var bytes := src.Advance(length.value.0);
        if bytes.Err? { return Err(bytes.error); }
        return Ok(((), length.value.1));
      case ThirtyTwoBit =>
        var bits := GetFixed(limit, src, 4, BufferOverflow);
        if bits.Err? { return Err(bits.error); }
        return Ok(((), bits.value.1));
      case StartGroup => return Ok(((), limit));
      case EndGroup => return Ok(((), limit));
    }
  }

  /** Bytes are taken one at a time. */
  method GetBytes(limit: nat, src: DecodeBuf) returns (r: Step<Val>)
    modifies src
    ensures Tracks(DecodeScalar(false, BytesType, Cursor(limit, old(src.rest))), r, src.rest)
  {
    hide ReadVarint, ReadLength, ReadString, ReadFixed, FromVarint;
    var length := GetLength(limit, src);
    if length.Err? { return Err(length.error); }
    var (count, left) := length.value;
    ghost var body := src.rest;
    var bytes: seq<Val> := [];
    for i := 0 to count
      invariant i <= |body| && src.rest == body[i..]
      invariant bytes == OctetVals(body[..i])
    {
      var octet := src.Advance(1);
      if octet.Err? { return Err(octet.error); }
      assert body[i..][..1] == [body[i]] && body[i..][1..] == body[i + 1..];
      assert OctetVals(body[..i + 1]) == OctetVals(body[..i]) + [U8(body[i])];
      bytes := bytes + [U8(octet.value[0])];
    }
    return Ok((List(bytes), left));
  }

  method GetString(validate: bool, limit: nat, src: DecodeBuf) returns (r: Step<Val>)
    modifies src
    ensures Tracks(ReadString(false, validate, Cursor(limit, old(src.rest))), r, src.rest)
  {
    hide ReadVarint, ReadLength, ValidUtf8;
    var length := GetLength(limit, src);
    if length.Err? { return Err(length.error); }
    var s := src.Advance(Min(length.value.0, |src.rest|));
    if validate && !ValidUtf8(s.value) { return Err(InvalidUtf8); }
    return Ok((String(s.value), length.value.1));
  }

  method GetScalar(t: ScalarType, limit: nat, src: DecodeBuf) returns (r: Step<Val>)
    modifies src
    ensures Tracks(DecodeScalar(false, t, Cursor(limit, old(src.rest))), r, src.rest)
  {
    hide ReadVarint, ReadLength, ReadString, ReadFixed, FromVarint, FromBits;
    if t.BytesType? {
      r := GetBytes(limit, src);
    } else if IsStringy(t) {
      r := GetString(t.StringUtf8?, limit, src);
    } else if t.BoolType? {
      if limit < 1 { return Err(BufferOverflow); }
      var octet := src.Advance(1);
      if octet.Err? { return Err(octet.error); }
      if octet.value[0] > 1 { return Err(InvalidBool); }
      return Ok((Bool(octet.value[0] != 0), limit - 1));
    } else if IsVarint(t) {
      var varint := GetVarint(limit, src, InvalidVarint);
      if varint.Err? { return Err(varint.error); }
      var v := FromVarint(t, varint.value.0);
      if v.Err? { return Err(v.error); }
      return Ok((v.value, varint.value.1));
    } else {
      Pow256Values();
      var bits := GetFixed(limit, src, Width(t), BufferUnderflow);
      if bits.Err? { return Err(bits.error); }
      return Ok((FromBits(t, bits.value.0), bits.value.1));
    }
  }

  method GetItem(item: MergeItem, limit: nat, src: DecodeBuf) returns (r: Step<Val>)
    modifies src
    ensures Tracks(DecodeItem(false, item, Cursor(limit, old(src.rest))), r, src.rest)
  {
    hide ReadVarint, DecodeScalar;
    match item {
      case ReadScalar(t) => r := GetScalar(t, limit, src);
      case ReadEnum(names) =>
        var varint := GetVarint(limit, src, InvalidVarint);
        if varint.Err? { return Err(varint.error); }
        var v := EnumName(names, varint.value.0);
        if v.Err? { return Err(v.error); }
        return Ok((v.value, varint.value.1));
    }
  }

  /** Items of a packed list, appended until its budget is spent. */
  method GetPacked(item: MergeItem, length: nat, src: DecodeBuf) returns (r: Step<seq<Val>>)
    modifies src
    ensures Tracks(DecodePacked(false, item, Cursor(length, old(src.rest))), r, src.rest)
  {
    hide DecodeItem;
    var items: seq<Val> := [];
    var left: nat := length;
    ghost var spec := DecodePacked(false, item, Cursor(length, src.rest));
    FrontNothing(spec);
    while left > 0
      invariant spec == Front(items, DecodePacked(false, item, Cursor(left, src.rest)))
      decreases left
    {
      ghost var c := Cursor(left, src.rest);
      var v := GetItem(item, left, src);
      if v.Err? { return Err(v.error); }
      FrontStep(items, [v.value.0], DecodePacked(false, item, Cursor(v.value.1, src.rest)));
      assert DecodePacked(false, item, c) == Front([v.value.0], DecodePacked(false, item, Cursor(v.value.1, src.rest)));
      items := items + [v.value.0];
      left := v.value.1;
    }
    assert items + [] == items;
    return Ok((items, 0));
  }

  /** A read of a list with the items already there in front. */
  function Front(items: seq<Val>, r: Read<seq<Val>>): Read<seq<Val>> {
    match r
    case Ok((more, c)) => Ok((items + more, c))
    case Err(error) => Err(error)
  }

  lemma FrontNothing(r: Read<seq<Val>>)
    ensures Front([], r) == r
  {
    if r.Ok? { assert [] + r.value.0 == r.value.0; }
  }

  lemma FrontStep(items: seq<Val>, step: seq<Val>, r: Read<seq<Val>>)
    ensures Front(items, Front(step, r)) == Front(items + step, r)
  {
    if r.Ok? { assert items + (step + r.value.0) == items + step + r.value.0; }
  }

  method MergeItem(item: MergeItem, form: MergeForm, wireType: WireType, limit: nat, src: DecodeBuf, dst: Val)
    returns (r: Step<Val>)
    modifies src
    ensures Tracks(MergeItemInto(false, item, form, wireType, Cursor(limit, old(src.rest)), dst), r, src.rest)
  {
    hide DecodeItem, ReadLength, DecodePacked, ItemWireType, WireTypeError;
    if form.IntoList? && !dst.List? { return Err(RepeatedNonList); }
    if form.IntoList? && wireType == LengthDelimited && ItemWireType(item) != LengthDelimited {
      var length := GetLength(limit, src);
      if length.Err? { return Err(length.error); }
      var items := GetPacked(item, length.value.0, src);
      if items.Err? { return Err(items.error); }
      return Ok((List(dst.items + items.value.0), length.value.1));
    }
    if wireType != ItemWireType(item) { return Err(WireTypeError(ItemWireType(item))); }
    var v := GetItem(item, limit, src);
    if v.Err? { return Err(v.error); }
    match form {
      case IntoValue => return v;
      case IntoOption => return Ok((Opt(Some(v.value.0)), v.value.1));
      case IntoList => return Ok((List(dst.items + [v.value.0]), v.value.1));
    }
  }

  method Merge(m: Merger, wireType: WireType, limit: nat, src: DecodeBuf, dst: Val) returns (r: Step<Val>)
    modifies src
    ensures Tracks(MergeField(false, m, wireType, Cursor(limit, old(src.rest)), dst), r, src.rest)
    decreases limit, 3, m
  {
    hide MergeItemInto, MergeNested, MergeFields;
    match m {
      case ItemMerger(item, form) => r := MergeItem(item, form, wireType, limit, src, dst);
      case MessageMerger(InnerRecord, _, _) =>
        if !dst.Record? { return Err(MessageNonRecord); }
        var fields := MergeInner(m, limit, src, dst.fields);
        if fields.Err? { return Err(fields.error); }
        return Ok((Record(fields.value.0), fields.value.1));
      case MessageMerger(OptionalRecord, _, _) =>
        var v := MergeDelimited(m, wireType, limit, src);
        if v.Err? { return Err(v.error); }
        return Ok((Opt(Some(v.value.0)), v.value.1));
      case MessageMerger(ListOfRecords, _, _) =>
        if !dst.List? { return Err(RepeatedNonList); }
        var v := MergeDelimited(m, wireType, limit, src);
        if v.Err? { return Err(v.error); }
        return Ok((List(dst.items + [v.value.0]), v.value.1));
      case VariantMerger(variant, inner) =>
        var v := Merge(inner, wireType, limit, src, Opt(None));
        if v.Err? { return Err(v.error); }
        if !v.value.0.Opt? { return Err(NonExplicitOneofVariant); }
        return Ok((Opt(Some(Variant(variant, v.value.0.option))), v.value.1));
    }
  }

  method MergeDelimited(m: Merger, wireType: WireType, limit: nat, src: DecodeBuf) returns (r: Step<Val>)
    requires m.MessageMerger?
    modifies src
    ensures Tracks(MergeNested(false, m, wireType, Cursor(limit, old(src.rest))), r, src.rest)
    decreases limit, 2
  {
    hide ReadLength, MergeFields;
    if wireType != LengthDelimited { return Err(WireTypeNonLengthDelimited); }
    var length := GetLength(limit, src);
    if length.Err? { return Err(length.error); }
    var fields := MergeInner(m, length.value.0, src, m.defaults);
    if fields.Err? { return Err(fields.error); }
    return Ok((Record(fields.value.0), length.value.1));
  }

  /** `message_inner_merge`: fields are merged into the record until the budget is spent. */
  method MergeInner(m: Merger, budget: nat, src: DecodeBuf, record: seq<NamedVal>)
    returns (r: Step<seq<NamedVal>>)
    requires m.MessageMerger?
    modifies src
    ensures Tracks(MergeFields(false, m, Cursor(budget, old(src.rest)), record), r, src.rest)
    decreases budget, 1
  {
    hide ReadTag, Skip, MergeField;
    var fields := record;
    var limit: nat := budget;
    ghost var spec := MergeFields(false, m, Cursor(budget, src.rest), record);
    while limit > 0
      invariant limit <= budget
      invariant spec == MergeFields(false, m, Cursor(limit, src.rest), fields)
      decreases limit
    {
      var tag := GetTag(limit, src);
      if tag.Err? { return Err(tag.error); }
      var ((number, wireType), left) := tag.value;
      if number in m.subfields {
        var slot := m.subfields[number];
        if slot.index >= |fields| { return Err(FieldIndexOutOfBounds); }
        var v := Merge(slot.merger, wireType, left, src, fields[slot.index].value);
        if v.Err? { return Err(v.error); }
        fields := fields[slot.index := NamedVal(fields[slot.index].name, v.value.0)];
        limit := v.value.1;
      } else {
        var skipped := SkipField(wireType, left, src);
        if skipped.Err? { return Err(skipped.error); }
        limit := skipped.value.1;
      }
    }
    return Ok((fields, 0));
  }

  /** `RequestDecoder::decode` */
  method DecodeTopLevel(m: Merger, src: DecodeBuf) returns (r: Result<Val, DecodeError>)
    requires m.MessageMerger?
    modifies src
    ensures r == DecodeRequest(false, m, old(src.rest))
  {
    hide MergeField;
    if |src.rest| > U32_MAX { return Err(RequestTooBig); }
    var v := Merge(m, LengthDelimited, |src.rest|, src, Record(m.defaults));
    if v.Err? { return Err(v.error); }
    return Ok(v.value.0);
  }
}
