/**
  * The round trip: for every well-formed schema and every encodable value in schema order,
  * decoding the encoding yields the image of the value, hence the value itself exactly when it
  * is faithful.
  */
module RoundTrip {
  import opened Prelude
  import opened Wire
  import opened Values
  import opened Reading
  import opened Scalars
  import opened Encoding
  import opened TwoPass
  import opened Merging
  import opened EncoderCompiler
  import opened MergerCompiler
  import opened Image
  import opened ItemTrips

  // ---------------------------------------------------------------------------------------
  // Well-formed schemas and values in schema order
  // ---------------------------------------------------------------------------------------

  /** The field numbers under which a field appears in its message. */
  function Numbers(f: Field): set<u32> {
    if IsOneof(f) then set j | 0 <= j < |f.subfields| :: f.subfields[j].number else {f.number}
  }

  ghost predicate DistinctNames(subfields: seq<Field>) {
    forall i, j :: 0 <= i < j < |subfields| ==> subfields[i].name != subfields[j].name
  }

  /** No number appears twice in a message, oneofs being flattened into it. */
  ghost predicate DistinctNumbers(subfields: seq<Field>) {
    && (forall i, j :: 0 <= i < j < |subfields| ==> Numbers(subfields[i]) !! Numbers(subfields[j]))
    && forall i :: 0 <= i < |subfields| && IsOneof(subfields[i]) ==> DistinctVariants(subfields[i].subfields)
  }

  ghost predicate DistinctVariants(variants: seq<Field>) {
    forall i, j :: 0 <= i < j < |variants| ==> variants[i].number != variants[j].number
  }

  ghost predicate WellFormed(f: Field)
    decreases f, 1
  {
    match f.coding
    case CompoundCoding(code) =>
      (match CompoundOf(code)
       case Some(MessageSingular) => WellFormedMessage(f)
       case Some(MessageExpanded) => WellFormedMessage(f)
       case Some(OneofCompound) =>
         DistinctNames(f.subfields) &&
         forall j :: 0 <= j < |f.subfields| ==> WellFormed(f.subfields[j])
       case _ => true)
    case _ => true
  }

  ghost predicate WellFormedMessage(f: Field)
    decreases f, 0
  {
    && DistinctNames(f.subfields)
    && DistinctNumbers(f.subfields)
    && forall i :: 0 <= i < |f.subfields| ==> WellFormed(f.subfields[i])
  }

  /** Every record in the value lists exactly the schema's fields, in the schema's order. */
  ghost predicate Ordered(f: Field, v: Val)
    decreases f, 2
  {
    match f.coding
    case CompoundCoding(code) =>
      (match CompoundOf(code)
       case Some(MessageSingular) =>
         v.Opt? && v.option.Some? && v.option.value.Record? ==>
           OrderedRecord(f, v.option.value.fields)
       case Some(MessageExpanded) =>
         v.List? ==> forall i :: 0 <= i < |v.items| && v.items[i].Record? ==>
           OrderedRecord(f, v.items[i].fields)
       case Some(OneofCompound) =>
         v.Opt? && v.option.Some? && v.option.value.Variant? && v.option.value.payload.Some? ==>
           (match FindVariant(f.subfields, v.option.value.variant)
            case None => true
            case Some(j) => Ordered(f.subfields[j], Opt(v.option.value.payload)))
       case _ => true)
    case _ => true
  }

  ghost predicate OrderedRecord(f: Field, fields: seq<NamedVal>)
    decreases f, 0
  {
    && |fields| == |f.subfields|
    && forall i :: 0 <= i < |fields| ==>
         fields[i].name == f.subfields[i].name && Ordered(f.subfields[i], fields[i].value)
  }

  // ---------------------------------------------------------------------------------------
  // Slots by number
  // ---------------------------------------------------------------------------------------

  /** The slots that a field has in the table of its message. */
  ghost predicate HasSlots(slots: map<u32, Slot>, i: nat, f: Field) {
    if IsOneof(f) then
      forall j :: 0 <= j < |f.subfields| ==> VariantSlot(slots, i, f.subfields[j])
    else
      && CompileMerger(f).Ok?
      && f.number in slots
      && slots[f.number] == Slot(i, CompileMerger(f).value.merger)
  }

  ghost predicate VariantSlot(slots: map<u32, Slot>, i: nat, variant: Field) {
    && CompileVariant(variant).Ok?
    && variant.number in slots
    && slots[variant.number] == Slot(i, CompileVariant(variant).value)
  }

  lemma {:induction false} VariantsInTable(slots: map<u32, Slot>, index: nat, variants: seq<Field>)
    requires CompileVariants(slots, index, variants).Ok?
    ensures var out := CompileVariants(slots, index, variants).value;
      && (DistinctVariants(variants) ==>
            forall j :: 0 <= j < |variants| ==> VariantSlot(out, index, variants[j]))
      && (forall number :: number in slots && (forall j :: 0 <= j < |variants| ==> variants[j].number != number)
            ==> number in out && out[number] == slots[number])
    decreases |variants|
  {
    hide CompileVariant;
    if variants != [] {
      var n := |variants| - 1;
      VariantsInTable(slots, index, variants[..n]);
      var before := CompileVariants(slots, index, variants[..n]).value;
      var out := CompileVariants(slots, index, variants).value;
      if DistinctVariants(variants) {
        assert DistinctVariants(variants[..n]);
        forall j | 0 <= j < n
          ensures VariantSlot(out, index, variants[j])
        {
          assert VariantSlot(before, index, variants[..n][j]);
        }
      }
      forall number | number in slots && (forall j :: 0 <= j < |variants| ==> variants[j].number != number)
        ensures number in out && out[number] == slots[number]
      {
        assert forall j :: 0 <= j < n ==> variants[..n][j].number != number;
      }
    }
  }

  /** Later fields of other numbers leave the slots of a field alone. */
  lemma SlotsKept(slots: map<u32, Slot>, out: map<u32, Slot>, i: nat, f: Field)
    requires HasSlots(slots, i, f)
    requires forall number :: number in slots && number in Numbers(f) ==>
      number in out && out[number] == slots[number]
    ensures HasSlots(out, i, f)
  {
    hide CompileVariant, CompileMerger, IsOneof;
    if IsOneof(f) {
      forall j | 0 <= j < |f.subfields|
        ensures VariantSlot(out, i, f.subfields[j])
      {
        assert VariantSlot(slots, i, f.subfields[j]);
        assert f.subfields[j].number in Numbers(f);
      }
    }
  }

  lemma {:induction false} SlotsInTable(subfields: seq<Field>)
    requires CompileTable(subfields).Ok? && DistinctNumbers(subfields)
    ensures forall i :: 0 <= i < |subfields| ==>
      HasSlots(CompileTable(subfields).value.slots, i, subfields[i])
    decreases |subfields|
  {
    hide CompileVariant, CompileMerger, IsOneof, HasSlots, Numbers, DistinctVariants;
    if subfields != [] {
      var n := |subfields| - 1;
      var f := subfields[n];
      var before := CompileTable(subfields[..n]).value.slots;
      var out := CompileTable(subfields).value.slots;
      assert DistinctNumbers(subfields[..n]);
      SlotsInTable(subfields[..n]);
      LastSlots(before, n, f);
      forall i | 0 <= i < n
        ensures HasSlots(out, i, subfields[i])
      {
        assert HasSlots(before, i, subfields[..n][i]);
        assert Numbers(subfields[i]) !! Numbers(f);
        SlotsKept(before, out, i, subfields[i]);
      }
    }
  }

  /** What adding one field does to the table. */
  lemma LastSlots(slots: map<u32, Slot>, n: nat, f: Field)
    requires IsOneof(f) ==> CompileVariants(slots, n, f.subfields).Ok? && DistinctVariants(f.subfields)
    requires !IsOneof(f) ==> CompileMerger(f).Ok?
    ensures var out := if IsOneof(f) then CompileVariants(slots, n, f.subfields).value
                       else slots[f.number := Slot(n, CompileMerger(f).value.merger)];
      && HasSlots(out, n, f)
      && forall number :: number in slots && number !in Numbers(f) ==>
           number in out && out[number] == slots[number]
  {
    hide CompileVariant, CompileMerger, CompileVariants, IsOneof;
    if IsOneof(f) {
      VariantsInTable(slots, n, f.subfields);
      forall number | number in slots && number !in Numbers(f)
        ensures forall j :: 0 <= j < |f.subfields| ==> f.subfields[j].number != number
      {
        forall j | 0 <= j < |f.subfields|
          ensures f.subfields[j].number != number
        {
          assert f.subfields[j].number in Numbers(f);
        }
      }
    }
  }

  lemma {:induction false} DefaultsInTable(subfields: seq<Field>, i: nat)
    requires CompileTable(subfields).Ok? && i < |subfields|
    ensures var default := CompileTable(subfields).value.defaults[i];
      && default.name == subfields[i].name
      && (IsOneof(subfields[i]) ==> default.value == Opt(None))
      && (!IsOneof(subfields[i]) ==>
            CompileMerger(subfields[i]).Ok? && default.value == CompileMerger(subfields[i]).value.default)
    decreases |subfields|
  {
    hide CompileVariant, CompileMerger, CompileVariants, IsOneof;
    var n := |subfields| - 1;
    if i < n {
      DefaultsInTable(subfields[..n], i);
      assert subfields[..n][i] == subfields[i];
    }
  }

  // ---------------------------------------------------------------------------------------
  // Items
  // ---------------------------------------------------------------------------------------

  function Singles(items: seq<Val>): seq<Run> {
    seq(|items|, i requires 0 <= i < |items| => SingleItem(items[i]))
  }

  lemma {:induction false} SinglesItems(items: seq<Val>)
    ensures RunsItems(Singles(items)) == items
  {
    if items != [] {
      SinglesItems(items[1..]);
      assert Singles(items)[1..] == Singles(items[1..]);
    }
  }

  lemma SinglesHead(items: seq<Val>)
    ensures |Singles(items)| == |items|
    ensures items != [] ==> Singles(items)[0] == SingleItem(items[0]) && Singles(items)[1..] == Singles(items[1..])
  {
  }

  lemma {:induction false} SinglesEncode(c: ItemCoding, tag: seq<byte>, items: seq<Val>)
    requires EncodePayloads(c.Write(), tag, items).Ok?
    ensures forall i :: 0 <= i < |items| ==> RunEncodes(c, Singles(items)[i])
  {
    hide EncodePayload;
    if items != [] {
      SinglesEncode(c, tag, items[1..]);
      forall i | 1 <= i < |items| ensures RunEncodes(c, Singles(items)[i]) {
        assert Singles(items)[i] == Singles(items[1..])[i - 1];
      }
    }
  }

  /** Expanded repetition is a mixture of runs without packed ones. */
  lemma {:induction false} ExpandedAsRuns(c: ItemCoding, number: u32, items: seq<Val>)
    requires EncodePayloads(c.Write(), EncodeVarint(Tag(number, ItemWireType(c.Read()))), items).Ok?
    ensures forall i :: 0 <= i < |items| ==> RunEncodes(c, Singles(items)[i])
    ensures RunsBytes(c, number, Singles(items))
         == EncodePayloads(c.Write(), EncodeVarint(Tag(number, ItemWireType(c.Read()))), items).value
    ensures RunsItems(Singles(items)) == items
    decreases |items|
  {
    SinglesItems(items);
    SinglesEncode(c, EncodeVarint(Tag(number, ItemWireType(c.Read()))), items);
    SinglesHead(items);
    hide EncodeVarint, EncodePayload, ItemWireType, RunsItems, RunEncodes, Singles;
    if items != [] {
      ExpandedAsRuns(c, number, items[1..]);
      assert RunsBytes(c, number, Singles(items))
          == RunBytes(c, number, SingleItem(items[0])) + RunsBytes(c, number, Singles(items[1..]));
    }
  }

  lemma NothingMerged(strict: bool, m: Merger, fields: seq<NamedVal>, i: nat, limit: nat, rest: seq<byte>)
    requires m.MessageMerger? && i < |fields|
    ensures MergeFields(strict, m, Cursor(limit, [] + rest), fields)
         == Resume(strict, m, fields, i, Landed(Ok(fields[i].value), limit, rest))
  {
    hide MergeFields;
    assert [] + rest == rest;
    assert Put(fields, i, fields[i].value) == fields;
  }

  lemma SingularTrip(strict: bool, m: Merger, c: ItemCoding, form: MergeForm, number: u32, v: Val,
                     fields: seq<NamedVal>, i: nat, limit: nat, rest: seq<byte>)
    requires m.MessageMerger? && number in m.subfields && !form.IntoList?
    requires m.subfields[number] == Slot(i, ItemMerger(c.Read(), form)) && i < |fields|
    requires EncodePayload(c.Write(), v).Ok?
    requires |EncodePayload(c.Write(), v).value| <= U32_MAX
    ensures var bytes := EncodeVarint(Tag(number, ItemWireType(c.Read()))) + EncodePayload(c.Write(), v).value;
      MergeFields(strict, m, Cursor(|bytes| + limit, bytes + rest), fields)
      == Resume(strict, m, fields, i, Landed(Formed(form, ItemImage(c, v)), limit, rest))
  {
    hide MergeFields, EncodeVarint, EncodePayload, DecodeItem, ItemImage;
    var payload := EncodePayload(c.Write(), v).value;
    var wireType := ItemWireType(c.Read());
    assert EncodeVarint(Tag(number, wireType)) + payload + rest
        == EncodeVarint(Tag(number, wireType)) + (payload + rest);
    Dispatch(strict, m, number, wireType, fields, |payload| + limit, payload + rest);
    ItemInverts(strict, c, v, limit, rest);
  }

  function Formed(form: MergeForm, image: Outcome): Outcome {
    if form.IntoOption? then
      var w :- image;
      Ok(Opt(Some(w)))
    else image
  }

  lemma ListTrip(strict: bool, m: Merger, c: ItemCoding, presence: Presence, number: u32, v: Val,
                 fields: seq<NamedVal>, i: nat, limit: nat, rest: seq<byte>)
    requires m.MessageMerger? && number in m.subfields
    requires presence.Packed? || presence.Expanded?
    requires presence.Packed? ==> Packable(c)
    requires m.subfields[number] == Slot(i, ItemMerger(c.Read(), IntoList))
    requires i < |fields| && fields[i].value == List([])
    requires var tag := FieldTag(number, ItemWireType(c.Read()), presence);
      WireItem(c.Write(), presence, tag, v).Ok? && |WireItem(c.Write(), presence, tag, v).value| <= U32_MAX
    ensures var bytes := WireItem(c.Write(), presence, FieldTag(number, ItemWireType(c.Read()), presence), v).value;
      MergeFields(strict, m, Cursor(|bytes| + limit, bytes + rest), fields)
      == Resume(strict, m, fields, i, Landed(PresenceImage(c, presence, v), limit, rest))
  {
    hide MergeFields, EncodeVarint, EncodePayloads, ItemImages, ItemWireType;
    if presence.Packed? {
      if v.items == [] {
        NoImages(c);
        NothingMerged(strict, m, fields, i, limit, rest);
      } else {
        RunAppends(strict, m, c, number, PackedRun(v.items), fields, limit, rest);
      }
    } else {
      ExpandedAsRuns(c, number, v.items);
      RunsAppend(strict, m, c, number, Singles(v.items), fields, limit, rest);
    }
    if ItemImages(c, v.items).Ok? {
      assert [] + ItemImages(c, v.items).value == ItemImages(c, v.items).value;
    }
  }

  /** A field of items, whatever its presence, leaves its image in its slot. */
  lemma ItemTrip(strict: bool, m: Merger, c: ItemCoding, presence: Presence, number: u32, v: Val,
                 fields: seq<NamedVal>, i: nat, limit: nat, rest: seq<byte>)
    requires m.MessageMerger? && number in m.subfields
    requires presence.Packed? ==> Packable(c)
    requires m.subfields[number] == Slot(i, ItemMerger(c.Read(), FormOf(presence)))
    requires i < |fields| && fields[i].value == Initial(FormOf(presence), c.Absent())
    requires var tag := FieldTag(number, ItemWireType(c.Read()), presence);
      WireItem(c.Write(), presence, tag, v).Ok? && |WireItem(c.Write(), presence, tag, v).value| <= U32_MAX
    ensures var bytes := WireItem(c.Write(), presence, FieldTag(number, ItemWireType(c.Read()), presence), v).value;
      MergeFields(strict, m, Cursor(|bytes| + limit, bytes + rest), fields)
      == Resume(strict, m, fields, i, Landed(PresenceImage(c, presence, v), limit, rest))
  {
    hide MergeFields, EncodeVarint, EncodePayload, EncodePayloads, ItemImage, ItemImages, ItemWireType;
    match presence
    case Implicit =>
      PayloadLengthExact(c.Write(), v);
      if ItemIsDefault(c.Write(), v) {
        NothingMerged(strict, m, fields, i, limit, rest);
      } else {
        SingularTrip(strict, m, c, IntoValue, number, v, fields, i, limit, rest);
      }
    case Explicit =>
      if c.EnumItems? {
        SingularTrip(strict, m, c, IntoOption, number, v, fields, i, limit, rest);
      } else if v.option.None? {
        NothingMerged(strict, m, fields, i, limit, rest);
      } else {
        SingularTrip(strict, m, c, IntoOption, number, v.option.value, fields, i, limit, rest);
      }
    case Packed => ListTrip(strict, m, c, presence, number, v, fields, i, limit, rest);
    case Expanded => ListTrip(strict, m, c, presence, number, v, fields, i, limit, rest);
  }

  // ---------------------------------------------------------------------------------------
  // Records
  // ---------------------------------------------------------------------------------------

  /** The bytes of a field, and that there are not too many of them. */
  ghost predicate Encodes(e: Encoder, v: Val) {
    WireBytes(e, v).Ok? && |WireBytes(e, v).value| <= U32_MAX
  }

  ghost predicate EncodesFields(e: Encoder, fields: seq<NamedVal>)
    requires e.MessageEncoder?
  {
    WireFields(e, fields).Ok? && |WireFields(e, fields).value| <= U32_MAX
  }

  /** The record whose slots from `j` on are the given ones. */
  function Finished(fields: seq<NamedVal>, j: nat, images: Result<seq<NamedVal>, DecodeError>)
    : Result<seq<NamedVal>, DecodeError>
    requires j <= |fields|
  {
    match images
    case Ok(ws) => Ok(fields[..j] + ws)
    case Err(error) => Err(error)
  }

  ghost predicate DefaultsFrom(m: Merger, fields: seq<NamedVal>, j: nat)
    requires m.MessageMerger?
  {
    |fields| == |m.defaults| && forall i :: j <= i < |fields| ==> fields[i] == m.defaults[i]
  }

  lemma NoMore(strict: bool, m: Merger, fields: seq<NamedVal>, rest: seq<byte>)
    requires m.MessageMerger?
    ensures MergeFields(strict, m, Cursor(0, rest), fields) == Ok((fields, Cursor(0, rest)))
  {}

  /** Fields `j` and later, merged into a record whose slots from `j` on are untouched. */
  lemma {:induction false} RecordTrip(strict: bool, f: Field, e: Encoder, m: Merger, fs: seq<NamedVal>,
                                      j: nat, fields: seq<NamedVal>, rest: seq<byte>)
    requires m.MessageMerger? && e.MessageEncoder?
    requires CompileMessageEncoder(f, e.shape) == Ok(e) && CompileMessageMerger(f, m.shape) == Ok(m)
    requires WellFormedMessage(f) && OrderedRecord(f, fs)
    requires j <= |fs| && EncodesFields(e, fs[j..])
    requires DefaultsFrom(m, fields, j)
    ensures var bytes := WireFields(e, fs[j..]).value;
      MergeFields(strict, m, Cursor(|bytes|, bytes + rest), fields)
      == Landed(Finished(fields, j, RecordImage(f, fs, j)), 0, rest)
    decreases f, 0, |fs| - j + 1
  {
    hide MergeFields, CompileMessageEncoder, CompileMessageMerger, WireBytes, FieldImage, WellFormedMessage, Ordered;
    var bytes := WireFields(e, fs[j..]).value;
    if j == |fs| {
      assert bytes + rest == rest;
      NoMore(strict, m, fields, rest);
      assert fields[..j] + [] == fields;
    } else {
      assert fs[j..][1..] == fs[j + 1..] && fs[j..][0] == fs[j];
      var tail := WireFields(e, fs[j + 1..]).value;
      var head := WireBytes(e.subfields[fs[j].name], fs[j].value).value;
      assert bytes + rest == head + (tail + rest);
      RecordFieldTrip(strict, f, e, m, fs, j, fields, |tail|, tail + rest);
      var image := FieldImage(f.subfields[j], fs[j].value);
      if image.Ok? {
        var fields1 := Put(fields, j, image.value);
        RecordTrip(strict, f, e, m, fs, j + 1, fields1, rest);
        var put := [NamedVal(fs[j].name, image.value)];
        if RecordImage(f, fs, j + 1).Ok? {
          assert fields1[..j + 1] == fields[..j] + put;
          assert fields[..j] + put + RecordImage(f, fs, j + 1).value
              == fields[..j] + (put + RecordImage(f, fs, j + 1).value);
        }
      }
    }
  }

  /** Field `j` of a record, found by name in the encoder and by number in the merger. */
  lemma {:induction false} RecordFieldTrip(strict: bool, f: Field, e: Encoder, m: Merger, fs: seq<NamedVal>,
                                           j: nat, fields: seq<NamedVal>, limit: nat, rest: seq<byte>)
    requires m.MessageMerger? && e.MessageEncoder?
    requires CompileMessageEncoder(f, e.shape) == Ok(e) && CompileMessageMerger(f, m.shape) == Ok(m)
    requires WellFormedMessage(f) && OrderedRecord(f, fs)
    requires j < |fs| && fs[j].name in e.subfields && Encodes(e.subfields[fs[j].name], fs[j].value)
    requires DefaultsFrom(m, fields, j)
    ensures fields[j].name == fs[j].name
    ensures var bytes := WireBytes(e.subfields[fs[j].name], fs[j].value).value;
      MergeFields(strict, m, Cursor(|bytes| + limit, bytes + rest), fields)
      == Resume(strict, m, fields, j, Landed(FieldImage(f.subfields[j], fs[j].value), limit, rest))
    decreases f, 0, 0
  {
    hide CompileTable, WireBytes, CompileEncoders, FieldImage, WellFormed, Ordered, DistinctNumbers, MergeFields,
      HasSlots, IsOneof, CompileMerger, CompileEncoder;
    EncoderByName(f.subfields, false, j);
    SlotsInTable(f.subfields);
    DefaultsInTable(f.subfields, j);
    FieldTrip(strict, f.subfields[j], m, fs[j].value, fields, j, limit, rest);
  }

  function AsRecord(images: Result<seq<NamedVal>, DecodeError>): Outcome {
    match images
    case Ok(fields) => Ok(Record(fields))
    case Err(error) => Err(error)
  }

  /** A length-delimited record, read back under its own budget. */
  lemma {:induction false} NestedTrip(strict: bool, f: Field, e: Encoder, m: Merger, fs: seq<NamedVal>,
                                      limit: nat, rest: seq<byte>)
    requires m.MessageMerger? && e.MessageEncoder?
    requires CompileMessageEncoder(f, e.shape) == Ok(e) && CompileMessageMerger(f, m.shape) == Ok(m)
    requires WellFormedMessage(f) && OrderedRecord(f, fs) && EncodesFields(e, fs)
    ensures var body := WireFields(e, fs).value;
      var payload := EncodeVarint(|body|) + body;
      MergeNested(strict, m, LengthDelimited, Cursor(|payload| + limit, payload + rest))
      == Landed(AsRecord(RecordImage(f, fs, 0)), limit, rest)
    decreases f, 1
  {
    hide MergeFields, CompileMessageEncoder, CompileMessageMerger, WireFields, RecordImage, ReadLength,
      EncodeVarint, WellFormedMessage, OrderedRecord;
    var body := WireFields(e, fs).value;
    ReadLengthInverts(strict, body, limit, rest);
    assert fs[0..] == fs;
    RecordTrip(strict, f, e, m, fs, 0, m.defaults, rest);
    if RecordImage(f, fs, 0).Ok? {
      assert m.defaults[..0] + RecordImage(f, fs, 0).value == RecordImage(f, fs, 0).value;
    }
  }

  // ---------------------------------------------------------------------------------------
  // Fields
  // ---------------------------------------------------------------------------------------

  /** Every field of a message leaves its image in its slot. */
  lemma {:induction false} FieldTrip(strict: bool, f: Field, m: Merger, v: Val, fields: seq<NamedVal>,
                                     i: nat, limit: nat, rest: seq<byte>)
    requires m.MessageMerger? && i < |fields| && HasSlots(m.subfields, i, f)
    requires CompileEncoder(f, false).Ok? && Encodes(CompileEncoder(f, false).value, v)
    requires WellFormed(f) && Ordered(f, v)
    requires if IsOneof(f) then fields[i].value == Opt(None)
             else fields[i].value == CompileMerger(f).value.default
    ensures var bytes := WireBytes(CompileEncoder(f, false).value, v).value;
      MergeFields(strict, m, Cursor(|bytes| + limit, bytes + rest), fields)
      == Resume(strict, m, fields, i, Landed(FieldImage(f, v), limit, rest))
    decreases f, 3
  {
    hide MergeFields, CompileTable, CompileEncoders, WireItem, PresenceImage, EnumNames, EnumNumbers,
      RecordImage, MessageImages, OrderedRecord, WellFormedMessage, FindVariant;
    match f.coding
    case ScalarCoding(code) =>
      var Scalar(t, presence) := ScalarOf(code).value;
      ItemTrip(strict, m, ScalarItems(t), presence, f.number, v, fields, i, limit, rest);
    case CompoundCoding(code) =>
      match CompoundOf(code).value
      case EnumCompound(presence) =>
        ItemTrip(strict, m, EnumCoding(f), presence, f.number, v, fields, i, limit, rest);
      case MessageSingular => OptionalTrip(strict, f, m, v, fields, i, limit, rest);
      case MessageExpanded =>
        var e := CompileEncoder(f, false).value;
        var n := CompileMerger(f).value.merger;
        MessagesTrip(strict, f, e, n, m, v.items, fields, i, limit, rest);
        if MessageImages(f, v.items).Ok? {
          assert [] + MessageImages(f, v.items).value == MessageImages(f, v.items).value;
        }
      case OneofCompound => OneofTrip(strict, f, m, v, fields, i, limit, rest);
  }

  lemma {:induction false} OptionalTrip(strict: bool, f: Field, m: Merger, v: Val, fields: seq<NamedVal>,
                                        i: nat, limit: nat, rest: seq<byte>)
    requires m.MessageMerger? && i < |fields|
    requires f.coding.CompoundCoding? && CompoundOf(f.coding.code) == Some(MessageSingular)
    requires HasSlots(m.subfields, i, f)
    requires CompileEncoder(f, false).Ok? && Encodes(CompileEncoder(f, false).value, v)
    requires WellFormed(f) && Ordered(f, v)
    requires fields[i].value == Opt(None)
    ensures var bytes := WireBytes(CompileEncoder(f, false).value, v).value;
      MergeFields(strict, m, Cursor(|bytes| + limit, bytes + rest), fields)
      == Resume(strict, m, fields, i, Landed(FieldImage(f, v), limit, rest))
    decreases f, 2
  {
    hide MergeFields, MergeNested, CompileTable, CompileEncoders, RecordImage, OrderedRecord, WellFormedMessage,
      WireFields, EncodeVarint;
    var e := CompileEncoder(f, false).value;
    var n := CompileMerger(f).value.merger;
    if v.option.None? {
      NothingMerged(strict, m, fields, i, limit, rest);
    } else {
      var fs := v.option.value.fields;
      var body := WireFields(e, fs).value;
      var payload := EncodeVarint(|body|) + body;
      assert Delimited(e.tag, body) + rest == EncodeVarint(e.tag) + (payload + rest);
      Dispatch(strict, m, f.number, LengthDelimited, fields, |payload| + limit, payload + rest);
      NestedTrip(strict, f, e, n, fs, limit, rest);
    }
  }

  lemma {:induction false} MessagesTrip(strict: bool, f: Field, e: Encoder, n: Merger, m: Merger, items: seq<Val>,
                                        fields: seq<NamedVal>, i: nat, limit: nat, rest: seq<byte>)
    requires m.MessageMerger? && i < |fields| && fields[i].value.List?
    requires n.MessageMerger? && n.shape.ListOfRecords? && e.MessageEncoder?
    requires f.number in m.subfields && m.subfields[f.number] == Slot(i, n)
    requires CompileMessageEncoder(f, e.shape) == Ok(e) && CompileMessageMerger(f, n.shape) == Ok(n)
    requires WireMessages(e, items).Ok? && |WireMessages(e, items).value| <= U32_MAX
    requires WellFormedMessage(f)
    requires forall k :: 0 <= k < |items| && items[k].Record? ==> OrderedRecord(f, items[k].fields)
    ensures var bytes := WireMessages(e, items).value;
      MergeFields(strict, m, Cursor(|bytes| + limit, bytes + rest), fields)
      == Resume(strict, m, fields, i,
                Landed(Appended(fields[i].value.items, MessageImages(f, items)), limit, rest))
    decreases f, 2, |items|
  {
    hide MergeFields, MergeNested, CompileTable, CompileEncoders, RecordImage, OrderedRecord, WellFormedMessage,
      WireFields, EncodeVarint;
    var list := fields[i].value.items;
    if items == [] {
      NothingMerged(strict, m, fields, i, limit, rest);
      assert list + [] == list;
    } else {
      var fs := items[0].fields;
      var body := WireFields(e, fs).value;
      var payload := EncodeVarint(|body|) + body;
      var tail := WireMessages(e, items[1..]).value;
      assert Delimited(e.tag, body) + tail + rest == EncodeVarint(e.tag) + (payload + (tail + rest));
      Dispatch(strict, m, f.number, LengthDelimited, fields, |payload| + (|tail| + limit), payload + (tail + rest));
      NestedTrip(strict, f, e, n, fs, |tail| + limit, tail + rest);
      if RecordImage(f, fs, 0).Ok? {
        var w := Record(RecordImage(f, fs, 0).value);
        var fields1 := Put(fields, i, List(list + [w]));
        MessagesTrip(strict, f, e, n, m, items[1..], fields1, i, limit, rest);
        if MessageImages(f, items[1..]).Ok? {
          var ws := MessageImages(f, items[1..]).value;
          assert list + [w] + ws == list + ([w] + ws);
          assert Put(fields1, i, List(list + [w] + ws)) == Put(fields, i, List(list + [w] + ws));
        }
      }
    }
  }

  lemma {:induction false} OneofTrip(strict: bool, f: Field, m: Merger, v: Val, fields: seq<NamedVal>,
                                     i: nat, limit: nat, rest: seq<byte>)
    requires m.MessageMerger? && i < |fields| && IsOneof(f) && HasSlots(m.subfields, i, f)
    requires CompileEncoder(f, false).Ok? && Encodes(CompileEncoder(f, false).value, v)
    requires WellFormed(f) && Ordered(f, v)
    requires fields[i].value == Opt(None)
    ensures var bytes := WireBytes(CompileEncoder(f, false).value, v).value;
      MergeFields(strict, m, Cursor(|bytes| + limit, bytes + rest), fields)
      == Resume(strict, m, fields, i, Landed(FieldImage(f, v), limit, rest))
    decreases f, 2
  {
    hide MergeFields, CompileVariant, CompileEncoders, CompileEncoder, CompileMerger, Resume, Landed;
    OneofUnfolds(f);
    var subfields := CompileEncoders(f.subfields, true).value;
    var chosen := ChosenVariant(subfields, v).value;
    if chosen.None? {
      NothingMerged(strict, m, fields, i, limit, rest);
    } else {
      var NamedVal(name, x) := chosen.value;
      VariantKnown(f.subfields, name);
      var j := FindVariant(f.subfields, name).value;
      EncoderByName(f.subfields, true, j);
      assert VariantSlot(m.subfields, i, f.subfields[j]);
      VariantTrip(strict, f.subfields[j], m, x, fields, i, limit, rest);
    }
  }

  lemma OneofUnfolds(f: Field)
    requires IsOneof(f) && CompileEncoder(f, false).Ok?
    ensures CompileEncoders(f.subfields, true).Ok?
    ensures CompileEncoder(f, false) == Ok(OneofEncoder(CompileEncoders(f.subfields, true).value))
  {
    hide CompileEncoders;
  }

  lemma {:induction false} VariantKnown(variants: seq<Field>, name: string)
    requires CompileEncoders(variants, true).Ok? && name in CompileEncoders(variants, true).value
    ensures FindVariant(variants, name).Some?
    decreases |variants|
  {
    hide CompileEncoder;
    if variants != [] && variants[|variants| - 1].name != name {
      VariantKnown(variants[..|variants| - 1], name);
    }
  }

  /** The image of a variant: that of its payload, wrapped again. */
  function VariantImage(f: Field, x: Val): Outcome {
    var w :- FieldImage(f, Opt(Some(x)));
    if w.Opt? then Ok(Opt(Some(Variant(f.name, w.option)))) else Ok(Opt(Some(Variant(f.name, Some(x)))))
  }

  /**
    * An explicit enumeration cannot be encoded as a variant: the oneof hands it an option and it
    * expects a bare enumerator.
    */
  lemma EnumVariantFails(item: EncodeItem, tag: u64, x: Val)
    requires item.EnumItem?
    ensures WireItem(item, Explicit, tag, Opt(Some(x))) == Err(EnumNonEnum)
  {}

  /** A variant that is a scalar or an enumeration is explicit: nothing else is compiled as one. */
  lemma {:induction false} VariantsExplicit(variants: seq<Field>)
    requires CompileEncoders(variants, true).Ok?
    ensures forall name <- CompileEncoders(variants, true).value ::
      CompileEncoders(variants, true).value[name].ItemEncoder? ==>
        CompileEncoders(variants, true).value[name].presence.Explicit?
  {
    if variants != [] {
      var n := |variants| - 1;
      VariantsExplicit(variants[..n]);
      VariantExplicit(variants[n]);
      hide CompileEncoder;
    }
  }

  lemma VariantExplicit(f: Field)
    requires CompileEncoder(f, true).Ok?
    ensures CompileEncoder(f, true).value.ItemEncoder? ==> CompileEncoder(f, true).value.presence.Explicit?
  {
    hide CompileEncoders;
  }

  /** A oneof whose chosen variant is an enumeration is refused by the reference and by both passes. */
  lemma OneofRefusesEnum(variants: seq<Field>, v: Val, stack: seq<nat>)
    requires CompileEncoders(variants, true).Ok?
    requires var subfields := CompileEncoders(variants, true).value;
      var chosen := ChosenVariant(subfields, v);
      chosen.Ok? && chosen.value.Some? && subfields[chosen.value.value.name].ItemEncoder?
      && subfields[chosen.value.value.name].item.EnumItem?
    ensures var e := OneofEncoder(CompileEncoders(variants, true).value);
      WireBytes(e, v) == Err(EnumNonEnum) && Measure(e, v) == Err(EnumNonEnum) && Emit(e, v, stack) == Err(EnumNonEnum)
  {
    VariantsExplicit(variants);
    var subfields := CompileEncoders(variants, true).value;
    var chosen := ChosenVariant(subfields, v).value.value;
    EnumVariantFails(subfields[chosen.name].item, subfields[chosen.name].tag, chosen.value);
    hide CompileEncoders, ChosenVariant;
  }

  lemma {:induction false} VariantTrip(strict: bool, f: Field, m: Merger, x: Val, fields: seq<NamedVal>,
                                       i: nat, limit: nat, rest: seq<byte>)
    requires m.MessageMerger? && i < |fields| && VariantSlot(m.subfields, i, f)
    requires CompileEncoder(f, true).Ok? && Encodes(CompileEncoder(f, true).value, Opt(Some(x)))
    requires WellFormed(f) && Ordered(f, Opt(Some(x)))
    ensures var bytes := WireBytes(CompileEncoder(f, true).value, Opt(Some(x))).value;
      MergeFields(strict, m, Cursor(|bytes| + limit, bytes + rest), fields)
      == Resume(strict, m, fields, i, Landed(VariantImage(f, x), limit, rest))
    decreases f, 2
  {
    hide MergeFields, MergeNested, CompileTable, CompileEncoders, RecordImage, OrderedRecord, WellFormedMessage,
      WireFields, EncodeVarint, EncodePayload, DecodeItem, ItemImage;
    var e := CompileEncoder(f, true).value;
    var n := CompileVariant(f).value.inner;
    match e
    case ItemEncoder(item, presence, tag) =>
      assert presence.Explicit?;
      if item.EnumItem? { EnumVariantFails(item, tag, x); }
      var t := item.scalarType;
      var c := ScalarItems(t);
      var payload := EncodePayload(item, x).value;
      assert EncodeVarint(tag) + payload + rest == EncodeVarint(tag) + (payload + rest);
      Dispatch(strict, m, f.number, ScalarWireType(t), fields, |payload| + limit, payload + rest);
      ItemInverts(strict, c, x, limit, rest);
    case MessageEncoder(_, tag, _) =>
      var body := WireFields(e, x.fields).value;
      var payload := EncodeVarint(|body|) + body;
      assert Delimited(tag, body) + rest == EncodeVarint(tag) + (payload + rest);
      Dispatch(strict, m, f.number, LengthDelimited, fields, |payload| + limit, payload + rest);
      NestedTrip(strict, f, e, n, x.fields, limit, rest);
    case OneofEncoder(_) => assert false;
  }
}
