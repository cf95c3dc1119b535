/**
  * Type soundness of the decoder: for every schema that compiles and every buffer whatsoever,
  * decoding never runs into one of the errors that its comments call impossible, and whatever it
  * returns is a record of the schema's names, order, arity and types.
  */
module Typing {
  import opened Prelude
  import opened Wire
  import opened Values
  import opened Reading
  import opened Scalars
  import opened Merging
  import opened Framing
  import opened EncoderCompiler
  import opened MergerCompiler

  /** The errors that would reveal a decoder at odds with its own tables. */
  predicate Internal(error: DecodeError) {
    || error.MessageNonRecord?
    || error.FieldIndexOutOfBounds?
    || error.RepeatedNonList?
    || error.NonExplicitOneofVariant?
  }

  predicate Clean<T>(r: Read<T>) {
    r.Err? ==> !Internal(r.error)
  }

  // ---------------------------------------------------------------------------------------
  // Types of values
  // ---------------------------------------------------------------------------------------

  predicate ItemTyped(item: MergeItem, v: Val) {
    match item
    case ReadScalar(t) => HasScalarType(t, v) && (t.StringUtf8? ==> ValidUtf8(v.utf8))
    case ReadEnum(names) => v.Enum? && v.enumerator in names.Values
  }

  predicate FormTyped(item: MergeItem, form: MergeForm, v: Val) {
    match form
    case IntoValue => ItemTyped(item, v)
    case IntoOption => v.Opt? && (v.option.Some? ==> ItemTyped(item, v.option.value))
    case IntoList => v.List? && forall i :: 0 <= i < |v.items| ==> ItemTyped(item, v.items[i])
  }

  /** The component type that a field of the schema stands for. */
  ghost predicate Typed(f: Field, v: Val)
    decreases f, 1
  {
    match f.coding
    case NoCoding => false
    case ScalarCoding(code) =>
      (match ScalarOf(code)
       case None => false
       case Some(Scalar(t, presence)) => FormTyped(ReadScalar(t), FormOf(presence), v))
    case CompoundCoding(code) =>
      match CompoundOf(code)
      case None => false
      case Some(EnumCompound(presence)) =>
        FormTyped(ReadEnum(EnumNames(f.subfields)), FormOf(presence), v)
      case Some(MessageSingular) => v.Opt? && (v.option.Some? ==> TypedRecord(f, v.option.value))
      case Some(MessageExpanded) =>
        v.List? && forall i :: 0 <= i < |v.items| ==> TypedRecord(f, v.items[i])
      case Some(OneofCompound) =>
        v.Opt? && (v.option.Some? ==>
          exists j :: 0 <= j < |f.subfields| && TypedVariant(f.subfields[j], v.option.value))
  }

  ghost predicate TypedVariant(f: Field, v: Val)
    decreases f, 2
  {
    v.Variant? && v.variant == f.name && v.payload.Some? && Typed(f, Opt(v.payload))
  }

  ghost predicate HoldsVariant(f: Field, v: Val) {
    v.Opt? && v.option.Some? && TypedVariant(f, v.option.value)
  }

  ghost predicate TypedRecord(f: Field, v: Val)
    decreases f, 0
  {
    && v.Record?
    && |v.fields| == |f.subfields|
    && forall i :: 0 <= i < |f.subfields| ==>
         v.fields[i].name == f.subfields[i].name && Typed(f.subfields[i], v.fields[i].value)
  }

  // ---------------------------------------------------------------------------------------
  // Slots stem from the schema
  // ---------------------------------------------------------------------------------------

  /** The slot merges into the field at its index: as that field, or as a variant of that oneof. */
  ghost predicate Stems(slot: Slot, subfields: seq<Field>) {
    && slot.index < |subfields|
    && var f := subfields[slot.index];
       if IsOneof(f) then
         exists j :: 0 <= j < |f.subfields| && CompileVariant(f.subfields[j]) == Ok(slot.merger)
       else
         CompileMerger(f).Ok? && CompileMerger(f).value.merger == slot.merger
  }

  lemma {:induction false} VariantsStem(slots: map<u32, Slot>, subfields: seq<Field>, index: nat, variants: seq<Field>)
    requires index < |subfields| && IsOneof(subfields[index])
    requires variants <= subfields[index].subfields
    requires forall number :: number in slots ==> Stems(slots[number], subfields)
    requires CompileVariants(slots, index, variants).Ok?
    ensures var out := CompileVariants(slots, index, variants).value;
      forall number :: number in out ==> Stems(out[number], subfields)
    decreases |variants|
  {
    if variants != [] {
      var n := |variants| - 1;
      VariantsStem(slots, subfields, index, variants[..n]);
      assert variants[n] == subfields[index].subfields[n];
    }
  }

  lemma {:induction false} SlotsStem(subfields: seq<Field>)
    requires CompileTable(subfields).Ok?
    ensures var slots := CompileTable(subfields).value.slots;
      forall number :: number in slots ==> Stems(slots[number], subfields)
    decreases |subfields|
  {
    hide CompileMerger, CompileVariant, IsOneof;
    if subfields != [] {
      var n := |subfields| - 1;
      var before := CompileTable(subfields[..n]).value.slots;
      SlotsStem(subfields[..n]);
      forall number | number in before
        ensures Stems(before[number], subfields)
      {
        assert Stems(before[number], subfields[..n]);
        assert subfields[..n][before[number].index] == subfields[before[number].index];
      }
      if IsOneof(subfields[n]) {
        VariantsStem(before, subfields, n, subfields[n].subfields);
      }
    }
  }

  lemma DefaultTyped(f: Field)
    requires CompileMerger(f).Ok?
    ensures Typed(f, CompileMerger(f).value.default)
  {}

  lemma {:induction false} DefaultsTyped(subfields: seq<Field>)
    requires CompileTable(subfields).Ok?
    ensures var defaults := CompileTable(subfields).value.defaults;
      forall i :: 0 <= i < |subfields| ==>
        defaults[i].name == subfields[i].name && Typed(subfields[i], defaults[i].value)
    decreases |subfields|
  {
    hide CompileMerger, CompileVariants, Typed;
    if subfields != [] {
      var n := |subfields| - 1;
      DefaultsTyped(subfields[..n]);
      assert forall i :: 0 <= i < n ==> subfields[..n][i] == subfields[i];
      if IsOneof(subfields[n]) {
        OneofTyped(subfields[n]);
      } else {
        DefaultTyped(subfields[n]);
      }
    }
  }

  lemma OneofTyped(f: Field)
    requires IsOneof(f)
    ensures Typed(f, Opt(None))
  {}

  /** The slots of a compiled message never hold the merger of a whole request. */
  lemma CompiledFieldMergers(f: Field, shape: MergeShape)
    requires CompileMessageMerger(f, shape).Ok?
    ensures FieldMergers(CompileMessageMerger(f, shape).value)
  {
    hide CompileTable;
    var m := CompileMessageMerger(f, shape).value;
    SlotsStem(f.subfields);
    forall number | number in m.subfields
      ensures FieldMerger(m.subfields[number].merger)
    {
      assert Stems(m.subfields[number], f.subfields);
    }
  }

  // ---------------------------------------------------------------------------------------
  // Merging preserves types
  // ---------------------------------------------------------------------------------------

  lemma ReadVarintNotInternal(strict: bool, c: Cursor, error: DecodeError)
    requires !Internal(error)
    ensures Clean(ReadVarint(strict, c, error))
  {}

  lemma ReadLengthNotInternal(strict: bool, c: Cursor)
    ensures Clean(ReadLength(strict, c))
  {
    hide ReadVarint;
    ReadVarintNotInternal(strict, c, InvalidLengthVarint);
  }

  lemma DecodeItemTyped(strict: bool, item: MergeItem, c: Cursor)
    ensures var r := DecodeItem(strict, item, c);
      Clean(r) && (r.Ok? ==> ItemTyped(item, r.value.0))
  {
    hide ReadVarint, ReadLength, FromVarint, ValidUtf8;
    ReadVarintNotInternal(strict, c, InvalidVarint);
    ReadLengthNotInternal(strict, c);
  }

  lemma {:induction false} DecodePackedTyped(strict: bool, item: MergeItem, c: Cursor)
    ensures var r := DecodePacked(strict, item, c);
      Clean(r) && (r.Ok? ==> forall i :: 0 <= i < |r.value.0| ==> ItemTyped(item, r.value.0[i]))
    decreases c.limit
  {
    hide DecodeItem, ItemTyped;
    if c.limit > 0 {
      DecodeItemTyped(strict, item, c);
      if DecodeItem(strict, item, c).Ok? {
        DecodePackedTyped(strict, item, DecodeItem(strict, item, c).value.1);
      }
    }
  }

  lemma MergeItemTyped(strict: bool, item: MergeItem, form: MergeForm, wireType: WireType, c: Cursor, dst: Val)
    requires FormTyped(item, form, dst)
    ensures var r := MergeItemInto(strict, item, form, wireType, c, dst);
      && Clean(r)
      && (r.Ok? ==> FormTyped(item, form, r.value.0))
      && (r.Ok? && form.IntoOption? ==> r.value.0.option.Some?)
  {
    hide DecodeItem, ItemTyped, ReadLength, DecodePacked;
    DecodeItemTyped(strict, item, c);
    ReadLengthNotInternal(strict, c);
    if ReadLength(strict, c).Ok? {
      var (length, c1) := ReadLength(strict, c).value;
      DecodePackedTyped(strict, item, Cursor(length, c1.rest));
    }
  }

  ghost predicate MergesTyped(f: Field, r: Read<Val>) {
    Clean(r) && (r.Ok? ==> Typed(f, r.value.0))
  }

  lemma {:induction false} MergeFieldTyped(strict: bool, f: Field, wireType: WireType, c: Cursor, dst: Val)
    requires CompileMerger(f).Ok? && Typed(f, dst)
    ensures MergesTyped(f, MergeField(strict, CompileMerger(f).value.merger, wireType, c, dst))
    decreases c.limit, 3
  {
    hide MergeItemInto, MergeNested, CompileTable, FormTyped, EnumNames;
    var m := CompileMerger(f).value.merger;
    match m
    case ItemMerger(item, form) => MergeItemTyped(strict, item, form, wireType, c, dst);
    case MessageMerger(shape, _, _) =>
      MergeNestedTyped(strict, f, shape, wireType, c);
    case VariantMerger(_, _) => assert false;
  }

  lemma {:induction false} MergeVariantTyped(strict: bool, f: Field, wireType: WireType, c: Cursor, dst: Val)
    requires CompileVariant(f).Ok?
    ensures var r := MergeField(strict, CompileVariant(f).value, wireType, c, dst);
      Clean(r) && (r.Ok? ==> HoldsVariant(f, r.value.0))
    decreases c.limit, 3
  {
    hide MergeItemInto, MergeNested, CompileTable, EnumNames, ItemTyped, TypedRecord;
    var inner := CompileVariant(f).value.inner;
    match inner
    case ItemMerger(item, form) =>
      assert form == IntoOption;
      MergeItemTyped(strict, item, form, wireType, c, Opt(None));
      var r := MergeItemInto(strict, item, form, wireType, c, Opt(None));
      if r.Ok? {
        assert Typed(f, Opt(r.value.0.option));
      }
    case MessageMerger(shape, _, _) =>
      assert shape == OptionalRecord;
      MergeNestedTyped(strict, f, shape, wireType, c);
      var r := MergeNested(strict, inner, wireType, c);
      if r.Ok? {
        assert Typed(f, Opt(Some(r.value.0)));
      }
    case VariantMerger(_, _) => assert false;
  }

  lemma {:induction false} MergeNestedTyped(strict: bool, f: Field, shape: MergeShape, wireType: WireType, c: Cursor)
    requires CompileMessageMerger(f, shape).Ok?
    ensures var r := MergeNested(strict, CompileMessageMerger(f, shape).value, wireType, c);
      Clean(r) && (r.Ok? ==> TypedRecord(f, r.value.0))
    decreases c.limit, 2
  {
    hide ReadLength, MergeFields, CompileTable, Typed;
    ReadLengthNotInternal(strict, c);
    if ReadLength(strict, c).Ok? {
      var (length, c1) := ReadLength(strict, c).value;
      DefaultsTyped(f.subfields);
      var defaults := CompileMessageMerger(f, shape).value.defaults;
      MergeFieldsTyped(strict, f, shape, Cursor(length, c1.rest), defaults);
    }
  }

  lemma {:induction false} MergeFieldsTyped(strict: bool, f: Field, shape: MergeShape, c: Cursor, fields: seq<NamedVal>)
    requires CompileMessageMerger(f, shape).Ok?
    requires TypedRecord(f, Record(fields))
    ensures var r := MergeFields(strict, CompileMessageMerger(f, shape).value, c, fields);
      Clean(r) && (r.Ok? ==> TypedRecord(f, Record(r.value.0)))
    decreases c.limit, 1
  {
    hide MergeOne, CompileTable, TypedRecord;
    var m := CompileMessageMerger(f, shape).value;
    if c.limit > 0 {
      MergeOneTyped(strict, f, shape, c, fields);
      if MergeOne(strict, m, c, fields).Ok? {
        var (fields1, c1) := MergeOne(strict, m, c, fields).value;
        MergeFieldsTyped(strict, f, shape, c1, fields1);
      }
    }
  }

  lemma {:induction false} MergeOneTyped(strict: bool, f: Field, shape: MergeShape, c: Cursor, fields: seq<NamedVal>)
    requires CompileMessageMerger(f, shape).Ok?
    requires TypedRecord(f, Record(fields))
    ensures var r := MergeOne(strict, CompileMessageMerger(f, shape).value, c, fields);
      Clean(r) && (r.Ok? ==> TypedRecord(f, Record(r.value.0)))
    decreases c.limit, 0
  {
    hide ReadTag, Skip, MergeField, CompileTable, Typed, CompileMerger, CompileVariant, IsOneof;
    var m := CompileMessageMerger(f, shape).value;
    TagAndSkipNotInternal(strict, c);
    SlotsStem(f.subfields);
    if ReadTag(strict, c).Ok? {
      var ((number, wireType), c1) := ReadTag(strict, c).value;
      if number in m.subfields {
        var slot := m.subfields[number];
        assert Stems(slot, f.subfields);
        var g := f.subfields[slot.index];
        if IsOneof(g) {
          var j :| 0 <= j < |g.subfields| && CompileVariant(g.subfields[j]) == Ok(slot.merger);
          MergeVariantTyped(strict, g.subfields[j], wireType, c1, fields[slot.index].value);
          if MergeField(strict, slot.merger, wireType, c1, fields[slot.index].value).Ok? {
            var v := MergeField(strict, slot.merger, wireType, c1, fields[slot.index].value).value.0;
            VariantOfOneof(g, j, v);
          }
        } else {
          MergeFieldTyped(strict, g, wireType, c1, fields[slot.index].value);
        }
      }
    }
  }

  lemma VariantOfOneof(g: Field, j: nat, v: Val)
    requires IsOneof(g) && j < |g.subfields|
    requires HoldsVariant(g.subfields[j], v)
    ensures Typed(g, v)
  {}

  lemma TagAndSkipNotInternal(strict: bool, c: Cursor)
    ensures var r := ReadTag(strict, c);
      Clean(r) && (r.Ok? ==> Clean(Skip(strict, r.value.0.1, r.value.1)))
  {
    hide ReadVarint, ReadLength;
    ReadVarintNotInternal(strict, c, InvalidTagVarint);
    if ReadTag(strict, c).Ok? {
      var c1 := ReadTag(strict, c).value.1;
      ReadVarintNotInternal(strict, c1, InvalidVarint);
      ReadLengthNotInternal(strict, c1);
    }
  }

  /** Type soundness of decoding, for every schema that compiles and every buffer. */
  lemma RequestTyped(strict: bool, f: Field, src: seq<byte>)
    requires CompileMessageMerger(f, InnerRecord).Ok?
    ensures var r := DecodeRequest(strict, CompileMessageMerger(f, InnerRecord).value, src);
      if r.Ok? then TypedRecord(f, r.value) else !Internal(r.error)
  {
    hide MergeFields, CompileTable, Typed;
    var m := CompileMessageMerger(f, InnerRecord).value;
    DefaultsTyped(f.subfields);
    MergeFieldsTyped(strict, f, InnerRecord, Cursor(|src|, src), m.defaults);
  }
}
