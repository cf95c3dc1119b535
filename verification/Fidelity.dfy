/** The codec end to end: which values come back unchanged. */
module Fidelity {
  import opened Prelude
  import opened Wire
  import opened Values
  import opened Reading
  import opened Scalars
  import opened Encoding
  import opened TwoPass
  import opened Merging
  import opened EncoderCompiler
  import opened MergerCompiler
  import opened Image
  import opened RoundTrip
  import opened Typing

  /** A field is read by a merger of its own, or by that of a oneof variant. */
  ghost predicate Readable(f: Field, inOneof: bool) {
    if inOneof then CompileVariant(f).Ok? else IsOneof(f) || CompileMerger(f).Ok?
  }

  lemma {:induction false} FieldImageExact(f: Field, inOneof: bool, v: Val)
    requires CompileEncoder(f, inOneof).Ok? && WireBytes(CompileEncoder(f, inOneof).value, v).Ok?
    requires Readable(f, inOneof) && (IsOneof(f) ==> VariantsReadable(f.subfields))
    requires WellFormed(f) && Ordered(f, v)
    ensures FieldImage(f, v) == Ok(v) <==> Faithful(f, v)
    decreases f, 3
  {
    hide CompileTable, CompileEncoders, WireItem, PresenceImage, PresenceFaithful, EnumNames, EnumNumbers,
      RecordImage, MessageImages, OrderedRecord, WellFormedMessage, WireFields, WireMessages, FaithfulRecord;
    var e := CompileEncoder(f, inOneof).value;
    match f.coding
    case ScalarCoding(code) =>
      var Scalar(t, presence) := ScalarOf(code).value;
      PresenceImageExact(ScalarItems(t), presence, e.tag, v);
    case CompoundCoding(code) =>
      match CompoundOf(code).value
      case EnumCompound(presence) => PresenceImageExact(EnumCoding(f), presence, e.tag, v);
      case MessageSingular =>
        if v.option.Some? {
          var m := CompileMessageMerger(f, OptionalRecord).value;
          WholeRecordExact(f, e, m, v.option.value.fields);
        }
      case MessageExpanded =>
        var m := CompileMessageMerger(f, ListOfRecords).value;
        MessageImagesExact(f, e, m, v.items);
      case OneofCompound => OneofImageExact(f, v);
  }

  ghost predicate VariantsReadable(variants: seq<Field>) {
    forall j :: 0 <= j < |variants| ==> CompileVariant(variants[j]).Ok?
  }

  lemma {:induction false} OneofImageExact(f: Field, v: Val)
    requires IsOneof(f) && VariantsReadable(f.subfields)
    requires CompileEncoder(f, false).Ok? && WireBytes(CompileEncoder(f, false).value, v).Ok?
    requires WellFormed(f) && Ordered(f, v)
    ensures FieldImage(f, v) == Ok(v) <==> Faithful(f, v)
    decreases f, 2
  {
    hide CompileVariant, CompileEncoders, CompileEncoder, CompileMerger;
    OneofUnfolds(f);
    var subfields := CompileEncoders(f.subfields, true).value;
    var chosen := ChosenVariant(subfields, v).value;
    if chosen.Some? {
      VariantKnown(f.subfields, chosen.value.name);
      var j := FindVariant(f.subfields, chosen.value.name).value;
      EncoderByName(f.subfields, true, j);
      VariantIsNoOneof(f.subfields[j]);
      FieldImageExact(f.subfields[j], true, Opt(Some(chosen.value.value)));
      if FieldImage(f.subfields[j], Opt(Some(chosen.value.value))).Ok? {
        VariantImageIsOption(f.subfields[j], chosen.value.value);
      }
    }
  }

  lemma VariantIsNoOneof(f: Field)
    requires CompileVariant(f).Ok?
    ensures !IsOneof(f)
  {}

  /** The image of a variant's payload is an option, so the variant has an image too. */
  lemma VariantImageIsOption(f: Field, x: Val)
    requires CompileVariant(f).Ok?
    requires FieldImage(f, Opt(Some(x))).Ok?
    ensures FieldImage(f, Opt(Some(x))).value.Opt?
  {
    hide CompileTable, RecordImage, ItemImage;
  }

  lemma {:induction false} RecordImageExact(f: Field, e: Encoder, m: Merger, fs: seq<NamedVal>, j: nat)
    requires m.MessageMerger? && e.MessageEncoder?
    requires CompileMessageEncoder(f, e.shape) == Ok(e) && CompileMessageMerger(f, m.shape) == Ok(m)
    requires WellFormedMessage(f) && OrderedRecord(f, fs)
    requires j <= |fs| && WireFields(e, fs[j..]).Ok?
    ensures RecordImage(f, fs, j) == Ok(fs[j..])
       <==> forall i :: j <= i < |fs| ==> Faithful(f.subfields[i], fs[i].value)
    decreases f, 0, |fs| - j + 1
  {
    hide WireBytes, FieldImage, WellFormed, Ordered, CompileMessageEncoder, CompileMessageMerger, Faithful;
    if j < |fs| {
      assert fs[j..][1..] == fs[j + 1..] && fs[j..][0] == fs[j];
      assert fs[j..] == [fs[j]] + fs[j + 1..];
      RecordFieldImageExact(f, e, m, fs, j);
      RecordImageExact(f, e, m, fs, j + 1);
      if RecordImage(f, fs, j) == Ok(fs[j..]) {
        assert RecordImage(f, fs, j).value[0] == fs[j];
        assert RecordImage(f, fs, j).value[1..] == fs[j + 1..];
      }
    }
  }

  lemma {:induction false} WholeRecordExact(f: Field, e: Encoder, m: Merger, fs: seq<NamedVal>)
    requires m.MessageMerger? && e.MessageEncoder?
    requires CompileMessageEncoder(f, e.shape) == Ok(e) && CompileMessageMerger(f, m.shape) == Ok(m)
    requires WellFormedMessage(f) && OrderedRecord(f, fs) && WireFields(e, fs).Ok?
    ensures RecordImage(f, fs, 0) == Ok(fs) <==> FaithfulRecord(f, fs)
    decreases f, 0, |fs| + 2
  {
    hide WireFields, RecordImage, WellFormedMessage, CompileMessageEncoder, CompileMessageMerger, Faithful;
    assert fs[0..] == fs;
    RecordImageExact(f, e, m, fs, 0);
  }

  lemma {:induction false} RecordFieldImageExact(f: Field, e: Encoder, m: Merger, fs: seq<NamedVal>, j: nat)
    requires m.MessageMerger? && e.MessageEncoder?
    requires CompileMessageEncoder(f, e.shape) == Ok(e) && CompileMessageMerger(f, m.shape) == Ok(m)
    requires WellFormedMessage(f) && OrderedRecord(f, fs)
    requires j < |fs| && fs[j].name in e.subfields && WireBytes(e.subfields[fs[j].name], fs[j].value).Ok?
    ensures FieldImage(f.subfields[j], fs[j].value) == Ok(fs[j].value)
       <==> Faithful(f.subfields[j], fs[j].value)
    decreases f, 0, 0
  {
    hide WireBytes, FieldImage, Faithful, WellFormed, Ordered, CompileEncoder, CompileMerger, CompileVariant,
      CompileEncoders, CompileTable, DistinctNumbers, IsOneof;
    EncoderByName(f.subfields, false, j);
    SlotsInTable(f.subfields);
    DefaultsInTable(f.subfields, j);
    assert HasSlots(m.subfields, j, f.subfields[j]);
    if IsOneof(f.subfields[j]) {
      forall k | 0 <= k < |f.subfields[j].subfields|
        ensures CompileVariant(f.subfields[j].subfields[k]).Ok?
      {
        assert VariantSlot(m.subfields, j, f.subfields[j].subfields[k]);
      }
    }
    FieldImageExact(f.subfields[j], false, fs[j].value);
  }

  lemma {:induction false} MessageImagesExact(f: Field, e: Encoder, m: Merger, items: seq<Val>)
    requires m.MessageMerger? && e.MessageEncoder?
    requires CompileMessageEncoder(f, e.shape) == Ok(e) && CompileMessageMerger(f, m.shape) == Ok(m)
    requires WellFormedMessage(f) && WireMessages(e, items).Ok?
    requires forall i :: 0 <= i < |items| && items[i].Record? ==> OrderedRecord(f, items[i].fields)
    ensures MessageImages(f, items) == Ok(items)
       <==> forall i :: 0 <= i < |items| && items[i].Record? ==> FaithfulRecord(f, items[i].fields)
    decreases f, 1, |items|
  {
    hide WireFields, RecordImage, WellFormedMessage, OrderedRecord, CompileMessageEncoder, CompileMessageMerger,
      Faithful;
    if items != [] {
      var fs := items[0].fields;
      WholeRecordExact(f, e, m, fs);
      MessageImagesExact(f, e, m, items[1..]);
      assert items == [items[0]] + items[1..];
      assert forall i :: 0 < i < |items| ==> items[i] == items[1..][i - 1];
      if MessageImages(f, items) == Ok(items) {
        assert MessageImages(f, items).value[1..] == items[1..];
      }
    }
  }

  // ---------------------------------------------------------------------------------------
  // The theorems
  // ---------------------------------------------------------------------------------------

  /** A response value: one that the reference encoder accepts. */
  ghost predicate Encodable(f: Field, e: Encoder, v: Val) {
    && CompileMessageEncoder(f, Inner) == Ok(e)
    && WireBytes(e, v).Ok? && |WireBytes(e, v).value| <= U32_MAX
  }

  /** A record whose fields, at any depth, are listed as the schema lists them. */
  ghost predicate InSchemaOrder(f: Field, v: Val) {
    v.Record? && OrderedRecord(f, v.fields)
  }

  /** Well-typed values are in schema order. */
  lemma {:induction false} TypedOrdered(f: Field, v: Val)
    requires WellFormed(f) && Typed(f, v)
    ensures Ordered(f, v)
    decreases f, 1
  {
    hide FormTyped, DistinctNumbers;
    if f.coding.CompoundCoding? {
      match CompoundOf(f.coding.code)
      case Some(MessageSingular) => if v.option.Some? { TypedRecordOrdered(f, v.option.value); }
      case Some(MessageExpanded) =>
        forall i | 0 <= i < |v.items| ensures OrderedRecord(f, v.items[i].fields) { TypedRecordOrdered(f, v.items[i]); }
      case Some(OneofCompound) =>
        if v.option.Some? {
          var j :| 0 <= j < |f.subfields| && TypedVariant(f.subfields[j], v.option.value);
          assert FindVariant(f.subfields, v.option.value.variant) == Some(j);
          TypedOrdered(f.subfields[j], Opt(v.option.value.payload));
        }
      case _ =>
    }
  }

  lemma {:induction false} TypedRecordOrdered(f: Field, v: Val)
    requires WellFormedMessage(f) && TypedRecord(f, v)
    ensures InSchemaOrder(f, v)
    decreases f, 0
  {
    hide WellFormed, Typed, Ordered, DistinctNumbers;
    forall i | 0 <= i < |v.fields| ensures Ordered(f.subfields[i], v.fields[i].value) {
      TypedOrdered(f.subfields[i], v.fields[i].value);
    }
  }

  /** Decoding the encoding yields the image of the value, be it a value or an error. */
  lemma DecodeYieldsImage(strict: bool, f: Field, e: Encoder, m: Merger, v: Val)
    requires WellFormedMessage(f) && Encodable(f, e, v) && InSchemaOrder(f, v)
    requires CompileMessageMerger(f, InnerRecord) == Ok(m)
    ensures DecodeRequest(strict, m, WireBytes(e, v).value) == AsRecord(RecordImage(f, v.fields, 0))
  {
    hide MergeFields, CompileTable, CompileEncoders, WireFields, RecordImage, WellFormedMessage, OrderedRecord;
    var bytes := WireBytes(e, v).value;
    assert v.fields[0..] == v.fields;
    assert bytes + [] == bytes;
    RecordTrip(strict, f, e, m, v.fields, 0, m.defaults, []);
    if RecordImage(f, v.fields, 0).Ok? {
      assert m.defaults[..0] + RecordImage(f, v.fields, 0).value == RecordImage(f, v.fields, 0).value;
    }
  }

  /** The value is as the decoder would give it: in schema order, and every leaf of it faithful. */
  ghost predicate Canonical(f: Field, v: Val) {
    InSchemaOrder(f, v) && FaithfulRecord(f, v.fields)
  }

  /**
    * The round trip returns the value exactly when the value is canonical: the encoder takes fields
    * in any order, but the decoder gives them in the schema's.
    */
  lemma RoundTripExact(strict: bool, f: Field, e: Encoder, m: Merger, v: Val)
    requires WellFormedMessage(f) && Encodable(f, e, v)
    requires CompileMessageMerger(f, InnerRecord) == Ok(m)
    ensures DecodeRequest(strict, m, WireBytes(e, v).value) == Ok(v) <==> Canonical(f, v)
  {
    hide DecodeRequest, CompileMessageEncoder, CompileMessageMerger, WireBytes, RecordImage, WellFormedMessage,
      Faithful, TypedRecord, OrderedRecord;
    if InSchemaOrder(f, v) {
      OrderedRoundTrip(strict, f, e, m, v);
    } else if DecodeRequest(strict, m, WireBytes(e, v).value) == Ok(v) {
      RequestTyped(strict, f, WireBytes(e, v).value);
      TypedRecordOrdered(f, v);
    }
  }

  lemma OrderedRoundTrip(strict: bool, f: Field, e: Encoder, m: Merger, v: Val)
    requires WellFormedMessage(f) && Encodable(f, e, v) && InSchemaOrder(f, v)
    requires CompileMessageMerger(f, InnerRecord) == Ok(m)
    ensures DecodeRequest(strict, m, WireBytes(e, v).value) == Ok(v) <==> FaithfulRecord(f, v.fields)
  {
    hide DecodeRequest, CompileMessageEncoder, CompileMessageMerger, WireFields, RecordImage, WellFormedMessage,
      Faithful;
    DecodeYieldsImage(strict, f, e, m, v);
    WholeRecordExact(f, e, m, v.fields);
  }

  /**
    * End to end: what the two-pass encoder produces decodes to the value it was given, exactly
    * when the value is canonical. It produces something exactly when the reference does and no
    * repeated message field holds an item.
    */
  lemma ResponseRoundTrip(strict: bool, f: Field, e: Encoder, m: Merger, v: Val)
    requires WellFormedMessage(f) && Encodable(f, e, v)
    requires CompileMessageMerger(f, InnerRecord) == Ok(m)
    ensures EncodeResponse(e, v).Ok? <==> RepeatedItems(e, v) == 0
    ensures EncodeResponse(e, v).Ok? ==>
      (DecodeRequest(strict, m, EncodeResponse(e, v).value.bytes) == Ok(v) <==> Canonical(f, v))
  {
    hide DecodeRequest, CompileMessageEncoder, CompileMessageMerger, WireBytes, EncodeResponse, WellFormedMessage,
      Canonical;
    ResponseExact(e, v);
    RoundTripExact(strict, f, e, m, v);
  }
}
