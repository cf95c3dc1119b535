/**
  * The encoder tree and its two passes (`runtime/encode/compound.rs`, `runtime/encode/scalar.rs`).
  * The length pass walks a record backwards and pushes the lengths that the encode pass, walking
  * forwards, pops. `WireBytes` is the one-pass reference: every length prefix it writes is, by
  * definition, the number of bytes behind it.
  */
module Encoding {
  import opened Prelude
  import opened Wire
  import opened Values
  import opened Scalars

  /** What a non-message field holds: a scalar, or an enumerator with its number. */
  datatype EncodeItem =
    | ScalarItem(scalarType: ScalarType)
    | EnumItem(numbers: map<string, u32>)

  datatype MessageShape = Inner | Outer | Repeated

  datatype Encoder =
    | ItemEncoder(item: EncodeItem, presence: Presence, tag: u64)
    | MessageEncoder(shape: MessageShape, tag: u64, subfields: map<string, Encoder>)
    | OneofEncoder(subfields: map<string, Encoder>)

  // ---------------------------------------------------------------------------------------
  // Items
  // ---------------------------------------------------------------------------------------

  function EncodePayload(item: EncodeItem, v: Val): (r: Result<seq<byte>, EncodeError>)
    ensures r != Err(LengthInconsistency)
  {
    match item
    case ScalarItem(t) => EncodeScalar(t, v)
    case EnumItem(numbers) =>
      if !v.Enum? then Err(EnumNonEnum)
      else if v.enumerator !in numbers then Err(EnumVariantUnrecognized)
      else Ok(EncodeVarint(numbers[v.enumerator]))
  }

  /** The length pass does not look at payloads of fixed width. */
  function PayloadLength(item: EncodeItem, v: Val): (r: Result<nat, EncodeError>) {
    match item
    case ScalarItem(t) => ScalarLength(t, v)
    case EnumItem(numbers) =>
      if !v.Enum? then Err(EnumNonEnum)
      else if v.enumerator !in numbers then Err(EnumVariantUnrecognized)
      else Ok(VarintLength(numbers[v.enumerator]))
  }

  predicate ItemHasForm(item: EncodeItem, v: Val) {
    match item
    case ScalarItem(t) => HasForm(t, v)
    case EnumItem(numbers) => v.Enum? && v.enumerator in numbers
  }

  predicate ItemIsDefault(item: EncodeItem, v: Val)
    requires ItemHasForm(item, v)
  {
    match item
    case ScalarItem(t) => IsDefault(t, v)
    case EnumItem(numbers) => numbers[v.enumerator] == 0
  }

  lemma PayloadLengthExact(item: EncodeItem, v: Val)
    requires EncodePayload(item, v).Ok?
    ensures ItemHasForm(item, v)
    ensures PayloadLength(item, v) == Ok(|EncodePayload(item, v).value|)
  {
    match item
    case ScalarItem(t) => ScalarLengthExact(t, v);
    case EnumItem(numbers) => EncodeVarintLength(numbers[v.enumerator]);
  }

  /** The payloads of `items` one after the other, each preceded by `prefix`. */
  function EncodePayloads(item: EncodeItem, prefix: seq<byte>, items: seq<Val>)
    : (r: Result<seq<byte>, EncodeError>)
    ensures r != Err(LengthInconsistency)
  {
    if items == [] then Ok([])
    else
      var head :- EncodePayload(item, items[0]);
      var tail :- EncodePayloads(item, prefix, items[1..]);
      Ok(prefix + head + tail)
  }

  function PayloadLengths(item: EncodeItem, prefix: nat, items: seq<Val>)
    : (r: Result<nat, EncodeError>)
  {
    if items == [] then Ok(0)
    else
      var head :- PayloadLength(item, items[0]);
      var tail :- PayloadLengths(item, prefix, items[1..]);
      Ok(prefix + head + tail)
  }

  lemma {:induction false} PayloadLengthsExact(item: EncodeItem, prefix: seq<byte>, items: seq<Val>)
    requires EncodePayloads(item, prefix, items).Ok?
    ensures PayloadLengths(item, |prefix|, items)
         == Ok(|EncodePayloads(item, prefix, items).value|)
  {
    if items != [] {
      PayloadLengthExact(item, items[0]);
      PayloadLengthsExact(item, prefix, items[1..]);
    }
  }

  // ---------------------------------------------------------------------------------------
  // The one-pass reference encoding
  // ---------------------------------------------------------------------------------------

  function Delimited(tag: u64, body: seq<byte>): seq<byte> {
    EncodeVarint(tag) + EncodeVarint(|body|) + body
  }

  function WireItem(item: EncodeItem, presence: Presence, tag: u64, v: Val)
    : (r: Result<seq<byte>, EncodeError>)
    ensures r != Err(LengthInconsistency)
  {
    match presence
    case Implicit =>
      var payload :- EncodePayload(item, v);
      PayloadLengthExact(item, v);
      if ItemIsDefault(item, v) then Ok([]) else Ok(EncodeVarint(tag) + payload)
    case Explicit =>
      // An enumeration is taken bare; a scalar is taken as an option.
      if item.EnumItem? then
        var payload :- EncodePayload(item, v);
        Ok(EncodeVarint(tag) + payload)
      else if !v.Opt? then Err(ExplicitNonOption)
      else if v.option.None? then Ok([])
      else
        var payload :- EncodePayload(item, v.option.value);
        Ok(EncodeVarint(tag) + payload)
    case Packed =>
      if !v.List? then Err(RepeatedNonListValue)
      else if v.items == [] then Ok([])
      else
        var body :- EncodePayloads(item, [], v.items);
        Ok(Delimited(tag, body))
    case Expanded =>
      if !v.List? then Err(RepeatedNonListValue)
      else EncodePayloads(item, EncodeVarint(tag), v.items)
  }

  function WireBytes(e: Encoder, v: Val): (r: Result<seq<byte>, EncodeError>)
    ensures r != Err(LengthInconsistency)
    decreases e, 2
  {
    match e
    case ItemEncoder(item, presence, tag) => WireItem(item, presence, tag, v)
    case MessageEncoder(Inner, _, _) =>
      if v.Record? then WireFields(e, v.fields) else Err(ValueNonRecord)
    case MessageEncoder(Outer, tag, _) =>
      if !v.Opt? then Err(MessageNonOptional)
      else if v.option.None? then Ok([])
      else if !v.option.value.Record? then Err(ValueNonRecord)
      else
        var body :- WireFields(e, v.option.value.fields);
        Ok(Delimited(tag, body))
    case MessageEncoder(Repeated, _, _) =>
      if v.List? then WireMessages(e, v.items) else Err(RepeatedNonListValue)
    case OneofEncoder(subfields) =>
      var chosen :- ChosenVariant(subfields, v);
      if chosen.None? then Ok([])
      else WireBytes(subfields[chosen.value.name], Opt(Some(chosen.value.value)))
  }

  function WireFields(e: Encoder, fields: seq<NamedVal>): (r: Result<seq<byte>, EncodeError>)
    requires e.MessageEncoder?
    ensures r != Err(LengthInconsistency)
    decreases e, 0, |fields|
  {
    if fields == [] then Ok([])
    else if fields[0].name !in e.subfields then Err(NoEncoderForField)
    else
      var head :- WireBytes(e.subfields[fields[0].name], fields[0].value);
      var tail :- WireFields(e, fields[1..]);
      Ok(head + tail)
  }

  function WireMessages(e: Encoder, items: seq<Val>): (r: Result<seq<byte>, EncodeError>)
    requires e.MessageEncoder?
    ensures r != Err(LengthInconsistency)
    decreases e, 1, |items|
  {
    if items == [] then Ok([])
    else if !items[0].Record? then Err(ValueNonRecord)
    else
      var body :- WireFields(e, items[0].fields);
      var tail :- WireMessages(e, items[1..]);
      Ok(Delimited(e.tag, body) + tail)
  }

  /** The variant a oneof holds, if any: its name and payload. */
  function ChosenVariant(subfields: map<string, Encoder>, v: Val)
    : (r: Result<Option<NamedVal>, EncodeError>)
    ensures r.Ok? && r.value.Some? ==> r.value.value.name in subfields
    ensures r.Ok? && r.value.Some? ==>
      v == Opt(Some(Variant(r.value.value.name, Some(r.value.value.value))))
    ensures r != Err(LengthInconsistency)
  {
    if !v.Opt? then Err(OneofNonOptional)
    else if v.option.None? then Ok(None)
    else if !v.option.value.Variant? then Err(OneofNonVariant)
    else
      var name := v.option.value.variant;
      var payload := v.option.value.payload;
      if name !in subfields then Err(OneofVariantUnrecognized)
      else if payload.None? then Err(OneofVariantNoPayload)
      else Ok(Some(NamedVal(name, payload.value)))
  }

  // ---------------------------------------------------------------------------------------
  // Length pass, with unbounded lengths
  // ---------------------------------------------------------------------------------------

  /** The length of the encoding and the lengths pushed, the last one being on top. */
  datatype Sizes = Sizes(total: nat, pushed: seq<nat>)

  function MeasureItem(item: EncodeItem, presence: Presence, tag: u64, v: Val)
    : (r: Result<Sizes, EncodeError>)
  {
    match presence
    case Implicit =>
      if !ItemHasForm(item, v) then Err(FormError(item, v))
      else
        var n :- PayloadLength(item, v);
        Ok(Sizes(if ItemIsDefault(item, v) then 0 else VarintLength(tag) + n, []))
    case Explicit =>
      if item.EnumItem? then
        var n :- PayloadLength(item, v);
        Ok(Sizes(VarintLength(tag) + n, []))
      else if !v.Opt? then Err(ExplicitNonOption)
      else if v.option.None? then Ok(Sizes(0, []))
      else
        var n :- PayloadLength(item, v.option.value);
        Ok(Sizes(VarintLength(tag) + n, []))
    case Packed =>
      if !v.List? then Err(RepeatedNonListValue)
      else if v.items == [] then Ok(Sizes(0, []))
      else
        var n :- PayloadLengths(item, 0, v.items);
        Ok(Sizes(VarintLength(tag) + VarintLength(n) + n, [n]))
    case Expanded =>
      if !v.List? then Err(RepeatedNonListValue)
      else
        var n :- PayloadLengths(item, VarintLength(tag), v.items);
        Ok(Sizes(n, []))
  }

  function FormError(item: EncodeItem, v: Val): EncodeError {
    match item
    case ScalarItem(t) => ScalarMismatch(t)
    case EnumItem(_) => if v.Enum? then EnumVariantUnrecognized else EnumNonEnum
  }

  function Measure(e: Encoder, v: Val): (r: Result<Sizes, EncodeError>)
    decreases e, 2
  {
    match e
    case ItemEncoder(item, presence, tag) => MeasureItem(item, presence, tag, v)
    case MessageEncoder(Inner, _, _) =>
      if v.Record? then MeasureFields(e, v.fields) else Err(ValueNonRecord)
    case MessageEncoder(Outer, tag, _) =>
      if !v.Opt? then Err(MessageNonOptional)
      else if v.option.None? then Ok(Sizes(0, []))
      else if !v.option.value.Record? then Err(ValueNonRecord)
      else
        var inner :- MeasureFields(e, v.option.value.fields);
        Ok(Sizes(DelimitedLength(tag, inner.total), inner.pushed + [inner.total]))
    case MessageEncoder(Repeated, _, _) =>
      if v.List? then MeasureMessages(e, v.items) else Err(RepeatedNonListValue)
    case OneofEncoder(subfields) =>
      var chosen :- ChosenVariant(subfields, v);
      if chosen.None? then Ok(Sizes(0, []))
      else Measure(subfields[chosen.value.name], Opt(Some(chosen.value.value)))
  }

  function DelimitedLength(tag: u64, body: nat): nat {
    VarintLength(tag) + VarintLength(body) + body
  }

  /** Fields are visited last to first. */
  function MeasureFields(e: Encoder, fields: seq<NamedVal>): (r: Result<Sizes, EncodeError>)
    requires e.MessageEncoder?
    decreases e, 0, |fields|
  {
    if fields == [] then Ok(Sizes(0, []))
    else
      var later :- MeasureFields(e, fields[1..]);
      if fields[0].name !in e.subfields then Err(NoEncoderForField)
      else
        var first :- Measure(e.subfields[fields[0].name], fields[0].value);
        Ok(Sizes(later.total + first.total, later.pushed + first.pushed))
  }

  /** Repeated messages are visited first to last, and their own lengths are not pushed. */
  function MeasureMessages(e: Encoder, items: seq<Val>): (r: Result<Sizes, EncodeError>)
    requires e.MessageEncoder?
    decreases e, 1, |items|
  {
    if items == [] then Ok(Sizes(0, []))
    else if !items[0].Record? then Err(ValueNonRecord)
    else
      var inner :- MeasureFields(e, items[0].fields);
      var later :- MeasureMessages(e, items[1..]);
      Ok(Sizes(DelimitedLength(e.tag, inner.total) + later.total, inner.pushed + later.pushed))
  }

  // ---------------------------------------------------------------------------------------
  // Encode pass
  // ---------------------------------------------------------------------------------------

  /** The bytes appended and what is left of the stack of lengths. */
  datatype Emitted = Emitted(bytes: seq<byte>, stack: seq<nat>)

  type Emission = Result<Emitted, EncodeError>

  function EmitItem(item: EncodeItem, presence: Presence, tag: u64, v: Val, stack: seq<nat>)
    : (r: Emission)
  {
    if presence.Packed? && v.List? && v.items != [] then
      if stack == [] then Err(LengthInconsistency)
      else
        var body :- EncodePayloads(item, [], v.items);
        Ok(Emitted(Prefixed(tag, stack[|stack| - 1], body), stack[..|stack| - 1]))
    else
      var bytes :- WireItem(item, presence, tag, v);
      Ok(Emitted(bytes, stack))
  }

  /** A length-delimited field whose length prefix is whatever was popped. */
  function Prefixed(tag: u64, length: nat, body: seq<byte>): seq<byte> {
    EncodeVarint(tag) + EncodeVarint(length) + body
  }

  function Emit(e: Encoder, v: Val, stack: seq<nat>): (r: Emission)
    decreases e, 2
  {
    match e
    case ItemEncoder(item, presence, tag) => EmitItem(item, presence, tag, v, stack)
    case MessageEncoder(Inner, _, _) =>
      if v.Record? then EmitFields(e, v.fields, stack) else Err(ValueNonRecord)
    case MessageEncoder(Outer, tag, _) =>
      if !v.Opt? then Err(MessageNonOptional)
      else if v.option.None? then Ok(Emitted([], stack))
      else if stack == [] then Err(LengthInconsistency)
      else if !v.option.value.Record? then Err(ValueNonRecord)
      else
        var inner :- EmitFields(e, v.option.value.fields, stack[..|stack| - 1]);
        Ok(Emitted(Prefixed(tag, stack[|stack| - 1], inner.bytes), inner.stack))
    case MessageEncoder(Repeated, _, _) =>
      if v.List? then EmitMessages(e, v.items, stack) else Err(RepeatedNonListValue)
    case OneofEncoder(subfields) =>
      var chosen :- ChosenVariant(subfields, v);
      if chosen.None? then Ok(Emitted([], stack))
      else Emit(subfields[chosen.value.name], Opt(Some(chosen.value.value)), stack)
  }

  function EmitFields(e: Encoder, fields: seq<NamedVal>, stack: seq<nat>): (r: Emission)
    requires e.MessageEncoder?
    decreases e, 0, |fields|
  {
    if fields == [] then Ok(Emitted([], stack))
    else if fields[0].name !in e.subfields then Err(NoEncoderForField)
    else
      var first :- Emit(e.subfields[fields[0].name], fields[0].value, stack);
      var later :- EmitFields(e, fields[1..], first.stack);
      Ok(Emitted(first.bytes + later.bytes, later.stack))
  }

  function EmitMessages(e: Encoder, items: seq<Val>, stack: seq<nat>): (r: Emission)
    requires e.MessageEncoder?
    decreases e, 1, |items|
  {
    if items == [] then Ok(Emitted([], stack))
    else if stack == [] then Err(LengthInconsistency)
    else if !items[0].Record? then Err(ValueNonRecord)
    else
      var inner :- EmitFields(e, items[0].fields, stack[..|stack| - 1]);
      var later :- EmitMessages(e, items[1..], inner.stack);
      Ok(Emitted(Prefixed(e.tag, stack[|stack| - 1], inner.bytes) + later.bytes, later.stack))
  }

  /** Both passes in sequence, starting from an empty stack. */
  function EncodeResponse(e: Encoder, v: Val): (r: Emission) {
    var sizes :- Measure(e, v);
    Emit(e, v, sizes.pushed)
  }
}
