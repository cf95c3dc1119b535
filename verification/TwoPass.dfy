/**
  * The two passes against the one-pass reference: on which values they agree, and that they fail
  * on all others.
  */
module TwoPass {
  import opened Prelude
  import opened Wire
  import opened Values
  import opened Scalars
  import opened Encoding

  // ---------------------------------------------------------------------------------------
  // Items of repeated message fields, for which the encode pass pops lengths nobody pushed
  // ---------------------------------------------------------------------------------------

  /** How many items of repeated message fields the value holds, at any depth. */
  function RepeatedItems(e: Encoder, v: Val): nat
    decreases e, 2
  {
    match e
    case ItemEncoder(_, _, _) => 0
    case MessageEncoder(Inner, _, _) => if v.Record? then InFields(e, v.fields) else 0
    case MessageEncoder(Outer, _, _) =>
      if v.Opt? && v.option.Some? && v.option.value.Record? then InFields(e, v.option.value.fields)
      else 0
    case MessageEncoder(Repeated, _, _) => if v.List? then InMessages(e, v.items) else 0
    case OneofEncoder(subfields) =>
      var chosen := ChosenVariant(subfields, v);
      if chosen.Ok? && chosen.value.Some? then
        RepeatedItems(subfields[chosen.value.value.name], Opt(Some(chosen.value.value.value)))
      else 0
  }

  function InFields(e: Encoder, fields: seq<NamedVal>): nat
    requires e.MessageEncoder?
    decreases e, 0, |fields|
  {
    if fields == [] then 0
    else
      (if fields[0].name in e.subfields then
         RepeatedItems(e.subfields[fields[0].name], fields[0].value)
       else 0) + InFields(e, fields[1..])
  }

  function InMessages(e: Encoder, items: seq<Val>): nat
    requires e.MessageEncoder?
    decreases e, 1, |items|
  {
    if items == [] then 0
    else 1 + (if items[0].Record? then InFields(e, items[0].fields) else 0) + InMessages(e, items[1..])
  }

  // ---------------------------------------------------------------------------------------
  // Exactness
  // ---------------------------------------------------------------------------------------

  /** The emission of the bytes (or error) of the reference, leaving `stack`. */
  function Emits(reference: Result<seq<byte>, EncodeError>, stack: seq<nat>): Emission {
    match reference
    case Ok(bytes) => Ok(Emitted(bytes, stack))
    case Err(error) => Err(error)
  }

  ghost predicate Agrees(reference: Result<seq<byte>, EncodeError>, sizes: Sizes) {
    reference.Ok? ==> |reference.value| == sizes.total
  }

  lemma ItemExact(item: EncodeItem, presence: Presence, tag: u64, v: Val, stack: seq<nat>, sizes: Sizes)
    requires MeasureItem(item, presence, tag, v) == Ok(sizes)
    ensures EmitItem(item, presence, tag, v, stack + sizes.pushed)
         == Emits(WireItem(item, presence, tag, v), stack)
    ensures Agrees(WireItem(item, presence, tag, v), sizes)
  {
    EncodeVarintLength(tag);
    if sizes.pushed == [] {
      assert stack + sizes.pushed == stack;
    }
    match presence
    case Implicit =>
      if EncodePayload(item, v).Ok? { PayloadLengthExact(item, v); }
    case Explicit =>
      var x := if item.EnumItem? || !v.Opt? || v.option.None? then v else v.option.value;
      if EncodePayload(item, x).Ok? { PayloadLengthExact(item, x); }
    case Expanded =>
      if EncodePayloads(item, EncodeVarint(tag), v.items).Ok? {
        PayloadLengthsExact(item, EncodeVarint(tag), v.items);
      }
    case Packed =>
      if v.items != [] && EncodePayloads(item, [], v.items).Ok? {
        PayloadLengthsExact(item, [], v.items);
        EncodeVarintLength(sizes.pushed[0]);
        assert (stack + sizes.pushed)[..|stack|] == stack;
      }
  }

  /**
    * Two-pass exactness: from `stack` extended by what the length pass pushed, the encode pass
    * does what the reference does, writes exactly the measured number of bytes, and leaves
    * `stack`. It never reports a length inconsistency, because the reference never does.
    */
  lemma {:induction false} Exact(e: Encoder, v: Val, stack: seq<nat>, sizes: Sizes)
    requires Measure(e, v) == Ok(sizes)
    requires RepeatedItems(e, v) == 0
    ensures Emit(e, v, stack + sizes.pushed) == Emits(WireBytes(e, v), stack)
    ensures Agrees(WireBytes(e, v), sizes)
    decreases e, 2
  {
    match e
    case ItemEncoder(item, presence, tag) => ItemExact(item, presence, tag, v, stack, sizes);
    case MessageEncoder(Inner, _, _) => FieldsExact(e, v.fields, stack, sizes);
    case MessageEncoder(Outer, tag, _) =>
      if v.option.Some? {
        var inner := MeasureFields(e, v.option.value.fields).value;
        FieldsExact(e, v.option.value.fields, stack, inner);
        assert (stack + sizes.pushed)[..|stack + sizes.pushed| - 1] == stack + inner.pushed;
        EncodeVarintLength(tag);
        EncodeVarintLength(inner.total);
      } else {
        assert stack + sizes.pushed == stack;
      }
    case MessageEncoder(Repeated, _, _) =>
      assert v.items == [];
      assert stack + sizes.pushed == stack;
    case OneofEncoder(subfields) =>
      var chosen := ChosenVariant(subfields, v).value;
      if chosen.Some? {
        Exact(subfields[chosen.value.name], Opt(Some(chosen.value.value)), stack, sizes);
      } else {
        assert stack + sizes.pushed == stack;
      }
  }

  lemma {:induction false} FieldsExact(e: Encoder, fields: seq<NamedVal>, stack: seq<nat>, sizes: Sizes)
    requires e.MessageEncoder?
    requires MeasureFields(e, fields) == Ok(sizes)
    requires InFields(e, fields) == 0
    ensures EmitFields(e, fields, stack + sizes.pushed) == Emits(WireFields(e, fields), stack)
    ensures Agrees(WireFields(e, fields), sizes)
    decreases e, 0, |fields|
  {
    if fields == [] {
      assert stack + sizes.pushed == stack;
    } else {
      var later := MeasureFields(e, fields[1..]).value;
      var first := Measure(e.subfields[fields[0].name], fields[0].value).value;
      assert stack + sizes.pushed == stack + later.pushed + first.pushed;
      Exact(e.subfields[fields[0].name], fields[0].value, stack + later.pushed, first);
      FieldsExact(e, fields[1..], stack, later);
    }
  }

  // ---------------------------------------------------------------------------------------
  // The stack balance: pops are pushes plus items of repeated messages
  // ---------------------------------------------------------------------------------------

  lemma {:induction false} Balance(e: Encoder, v: Val, stack: seq<nat>, sizes: Sizes)
    requires Measure(e, v) == Ok(sizes)
    requires Emit(e, v, stack).Ok?
    ensures |stack| == |Emit(e, v, stack).value.stack| + |sizes.pushed| + RepeatedItems(e, v)
    decreases e, 2
  {
    match e
    case ItemEncoder(_, _, _) =>
    case MessageEncoder(Inner, _, _) => FieldsBalance(e, v.fields, stack, sizes);
    case MessageEncoder(Outer, _, _) =>
      if v.option.Some? {
        var inner := MeasureFields(e, v.option.value.fields).value;
        FieldsBalance(e, v.option.value.fields, stack[..|stack| - 1], inner);
      }
    case MessageEncoder(Repeated, _, _) => MessagesBalance(e, v.items, stack, sizes);
    case OneofEncoder(subfields) =>
      var chosen := ChosenVariant(subfields, v).value;
      if chosen.Some? {
        Balance(subfields[chosen.value.name], Opt(Some(chosen.value.value)), stack, sizes);
      }
  }

  lemma {:induction false} FieldsBalance(e: Encoder, fields: seq<NamedVal>, stack: seq<nat>, sizes: Sizes)
    requires e.MessageEncoder?
    requires MeasureFields(e, fields) == Ok(sizes)
    requires EmitFields(e, fields, stack).Ok?
    ensures |stack| == |EmitFields(e, fields, stack).value.stack| + |sizes.pushed| + InFields(e, fields)
    decreases e, 0, |fields|
  {
    if fields != [] {
      var sub := e.subfields[fields[0].name];
      var later := MeasureFields(e, fields[1..]).value;
      Balance(sub, fields[0].value, stack, Measure(sub, fields[0].value).value);
      FieldsBalance(e, fields[1..], Emit(sub, fields[0].value, stack).value.stack, later);
    }
  }

  lemma {:induction false} MessagesBalance(e: Encoder, items: seq<Val>, stack: seq<nat>, sizes: Sizes)
    requires e.MessageEncoder?
    requires MeasureMessages(e, items) == Ok(sizes)
    requires EmitMessages(e, items, stack).Ok?
    ensures |stack| == |EmitMessages(e, items, stack).value.stack| + |sizes.pushed| + InMessages(e, items)
    decreases e, 1, |items|
  {
    if items != [] {
      var fields := items[0].fields;
      var top := stack[..|stack| - 1];
      FieldsBalance(e, fields, top, MeasureFields(e, fields).value);
      MessagesBalance(e, items[1..], EmitFields(e, fields, top).value.stack,
                      MeasureMessages(e, items[1..]).value);
    }
  }

  // ---------------------------------------------------------------------------------------
  // Whenever the reference succeeds, so does the length pass
  // ---------------------------------------------------------------------------------------

  lemma ItemMeasured(item: EncodeItem, presence: Presence, tag: u64, v: Val)
    requires WireItem(item, presence, tag, v).Ok?
    ensures MeasureItem(item, presence, tag, v).Ok?
  {
    match presence
    case Implicit => PayloadLengthExact(item, v);
    case Explicit =>
      if item.EnumItem? { PayloadLengthExact(item, v); }
      else if v.option.Some? { PayloadLengthExact(item, v.option.value); }
    case Expanded =>
      EncodeVarintLength(tag);
      PayloadLengthsExact(item, EncodeVarint(tag), v.items);
    case Packed =>
      if v.items != [] { PayloadLengthsExact(item, [], v.items); }
  }

  lemma {:induction false} Measured(e: Encoder, v: Val)
    requires WireBytes(e, v).Ok?
    ensures Measure(e, v).Ok?
    decreases e, 2
  {
    match e
    case ItemEncoder(item, presence, tag) => ItemMeasured(item, presence, tag, v);
    case MessageEncoder(Inner, _, _) => FieldsMeasured(e, v.fields);
    case MessageEncoder(Outer, _, _) =>
      if v.option.Some? { FieldsMeasured(e, v.option.value.fields); }
    case MessageEncoder(Repeated, _, _) => MessagesMeasured(e, v.items);
    case OneofEncoder(subfields) =>
      var chosen := ChosenVariant(subfields, v).value;
      if chosen.Some? { Measured(subfields[chosen.value.name], Opt(Some(chosen.value.value))); }
  }

  lemma {:induction false} FieldsMeasured(e: Encoder, fields: seq<NamedVal>)
    requires e.MessageEncoder? && WireFields(e, fields).Ok?
    ensures MeasureFields(e, fields).Ok?
    decreases e, 0, |fields|
  {
    if fields != [] {
      Measured(e.subfields[fields[0].name], fields[0].value);
      FieldsMeasured(e, fields[1..]);
    }
  }

  lemma {:induction false} MessagesMeasured(e: Encoder, items: seq<Val>)
    requires e.MessageEncoder? && WireMessages(e, items).Ok?
    ensures MeasureMessages(e, items).Ok?
    decreases e, 1, |items|
  {
    if items != [] {
      FieldsMeasured(e, items[0].fields);
      MessagesMeasured(e, items[1..]);
    }
  }

  /**
    * A response is encoded exactly when the reference encodes it and it holds no item of a
    * repeated message field; then the bytes are those of the reference and no length is left.
    */
  lemma ResponseExact(e: Encoder, v: Val)
    ensures EncodeResponse(e, v).Ok? <==> WireBytes(e, v).Ok? && RepeatedItems(e, v) == 0
    ensures EncodeResponse(e, v).Ok? ==>
      EncodeResponse(e, v).value == Emitted(WireBytes(e, v).value, [])
    ensures EncodeResponse(e, v).Ok? ==>
      Measure(e, v).Ok? && Measure(e, v).value.total == |WireBytes(e, v).value|
  {
    if WireBytes(e, v).Ok? { Measured(e, v); }
    if Measure(e, v).Ok? {
      var sizes := Measure(e, v).value;
      assert [] + sizes.pushed == sizes.pushed;
      if RepeatedItems(e, v) == 0 {
        Exact(e, v, [], sizes);
      } else if EncodeResponse(e, v).Ok? {
        Balance(e, v, sizes.pushed, sizes);
        assert false;
      }
    }
  }

  /** A message with one repeated message field holding one empty message cannot be encoded. */
  lemma RepeatedMessageFails()
    ensures var item := MessageEncoder(Repeated, Tag(1, LengthDelimited), map[]);
      var e := MessageEncoder(Inner, Tag(0, LengthDelimited), map["items" := item]);
      var v := Record([NamedVal("items", List([Record([])]))]);
      WireBytes(e, v) == Ok([10, 0]) && EncodeResponse(e, v) == Err(LengthInconsistency)
  {
    var item := MessageEncoder(Repeated, Tag(1, LengthDelimited), map[]);
    var e := MessageEncoder(Inner, Tag(0, LengthDelimited), map["items" := item]);
    var empty := Record([]);
    var fields := [NamedVal("items", List([empty]))];
    assert fields[1..] == [] && [empty][1..] == [];
    assert Delimited(item.tag, []) == [10, 0];
    assert [10, 0] + [] == [10, 0];
    assert WireMessages(item, []) == Ok([]) && WireFields(e, []) == Ok([]);
    assert WireMessages(item, [empty]) == Ok([10, 0] + []);
    assert WireBytes(item, List([empty])) == Ok([10, 0]);
    assert WireFields(e, fields) == Ok([10, 0] + []);
    assert MeasureMessages(item, []) == MeasureFields(e, []) == MeasureFields(item, []) == Ok(Sizes(0, []));
    assert MeasureMessages(item, [empty]).Ok?;
    assert MeasureMessages(item, [empty]).value.pushed == [] + [];
    assert Measure(item, List([empty])).value.pushed == [];
    assert MeasureFields(e, fields).Ok?;
    assert MeasureFields(e, fields).value.pushed == [] + [];
  }

  // ---------------------------------------------------------------------------------------
  // What does not depend on the lengths themselves
  // ---------------------------------------------------------------------------------------

  /** Both succeed and leave as many lengths, or both fail alike. */
  predicate Parallel(a: Emission, b: Emission) {
    match a
    case Ok(emitted) => b.Ok? && |b.value.stack| == |emitted.stack|
    case Err(error) => b == Err(error)
  }

  /** Whether the encode pass succeeds depends on how many lengths there are, not on which. */
  lemma {:induction false} SizeDecides(e: Encoder, v: Val, s: seq<nat>, t: seq<nat>)
    requires |s| == |t|
    ensures Parallel(Emit(e, v, s), Emit(e, v, t))
    decreases e, 2
  {
    match e
    case ItemEncoder(_, _, _) =>
    case MessageEncoder(Inner, _, _) => if v.Record? { SizeDecidesFields(e, v.fields, s, t); }
    case MessageEncoder(Outer, _, _) =>
      if v.Opt? && v.option.Some? && v.option.value.Record? && s != [] {
        SizeDecidesFields(e, v.option.value.fields, s[..|s| - 1], t[..|t| - 1]);
      }
    case MessageEncoder(Repeated, _, _) => if v.List? { SizeDecidesMessages(e, v.items, s, t); }
    case OneofEncoder(subfields) =>
      var chosen := ChosenVariant(subfields, v);
      if chosen.Ok? && chosen.value.Some? {
        SizeDecides(subfields[chosen.value.value.name], Opt(Some(chosen.value.value.value)), s, t);
      }
  }

  lemma {:induction false} SizeDecidesFields(e: Encoder, fields: seq<NamedVal>, s: seq<nat>, t: seq<nat>)
    requires e.MessageEncoder? && |s| == |t|
    ensures Parallel(EmitFields(e, fields, s), EmitFields(e, fields, t))
    decreases e, 0, |fields|
  {
    if fields != [] && fields[0].name in e.subfields {
      var f := e.subfields[fields[0].name];
      SizeDecides(f, fields[0].value, s, t);
      if Emit(f, fields[0].value, s).Ok? {
        SizeDecidesFields(e, fields[1..], Emit(f, fields[0].value, s).value.stack, Emit(f, fields[0].value, t).value.stack);
      }
    }
  }

  lemma {:induction false} SizeDecidesMessages(e: Encoder, items: seq<Val>, s: seq<nat>, t: seq<nat>)
    requires e.MessageEncoder? && |s| == |t|
    ensures Parallel(EmitMessages(e, items, s), EmitMessages(e, items, t))
    decreases e, 1, |items|
  {
    if items != [] && items[0].Record? && s != [] {
      var fields := items[0].fields;
      SizeDecidesFields(e, fields, s[..|s| - 1], t[..|t| - 1]);
      if EmitFields(e, fields, s[..|s| - 1]).Ok? {
        SizeDecidesMessages(e, items[1..],
          EmitFields(e, fields, s[..|s| - 1]).value.stack, EmitFields(e, fields, t[..|t| - 1]).value.stack);
      }
    }
  }

  ghost predicate Bounded(sizes: Sizes) {
    forall i :: 0 <= i < |sizes.pushed| ==> sizes.pushed[i] <= sizes.total
  }

  /** No length that is pushed exceeds the whole. */
  lemma {:induction false} PushedBounded(e: Encoder, v: Val)
    requires Measure(e, v).Ok?
    ensures Bounded(Measure(e, v).value)
    decreases e, 2
  {
    match e
    case ItemEncoder(_, _, _) =>
    case MessageEncoder(Inner, _, _) => PushedBoundedFields(e, v.fields);
    case MessageEncoder(Outer, _, _) => if v.option.Some? { PushedBoundedFields(e, v.option.value.fields); }
    case MessageEncoder(Repeated, _, _) => PushedBoundedMessages(e, v.items);
    case OneofEncoder(subfields) =>
      var chosen := ChosenVariant(subfields, v).value;
      if chosen.Some? { PushedBounded(subfields[chosen.value.name], Opt(Some(chosen.value.value))); }
  }

  lemma {:induction false} PushedBoundedFields(e: Encoder, fields: seq<NamedVal>)
    requires e.MessageEncoder? && MeasureFields(e, fields).Ok?
    ensures Bounded(MeasureFields(e, fields).value)
    decreases e, 0, |fields|
  {
    if fields != [] {
      PushedBoundedFields(e, fields[1..]);
      PushedBounded(e.subfields[fields[0].name], fields[0].value);
    }
  }

  lemma {:induction false} PushedBoundedMessages(e: Encoder, items: seq<Val>)
    requires e.MessageEncoder? && MeasureMessages(e, items).Ok?
    ensures Bounded(MeasureMessages(e, items).value)
    decreases e, 1, |items|
  {
    if items != [] {
      PushedBoundedFields(e, items[0].fields);
      PushedBoundedMessages(e, items[1..]);
    }
  }
}
