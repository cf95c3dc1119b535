/**
  * The two passes as they run: lengths are machine words that saturate (and, for packed
  * enumerations, wrap), kept on a stack that one pass pushes to and the other pops from, while
  * the bytes are appended to a buffer.
  */
module EncodePasses {
  import opened Prelude
  import opened Wire
  import opened Values
  import opened Scalars
  import opened Encoding
  import opened TwoPass

  class Lengths {
    var stack: seq<u32>

    constructor ()
      ensures stack == []
    {
      stack := [];
    }

    method Push(length: u32)
      modifies this
      ensures stack == old(stack) + [length]
    {
      stack := stack + [length];
    }

    method Pop() returns (length: Option<u32>)
      modifies this
      ensures old(stack) == [] ==> length == None && stack == []
      ensures old(stack) != [] ==>
        length == Some(old(stack)[|old(stack)| - 1]) && stack == old(stack)[..|old(stack)| - 1]
    {
      if stack == [] {
        return None;
      }
      length := Some(stack[|stack| - 1]);
      stack := stack[..|stack| - 1];
    }
  }

  class EncodeBuf {
    var bytes: seq<byte>

    constructor ()
      ensures bytes == []
    {
      bytes := [];
    }

    method Put(more: seq<byte>)
      modifies this
      ensures bytes == old(bytes) + more
    {
      bytes := bytes + more;
    }
  }

  /** `u32::saturating_add` */
  function SaturatingAdd(a: u32, b: u32): u32 {
    if a + b <= U32_MAX then a + b else U32_MAX
  }

  /** `u32::try_from(n).unwrap_or(u32::MAX)` */
  function Clamp(n: nat): u32 {
    if n <= U32_MAX then n else U32_MAX
  }

  function WrappingAdd(a: u32, b: u32): u32 {
    if a + b <= U32_MAX then a + b else a + b - U32_MAX - 1
  }

  /** A machine length agrees with the true one as far as the true one fits. */
  predicate Fits(length: u32, exact: nat) {
    exact <= U32_MAX ==> length == exact
  }

  /** Machine lengths each of which agrees with the true one as far as that fits. */
  predicate FitsAll(lengths: seq<u32>, exact: seq<nat>) {
    |lengths| == |exact| && forall i :: 0 <= i < |exact| ==> Fits(lengths[i], exact[i])
  }

  /** The outcome of a length pass and the stack it leaves, to which it only adds. */
  ghost predicate Tracks(spec: Result<Sizes, EncodeError>, r: Result<u32, EncodeError>,
                         before: seq<u32>, after: seq<u32>)
  {
    match spec
    case Err(error) => r == Err(error)
    case Ok(sizes) =>
      && r.Ok?
      && Fits(r.value, sizes.total)
      && before <= after && FitsAll(after[|before|..], sizes.pushed)
  }

  /** Varints of machine words are at most ten bytes, so their lengths never saturate. */
  lemma {:induction false} VarintLengthBound(n: u64)
    ensures VarintLength(n) <= 10
  {
    VarintRoundTrip(n, []);
    GroupsUsed(EncodeVarint(n) + [], 0);
  }

  lemma {:induction false} GroupsUsed(src: seq<byte>, count: nat)
    requires count <= 9 && DecodeGroups(src, count).Some?
    ensures DecodeGroups(src, count).value.used <= 10 - count
    decreases 9 - count
  {
    if src[0] >= 128 && count < 9 {
      GroupsUsed(src[1..], count + 1);
    }
  }

  // ---------------------------------------------------------------------------------------
  // Length pass
  // ---------------------------------------------------------------------------------------

  lemma {:induction false} FixedLengths(t: ScalarType, prefix: nat, items: seq<Val>)
    requires Width(t) > 0
    ensures PayloadLengths(ScalarItem(t), prefix, items) == Ok((prefix + Width(t)) * |items|)
    decreases |items|
  {
    if items != [] {
      FixedLengths(t, prefix, items[1..]);
      assert (prefix + Width(t)) * |items| == (prefix + Width(t)) * |items[1..]| + (prefix + Width(t));
    }
  }

  /** One payload; only byte lists and strings can be long enough to saturate. */
  method PayloadLengthWord(item: EncodeItem, v: Val) returns (r: Result<u32, EncodeError>)
    ensures match PayloadLength(item, v)
      case Ok(n) => r.Ok? && Fits(r.value, n) && (item.EnumItem? ==> r.value == n <= 10)
      case Err(error) => r == Err(error)
  {
    match item {
      case EnumItem(numbers) =>
        if !v.Enum? { return Err(EnumNonEnum); }
        if v.enumerator !in numbers { return Err(EnumVariantUnrecognized); }
        VarintLengthBound(numbers[v.enumerator]);
        return Ok(VarintLength(numbers[v.enumerator]));
      case ScalarItem(t) =>
        if Width(t) > 0 { return Ok(Width(t)); }
        if !HasForm(t, v) { return Err(ScalarMismatch(t)); }
        if t.BytesType? {
          return Ok(SaturatingAdd(Clamp(VarintLength(|v.items|)), Clamp(|v.items|)));
        }
        if IsStringy(t) {
          return Ok(SaturatingAdd(Clamp(VarintLength(|v.utf8|)), Clamp(|v.utf8|)));
        }
        VarintLengthBound(ToVarint(t, v));
        return Ok(VarintLength(ToVarint(t, v)));
    }
  }

  /**
    * The sum over the items of a repeated field, each with `prefix` bytes in front. Packed
    * enumerations are summed with plain addition, everything else saturates.
    */
  method SumPayloads(item: EncodeItem, prefix: u32, items: seq<Val>, wrapping: bool)
    returns (r: Result<u32, EncodeError>)
    requires prefix <= 10
    requires wrapping ==> item.EnumItem?
    ensures match PayloadLengths(item, prefix, items)
      case Ok(n) => r.Ok? && Fits(r.value, n)
      case Err(error) => r == Err(error)
  {
    var total: u32 := 0;
    ghost var exact: nat := 0;
    assert items[0..] == items;
    for i := 0 to |items|
      invariant Fits(total, exact)
      invariant match PayloadLengths(item, prefix, items[i..])
        case Ok(n) => PayloadLengths(item, prefix, items) == Ok(exact + n)
        case Err(error) => PayloadLengths(item, prefix, items) == Err(error)
    {
      assert items[i..][0] == items[i] && items[i..][1..] == items[i + 1..];
      var length := PayloadLengthWord(item, items[i]);
      if length.Err? { return Err(length.error); }
      total := if wrapping then WrappingAdd(total, SaturatingAdd(length.value, prefix))
               else SaturatingAdd(total, SaturatingAdd(length.value, prefix));
      exact := exact + prefix + PayloadLength(item, items[i]).value;
    }
    return Ok(total);
  }

  method RepeatedLength(item: EncodeItem, prefix: u32, items: seq<Val>, packed: bool)
    returns (r: Result<u32, EncodeError>)
    requires prefix <= 10
    ensures match PayloadLengths(item, prefix, items)
      case Ok(n) => r.Ok? && Fits(r.value, n)
      case Err(error) => r == Err(error)
  {
    if item.ScalarItem? && Width(item.scalarType) > 0 {
      FixedLengths(item.scalarType, prefix, items);
      r := Ok(Clamp((prefix + Width(item.scalarType)) * |items|));
    } else {
      r := SumPayloads(item, prefix, items, packed && item.EnumItem?);
    }
  }

  method ItemLength(item: EncodeItem, presence: Presence, tag: u64, v: Val, lengths: Lengths)
    returns (r: Result<u32, EncodeError>)
    modifies lengths
    ensures Tracks(MeasureItem(item, presence, tag, v), r, old(lengths.stack), lengths.stack)
  {
    VarintLengthBound(tag);
    match presence {
      case Implicit =>
        if !ItemHasForm(item, v) { return Err(FormError(item, v)); }
        var length := PayloadLengthWord(item, v);
        if length.Err? { return Err(length.error); }
        if ItemIsDefault(item, v) { return Ok(0); }
        return Ok(SaturatingAdd(length.value, VarintLength(tag)));
      case Explicit =>
        if item.EnumItem? {
          var length := PayloadLengthWord(item, v);
          if length.Err? { return Err(length.error); }
          return Ok(SaturatingAdd(length.value, VarintLength(tag)));
        }
        if !v.Opt? { return Err(ExplicitNonOption); }
        if v.option.None? { return Ok(0); }
        var length := PayloadLengthWord(item, v.option.value);
        if length.Err? { return Err(length.error); }
        return Ok(SaturatingAdd(length.value, VarintLength(tag)));
      case Packed =>
        if !v.List? { return Err(RepeatedNonListValue); }
        if v.items == [] { return Ok(0); }
        var total := RepeatedLength(item, 0, v.items, true);
        if total.Err? { return Err(total.error); }
        lengths.Push(total.value);
        VarintLengthBound(total.value);
        var prefixes: u32 := VarintLength(tag) + VarintLength(total.value);
        return Ok(if item.EnumItem? then WrappingAdd(total.value, prefixes)
                  else SaturatingAdd(total.value, prefixes));
      case Expanded =>
        if !v.List? { return Err(RepeatedNonListValue); }
        r := RepeatedLength(item, VarintLength(tag), v.items, false);
    }
  }

  method Length(e: Encoder, v: Val, lengths: Lengths) returns (r: Result<u32, EncodeError>)
    modifies lengths
    ensures Tracks(Measure(e, v), r, old(lengths.stack), lengths.stack)
    decreases e, 2
  {
    match e {
      case ItemEncoder(item, presence, tag) =>
        r := ItemLength(item, presence, tag, v, lengths);
      case MessageEncoder(Inner, _, _) =>
        if !v.Record? { return Err(ValueNonRecord); }
        r := FieldsLength(e, v.fields, lengths);
      case MessageEncoder(Outer, tag, _) =>
        if !v.Opt? { return Err(MessageNonOptional); }
        if v.option.None? { return Ok(0); }
        if !v.option.value.Record? { return Err(ValueNonRecord); }
        var length := FieldsLength(e, v.option.value.fields, lengths);
        if length.Err? { return Err(length.error); }
        lengths.Push(length.value);
        VarintLengthBound(tag);
        VarintLengthBound(length.value);
        return Ok(SaturatingAdd(length.value, VarintLength(tag) + VarintLength(length.value)));
      case MessageEncoder(Repeated, _, _) =>
        if !v.List? { return Err(RepeatedNonListValue); }
        r := MessagesLength(e, v.items, lengths);
      case OneofEncoder(subfields) =>
        var chosen := ChosenVariant(subfields, v);
        if chosen.Err? { return Err(chosen.error); }
        if chosen.value.None? { return Ok(0); }
        r := Length(subfields[chosen.value.value.name], Opt(Some(chosen.value.value.value)), lengths);
    }
  }

  /** From the last field to the first, so that lengths are popped in field order. */
  method FieldsLength(e: Encoder, fields: seq<NamedVal>, lengths: Lengths)
    returns (r: Result<u32, EncodeError>)
    requires e.MessageEncoder?
    modifies lengths
    ensures Tracks(MeasureFields(e, fields), r, old(lengths.stack), lengths.stack)
    decreases e, 0
  {
    var total: u32 := 0;
    for i := |fields| downto 0
      invariant Tracks(MeasureFields(e, fields[i..]), Ok(total), old(lengths.stack), lengths.stack)
    {
      assert fields[i..][1..] == fields[i + 1..] && fields[i..][0] == fields[i];
      if fields[i].name !in e.subfields {
        LaterErrorStays(e, fields, i);
        return Err(NoEncoderForField);
      }
      var sublength := Length(e.subfields[fields[i].name], fields[i].value, lengths);
      if sublength.Err? {
        LaterErrorStays(e, fields, i);
        return Err(sublength.error);
      }
      total := SaturatingAdd(total, sublength.value);
    }
    assert fields[0..] == fields;
    return Ok(total);
  }

  lemma {:induction false} LaterErrorStays(e: Encoder, fields: seq<NamedVal>, i: nat)
    requires e.MessageEncoder? && i <= |fields| && MeasureFields(e, fields[i..]).Err?
    ensures MeasureFields(e, fields) == MeasureFields(e, fields[i..])
    decreases i
  {
    if i > 0 {
      assert fields[i - 1..][1..] == fields[i..];
      LaterErrorStays(e, fields, i - 1);
    } else {
      assert fields[0..] == fields;
    }
  }

  method MessagesLength(e: Encoder, items: seq<Val>, lengths: Lengths)
    returns (r: Result<u32, EncodeError>)
    requires e.MessageEncoder?
    modifies lengths
    ensures Tracks(MeasureMessages(e, items), r, old(lengths.stack), lengths.stack)
    decreases e, 1
  {
    var total: u32 := 0;
    ghost var done := Sizes(0, []);
    assert items[0..] == items;
    PlusNothing(MeasureMessages(e, items));
    hide MeasureFields, VarintLength;
    for i := 0 to |items|
      invariant Tracks(Ok(done), Ok(total), old(lengths.stack), lengths.stack)
      invariant MeasureMessages(e, items) == Plus(done, MeasureMessages(e, items[i..]))
    {
      assert items[i..][0] == items[i] && items[i..][1..] == items[i + 1..];
      if !items[i].Record? { return Err(ValueNonRecord); }
      var sublength := FieldsLength(e, items[i].fields, lengths);
      if sublength.Err? { return Err(sublength.error); }
      VarintLengthBound(e.tag);
      VarintLengthBound(sublength.value);
      ghost var inner := MeasureFields(e, items[i].fields).value;
      total := SaturatingAdd(total,
        SaturatingAdd(sublength.value, VarintLength(e.tag) + VarintLength(sublength.value)));
      PlusStep(done, Sizes(DelimitedLength(e.tag, inner.total), inner.pushed), MeasureMessages(e, items[i + 1..]));
      done := Sizes(done.total + DelimitedLength(e.tag, inner.total), done.pushed + inner.pushed);
    }
    assert MeasureMessages(e, items[|items|..]) == Ok(Sizes(0, []));
    assert done.pushed + [] == done.pushed;
    return Ok(total);
  }

  function Plus(done: Sizes, more: Result<Sizes, EncodeError>): Result<Sizes, EncodeError> {
    match more
    case Ok(sizes) => Ok(Sizes(done.total + sizes.total, done.pushed + sizes.pushed))
    case Err(error) => Err(error)
  }

  lemma PlusNothing(more: Result<Sizes, EncodeError>)
    ensures Plus(Sizes(0, []), more) == more
  {
    if more.Ok? { assert [] + more.value.pushed == more.value.pushed; }
  }

  lemma PlusStep(done: Sizes, step: Sizes, more: Result<Sizes, EncodeError>)
    ensures Plus(done, Plus(step, more))
         == Plus(Sizes(done.total + step.total, done.pushed + step.pushed), more)
  {
    if more.Ok? {
      assert done.pushed + (step.pushed + more.value.pushed) == done.pushed + step.pushed + more.value.pushed;
    }
  }

  // ---------------------------------------------------------------------------------------
  // Encode pass
  // ---------------------------------------------------------------------------------------

  /** The bytes written before an emission, in front of its own. */
  function After(written: seq<byte>, emission: Emission): Emission {
    match emission
    case Ok(emitted) => Ok(Emitted(written + emitted.bytes, emitted.stack))
    case Err(error) => Err(error)
  }

  lemma AfterStep(written: seq<byte>, step: seq<byte>, emission: Emission)
    ensures After(written, After(step, emission)) == After(written + step, emission)
  {
    if emission.Ok? {
      assert written + (step + emission.value.bytes) == written + step + emission.value.bytes;
    }
  }

  ghost predicate Appended(spec: Result<seq<byte>, EncodeError>, r: Result<(), EncodeError>,
                           before: seq<byte>, after: seq<byte>)
  {
    match spec
    case Ok(bytes) => r == Ok(()) && after == before + bytes
    case Err(error) => r == Err(error)
  }

  ghost predicate Performs(spec: Emission, r: Result<(), EncodeError>, before: seq<byte>,
                           after: seq<byte>, stack: seq<u32>)
  {
    match spec
    case Ok(emitted) => r == Ok(()) && after == before + emitted.bytes && stack == emitted.stack
    case Err(error) => r == Err(error)
  }

  method PutPayload(item: EncodeItem, v: Val, buf: EncodeBuf) returns (r: Result<(), EncodeError>)
    modifies buf
    ensures Appended(EncodePayload(item, v), r, old(buf.bytes), buf.bytes)
  {
    if item == ScalarItem(BytesType) && v.List? {
      r := PutOctets(v.items, buf);
    } else {
      var payload := EncodePayload(item, v);
      if payload.Err? { return Err(payload.error); }
      buf.Put(payload.value);
      return Ok(());
    }
  }

  /** A byte list is checked while it is written. */
  method PutOctets(items: seq<Val>, buf: EncodeBuf) returns (r: Result<(), EncodeError>)
    modifies buf
    ensures Appended(EncodeScalar(BytesType, List(items)), r, old(buf.bytes), buf.bytes)
  {
    buf.Put(EncodeVarint(|items|));
    ghost var prefix := buf.bytes;
    for i := 0 to |items|
      invariant AllOctets(items[..i])
      invariant buf.bytes == prefix + Octets(items[..i])
    {
      if !items[i].U8? { return Err(ByteNonByte); }
      buf.Put([items[i].octet]);
      assert AllOctets(items[..i + 1]);
      assert Octets(items[..i + 1]) == Octets(items[..i]) + [items[i].octet];
    }
    assert items[..|items|] == items;
    return Ok(());
  }

  method PutPayloads(item: EncodeItem, prefix: seq<byte>, items: seq<Val>, buf: EncodeBuf)
    returns (r: Result<(), EncodeError>)
    modifies buf
    ensures Appended(EncodePayloads(item, prefix, items), r, old(buf.bytes), buf.bytes)
  {
    hide EncodePayload;
    ghost var done: seq<byte> := [];
    assert items[0..] == items;
    assert EncodePayloads(item, prefix, items).Ok? ==>
      [] + EncodePayloads(item, prefix, items).value == EncodePayloads(item, prefix, items).value;
    for i := 0 to |items|
      invariant buf.bytes == old(buf.bytes) + done
      invariant match EncodePayloads(item, prefix, items[i..])
        case Ok(bytes) => EncodePayloads(item, prefix, items) == Ok(done + bytes)
        case Err(error) => EncodePayloads(item, prefix, items) == Err(error)
    {
      assert items[i..][0] == items[i] && items[i..][1..] == items[i + 1..];
      buf.Put(prefix);
      r := PutPayload(item, items[i], buf);
      if r.Err? { return; }
      ghost var step := prefix + EncodePayload(item, items[i]).value;
      assert buf.bytes == old(buf.bytes) + (done + step);
      ghost var later := EncodePayloads(item, prefix, items[i + 1..]);
      assert later.Ok? ==> done + (step + later.value) == done + step + later.value;
      done := done + step;
    }
    return Ok(());
  }

  lemma FormDecides(item: EncodeItem, v: Val)
    ensures !ItemHasForm(item, v) ==> EncodePayload(item, v) == Err(FormError(item, v))
    ensures ItemHasForm(item, v) && ItemIsDefault(item, v) ==> EncodePayload(item, v).Ok?
  {}

  method EncodeItemInto(item: EncodeItem, presence: Presence, tag: u64, v: Val, lengths: Lengths, buf: EncodeBuf)
    returns (r: Result<(), EncodeError>)
    modifies lengths, buf
    ensures Performs(EmitItem(item, presence, tag, v, old(lengths.stack)), r, old(buf.bytes), buf.bytes, lengths.stack)
  {
    hide EncodeVarint, EncodePayload, EncodePayloads, ItemIsDefault, ItemHasForm, FormError;
    if EncodePayload(item, v).Ok? { PayloadLengthExact(item, v); }
    match presence {
      case Implicit =>
        FormDecides(item, v);
        if !ItemHasForm(item, v) { return Err(FormError(item, v)); }
        if ItemIsDefault(item, v) { return Ok(()); }
        buf.Put(EncodeVarint(tag));
        r := PutPayload(item, v, buf);
      case Explicit =>
        if item.ScalarItem? && !v.Opt? { return Err(ExplicitNonOption); }
        if item.ScalarItem? && v.option.None? { return Ok(()); }
        buf.Put(EncodeVarint(tag));
        r := PutPayload(item, if item.EnumItem? then v else v.option.value, buf);
      case Packed =>
        if !v.List? { return Err(RepeatedNonListValue); }
        if v.items == [] { return Ok(()); }
        var length := lengths.Pop();
        if length.None? { return Err(LengthInconsistency); }
        buf.Put(EncodeVarint(tag));
        buf.Put(EncodeVarint(length.value));
        r := PutPayloads(item, [], v.items, buf);
      case Expanded =>
        if !v.List? { return Err(RepeatedNonListValue); }
        r := PutPayloads(item, EncodeVarint(tag), v.items, buf);
    }
  }

  method Encode(e: Encoder, v: Val, lengths: Lengths, buf: EncodeBuf) returns (r: Result<(), EncodeError>)
    modifies lengths, buf
    ensures Performs(Emit(e, v, old(lengths.stack)), r, old(buf.bytes), buf.bytes, lengths.stack)
    decreases e, 2
  {
    match e {
      case ItemEncoder(item, presence, tag) =>
        r := EncodeItemInto(item, presence, tag, v, lengths, buf);
      case MessageEncoder(Inner, _, _) =>
        if !v.Record? { return Err(ValueNonRecord); }
        r := EncodeFields(e, v.fields, lengths, buf);
      case MessageEncoder(Outer, tag, _) =>
        if !v.Opt? { return Err(MessageNonOptional); }
        if v.option.None? { return Ok(()); }
        var length := lengths.Pop();
        if length.None? { return Err(LengthInconsistency); }
        buf.Put(EncodeVarint(tag));
        buf.Put(EncodeVarint(length.value));
        if !v.option.value.Record? { return Err(ValueNonRecord); }
        r := EncodeFields(e, v.option.value.fields, lengths, buf);
      case MessageEncoder(Repeated, _, _) =>
        if !v.List? { return Err(RepeatedNonListValue); }
        r := EncodeMessages(e, v.items, lengths, buf);
      case OneofEncoder(subfields) =>
        var chosen := ChosenVariant(subfields, v);
        if chosen.Err? { return Err(chosen.error); }
        if chosen.value.None? { return Ok(()); }
        r := Encode(subfields[chosen.value.value.name], Opt(Some(chosen.value.value.value)), lengths, buf);
    }
  }

  method EncodeFields(e: Encoder, fields: seq<NamedVal>, lengths: Lengths, buf: EncodeBuf)
    returns (r: Result<(), EncodeError>)
    requires e.MessageEncoder?
    modifies lengths, buf
    ensures Performs(EmitFields(e, fields, old(lengths.stack)), r, old(buf.bytes), buf.bytes, lengths.stack)
    decreases e, 0
  {
    ghost var done: seq<byte> := [];
    assert fields[0..] == fields;
    AfterNothing(EmitFields(e, fields, lengths.stack));
    for i := 0 to |fields|
      invariant buf.bytes == old(buf.bytes) + done
      invariant EmitFields(e, fields, old(lengths.stack))
             == After(done, EmitFields(e, fields[i..], lengths.stack))
    {
      assert fields[i..][0] == fields[i] && fields[i..][1..] == fields[i + 1..];
      if fields[i].name !in e.subfields { return Err(NoEncoderForField); }
      ghost var stack := lengths.stack;
      var sub := e.subfields[fields[i].name];
      r := Encode(sub, fields[i].value, lengths, buf);
      if r.Err? { return; }
      ghost var first := Emit(sub, fields[i].value, stack).value;
      assert EmitFields(e, fields[i..], stack) == After(first.bytes, EmitFields(e, fields[i + 1..], first.stack));
      AfterStep(done, first.bytes, EmitFields(e, fields[i + 1..], first.stack));
      assert buf.bytes == old(buf.bytes) + (done + first.bytes);
      done := done + first.bytes;
    }
    assert fields[|fields|..] == [];
    assert done + [] == done;
    return Ok(());
  }

  lemma AfterNothing(emission: Emission)
    ensures After([], emission) == emission
  {
    if emission.Ok? { assert [] + emission.value.bytes == emission.value.bytes; }
  }

  method EncodeMessages(e: Encoder, items: seq<Val>, lengths: Lengths, buf: EncodeBuf)
    returns (r: Result<(), EncodeError>)
    requires e.MessageEncoder?
    modifies lengths, buf
    ensures Performs(EmitMessages(e, items, old(lengths.stack)), r, old(buf.bytes), buf.bytes, lengths.stack)
    decreases e, 1
  {
    ghost var done: seq<byte> := [];
    assert items[0..] == items;
    AfterNothing(EmitMessages(e, items, lengths.stack));
    for i := 0 to |items|
      invariant buf.bytes == old(buf.bytes) + done
      invariant EmitMessages(e, items, old(lengths.stack))
             == After(done, EmitMessages(e, items[i..], lengths.stack))
    {
      assert items[i..][0] == items[i] && items[i..][1..] == items[i + 1..];
      ghost var stack := lengths.stack;
      var length := lengths.Pop();
      if length.None? { return Err(LengthInconsistency); }
      buf.Put(EncodeVarint(e.tag));
      buf.Put(EncodeVarint(length.value));
      if !items[i].Record? { return Err(ValueNonRecord); }
      r := EncodeFields(e, items[i].fields, lengths, buf);
      if r.Err? { return; }
      ghost var inner := EmitFields(e, items[i].fields, stack[..|stack| - 1]).value;
      ghost var step := Prefixed(e.tag, length.value, inner.bytes);
      assert EmitMessages(e, items[i..], stack) == After(step, EmitMessages(e, items[i + 1..], inner.stack));
      AfterStep(done, step, EmitMessages(e, items[i + 1..], inner.stack));
      assert buf.bytes == old(buf.bytes) + (done + step);
      done := done + step;
    }
    assert items[|items|..] == [];
    assert done + [] == done;
    return Ok(());
  }

  /** Machine lengths are the true ones when the whole fits. */
  lemma FittingLengths(e: Encoder, v: Val, lengths: seq<u32>)
    requires Measure(e, v).Ok? && FitsAll(lengths, Measure(e, v).value.pushed)
    ensures Measure(e, v).value.total <= U32_MAX ==> lengths == Measure(e, v).value.pushed
  {
    PushedBounded(e, v);
  }

  /**
    * What was appended differs from the reference at most in the length prefixes, of which those are
    * right that fit a machine word.
    */
  ghost predicate PrefixedBy(e: Encoder, v: Val, lengths: seq<u32>, before: seq<byte>, after: seq<byte>) {
    && Measure(e, v).Ok? && FitsAll(lengths, Measure(e, v).value.pushed)
    && Emit(e, v, lengths).Ok? && after == before + Emit(e, v, lengths).value.bytes
  }

  /**
    * `ResponseEncoder::encode`. It succeeds exactly when the reference does and no repeated message
    * field holds an item, and otherwise fails as the two passes do. As long as the true length fits
    * a machine word it appends the bytes of the reference.
    */
  method EncodeTopLevel(e: Encoder, v: Val, dst: EncodeBuf) returns (r: Result<(), EncodeError>)
    modifies dst
    ensures r.Ok? <==> WireBytes(e, v).Ok? && RepeatedItems(e, v) == 0
    ensures r.Err? ==> EncodeResponse(e, v) == Err(r.error)
    ensures r.Ok? && |WireBytes(e, v).value| <= U32_MAX ==> dst.bytes == old(dst.bytes) + WireBytes(e, v).value
    ensures r.Ok? ==> exists lengths: seq<u32> :: PrefixedBy(e, v, lengths, old(dst.bytes), dst.bytes)
  {
    var lengths := new Lengths();
    var length := Length(e, v, lengths);
    ResponseExact(e, v);
    if length.Err? { return Err(length.error); }
    assert lengths.stack[0..] == lengths.stack;
    FittingLengths(e, v, lengths.stack);
    SizeDecides(e, v, Measure(e, v).value.pushed, lengths.stack);
    ghost var pushed := lengths.stack;
    r := Encode(e, v, lengths, dst);
    assert r.Ok? ==> PrefixedBy(e, v, pushed, old(dst.bytes), dst.bytes);
  }
}
