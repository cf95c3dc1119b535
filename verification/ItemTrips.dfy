/** Decoding the bytes of a single field: items, packed runs, expanded items, in any mixture. */
module ItemTrips {
  import opened Prelude
  import opened Wire
  import opened Values
  import opened Reading
  import opened Scalars
  import opened Encoding
  import opened Merging
  import opened MergerCompiler
  import opened Image

  lemma PayloadNonEmpty(item: EncodeItem, v: Val)
    requires EncodePayload(item, v).Ok?
    ensures |EncodePayload(item, v).value| >= 1
  {}

  /** Decoding a payload yields the image of the item and stops right behind the payload. */
  lemma ItemInverts(strict: bool, c: ItemCoding, v: Val, limit: nat, rest: seq<byte>)
    requires EncodePayload(c.Write(), v).Ok?
    requires |EncodePayload(c.Write(), v).value| <= U32_MAX
    ensures var payload := EncodePayload(c.Write(), v).value;
      DecodeItem(strict, c.Read(), Cursor(|payload| + limit, payload + rest))
      == Landed(ItemImage(c, v), limit, rest)
  {
    hide DecodeScalar, EncodeScalar, ScalarImage, ReadVarint, EncodeVarint;
    match c
    case ScalarItems(t) => DecodeScalarInverts(strict, t, v, limit, rest);
    case EnumItems(numbers, names) =>
      ReadVarintInverts(strict, numbers[v.enumerator], limit, rest, InvalidVarint);
  }

  lemma {:induction false} PackedInverts(strict: bool, c: ItemCoding, items: seq<Val>, rest: seq<byte>)
    requires EncodePayloads(c.Write(), [], items).Ok?
    requires |EncodePayloads(c.Write(), [], items).value| <= U32_MAX
    ensures var body := EncodePayloads(c.Write(), [], items).value;
      DecodePacked(strict, c.Read(), Cursor(|body|, body + rest))
      == Landed(ItemImages(c, items), 0, rest)
    decreases |items|
  {
    hide DecodeItem, EncodePayload, ItemImage;
    var body := EncodePayloads(c.Write(), [], items).value;
    if items == [] {
      assert body + rest == rest;
    } else {
      var head := EncodePayload(c.Write(), items[0]).value;
      var tail := EncodePayloads(c.Write(), [], items[1..]).value;
      PayloadNonEmpty(c.Write(), items[0]);
      assert body == head + tail;
      assert body + rest == head + (tail + rest);
      ItemInverts(strict, c, items[0], |tail|, tail + rest);
      if ItemImage(c, items[0]).Ok? {
        PackedInverts(strict, c, items[1..], rest);
      }
    }
  }

  // ---------------------------------------------------------------------------------------
  // One field in a record
  // ---------------------------------------------------------------------------------------

  /** A record with the value of slot `i` replaced. */
  function Put(fields: seq<NamedVal>, i: nat, v: Val): seq<NamedVal>
    requires i < |fields|
  {
    fields[i := NamedVal(fields[i].name, v)]
  }

  /** Merging goes on with the outcome in slot `i`, or stops with its error. */
  function Resume(strict: bool, m: Merger, fields: seq<NamedVal>, i: nat, outcome: Read<Val>)
    : Read<seq<NamedVal>>
    requires m.MessageMerger? && i < |fields|
  {
    match outcome
    case Ok((v, c)) => MergeFields(strict, m, c, Put(fields, i, v))
    case Err(error) => Err(error)
  }

  lemma ReadTagInverts(strict: bool, number: u32, wireType: WireType, limit: nat, rest: seq<byte>)
    ensures var tag := EncodeVarint(Tag(number, wireType));
      ReadTag(strict, Cursor(|tag| + limit, tag + rest)) == Ok(((number, wireType), Cursor(limit, rest)))
  {
    hide ReadVarint, EncodeVarint;
    ReadVarintInverts(strict, Tag(number, wireType), limit, rest, InvalidTagVarint);
    assert WireTypeOf(WireCode(wireType)) == wireType;
  }

  /** A tag of a known number hands its payload to the merger of its slot. */
  lemma Dispatch(strict: bool, m: Merger, number: u32, wireType: WireType, fields: seq<NamedVal>,
                 limit: nat, rest: seq<byte>)
    requires m.MessageMerger? && number in m.subfields && m.subfields[number].index < |fields|
    ensures var tag := EncodeVarint(Tag(number, wireType));
      var slot := m.subfields[number];
      MergeFields(strict, m, Cursor(|tag| + limit, tag + rest), fields)
      == Resume(strict, m, fields, slot.index,
                MergeField(strict, slot.merger, wireType, Cursor(limit, rest), fields[slot.index].value))
  {
    hide ReadTag, EncodeVarint, MergeField;
    ReadTagInverts(strict, number, wireType, limit, rest);
    var tag := EncodeVarint(Tag(number, wireType));
    assert |tag| >= 1 by { VarintNonEmpty(Tag(number, wireType)); }
  }

  lemma VarintNonEmpty(n: nat)
    ensures |EncodeVarint(n)| >= 1
  {}

  // ---------------------------------------------------------------------------------------
  // Lists: packed runs and single items, in any mixture
  // ---------------------------------------------------------------------------------------

  /** A stretch of a repeated field as it may appear on the wire. */
  datatype Run = PackedRun(items: seq<Val>) | SingleItem(item: Val)

  predicate Packable(c: ItemCoding) {
    ItemWireType(c.Read()) != LengthDelimited
  }

  predicate RunEncodes(c: ItemCoding, run: Run) {
    match run
    case PackedRun(items) => Packable(c) && EncodePayloads(c.Write(), [], items).Ok?
    case SingleItem(item) => EncodePayload(c.Write(), item).Ok?
  }

  function RunBytes(c: ItemCoding, number: u32, run: Run): seq<byte>
    requires RunEncodes(c, run)
  {
    match run
    case PackedRun(items) =>
      Delimited(Tag(number, LengthDelimited), EncodePayloads(c.Write(), [], items).value)
    case SingleItem(item) =>
      EncodeVarint(Tag(number, ItemWireType(c.Read()))) + EncodePayload(c.Write(), item).value
  }

  function RunItems(run: Run): seq<Val> {
    match run
    case PackedRun(items) => items
    case SingleItem(item) => [item]
  }

  /** The list in a slot after further images were appended, or the error of the first bad one. */
  function Appended(list: seq<Val>, images: Result<seq<Val>, DecodeError>): Outcome {
    match images
    case Ok(ws) => Ok(List(list + ws))
    case Err(error) => Err(error)
  }

  /** One run, packed or single, appends the images of its items to the list in its slot. */
  lemma RunAppends(strict: bool, m: Merger, c: ItemCoding, number: u32, run: Run,
                   fields: seq<NamedVal>, limit: nat, rest: seq<byte>)
    requires m.MessageMerger? && number in m.subfields
    requires m.subfields[number].merger == ItemMerger(c.Read(), IntoList)
    requires m.subfields[number].index < |fields| && fields[m.subfields[number].index].value.List?
    requires RunEncodes(c, run) && |RunBytes(c, number, run)| <= U32_MAX
    ensures var i := m.subfields[number].index;
      var bytes := RunBytes(c, number, run);
      MergeFields(strict, m, Cursor(|bytes| + limit, bytes + rest), fields)
      == Resume(strict, m, fields, i,
                Landed(Appended(fields[i].value.items, ItemImages(c, RunItems(run))), limit, rest))
  {
    hide MergeFields, EncodeVarint, EncodePayload, EncodePayloads, DecodeItem, DecodePacked, ReadLength, ItemImage;
    var i := m.subfields[number].index;
    var bytes := RunBytes(c, number, run);
    match run
    case PackedRun(items) =>
      var body := EncodePayloads(c.Write(), [], items).value;
      var tag := EncodeVarint(Tag(number, LengthDelimited));
      var payload := EncodeVarint(|body|) + body;
      assert bytes + rest == tag + (payload + rest);
      Dispatch(strict, m, number, LengthDelimited, fields, |payload| + limit, payload + rest);
      ReadLengthInverts(strict, body, limit, rest);
      PackedInverts(strict, c, items, rest);
    case SingleItem(item) =>
      var payload := EncodePayload(c.Write(), item).value;
      var wireType := ItemWireType(c.Read());
      assert bytes + rest == EncodeVarint(Tag(number, wireType)) + (payload + rest);
      Dispatch(strict, m, number, wireType, fields, |payload| + limit, payload + rest);
      ItemInverts(strict, c, item, limit, rest);
      SingleImages(c, item);
  }

  lemma SingleImages(c: ItemCoding, item: Val)
    ensures ItemImages(c, [item]) ==
      match ItemImage(c, item)
      case Ok(w) => Ok([w])
      case Err(error) => Err(error)
  {
    hide ItemImage;
    assert [item][1..] == [];
    assert ItemImages(c, []) == Ok([]);
    if ItemImage(c, item).Ok? {
      assert [ItemImage(c, item).value] + [] == [ItemImage(c, item).value];
    }
  }

  function RunsBytes(c: ItemCoding, number: u32, runs: seq<Run>): seq<byte>
    requires forall i :: 0 <= i < |runs| ==> RunEncodes(c, runs[i])
  {
    if runs == [] then [] else RunBytes(c, number, runs[0]) + RunsBytes(c, number, runs[1..])
  }

  function RunsItems(runs: seq<Run>): seq<Val> {
    if runs == [] then [] else RunItems(runs[0]) + RunsItems(runs[1..])
  }

  lemma {:induction false} ItemImagesConcat(c: ItemCoding, a: seq<Val>, b: seq<Val>)
    ensures ItemImages(c, a + b) ==
      match ItemImages(c, a)
      case Err(error) => Err(error)
      case Ok(ws) => (match ItemImages(c, b) case Ok(vs) => Ok(ws + vs) case Err(error) => Err(error))
    decreases |a|
  {
    hide ItemImage;
    if a == [] {
      assert a + b == b;
      if ItemImages(c, b).Ok? { assert [] + ItemImages(c, b).value == ItemImages(c, b).value; }
    } else {
      assert (a + b)[1..] == a[1..] + b;
      ItemImagesConcat(c, a[1..], b);
      if ItemImages(c, a).Ok? && ItemImages(c, b).Ok? {
        var head, tail := ItemImage(c, a[0]).value, ItemImages(c, a[1..]).value;
        assert [head] + (tail + ItemImages(c, b).value) == [head] + tail + ItemImages(c, b).value;
      }
    }
  }

  /**
    * Packed and expanded are the same list: however its items are cut into packed runs, empty
    * ones included, and single items, they are appended in order.
    */
  lemma {:induction false} RunsAppend(strict: bool, m: Merger, c: ItemCoding, number: u32, runs: seq<Run>,
                                      fields: seq<NamedVal>, limit: nat, rest: seq<byte>)
    requires m.MessageMerger? && number in m.subfields
    requires m.subfields[number].merger == ItemMerger(c.Read(), IntoList)
    requires m.subfields[number].index < |fields| && fields[m.subfields[number].index].value.List?
    requires forall i :: 0 <= i < |runs| ==> RunEncodes(c, runs[i])
    requires |RunsBytes(c, number, runs)| <= U32_MAX
    ensures var i := m.subfields[number].index;
      var bytes := RunsBytes(c, number, runs);
      MergeFields(strict, m, Cursor(|bytes| + limit, bytes + rest), fields)
      == Resume(strict, m, fields, i,
                Landed(Appended(fields[i].value.items, ItemImages(c, RunsItems(runs))), limit, rest))
    decreases |runs|
  {
    hide MergeFields, RunBytes, RunItems, RunEncodes, ItemImages;
    var i := m.subfields[number].index;
    var list := fields[i].value.items;
    if runs == [] {
      NoImages(c);
      assert [] + rest == rest;
      assert list + [] == list;
      assert Put(fields, i, List(list)) == fields;
    } else {
      var head := RunBytes(c, number, runs[0]);
      var tail := RunsBytes(c, number, runs[1..]);
      assert head + tail + rest == head + (tail + rest);
      RunAppends(strict, m, c, number, runs[0], fields, |tail| + limit, tail + rest);
      ItemImagesConcat(c, RunItems(runs[0]), RunsItems(runs[1..]));
      if ItemImages(c, RunItems(runs[0])).Ok? {
        var ws := ItemImages(c, RunItems(runs[0])).value;
        var fields1 := Put(fields, i, List(list + ws));
        RunsAppend(strict, m, c, number, runs[1..], fields1, limit, rest);
        if ItemImages(c, RunsItems(runs[1..])).Ok? {
          var vs := ItemImages(c, RunsItems(runs[1..])).value;
          assert list + ws + vs == list + (ws + vs);
          assert Put(fields1, i, List(list + ws + vs)) == Put(fields, i, List(list + (ws + vs)));
        }
      }
    }
  }

  lemma NoImages(c: ItemCoding)
    ensures ItemImages(c, []) == Ok([])
  {}
}
