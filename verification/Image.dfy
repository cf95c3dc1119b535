/**
  * What decoding makes of an encoding: the image of a value under a schema. It is the value
  * itself exactly when the value is faithful, a condition on its leaves.
  */
module Image {
  import opened Prelude
  import opened Wire
  import opened Values
  import opened Reading
  import opened Scalars
  import opened Encoding
  import opened Merging
  import opened EncoderCompiler
  import opened MergerCompiler

  /** How items of a field are written and read back. */
  datatype ItemCoding =
    | ScalarItems(scalarType: ScalarType)
    | EnumItems(numbers: map<string, u32>, names: map<u32, string>)
  {
    function Write(): EncodeItem {
      match this
      case ScalarItems(t) => ScalarItem(t)
      case EnumItems(numbers, _) => EnumItem(numbers)
    }

    function Read(): MergeItem {
      match this
      case ScalarItems(t) => ReadScalar(t)
      case EnumItems(_, names) => ReadEnum(names)
    }

    /** Every number that can be written has a name to be read as. */
    predicate Consistent() {
      EnumItems? ==> forall name :: name in numbers ==> numbers[name] in names
    }

    function Absent(): Val {
      match this
      case ScalarItems(t) => DefaultScalar(t)
      case EnumItems(_, names) => if 0 in names then Enum(names[0]) else Opt(None)
    }
  }

  function EnumCoding(f: Field): (c: ItemCoding)
    ensures c.Consistent()
  {
    NumbersHaveNames(f.subfields);
    EnumItems(EnumNumbers(f.subfields), EnumNames(f.subfields))
  }

  lemma {:induction false} NumbersHaveNames(variants: seq<Field>)
    ensures forall name :: name in EnumNumbers(variants) ==>
      EnumNumbers(variants)[name] in EnumNames(variants)
  {
    if variants != [] { NumbersHaveNames(variants[..|variants| - 1]); }
  }

  // ---------------------------------------------------------------------------------------
  // Images
  // ---------------------------------------------------------------------------------------

  type Outcome = Result<Val, DecodeError>

  function ItemImage(c: ItemCoding, v: Val): (r: Outcome) {
    match c
    case ScalarItems(t) => ScalarImage(t, v)
    case EnumItems(numbers, names) =>
      if v.Enum? && v.enumerator in numbers then EnumName(names, numbers[v.enumerator]) else Ok(v)
  }

  function ItemImages(c: ItemCoding, items: seq<Val>): (r: Result<seq<Val>, DecodeError>) {
    if items == [] then Ok([])
    else
      var head :- ItemImage(c, items[0]);
      var tail :- ItemImages(c, items[1..]);
      Ok([head] + tail)
  }

  function PresenceImage(c: ItemCoding, presence: Presence, v: Val): (r: Outcome) {
    match presence
    case Implicit =>
      if ItemHasForm(c.Write(), v) && ItemIsDefault(c.Write(), v) then Ok(c.Absent())
      else ItemImage(c, v)
    case Explicit =>
      // An enumerator goes in bare and comes out as an option.
      if c.EnumItems? then
        var w :- ItemImage(c, v);
        Ok(Opt(Some(w)))
      else if v.Opt? && v.option.Some? then
        var w :- ItemImage(c, v.option.value);
        Ok(Opt(Some(w)))
      else Ok(v)
    case Packed => ListImage(c, v)
    case Expanded => ListImage(c, v)
  }

  function ListImage(c: ItemCoding, v: Val): (r: Outcome) {
    if v.List? then
      var ws :- ItemImages(c, v.items);
      Ok(List(ws))
    else Ok(v)
  }

  function FieldImage(f: Field, v: Val): (r: Outcome)
    decreases f, 2
  {
    match f.coding
    case NoCoding => Ok(v)
    case ScalarCoding(code) =>
      (match ScalarOf(code)
       case None => Ok(v)
       case Some(Scalar(t, presence)) => PresenceImage(ScalarItems(t), presence, v))
    case CompoundCoding(code) =>
      match CompoundOf(code)
      case None => Ok(v)
      case Some(EnumCompound(presence)) => PresenceImage(EnumCoding(f), presence, v)
      case Some(MessageSingular) =>
        if v.Opt? && v.option.Some? && v.option.value.Record? then
          var fields :- RecordImage(f, v.option.value.fields, 0);
          Ok(Opt(Some(Record(fields))))
        else Ok(v)
      case Some(MessageExpanded) =>
        if v.List? then
          var ws :- MessageImages(f, v.items);
          Ok(List(ws))
        else Ok(v)
      case Some(OneofCompound) =>
        if v.Opt? && v.option.Some? && v.option.value.Variant? && v.option.value.payload.Some? then
          match FindVariant(f.subfields, v.option.value.variant)
          case None => Ok(v)
          case Some(j) =>
            var w :- FieldImage(f.subfields[j], Opt(v.option.value.payload));
            if w.Opt? then Ok(Opt(Some(Variant(v.option.value.variant, w.option)))) else Ok(v)
        else Ok(v)
  }

  /** The images of the fields from number `j` on, in schema order. */
  function RecordImage(f: Field, fields: seq<NamedVal>, j: nat): (r: Result<seq<NamedVal>, DecodeError>)
    ensures r.Ok? && j <= |f.subfields| && |fields| == |f.subfields| ==>
      |r.value| == |f.subfields| - j
    decreases f, 0, |fields| - j
  {
    if j >= |f.subfields| || j >= |fields| then Ok([])
    else
      var w :- FieldImage(f.subfields[j], fields[j].value);
      var later :- RecordImage(f, fields, j + 1);
      Ok([NamedVal(fields[j].name, w)] + later)
  }

  function MessageImages(f: Field, items: seq<Val>): (r: Result<seq<Val>, DecodeError>)
    decreases f, 1, |items|
  {
    if items == [] then Ok([])
    else if items[0].Record? then
      var fields :- RecordImage(f, items[0].fields, 0);
      var tail :- MessageImages(f, items[1..]);
      Ok([Record(fields)] + tail)
    else
      var tail :- MessageImages(f, items[1..]);
      Ok([items[0]] + tail)
  }

  /** The last variant of that name. */
  function FindVariant(variants: seq<Field>, name: string): (r: Option<nat>)
    ensures r.Some? ==> r.value < |variants| && variants[r.value].name == name
    ensures r.Some? ==> forall j :: r.value < j < |variants| ==> variants[j].name != name
    ensures r.None? ==> forall j :: 0 <= j < |variants| ==> variants[j].name != name
  {
    if variants == [] then None
    else
      var n := |variants| - 1;
      if variants[n].name == name then Some(n) else FindVariant(variants[..n], name)
  }

  // ---------------------------------------------------------------------------------------
  // Faithful values
  // ---------------------------------------------------------------------------------------

  /** Zigzag range, non-negative int32, valid UTF-8; an enumerator that its number maps back to. */
  predicate ItemFaithful(c: ItemCoding, v: Val) {
    match c
    case ScalarItems(t) => Survives(t, v)
    case EnumItems(numbers, names) =>
      v.Enum? && v.enumerator in numbers ==>
        numbers[v.enumerator] in names && names[numbers[v.enumerator]] == v.enumerator
  }

  predicate NegativeZero(v: Val) {
    v == Float32(0x8000_0000) || v == Float64(0x8000_0000_0000_0000)
  }

  predicate PresenceFaithful(c: ItemCoding, presence: Presence, v: Val) {
    match presence
    case Implicit => ItemFaithful(c, v) && !(c.ScalarItems? && NegativeZero(v))
    case Explicit =>
      c.ScalarItems? && (v.Opt? && v.option.Some? ==> ItemFaithful(c, v.option.value))
    case Packed => v.List? ==> forall i :: 0 <= i < |v.items| ==> ItemFaithful(c, v.items[i])
    case Expanded => v.List? ==> forall i :: 0 <= i < |v.items| ==> ItemFaithful(c, v.items[i])
  }

  ghost predicate Faithful(f: Field, v: Val)
    decreases f, 2
  {
    match f.coding
    case NoCoding => true
    case ScalarCoding(code) =>
      (match ScalarOf(code)
       case None => true
       case Some(Scalar(t, presence)) => PresenceFaithful(ScalarItems(t), presence, v))
    case CompoundCoding(code) =>
      match CompoundOf(code)
      case None => true
      case Some(EnumCompound(presence)) => PresenceFaithful(EnumCoding(f), presence, v)
      case Some(MessageSingular) =>
        v.Opt? && v.option.Some? && v.option.value.Record? ==>
          FaithfulRecord(f, v.option.value.fields)
      case Some(MessageExpanded) =>
        v.List? ==> forall i :: 0 <= i < |v.items| && v.items[i].Record? ==>
          FaithfulRecord(f, v.items[i].fields)
      case Some(OneofCompound) =>
        v.Opt? && v.option.Some? && v.option.value.Variant? && v.option.value.payload.Some? ==>
          match FindVariant(f.subfields, v.option.value.variant)
          case None => true
          case Some(j) => Faithful(f.subfields[j], Opt(v.option.value.payload))
  }

  ghost predicate FaithfulRecord(f: Field, fields: seq<NamedVal>)
    decreases f, 0
  {
    forall i :: 0 <= i < |f.subfields| && i < |fields| ==> Faithful(f.subfields[i], fields[i].value)
  }

  // ---------------------------------------------------------------------------------------
  // The image is the value exactly when the value is faithful
  // ---------------------------------------------------------------------------------------

  lemma ItemImageExact(c: ItemCoding, v: Val)
    requires c.Consistent() && EncodePayload(c.Write(), v).Ok?
    ensures ItemImage(c, v) == Ok(v) <==> ItemFaithful(c, v)
  {
    match c
    case ScalarItems(t) => ScalarImageExact(t, v);
    case EnumItems(numbers, names) =>
  }

  lemma {:induction false} ItemImagesExact(c: ItemCoding, prefix: seq<byte>, items: seq<Val>)
    requires c.Consistent() && EncodePayloads(c.Write(), prefix, items).Ok?
    ensures ItemImages(c, items) == Ok(items)
       <==> forall i :: 0 <= i < |items| ==> ItemFaithful(c, items[i])
    decreases |items|
  {
    if items != [] {
      ItemImageExact(c, items[0]);
      ItemImagesExact(c, prefix, items[1..]);
      assert items == [items[0]] + items[1..];
      assert forall i :: 0 < i < |items| ==> items[i] == items[1..][i - 1];
      if ItemImages(c, items) == Ok(items) {
        assert ItemImages(c, items).value[1..] == items[1..];
      }
    }
  }

  lemma PresenceImageExact(c: ItemCoding, presence: Presence, tag: u64, v: Val)
    requires c.Consistent() && WireItem(c.Write(), presence, tag, v).Ok?
    requires presence.Implicit? && c.EnumItems? ==> 0 in c.names
    ensures PresenceImage(c, presence, v) == Ok(v) <==> PresenceFaithful(c, presence, v)
  {
    match presence
    case Implicit =>
      PayloadLengthExact(c.Write(), v);
      ItemImageExact(c, v);
      if ItemIsDefault(c.Write(), v) { AbsentExact(c, v); }
    case Explicit =>
      if c.ScalarItems? && v.option.Some? { ItemImageExact(c, v.option.value); }
    case Packed =>
      if v.items != [] { ItemImagesExact(c, [], v.items); }
    case Expanded => ItemImagesExact(c, EncodeVarint(tag), v.items);
  }

  /** A value that is left out comes back unless it is a negative zero or an alias. */
  lemma AbsentExact(c: ItemCoding, v: Val)
    requires ItemHasForm(c.Write(), v) && ItemIsDefault(c.Write(), v)
    requires c.EnumItems? ==> 0 in c.names
    ensures c.Absent() == v <==> ItemFaithful(c, v) && !(c.ScalarItems? && NegativeZero(v))
  {}
}
