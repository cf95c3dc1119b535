/**
  * The wire format of a schema spelled out from the numbers: which records a value of each coding
  * number is written as, and which values records are read as. Nothing here knows of scalar types,
  * presences or wire types; codings are the numbers of `runtime/metadata.proto`, and tags are
  * `8 * number + code`.
  */
module Format {
  import opened Prelude
  import opened Wire
  import opened Values
  import opened Reading

  // ---------------------------------------------------------------------------------------
  // Records
  // ---------------------------------------------------------------------------------------

  /** The payload of a record, by its kind. */
  datatype Token =
    | Num(n: u64)
    | Four(word: u32)
    | Eight(long: u64)
    | Chunk(bytes: seq<byte>)
    | GroupStart
    | GroupEnd

  function TokenCode(t: Token): nat {
    match t
    case Num(_) => 0
    case Eight(_) => 1
    case Chunk(_) => 2
    case GroupStart => 3
    case GroupEnd => 4
    case Four(_) => 5
  }

  function FourBytes(n: u32): seq<byte> {
    [n % 0x100, n / 0x100 % 0x100, n / 0x1_0000 % 0x100, n / 0x100_0000]
  }

  function Payload(t: Token): (r: seq<byte>) {
    match t
    case Num(n) => EncodeVarint(n)
    case Four(n) => FourBytes(n)
    case Eight(n) => FourBytes(n % 0x1_0000_0000) + FourBytes(n / 0x1_0000_0000)
    case Chunk(bytes) => EncodeVarint(|bytes|) + bytes
    case GroupStart => []
    case GroupEnd => []
  }

  /** A record: the tag and the payload. */
  function RecordBytes(number: u32, t: Token): seq<byte> {
    EncodeVarint(8 * number + TokenCode(t)) + Payload(t)
  }

  function Payloads(ts: seq<Token>): seq<byte> {
    if ts == [] then [] else Payload(ts[0]) + Payloads(ts[1..])
  }

  function Records(number: u32, ts: seq<Token>): seq<byte> {
    if ts == [] then [] else RecordBytes(number, ts[0]) + Records(number, ts[1..])
  }

  // ---------------------------------------------------------------------------------------
  // Scalars and enumerators
  // ---------------------------------------------------------------------------------------

  /** What the scalar coding writes for a value; none if it does not take the value. */
  function ScalarToken(code: i32, v: Val): Option<Token> {
    match v
    case List(items) =>
      if 0 <= code <= 3 && forall i | 0 <= i < |items| :: items[i].U8? then
        Some(Chunk(seq(|items|, i requires 0 <= i < |items| => items[i].octet)))
      else None
    case String(s) => if 4 <= code <= 11 then Some(Chunk(s)) else None
    case Bool(b) => if 12 <= code <= 15 then Some(Num(if b then 1 else 0)) else None
    case S32(x) =>
      if 16 <= code <= 19 then Some(Num(if x < 0 then x + 0x1_0000_0000_0000_0000 else x))
      else if 20 <= code <= 23 then Some(Num(if x < 0 then -2 * x - 1 else 2 * x))
      else if 24 <= code <= 27 then Some(Four(if x < 0 then x + 0x1_0000_0000 else x))
      else None
    case U32(n) =>
      if 28 <= code <= 31 then Some(Num(n)) else if 32 <= code <= 35 then Some(Four(n)) else None
    case S64(x) =>
      if 36 <= code <= 39 then Some(Num(if x < 0 then x + 0x1_0000_0000_0000_0000 else x))
      else if 40 <= code <= 43 then Some(Num(if x < 0 then -2 * x - 1 else 2 * x))
      else if 44 <= code <= 47 then Some(Eight(if x < 0 then x + 0x1_0000_0000_0000_0000 else x))
      else None
    case U64(n) =>
      if 48 <= code <= 51 then Some(Num(n)) else if 52 <= code <= 55 then Some(Eight(n)) else None
    case Float32(bits) => if 56 <= code <= 59 then Some(Four(bits)) else None
    case Float64(bits) => if 60 <= code <= 63 then Some(Eight(bits)) else None
    case _ => None
  }

  /** The values that implicit presence leaves out. Both zeros of a float are among them. */
  predicate Zero(v: Val) {
    || v in {Bool(false), S32(0), U32(0), S64(0), U64(0), String([]), List([])}
    || v in {Float32(0), Float32(0x8000_0000), Float64(0), Float64(0x8000_0000_0000_0000)}
  }

  /** The last of the fields that has the name. */
  function LastNamed(fields: seq<Field>, name: string): (r: Option<nat>)
    ensures r.Some? ==> r.value < |fields| && fields[r.value].name == name
    ensures r.Some? ==> forall j | r.value < j < |fields| :: fields[j].name != name
    ensures r.None? ==> forall j | 0 <= j < |fields| :: fields[j].name != name
  {
    if fields == [] then None
    else if fields[|fields| - 1].name == name then Some(|fields| - 1)
    else LastNamed(fields[..|fields| - 1], name)
  }

  /** The last of the fields that has the number. */
  function LastNumbered(fields: seq<Field>, number: u32): (r: Option<nat>)
    ensures r.Some? ==> r.value < |fields| && fields[r.value].number == number
    ensures r.Some? ==> forall j | r.value < j < |fields| :: fields[j].number != number
    ensures r.None? ==> forall j | 0 <= j < |fields| :: fields[j].number != number
  {
    if fields == [] then None
    else if fields[|fields| - 1].number == number then Some(|fields| - 1)
    else LastNumbered(fields[..|fields| - 1], number)
  }

  /** A field that has no fields of its own: a scalar of some coding, or an enumeration. */
  datatype Leaf = ScalarLeaf(code: i32) | EnumLeaf(enumerators: seq<Field>)

  function LeafToken(leaf: Leaf, v: Val): Option<Token> {
    match leaf
    case ScalarLeaf(code) => ScalarToken(code, v)
    case EnumLeaf(enumerators) =>
      if !v.Enum? then None
      else
        match LastNamed(enumerators, v.enumerator)
        case None => None
        case Some(i) => Some(Num(enumerators[i].number))
  }

  function LeafTokens(leaf: Leaf, items: seq<Val>): (r: Option<seq<Token>>)
    ensures r.Some? ==> |r.value| == |items|
  {
    if items == [] then Some([])
    else if LeafToken(leaf, items[0]).None? || LeafTokens(leaf, items[1..]).None? then None
    else Some([LeafToken(leaf, items[0]).value] + LeafTokens(leaf, items[1..]).value)
  }

  predicate LeftOut(leaf: Leaf, v: Val) {
    match leaf
    case ScalarLeaf(_) => Zero(v)
    case EnumLeaf(_) => LeafToken(leaf, v) == Some(Num(0))
  }

  /** One record, if the value has a token. */
  function One(number: u32, t: Option<Token>): Option<seq<byte>> {
    match t
    case None => None
    case Some(token) => Some(RecordBytes(number, token))
  }

  /**
    * Presence 0 leaves zeros out, 1 packs a list into one record, 2 takes an option, and 3 writes a
    * record for each item of a list. An enumeration of presence 2 is taken bare.
    */
  function LeafWritten(number: u32, presence: nat, leaf: Leaf, v: Val): Option<seq<byte>> {
    if presence == 0 then
      if LeafToken(leaf, v).Some? && LeftOut(leaf, v) then Some([]) else One(number, LeafToken(leaf, v))
    else if presence == 2 && leaf.EnumLeaf? then One(number, LeafToken(leaf, v))
    else if presence == 2 then
      match v
      case Opt(None) => Some([])
      case Opt(Some(x)) => One(number, LeafToken(leaf, x))
      case _ => None
    else if !v.List? || LeafTokens(leaf, v.items).None? then None
    else if presence == 3 then Some(Records(number, LeafTokens(leaf, v.items).value))
    else if v.items == [] then Some([])
    else Some(RecordBytes(number, Chunk(Payloads(LeafTokens(leaf, v.items).value))))
  }

  // ---------------------------------------------------------------------------------------
  // Messages
  // ---------------------------------------------------------------------------------------

  /** What a field of the schema writes for a value; none if it does not take the value. */
  function Written(f: Field, v: Val): Option<seq<byte>>
    decreases f, 3, 0
  {
    match f.coding
    case NoCoding => None
    case ScalarCoding(code) => if code < 0 then None else LeafWritten(f.number, code % 4, ScalarLeaf(code), v)
    case CompoundCoding(code) =>
      if 0 <= code <= 3 then LeafWritten(f.number, code, EnumLeaf(f.subfields), v)
      else if code == 6 then
        match v
        case Opt(None) => Some([])
        case Opt(Some(Record(fields))) => One(f.number, Body(f, fields))
        case _ => None
      else if code == 7 then if v.List? then EachWritten(f, v.items) else None
      else if code == 8 then
        match v
        case Opt(None) => Some([])
        case Opt(Some(Variant(name, Some(x)))) =>
          (match LastNamed(f.subfields, name)
           case None => None
           case Some(i) => Written(f.subfields[i], Opt(Some(x))))
        case _ => None
      else None
  }

  /** The fields of a record in the order in which the record lists them. */
  function FieldsWritten(f: Field, fields: seq<NamedVal>): Option<seq<byte>>
    decreases f, 0, |fields|
  {
    if fields == [] then Some([])
    else
      match LastNamed(f.subfields, fields[0].name)
      case None => None
      case Some(i) =>
        var head, tail := Written(f.subfields[i], fields[0].value), FieldsWritten(f, fields[1..]);
        if head.None? || tail.None? then None else Some(head.value + tail.value)
  }

  function Body(f: Field, fields: seq<NamedVal>): Option<Token>
    decreases f, 1, 0
  {
    match FieldsWritten(f, fields)
    case None => None
    case Some(bytes) => Some(Chunk(bytes))
  }

  function EachWritten(f: Field, items: seq<Val>): Option<seq<byte>>
    decreases f, 2, |items|
  {
    if items == [] then Some([])
    else if !items[0].Record? then None
    else
      var head, tail := One(f.number, Body(f, items[0].fields)), EachWritten(f, items[1..]);
      if head.None? || tail.None? then None else Some(head.value + tail.value)
  }

  /**
    * The schemas there are encoders for. Fields of a oneof are scalars of presence 2, enumerations of
    * presence 2, or single messages.
    */
  predicate Encodable(f: Field, inOneof: bool)
    decreases f
  {
    match f.coding
    case NoCoding => false
    case ScalarCoding(code) => 0 <= code <= 63 && code !in {1, 5, 9} && (inOneof ==> code % 4 == 2)
    case CompoundCoding(code) =>
      if code == 2 then true
      else if code in {0, 1, 3} then !inOneof
      else if code == 6 then forall i | 0 <= i < |f.subfields| :: Encodable(f.subfields[i], false)
      else if code == 7 then !inOneof && forall i | 0 <= i < |f.subfields| :: Encodable(f.subfields[i], false)
      else if code == 8 then !inOneof && forall i | 0 <= i < |f.subfields| :: Encodable(f.subfields[i], true)
      else false
  }

  // ---------------------------------------------------------------------------------------
  // Reading
  // ---------------------------------------------------------------------------------------

  function TwosComplement32(n: u32): i32 {
    if n >= 0x8000_0000 then n - 0x1_0000_0000 else n
  }

  function TwosComplement64(n: u64): i64 {
    if n >= 0x8000_0000_0000_0000 then n - 0x1_0000_0000_0000_0000 else n
  }

  /** The integer that zigzags to an even or an odd number: half of it, or half of its successor below zero. */
  function Unfold(n: int): int {
    if n % 2 == 0 then n / 2 else -((n + 1) / 2)
  }

  function U8s(bytes: seq<byte>): (r: seq<Val>)
    ensures |r| == |bytes| && forall i | 0 <= i < |r| :: r[i] == U8(bytes[i])
  {
    seq(|bytes|, i requires 0 <= i < |bytes| => U8(bytes[i]))
  }

  /** What the scalar coding reads a token as. The sint64 of a word from 2^63 on is unfolded as negative. */
  function ScalarValue(code: i32, t: Token): Result<Val, DecodeError>
    requires 0 <= code <= 63
  {
    if code <= 11 then
      if !t.Chunk? then Err(WireTypeNonLengthDelimited)
      else if code <= 3 then Ok(List(U8s(t.bytes)))
      else if code <= 7 && !ValidUtf8(t.bytes) then Err(InvalidUtf8)
      else Ok(String(t.bytes))
    else if code <= 15 then
      if !t.Num? then Err(WireTypeNonVarint) else if t.n <= 1 then Ok(Bool(t.n == 1)) else Err(InvalidBool)
    else if code <= 19 then
      if !t.Num? then Err(WireTypeNonVarint)
      else if t.n < 0x8000_0000 then Ok(S32(t.n)) else Err(Overflow32Bit)
    else if code <= 23 then
      if !t.Num? then Err(WireTypeNonVarint)
      else if t.n < 0x1_0000_0000 then Ok(S32(Unfold(t.n))) else Err(Overflow32Bit)
    else if code <= 27 then if t.Four? then Ok(S32(TwosComplement32(t.word))) else Err(WireTypeNon32Bit)
    else if code <= 31 then
      if !t.Num? then Err(WireTypeNonVarint)
      else if t.n < 0x1_0000_0000 then Ok(U32(t.n)) else Err(Overflow32Bit)
    else if code <= 35 then if t.Four? then Ok(U32(t.word)) else Err(WireTypeNon32Bit)
    else if code <= 39 then if t.Num? then Ok(S64(TwosComplement64(t.n))) else Err(WireTypeNonVarint)
    else if code <= 43 then if t.Num? then Ok(S64(Unfold(TwosComplement64(t.n)))) else Err(WireTypeNonVarint)
    else if code <= 47 then if t.Eight? then Ok(S64(TwosComplement64(t.long))) else Err(WireTypeNon64Bit)
    else if code <= 51 then if t.Num? then Ok(U64(t.n)) else Err(WireTypeNonVarint)
    else if code <= 55 then if t.Eight? then Ok(U64(t.long)) else Err(WireTypeNon64Bit)
    else if code <= 59 then if t.Four? then Ok(Float32(t.word)) else Err(WireTypeNon32Bit)
    else if t.Eight? then Ok(Float64(t.long)) else Err(WireTypeNon64Bit)
  }

  /** The enumerator of the number, else the one of number zero. */
  function EnumValue(enumerators: seq<Field>, t: Token): Result<Val, DecodeError> {
    if !t.Num? then Err(WireTypeNonVarint)
    else if t.n >= 0x1_0000_0000 then Err(Overflow32Bit)
    else if LastNumbered(enumerators, t.n).Some? then
      Ok(Enum(enumerators[LastNumbered(enumerators, t.n).value].name))
    else if LastNumbered(enumerators, 0).Some? then
      Ok(Enum(enumerators[LastNumbered(enumerators, 0).value].name))
    else Err(EnumNoDefault)
  }

  predicate Readable(leaf: Leaf) {
    leaf.ScalarLeaf? ==> 0 <= leaf.code <= 63
  }

  function LeafValue(leaf: Leaf, t: Token): Result<Val, DecodeError>
    requires Readable(leaf)
  {
    match leaf
    case ScalarLeaf(code) => ScalarValue(code, t)
    case EnumLeaf(enumerators) => EnumValue(enumerators, t)
  }

  function LeafValues(leaf: Leaf, ts: seq<Token>): (r: Result<seq<Val>, DecodeError>)
    requires Readable(leaf)
    ensures r.Ok? ==> |r.value| == |ts|
  {
    if ts == [] then Ok([])
    else
      var head :- LeafValue(leaf, ts[0]);
      var tail :- LeafValues(leaf, ts[1..]);
      Ok([head] + tail)
  }

  /** Items of its kind may come packed. */
  predicate Packs(leaf: Leaf) {
    leaf.EnumLeaf? || leaf.code >= 12
  }

  /**
    * What the field holds after a record, by presence: the value, an option of it, or one item more.
    */
  function LeafRead(presence: nat, leaf: Leaf, before: Val, t: Token): Result<Val, DecodeError>
    requires Readable(leaf)
  {
    if presence == 0 then LeafValue(leaf, t)
    else
      var v :- LeafValue(leaf, t);
      if presence == 2 then Ok(Opt(Some(v)))
      else if before.List? then Ok(List(before.items + [v]))
      else Err(RepeatedNonList)
  }

  /** What a scalar that is left out is read as. */
  function ZeroOf(code: i32): Val {
    if code <= 3 then List([])
    else if code <= 11 then String([])
    else if code <= 15 then Bool(false)
    else if code <= 27 then S32(0)
    else if code <= 35 then U32(0)
    else if code <= 47 then S64(0)
    else if code <= 55 then U64(0)
    else if code <= 59 then Float32(0)
    else Float64(0)
  }

  /** What a field is read as when no record of it comes. */
  function Absent(f: Field): Val {
    match f.coding
    case NoCoding => Opt(None)
    case ScalarCoding(code) =>
      if code < 0 || code % 4 == 2 then Opt(None) else if code % 4 == 0 then ZeroOf(code) else List([])
    case CompoundCoding(code) =>
      if code == 0 && LastNumbered(f.subfields, 0).Some? then
        Enum(f.subfields[LastNumbered(f.subfields, 0).value].name)
      else if code in {1, 3, 7} then List([])
      else Opt(None)
  }

  /** Where in a record a number is read: at the index of its field, or of the oneof it is a variant of. */
  datatype Place = Place(index: nat, variant: Option<nat>)

  /** The last field that has the number, itself or as a oneof. */
  function PlaceOf(fields: seq<Field>, number: u32): (r: Option<Place>)
    ensures r.Some? ==> r.value.index < |fields|
    ensures r.Some? && r.value.variant.Some? ==>
      && r.value.variant.value < |fields[r.value.index].subfields|
      && fields[r.value.index].coding == CompoundCoding(8)
    ensures r.Some? && r.value.variant.None? ==> fields[r.value.index].coding != CompoundCoding(8)
  {
    if fields == [] then None
    else
      var n := |fields| - 1;
      var f := fields[n];
      if f.coding == CompoundCoding(8) && LastNumbered(f.subfields, number).Some? then
        Some(Place(n, LastNumbered(f.subfields, number)))
      else if f.coding != CompoundCoding(8) && f.number == number then Some(Place(n, None))
      else PlaceOf(fields[..n], number)
  }

  /** A scalar or an enumeration. */
  predicate IsLeaf(f: Field) {
    match f.coding
    case NoCoding => false
    case ScalarCoding(code) => 0 <= code <= 63 && code !in {1, 5, 9}
    case CompoundCoding(code) => 0 <= code <= 3
  }

  function LeafOf(f: Field): (r: Leaf)
    requires !f.coding.NoCoding?
    ensures IsLeaf(f) ==> Readable(r)
  {
    if f.coding.ScalarCoding? then ScalarLeaf(f.coding.code) else EnumLeaf(f.subfields)
  }

  function PresenceOf(f: Field): nat
    requires IsLeaf(f)
  {
    f.coding.code % 4
  }

  /** What the field of a place holds after a record of a scalar or an enumeration. */
  function PlaceRead(fields: seq<Field>, place: Place, before: Val, t: Token): Result<Val, DecodeError>
    requires place.index < |fields|
    requires place.variant.Some? ==> place.variant.value < |fields[place.index].subfields|
    requires IsLeaf(At(fields, place))
  {
    var f := At(fields, place);
    if place.variant.None? then LeafRead(PresenceOf(f), LeafOf(f), before, t)
    else
      var v :- LeafValue(LeafOf(f), t);
      Ok(Opt(Some(Variant(f.name, Some(v)))))
  }

  /** The field of a place, or the variant. */
  function At(fields: seq<Field>, place: Place): Field
    requires place.index < |fields|
    requires place.variant.Some? ==> place.variant.value < |fields[place.index].subfields|
  {
    if place.variant.None? then fields[place.index] else fields[place.index].subfields[place.variant.value]
  }

  /**
    * The schemas there are decoders for: an enumeration of presence 0 has a zero, and a oneof stands in
    * a message and has scalars and enumerations of presence 2 and single messages for variants.
    */
  predicate Decodable(f: Field)
    decreases f, 1
  {
    match f.coding
    case NoCoding => false
    case ScalarCoding(code) => 0 <= code <= 63 && code !in {1, 5, 9}
    case CompoundCoding(code) =>
      if code == 0 then LastNumbered(f.subfields, 0).Some?
      else if code in {1, 2, 3} then true
      else if code == 8 then forall j | 0 <= j < |f.subfields| :: DecodableVariant(f.subfields[j])
      else code in {6, 7} && AllDecodable(f)
  }

  predicate DecodableVariant(f: Field)
    decreases f, 1
  {
    match f.coding
    case NoCoding => false
    case ScalarCoding(code) => 0 <= code <= 63 && code % 4 == 2
    case CompoundCoding(code) => code == 2 || (code == 6 && AllDecodable(f))
  }

  predicate AllDecodable(f: Field)
    decreases f, 0
  {
    forall i | 0 <= i < |f.subfields| :: Decodable(f.subfields[i])
  }
}
