/**
  * The primitive reads of the decoder (`runtime/decode/lib.rs`). A cursor is the unread rest of
  * the buffer together with the byte budget `limit` of the message being read. The budget is
  * charged the *minimal* length of each varint, whatever its length in the buffer.
  */
module Reading {
  import opened Prelude
  import opened Wire

  datatype DecodeError =
    | BufferUnderflow
    | BufferOverflow
    | InvalidTagVarint
    | InvalidLengthVarint
    | InvalidVarint
    | InvalidFieldNumber
    | InvalidWireType
    | WireTypeNonVarint
    | WireTypeNonLengthDelimited
    | WireTypeNon32Bit
    | WireTypeNon64Bit
    | Overflow32Bit
    | InvalidUtf8
    | InvalidBool
    | EnumNoDefault
    | NonExplicitOneofVariant
    | MessageNonRecord
    | FieldIndexOutOfBounds
    | RepeatedNonList
    | RequestTooBig
    // The buffer has fewer bytes left than are read: the buffer type panics.
    | ReadPastEnd
    // Only reported by a strict reader, which insists on minimal varints.
    | NonMinimalVarint

  datatype Cursor = Cursor(limit: nat, rest: seq<byte>) {
    /** The invariant of a read that stays inside the buffer. */
    predicate Covered() {
      limit <= |rest|
    }
  }

  type Read<T> = Result<(T, Cursor), DecodeError>

  /**
    * `strict` asks for minimal varints. The decoder itself is not strict; the strict reader is
    * the yardstick for what it does on buffers whose varints are all minimal.
    */
  function ReadVarint(strict: bool, c: Cursor, error: DecodeError): (r: Read<nat>)
    ensures r.Ok? ==> r.value.0 < 0x1_0000_0000_0000_0000
    ensures r.Ok? ==> r.value.1.limit < c.limit
  {
    match DecodeVarint(c.rest)
    case None => Err(error)
    case Some(v) =>
      if strict && v.used != VarintLength(v.value) then Err(NonMinimalVarint)
      else if VarintLength(v.value) > c.limit then Err(BufferOverflow)
      else Ok((v.value, Cursor(c.limit - VarintLength(v.value), c.rest[v.used..])))
  }

  function ReadTag(strict: bool, c: Cursor): (r: Read<(nat, WireType)>)
    ensures r.Ok? ==> r.value.0.0 <= U32_MAX
    ensures r.Ok? ==> r.value.1.limit < c.limit
  {
    var (tag, c1) :- ReadVarint(strict, c, InvalidTagVarint);
    if tag / 8 > U32_MAX then Err(InvalidFieldNumber)
    else if tag % 8 >= 6 then Err(InvalidWireType)
    else Ok(((tag / 8, WireTypeOf(tag % 8)), c1))
  }

  /** Reads a length and takes it off the budget, without yet reading the bytes it covers. */
  function ReadLength(strict: bool, c: Cursor): (r: Read<nat>)
    ensures r.Ok? ==> r.value.0 <= U32_MAX
    ensures r.Ok? ==> r.value.1.limit + r.value.0 < c.limit
  {
    var (length, c1) :- ReadVarint(strict, c, InvalidLengthVarint);
    if length > U32_MAX then Err(InvalidLengthVarint)
    else if length > c1.limit then Err(BufferOverflow)
    else Ok((length, Cursor(c1.limit - length, c1.rest)))
  }

  /** The next `count` bytes, which the buffer must have. */
  function Take(c: Cursor, count: nat): (r: Read<seq<byte>>) {
    if count > |c.rest| then Err(ReadPastEnd)
    else Ok((c.rest[..count], Cursor(c.limit, c.rest[count..])))
  }

  /** Reads a fixed-width integer, charging the budget first. */
  function ReadFixed(c: Cursor, width: nat, error: DecodeError): (r: Read<nat>)
    ensures r.Ok? ==> r.value.1.limit + width == c.limit
    ensures r.Ok? ==> r.value.0 < Pow256(width)
  {
    if c.limit < width then Err(error)
    else
      var (bytes, c1) :- Take(c, width);
      Ok((FromLittleEndian(bytes), Cursor(c1.limit - width, c1.rest)))
  }

  /** Skips a field of unknown number. Groups have no payload of their own. */
  function Skip(strict: bool, wireType: WireType, c: Cursor): (r: Read<()>)
    ensures r.Ok? ==> r.value.1.limit <= c.limit
  {
    match wireType
    case VarintType =>
      var (_, c1) :- ReadVarint(strict, c, InvalidVarint);
      Ok(((), c1))
    case SixtyFourBit =>
      var (_, c1) :- ReadFixed(c, 8, BufferOverflow);
      Ok(((), c1))
    case LengthDelimited =>
      var (length, c1) :- ReadLength(strict, c);
      var (_, c2) :- Take(c1, length);
      Ok(((), c2))
    case ThirtyTwoBit =>
      var (_, c1) :- ReadFixed(c, 4, BufferOverflow);
      Ok(((), c1))
    case StartGroup => Ok(((), c))
    case EndGroup => Ok(((), c))
  }
}
