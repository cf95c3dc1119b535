/**
  * The byte-level vocabulary of the Protocol Buffers wire format: base-128 varints, zigzag,
  * little-endian fixed-width integers, wire types and tags.
  */
module Wire {
  import opened Prelude

  // ---------------------------------------------------------------------------------------
  // Varints ("Base 128 Varints" in the Protocol Buffers encoding guide)
  // ---------------------------------------------------------------------------------------

  /** The minimal base-128 varint of `n`, least significant group first. */
  function EncodeVarint(n: nat): (r: seq<byte>)
    ensures |r| >= 1
  {
    if n < 128 then [n] else [n % 128 + 128] + EncodeVarint(n / 128)
  }

  /** The number of bytes of the minimal varint of `n`. */
  function VarintLength(n: nat): (r: nat)
    ensures r >= 1
  {
    if n < 128 then 1 else 1 + VarintLength(n / 128)
  }

  /** Exclusive bound on what groups `count`..9 of a ten-byte varint may contribute. */
  function VarintCap(count: nat): (r: nat)
    requires count <= 9
    decreases 9 - count
  {
    if count == 9 then 2 else 128 * VarintCap(count + 1)
  }

  datatype Varint = Varint(value: nat, used: nat)

  /** Decode the groups from number `count` on: at most ten groups, the tenth at most 1. */
  function DecodeGroups(src: seq<byte>, count: nat): (r: Option<Varint>)
    requires count <= 9
    ensures r.Some? ==> r.value.value < VarintCap(count)
    ensures r.Some? ==> 1 <= r.value.used <= |src|
    ensures r.Some? ==> VarintLength(r.value.value) <= r.value.used
    decreases 9 - count
  {
    if src == [] then
      None
    else if src[0] < 128 then
      if count == 9 && src[0] >= 2 then None else
      CapAtLeastTwo(count);
      Some(Varint(src[0], 1))
    else if count == 9 then
      None
    else
      match DecodeGroups(src[1..], count + 1)
      case None => None
      case Some(rest) =>
        var value := (src[0] - 128) + 128 * rest.value;
        VarintLengthStep(value, rest.value);
        Some(Varint(value, 1 + rest.used))
  }

  lemma CapAtLeastTwo(count: nat)
    requires count <= 9
    ensures VarintCap(count) >= 2
    ensures count < 9 ==> VarintCap(count) >= 128
    decreases 9 - count
  {
    if count < 9 { CapAtLeastTwo(count + 1); }
  }

  lemma VarintLengthStep(value: nat, rest: nat)
    requires 128 * rest <= value < 128 * rest + 128
    ensures VarintLength(value) <= 1 + VarintLength(rest)
  {
    if value >= 128 {
      assert value / 128 == rest;
    }
  }

  /** A 64-bit varint from the front of `src`; `None` if it is truncated or overflows. */
  function DecodeVarint(src: seq<byte>): (r: Option<Varint>)
    ensures r.Some? ==> r.value.value < 0x1_0000_0000_0000_0000
    ensures r.Some? ==> 1 <= r.value.used <= |src|
    ensures r.Some? ==> VarintLength(r.value.value) <= r.value.used
  {
    CapIsU64();
    DecodeGroups(src, 0)
  }

  lemma CapIsU64()
    ensures VarintCap(0) == 0x1_0000_0000_0000_0000
  {
    assert VarintCap(8) == 0x100;
    assert VarintCap(6) == 0x40_0000;
    assert VarintCap(4) == 0x10_0000_0000;
    assert VarintCap(2) == 0x4_0000_0000_0000;
  }

  lemma {:induction false} EncodeVarintLength(n: nat)
    ensures |EncodeVarint(n)| == VarintLength(n)
  {
    if n >= 128 { EncodeVarintLength(n / 128); }
  }

  lemma {:induction false} DecodeGroupsInverts(n: nat, count: nat, rest: seq<byte>)
    requires count <= 9
    requires n < VarintCap(count)
    ensures DecodeGroups(EncodeVarint(n) + rest, count) == Some(Varint(n, VarintLength(n)))
    decreases 9 - count
  {
    if n >= 128 {
      assert (EncodeVarint(n) + rest)[1..] == EncodeVarint(n / 128) + rest;
      DecodeGroupsInverts(n / 128, count + 1, rest);
    }
  }

  /** Decoding the minimal varint of any 64-bit value gives it back and stops right behind it. */
  lemma VarintRoundTrip(n: u64, rest: seq<byte>)
    ensures DecodeVarint(EncodeVarint(n) + rest) == Some(Varint(n, VarintLength(n)))
    ensures |EncodeVarint(n)| == VarintLength(n)
    ensures (EncodeVarint(n) + rest)[VarintLength(n)..] == rest
  {
    CapIsU64();
    DecodeGroupsInverts(n, 0, rest);
    EncodeVarintLength(n);
  }

  /** Bytes behind a complete varint do not change what is decoded. */
  lemma {:induction false} DecodeGroupsExtend(src: seq<byte>, count: nat, rest: seq<byte>)
    requires count <= 9
    requires DecodeGroups(src, count).Some?
    ensures DecodeGroups(src + rest, count) == DecodeGroups(src, count)
    decreases 9 - count
  {
    if src[0] >= 128 && count < 9 {
      assert (src + rest)[1..] == src[1..] + rest;
      DecodeGroupsExtend(src[1..], count + 1, rest);
    }
  }

  // ---------------------------------------------------------------------------------------
  // Fixed-width little-endian integers
  // ---------------------------------------------------------------------------------------

  function Pow256(width: nat): (r: nat)
    ensures r >= 1
  {
    if width == 0 then 1 else 256 * Pow256(width - 1)
  }

  function LittleEndian(n: nat, width: nat): (r: seq<byte>)
    ensures |r| == width
    decreases width
  {
    if width == 0 then [] else [n % 256] + LittleEndian(n / 256, width - 1)
  }

  function FromLittleEndian(s: seq<byte>): (r: nat)
    ensures r < Pow256(|s|)
  {
    if s == [] then 0 else s[0] + 256 * FromLittleEndian(s[1..])
  }

  /** Reading back a fixed-width integer gives the integer that was written. */
  lemma {:induction false} LittleEndianRoundTrip(n: nat, width: nat)
    requires n < Pow256(width)
    ensures FromLittleEndian(LittleEndian(n, width)) == n
    decreases width
  {
    if width > 0 {
      assert LittleEndian(n, width)[1..] == LittleEndian(n / 256, width - 1);
      LittleEndianRoundTrip(n / 256, width - 1);
    }
  }

  lemma Pow256Values()
    ensures Pow256(4) == 0x1_0000_0000
    ensures Pow256(8) == 0x1_0000_0000_0000_0000
  {
    assert Pow256(2) == 0x1_0000;
    assert Pow256(6) == 0x1_0000_0000_0000;
  }

  // ---------------------------------------------------------------------------------------
  // Two's complement and zigzag ("Signed Integers")
  // ---------------------------------------------------------------------------------------

  /** `x as u32` */
  function AsU32(x: i32): u32 {
    if x < 0 then x + 0x1_0000_0000 else x
  }

  /** `x as i32` */
  function AsI32(x: u32): i32 {
    if x >= 0x8000_0000 then x - 0x1_0000_0000 else x
  }

  /** `x as u64`, sign-extending narrower integers */
  function AsU64(x: i64): u64 {
    if x < 0 then x + 0x1_0000_0000_0000_0000 else x
  }

  /** `x as i64` */
  function AsI64(x: u64): i64 {
    if x >= 0x8000_0000_0000_0000 then x - 0x1_0000_0000_0000_0000 else x
  }

  /**
    * `((x << 1) ^ (x >> 31)) as u32`: the right operand of the exclusive or is all zeros or all
    * ones, so it keeps or complements the shifted word.
    */
  function Zigzag32(x: i32): u32 {
    var shifted := if x < 0 then 2 * x + 0x1_0000_0000 else 2 * x;
    if x < 0 then 0xFFFF_FFFF - shifted else shifted
  }

  /** `((z >> 1) as i32) ^ -((z & 1) as i32)` on an unsigned word */
  function Unzigzag32(z: u32): i32 {
    if z % 2 == 0 then z / 2 else -(z / 2) - 1
  }

  /** `((x << 1) ^ (x >> 63)) as u64` */
  function Zigzag64(x: i64): u64 {
    var shifted := if x < 0 then 2 * x + 0x1_0000_0000_0000_0000 else 2 * x;
    if x < 0 then 0xFFFF_FFFF_FFFF_FFFF - shifted else shifted
  }

  /** `(s >> 1) ^ -(s & 1)` on the word reinterpreted as *signed*, so the shift is arithmetic */
  function Unzigzag64(z: u64): i64 {
    var s := AsI64(z);
    if s % 2 == 0 then s / 2 else -(s / 2) - 1
  }

  /** 32-bit zigzag is inverted on every value. */
  lemma Zigzag32RoundTrip(x: i32)
    ensures Unzigzag32(Zigzag32(x)) == x
  {
    assert Zigzag32(x) == if x < 0 then -2 * x - 1 else 2 * x;
  }

  predicate FitsSixtyThreeBits(x: i64) {
    -0x4000_0000_0000_0000 <= x < 0x4000_0000_0000_0000
  }

  /**
    * 64-bit zigzag is inverted exactly on [-2^62, 2^62): outside, the top bit of the zigzag
    * word is set and the arithmetic shift of the decoder drags it along.
    */
  lemma Zigzag64RoundTrip(x: i64)
    ensures Unzigzag64(Zigzag64(x)) == x <==> FitsSixtyThreeBits(x)
  {
    assert Zigzag64(x) == if x < 0 then -2 * x - 1 else 2 * x;
  }

  // ---------------------------------------------------------------------------------------
  // Tags
  // ---------------------------------------------------------------------------------------

  datatype WireType =
    | VarintType
    | SixtyFourBit
    | LengthDelimited
    | StartGroup
    | EndGroup
    | ThirtyTwoBit

  function WireCode(wireType: WireType): (r: nat)
    ensures r < 6
  {
    match wireType
    case VarintType => 0
    case SixtyFourBit => 1
    case LengthDelimited => 2
    case StartGroup => 3
    case EndGroup => 4
    case ThirtyTwoBit => 5
  }

  function WireTypeOf(code: nat): (r: WireType)
    requires code < 6
    ensures WireCode(r) == code
  {
    match code
    case 0 => VarintType
    case 1 => SixtyFourBit
    case 2 => LengthDelimited
    case 3 => StartGroup
    case 4 => EndGroup
    case 5 => ThirtyTwoBit
  }

  /** `(number << 3) | wire_type` */
  function Tag(number: u32, wireType: WireType): (r: u64)
    ensures r / 8 == number && r % 8 == WireCode(wireType)
  {
    number * 8 + WireCode(wireType)
  }
}
