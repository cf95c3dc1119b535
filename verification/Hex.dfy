/**
  * The hexadecimal codec of names, lower nibble first: sixteen bytes at a time where there are
  * sixteen, byte by byte for the rest.
  */
module Hex {
  import opened Prelude
  import opened Values

  datatype HexError = OddLength | InvalidCharacter | InvalidUtf8

  // ---------------------------------------------------------------------------------------
  // One nibble, one byte at a time
  // ---------------------------------------------------------------------------------------

  type nibble = n: int | 0 <= n < 16

  const HEX_CHARS: string := "0123456789abcdef"

  predicate IsHex(c: char) { '0' <= c <= '9' || 'a' <= c <= 'f' }

  function Digit(n: nibble): (c: char)
    ensures IsHex(c) && NibbleOf(c) == n
  {
    HEX_CHARS[n]
  }

  function NibbleOf(c: char): nibble
    requires IsHex(c)
  {
    if c <= '9' then c as int - '0' as int else c as int - ('a' as int - 10)
  }

  lemma DigitOfNibble(c: char)
    requires IsHex(c)
    ensures Digit(NibbleOf(c)) == c
  {
  }

  /** The byte of two digits. */
  function Pair(c: char, d: char): byte
    requires IsHex(c) && IsHex(d)
  {
    NibbleOf(c) + NibbleOf(d) * 16
  }

  lemma PairDigits(b: byte)
    ensures Pair(Digit(b % 16), Digit(b / 16)) == b
  {
  }

  lemma DigitsOfPair(c: char, d: char)
    requires IsHex(c) && IsHex(d)
    ensures Digit(Pair(c, d) % 16) == c && Digit(Pair(c, d) / 16) == d
  {
    assert Pair(c, d) % 16 == NibbleOf(c) && Pair(c, d) / 16 == NibbleOf(d);
    DigitOfNibble(c);
    DigitOfNibble(d);
  }

  function Encode(bytes: seq<byte>): (r: string)
    ensures |r| == 2 * |bytes|
  {
    if bytes == [] then []
    else [Digit(bytes[0] % 16), Digit(bytes[0] / 16)] + Encode(bytes[1..])
  }

  /** The bytes of a string of hexadecimal digits, two by two, if it is one. */
  function Decode(hex: string): (r: Option<seq<byte>>)
    ensures r.Some? ==> |hex| == 2 * |r.value|
  {
    if hex == [] then Some([])
    else if |hex| == 1 || !IsHex(hex[0]) || !IsHex(hex[1]) then None
    else
      match Decode(hex[2..])
      case None => None
      case Some(rest) => Some([Pair(hex[0], hex[1])] + rest)
  }

  /** A string is accepted exactly when its length is even and all its characters are digits. */
  lemma {:induction false} DecodeAccepts(hex: string)
    ensures Decode(hex).Some? <==> |hex| % 2 == 0 && forall i | 0 <= i < |hex| :: IsHex(hex[i])
  {
    if |hex| > 1 {
      DecodeAccepts(hex[2..]);
      assert hex == [hex[0], hex[1]] + hex[2..];
    }
  }

  lemma {:induction false} DecodeEncode(bytes: seq<byte>)
    ensures Decode(Encode(bytes)) == Some(bytes)
  {
    if bytes != [] {
      var b, hex := bytes[0], Encode(bytes);
      DecodeEncode(bytes[1..]);
      PairDigits(b);
      hide NibbleOf, IsHex, Pair;
      assert hex[0] == Digit(b % 16) && hex[1] == Digit(b / 16) && hex[2..] == Encode(bytes[1..]);
      assert Decode(hex).value == [b] + bytes[1..] == bytes;
    }
  }

  lemma {:induction false} EncodeDecode(hex: string)
    requires Decode(hex).Some?
    ensures Encode(Decode(hex).value) == hex
  {
    if hex != [] {
      EncodeDecode(hex[2..]);
      DigitsOfPair(hex[0], hex[1]);
      hide NibbleOf, Digit, IsHex, Pair;
      assert Decode(hex).value == [Pair(hex[0], hex[1])] + Decode(hex[2..]).value;
      assert hex == [hex[0], hex[1]] + hex[2..];
    }
  }

  lemma {:induction false} EncodeConcat(a: seq<byte>, b: seq<byte>)
    ensures Encode(a + b) == Encode(a) + Encode(b)
  {
    hide Digit, IsHex;
    if a == [] {
      assert a + b == b;
    } else {
      EncodeConcat(a[1..], b);
      assert (a + b)[1..] == a[1..] + b;
      assert (a + b)[0] == a[0];
    }
  }

  lemma {:induction false} DecodeConcat(a: string, b: string)
    requires |a| % 2 == 0
    ensures Decode(a + b).Some? <==> Decode(a).Some? && Decode(b).Some?
    ensures Decode(a + b).Some? ==> Decode(a + b).value == Decode(a).value + Decode(b).value
  {
    hide Pair, IsHex, NibbleOf;
    if a == [] {
      assert a + b == b;
    } else {
      DecodeConcat(a[2..], b);
      assert (a + b)[2..] == a[2..] + b && (a + b)[0] == a[0] && (a + b)[1] == a[1];
    }
  }

  // ---------------------------------------------------------------------------------------
  // Sixteen bytes at a time
  // ---------------------------------------------------------------------------------------

  /** Lanes picked from two vectors, the lanes of the second after those of the first. */
  function Swizzle(a: seq<int>, b: seq<int>, lanes: seq<nat>): (r: seq<int>)
    requires forall i | 0 <= i < |lanes| :: lanes[i] < |a| + |b|
    ensures |r| == |lanes| && forall i | 0 <= i < |r| :: r[i] == (a + b)[lanes[i]]
  {
    seq(|lanes|, i requires 0 <= i < |lanes| => (a + b)[lanes[i]])
  }

  const INTERLEAVE: seq<nat> :=
    [0, 16, 1, 17, 2, 18, 3, 19, 4, 20, 5, 21, 6, 22, 7, 23,
     8, 24, 9, 25, 10, 26, 11, 27, 12, 28, 13, 29, 14, 30, 15, 31]
  const EVENS: seq<nat> := [0, 2, 4, 6, 8, 10, 12, 14, 16, 18, 20, 22, 24, 26, 28, 30]
  const ODDS: seq<nat> := [1, 3, 5, 7, 9, 11, 13, 15, 17, 19, 21, 23, 25, 27, 29, 31]

  lemma Lanes()
    ensures |INTERLEAVE| == 32 && |EVENS| == 16 && |ODDS| == 16
    ensures forall i | 0 <= i < 32 :: INTERLEAVE[i] == if i % 2 == 0 then i / 2 else 16 + i / 2
    ensures forall i | 0 <= i < 16 :: EVENS[i] == 2 * i && ODDS[i] == 2 * i + 1
  {
  }

  function Hexify(bytes: seq<byte>): (r: string)
    requires |bytes| == 16
  {
    var lower := seq(16, i requires 0 <= i < 16 => bytes[i] % 16);
    var upper := seq(16, i requires 0 <= i < 16 => bytes[i] / 16);
    Lanes();
    var nibbles := Swizzle(lower, upper, INTERLEAVE);
    seq(32, i requires 0 <= i < 32 =>
      assert nibbles[i] == (lower + upper)[INTERLEAVE[i]];
      (nibbles[i] + if nibbles[i] > 9 then 'a' as int - 10 else '0' as int) as char)
  }

  function Unhexify(hex: string): Option<seq<byte>>
    requires |hex| == 32
  {
    if exists i | 0 <= i < 32 :: hex[i] < '0' || hex[i] > 'f' || (hex[i] > '9' && hex[i] < 'a') then None
    else
      var nibbles := seq(32, i requires 0 <= i < 32 =>
        hex[i] as int - if hex[i] > '9' then 'a' as int - 10 else '0' as int);
      Lanes();
      var lower := Swizzle(nibbles, [], EVENS);
      var upper := Swizzle(nibbles, [], ODDS);
      Some(seq(16, i requires 0 <= i < 16 =>
        assert lower[i] == nibbles[2 * i] && upper[i] == nibbles[2 * i + 1];
        lower[i] + upper[i] * 16))
  }

  /** The vector of sixteen bytes is encoded as the bytes are one by one. */
  lemma HexifyIsEncode(bytes: seq<byte>)
    requires |bytes| == 16
    ensures Hexify(bytes) == Encode(bytes)
  {
    forall i | 0 <= i < 32 ensures Hexify(bytes)[i] == Encode(bytes)[i] {
      HexifyAt(bytes, i);
      EncodeAt(bytes, i);
    }
  }

  lemma HexifyAt(bytes: seq<byte>, i: nat)
    requires |bytes| == 16 && i < 32
    ensures Hexify(bytes)[i] == Digit(if i % 2 == 0 then bytes[i / 2] % 16 else bytes[i / 2] / 16)
  {
    Lanes();
  }

  lemma {:induction false} EncodeAt(bytes: seq<byte>, i: nat)
    requires i < 2 * |bytes|
    ensures Encode(bytes)[i] == Digit(if i % 2 == 0 then bytes[i / 2] % 16 else bytes[i / 2] / 16)
  {
    hide Digit, IsHex;
    if i >= 2 { EncodeAt(bytes[1..], i - 2); }
  }

  /** Thirty-two digits are decoded as the pairs are one by one, and refused when one of them is. */
  lemma UnhexifyIsDecode(hex: string)
    requires |hex| == 32
    ensures Unhexify(hex) == Decode(hex)
  {
    UnhexifyAccepts(hex);
    DecodeAccepts(hex);
    hide Unhexify, Decode, NibbleOf, Pair;
    if Unhexify(hex).Some? {
      forall k | 0 <= k < 16 ensures Unhexify(hex).value[k] == Decode(hex).value[k] {
        UnhexifyAt(hex, k);
        DecodeAt(hex, k);
      }
      assert Unhexify(hex).value == Decode(hex).value;
    }
  }

  lemma UnhexifyAccepts(hex: string)
    requires |hex| == 32
    ensures Unhexify(hex).Some? <==> forall i | 0 <= i < 32 :: IsHex(hex[i])
    ensures Unhexify(hex).Some? ==> |Unhexify(hex).value| == 16
  {
  }

  lemma UnhexifyAt(hex: string, k: nat)
    requires |hex| == 32 && k < 16 && Unhexify(hex).Some?
    ensures IsHex(hex[2 * k]) && IsHex(hex[2 * k + 1])
    ensures Unhexify(hex).value[k] == Pair(hex[2 * k], hex[2 * k + 1])
  {
    Lanes();
  }

  lemma {:induction false} DecodeAt(hex: string, k: nat)
    requires Decode(hex).Some? && 2 * k < |hex|
    ensures IsHex(hex[2 * k]) && IsHex(hex[2 * k + 1])
    ensures Decode(hex).value[k] == Pair(hex[2 * k], hex[2 * k + 1])
  {
    if k > 0 {
      DecodeAt(hex[2..], k - 1);
      assert hex[2..][2 * (k - 1)] == hex[2 * k];
    }
  }

  // ---------------------------------------------------------------------------------------
  // Strings of any length
  // ---------------------------------------------------------------------------------------

  lemma EncodeEmpty()
    ensures Encode([]) == []
  {
  }

  lemma EncodeOne(b: byte)
    ensures Encode([b]) == [HEX_CHARS[b % 16]] + [HEX_CHARS[b / 16]]
  {
    assert [b][1..] == [];
  }

  method HexifyString(bytes: seq<byte>) returns (output: string)
    ensures output == Encode(bytes)
  {
    output := [];
    var i: nat := 0;
    hide Encode, Hexify;
    assert Encode([]) == [] && bytes[..0] == [] by { EncodeEmpty(); }
    while i + 16 <= |bytes|
      invariant i <= |bytes| && output == Encode(bytes[..i])
    {
      HexifyIsEncode(bytes[i..i + 16]);
      EncodeConcat(bytes[..i], bytes[i..i + 16]);
      assert bytes[..i] + bytes[i..i + 16] == bytes[..i + 16];
      output := output + Hexify(bytes[i..i + 16]);
      i := i + 16;
    }
    while i < |bytes|
      invariant i <= |bytes| && output == Encode(bytes[..i])
    {
      EncodeConcat(bytes[..i], [bytes[i]]);
      assert bytes[..i] + [bytes[i]] == bytes[..i + 1];
      EncodeOne(bytes[i]);
      output := output + [HEX_CHARS[bytes[i] % 16]];
      output := output + [HEX_CHARS[bytes[i] / 16]];
      i := i + 1;
    }
    assert bytes[..|bytes|] == bytes;
  }

  /** What decoding a string of digits comes to. */
  function Decoded(hex: string): Result<seq<byte>, HexError> {
    if |hex| % 2 != 0 then Err(OddLength)
    else
      match Decode(hex)
      case None => Err(InvalidCharacter)
      case Some(bytes) => if ValidUtf8(bytes) then Ok(bytes) else Err(InvalidUtf8)
  }

  method UnhexifyString(hex: string) returns (r: Result<seq<byte>, HexError>)
    ensures r == Decoded(hex)
  {
    if |hex| % 2 != 0 {
      return Err(OddLength);
    }
    var output: seq<byte> := [];
    var i: nat := 0;
    assert hex[..0] == [] && Decode([]) == Some([]);
    hide Unhexify, Decode, Pair, IsHex;
    while i + 32 <= |hex|
      invariant i <= |hex| && i % 2 == 0 && Decode(hex[..i]).Some? && Decode(hex[..i]).value == output
    {
      UnhexifyIsDecode(hex[i..i + 32]);
      ExtendAt(hex, i, i + 32);
      var chunk := Unhexify(hex[i..i + 32]);
      if chunk.None? {
        return Err(InvalidCharacter);
      }
      output := output + chunk.value;
      i := i + 32;
    }
    while i < |hex|
      invariant i <= |hex| && i % 2 == 0 && Decode(hex[..i]).Some? && Decode(hex[..i]).value == output
    {
      ExtendAt(hex, i, i + 2);
      DecodePair(hex[i], hex[i + 1]);
      assert hex[i..i + 2] == [hex[i], hex[i + 1]];
      if !IsHex(hex[i]) || !IsHex(hex[i + 1]) {
        return Err(InvalidCharacter);
      }
      output := output + [Pair(hex[i], hex[i + 1])];
      i := i + 2;
    }
    assert hex[..|hex|] == hex;
    r := if ValidUtf8(output) then Ok(output) else Err(InvalidUtf8);
  }

  lemma DecodePair(c: char, d: char)
    ensures Decode([c, d]).Some? <==> IsHex(c) && IsHex(d)
    ensures IsHex(c) && IsHex(d) ==> Decode([c, d]).value == [Pair(c, d)]
  {
    assert [c, d][2..] == [] && Decode([]) == Some([]);
    if IsHex(c) && IsHex(d) { assert Decode([c, d]).value == [Pair(c, d)] + []; }
  }

  lemma ExtendAt(hex: string, i: nat, j: nat)
    requires i % 2 == 0 && j % 2 == 0 && i <= j <= |hex| && Decode(hex[..i]).Some?
    ensures Decode(hex[i..j]).Some? ==>
              Decode(hex[..j]).Some? && Decode(hex[..j]).value == Decode(hex[..i]).value + Decode(hex[i..j]).value
    ensures Decode(hex[i..j]).None? ==> Decode(hex).None?
  {
    assert hex[..i] + hex[i..j] == hex[..j] && hex[..j] + hex[j..] == hex;
    hide Decode;
    DecodeConcat(hex[..i], hex[i..j]);
    DecodeConcat(hex[..j], hex[j..]);
  }

  /** Every string comes back from its digits. */
  lemma StringTrip(bytes: seq<byte>)
    requires ValidUtf8(bytes)
    ensures Decoded(Encode(bytes)) == Ok(bytes)
  {
    DecodeEncode(bytes);
  }

  /** Digits that are accepted are the digits of what they are decoded to, and of nothing else. */
  lemma AcceptedTrip(hex: string, bytes: seq<byte>)
    ensures Decoded(hex) == Ok(bytes) <==> ValidUtf8(bytes) && Encode(bytes) == hex
  {
    DecodeEncode(bytes);
    if Decode(hex).Some? { EncodeDecode(hex); }
  }

  /** Each byte is written as two digits in lower case, the lower nibble first. */
  lemma {:induction false} NibblesInOrder(bytes: seq<byte>, i: nat)
    requires i < |bytes|
    ensures Encode(bytes)[2 * i] == "0123456789abcdef"[bytes[i] % 16]
    ensures Encode(bytes)[2 * i + 1] == "0123456789abcdef"[bytes[i] / 16]
  {
    if i > 0 { NibblesInOrder(bytes[1..], i - 1); }
  }

  /** What is refused: an odd number of characters, then one that is no digit, then bytes that are no text. */
  lemma RefusedExact(hex: string)
    ensures Decoded(hex) == Err(OddLength) <==> |hex| % 2 == 1
    ensures Decoded(hex) == Err(InvalidCharacter) <==>
      |hex| % 2 == 0 && exists c :: c in hex && c !in "0123456789abcdef"
    ensures Decoded(hex) == Err(InvalidUtf8) <==> exists bytes :: hex == Encode(bytes) && !ValidUtf8(bytes)
  {
    DecodeAccepts(hex);
    HexDigits(hex);
    forall bytes | hex == Encode(bytes) ensures Decode(hex) == Some(bytes) { DecodeEncode(bytes); }
    if Decode(hex).Some? { EncodeDecode(hex); }
    hide Decode, Encode, ValidUtf8;
  }

  lemma HexDigits(hex: string)
    ensures (forall i | 0 <= i < |hex| :: IsHex(hex[i])) <==> forall c <- hex :: c in "0123456789abcdef"
  {
    forall c: char ensures IsHex(c) <==> c in "0123456789abcdef" { OneOfSixteen(c); }
    hide IsHex;
  }

  lemma OneOfSixteen(c: char)
    ensures IsHex(c) <==> c in "0123456789abcdef"
  {
    if IsHex(c) {
      var n := NibbleOf(c);
      DigitOfNibble(c);
      assert "0123456789abcdef"[n] == c;
    }
  }
}
