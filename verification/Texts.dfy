/** UTF-8 by what it encodes: sequences of Unicode scalar values (section 3 of RFC 3629). */
module Texts {
  import opened Prelude
  import opened Values

  /** A code point that is no surrogate. */
  type CodePoint = c: int | 0 <= c <= 0x10_FFFF && !(0xD800 <= c <= 0xDFFF)

  function Utf8(c: CodePoint): seq<byte> {
    if c < 0x80 then [c]
    else if c < 0x800 then [0xC0 + c / 0x40, 0x80 + c % 0x40]
    else if c < 0x1_0000 then [0xE0 + c / 0x1000, 0x80 + c / 0x40 % 0x40, 0x80 + c % 0x40]
    else [0xF0 + c / 0x4_0000, 0x80 + c / 0x1000 % 0x40, 0x80 + c / 0x40 % 0x40, 0x80 + c % 0x40]
  }

  function Text(cs: seq<CodePoint>): seq<byte> {
    if cs == [] then [] else Utf8(cs[0]) + Text(cs[1..])
  }

  /** How long the character at `i` is, if there is one. */
  function Step(s: seq<byte>, i: nat): (n: nat)
    requires i < |s|
    ensures i + n <= |s|
  {
    if s[i] <= 0x7F then 1
    else if i + 2 <= |s| && 0xC2 <= s[i] <= 0xDF && Tail(s[i + 1]) then 2
    else if i + 3 <= |s| && Utf8Three(s[i], s[i + 1]) && Tail(s[i + 2]) then 3
    else if i + 4 <= |s| && Utf8Four(s[i], s[i + 1]) && Tail(s[i + 2]) && Tail(s[i + 3]) then 4
    else 0
  }

  lemma ValidStep(s: seq<byte>, i: nat)
    requires i < |s|
    ensures ValidUtf8From(s, i) <==> Step(s, i) > 0 && ValidUtf8From(s, i + Step(s, i))
  {
  }

  lemma SixBits(high: nat, low: nat)
    requires low < 0x40
    ensures (high * 0x40 + low) / 0x40 == high && (high * 0x40 + low) % 0x40 == low
  {
  }

  lemma Sixths(c: nat)
    ensures c / 0x1000 == c / 0x40 / 0x40 && c / 0x4_0000 == c / 0x1000 / 0x40
  {
  }

  lemma TwoBytes(a: int, b: int) returns (c: CodePoint)
    requires 0xC2 <= a <= 0xDF && 0x80 <= b <= 0xBF
    ensures Utf8(c) == [a, b]
  {
    SixBits(a - 0xC0, b - 0x80);
    c := (a - 0xC0) * 0x40 + (b - 0x80);
  }

  lemma ThreeBytes(a: byte, b: byte, d: byte) returns (c: CodePoint)
    requires Utf8Three(a, b) && Tail(d)
    ensures Utf8(c) == [a, b, d]
  {
    var x: int, y: int, z: int := a, b, d;
    var high := (x - 0xE0) * 0x40 + (y - 0x80);
    SixBits(x - 0xE0, y - 0x80);
    SixBits(high, z - 0x80);
    c := high * 0x40 + (z - 0x80);
    Sixths(c);
  }

  lemma FourBytes(a: byte, b: byte, d: byte, e: byte) returns (c: CodePoint)
    requires Utf8Four(a, b) && Tail(d) && Tail(e)
    ensures Utf8(c) == [a, b, d, e]
  {
    var w: int, x: int, y: int, z: int := a, b, d, e;
    var top := (w - 0xF0) * 0x40 + (x - 0x80);
    var high := top * 0x40 + (y - 0x80);
    SixBits(w - 0xF0, x - 0x80);
    SixBits(top, y - 0x80);
    SixBits(high, z - 0x80);
    c := high * 0x40 + (z - 0x80);
    Sixths(c);
    assert c >= 0x1_0000;
  }

  /** The character at `i`. */
  lemma Character(s: seq<byte>, i: nat) returns (c: CodePoint)
    requires i < |s| && Step(s, i) > 0
    ensures s[i..i + Step(s, i)] == Utf8(c)
  {
    hide Utf8;
    var n := Step(s, i);
    if n == 1 {
      c := Ascii(s[i]);
    } else if n == 2 {
      c := TwoBytes(s[i], s[i + 1]);
    } else if n == 3 {
      c := ThreeBytes(s[i], s[i + 1], s[i + 2]);
    } else {
      c := FourBytes(s[i], s[i + 1], s[i + 2], s[i + 3]);
    }
  }

  lemma Ascii(a: byte) returns (c: CodePoint)
    requires a < 0x80
    ensures Utf8(c) == [a]
  {
    c := a;
  }

  /** What the bytes of a character look like. */
  lemma Shape(c: CodePoint)
    ensures 1 <= |Utf8(c)| <= 4
    ensures |Utf8(c)| == 1 ==> Utf8(c)[0] <= 0x7F
    ensures |Utf8(c)| == 2 ==> 0xC2 <= Utf8(c)[0] <= 0xDF && Tail(Utf8(c)[1])
    ensures |Utf8(c)| == 3 ==> Utf8Three(Utf8(c)[0], Utf8(c)[1]) && Tail(Utf8(c)[2])
    ensures |Utf8(c)| == 4 ==> Utf8Four(Utf8(c)[0], Utf8(c)[1]) && Tail(Utf8(c)[2]) && Tail(Utf8(c)[3])
  {
  }

  /** A character is where it was written. */
  lemma StepOf(before: seq<byte>, c: CodePoint, after: seq<byte>)
    ensures |Utf8(c)| > 0 && Step(before + Utf8(c) + after, |before|) == |Utf8(c)|
  {
    hide Utf8;
    Shape(c);
    var s := before + Utf8(c) + after;
    var i := |before|;
    assert forall k | 0 <= k < |Utf8(c)| :: s[i + k] == Utf8(c)[k];
  }

  lemma {:induction false} TextValid(before: seq<byte>, cs: seq<CodePoint>)
    ensures ValidUtf8From(before + Text(cs), |before|)
    decreases |cs|
  {
    var s := before + Text(cs);
    if cs != [] {
      hide Utf8, Step, ValidUtf8From;
      var head := Utf8(cs[0]);
      StepOf(before, cs[0], Text(cs[1..]));
      TextValid(before + head, cs[1..]);
      assert s == before + head + Text(cs[1..]);
      ValidStep(s, |before|);
    }
  }

  lemma {:induction false} ValidText(s: seq<byte>, i: nat) returns (cs: seq<CodePoint>)
    requires i <= |s| && ValidUtf8From(s, i)
    ensures Text(cs) == s[i..]
    decreases |s| - i
  {
    if i == |s| {
      cs := [];
    } else {
      ValidStep(s, i);
      hide Utf8, Step, ValidUtf8From;
      var c := Character(s, i);
      var rest := ValidText(s, i + Step(s, i));
      cs := [c] + rest;
      assert cs[1..] == rest;
      assert s[i..] == s[i..i + Step(s, i)] + s[i + Step(s, i)..];
    }
  }

  /** Bytes are valid UTF-8 if and only if they are the text of some scalar values. */
  lemma ValidUtf8Exact(s: seq<byte>)
    ensures ValidUtf8(s) <==> exists cs: seq<CodePoint> :: Text(cs) == s
  {
    if ValidUtf8(s) {
      var cs := ValidText(s, 0);
      assert s[0..] == s;
    }
    forall cs: seq<CodePoint> | Text(cs) == s ensures ValidUtf8(s) {
      TextValid([], cs);
      assert [] + Text(cs) == s;
    }
  }
}
