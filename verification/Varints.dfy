/** What a varint is, without reading it group by group: seven bits to a byte, the last one below 128. */
module Varints {
  import opened Prelude
  import opened Wire
  import opened Reading

  /** The bytes but the last have the top bit. */
  predicate Groups(s: seq<byte>) {
    && s != []
    && (forall i | 0 <= i < |s| - 1 :: s[i] >= 128)
    && s[|s| - 1] < 128
  }

  /** The number whose seven-bit digits the bytes hold, least significant first. */
  function GroupsValue(s: seq<byte>): nat {
    if s == [] then 0 else s[0] % 128 + 128 * GroupsValue(s[1..])
  }

  lemma GroupsStep(s: seq<byte>)
    requires |s| > 1
    ensures Groups(s) <==> s[0] >= 128 && Groups(s[1..])
    ensures s[1..][|s| - 2] == s[|s| - 1]
  {
    if s[0] >= 128 && Groups(s[1..]) {
      forall i | 0 <= i < |s| - 1 ensures s[i] >= 128 { assert i > 0 ==> s[i] == s[1..][i - 1]; }
    }
    if Groups(s) {
      forall i | 0 <= i < |s| - 2 ensures s[1..][i] >= 128 { assert s[1..][i] == s[i + 1]; }
    }
  }

  /** The varint that is written is the one of the number without a zero at its end. */
  lemma {:induction false} EncodeVarintExact(n: nat, s: seq<byte>)
    ensures s == EncodeVarint(n) <==> Groups(s) && GroupsValue(s) == n && (|s| > 1 ==> s[|s| - 1] != 0)
    decreases n + |s|
  {
    if |s| > 1 {
      GroupsStep(s);
      if n >= 128 { EncodeVarintExact(n / 128, s[1..]); }
      NotSmall(s);
    } else if n >= 128 {
      assert |EncodeVarint(n)| >= 2;
      assert |s| == 1 ==> s[1..] == [];
    } else {
      assert |s| == 1 ==> s[1..] == [] && s == [s[0]];
    }
    assert |s| > 1 && n >= 128 && s[0] >= 128 && GroupsValue(s) == n ==> s[0] == n % 128 + 128;
    assert |s| > 1 ==> s == [s[0]] + s[1..];
  }

  lemma {:induction false} NotSmall(s: seq<byte>)
    requires |s| > 1
    ensures Groups(s) && s[|s| - 1] != 0 ==> GroupsValue(s) >= 128
  {
    GroupsStep(s);
    if |s| > 2 { NotSmall(s[1..]); } else { assert s[1..][1..] == []; }
  }

  lemma {:induction false} DecodeGroupsExact(src: seq<byte>, count: nat, v: nat, k: nat)
    requires count <= 9
    ensures DecodeGroups(src, count) == Some(Varint(v, k)) <==>
      1 <= k <= 10 - count && k <= |src| && Groups(src[..k]) && GroupsValue(src[..k]) == v < VarintCap(count)
    decreases 9 - count
  {
    hide DecodeGroups, Groups, GroupsValue, VarintCap;
    if k == 1 && src != [] {
      OneGroup(src, count, v);
    } else if 1 < k <= |src| {
      assert src[1..][..k - 1] == src[1..k];
      if count < 9 { DecodeGroupsExact(src[1..], count + 1, v / 128, k - 1); }
      MoreGroups(src, count, v, k);
    }
  }

  lemma OneGroup(src: seq<byte>, count: nat, v: nat)
    requires count <= 9 && src != []
    ensures DecodeGroups(src, count) == Some(Varint(v, 1)) <==>
      Groups(src[..1]) && GroupsValue(src[..1]) == v < VarintCap(count)
  {
    CapAtLeastTwo(count);
    assert src[..1] == [src[0]] && src[..1][1..] == [];
    if src[0] >= 128 && DecodeGroups(src, count).Some? { assert DecodeGroups(src, count).value.used >= 2; }
  }

  lemma MoreGroups(src: seq<byte>, count: nat, v: nat, k: nat)
    requires count <= 9 && 1 < k <= |src|
    requires count < 9 ==>
      (DecodeGroups(src[1..], count + 1) == Some(Varint(v / 128, k - 1)) <==>
         k <= 10 - count && Groups(src[1..k]) && GroupsValue(src[1..k]) == v / 128 < VarintCap(count + 1))
    ensures DecodeGroups(src, count) == Some(Varint(v, k)) <==>
      k <= 10 - count && Groups(src[..k]) && GroupsValue(src[..k]) == v < VarintCap(count)
  {
    var s := src[..k];
    GroupsStep(s);
    assert s[0] == src[0] && s[1..] == src[1..k] && src[1..][..k - 1] == src[1..k];
    hide Groups;
    assert GroupsValue(s) == s[0] % 128 + 128 * GroupsValue(src[1..k]);
    hide GroupsValue;
    if count < 9 && src[0] >= 128 {
      var low, n := src[0] - 128, GroupsValue(src[1..k]);
      assert src[0] % 128 == low;
      LowGroup(low, n, v, VarintCap(count + 1));
      if DecodeGroups(src, count) == Some(Varint(v, k)) {
        var rest := DecodeGroups(src[1..], count + 1).value;
        assert v == low + 128 * rest.value && rest.used == k - 1;
        LowGroup(low, rest.value, v, VarintCap(count + 1));
      }
    }
  }

  lemma LowGroup(low: nat, n: nat, v: nat, cap: nat)
    requires low < 128
    ensures low + 128 * n == v <==> v % 128 == low && v / 128 == n
    ensures v < 128 * cap <==> v / 128 < cap
  {
  }

  /**
    * A varint is read exactly where there is one of at most ten bytes and 64 bits, and it is read as
    * the number it holds, with or without zeros at its end.
    */
  lemma DecodeVarintExact(src: seq<byte>, v: nat, k: nat)
    ensures DecodeVarint(src) == Some(Varint(v, k)) <==>
      1 <= k <= 10 && k <= |src| && Groups(src[..k]) && GroupsValue(src[..k]) == v < 0x1_0000_0000_0000_0000
  {
    CapIsU64();
    DecodeGroupsExact(src, 0, v, k);
  }

  /** The first k bytes are a varint of the number. */
  predicate VarintAt(src: seq<byte>, v: nat, k: nat) {
    1 <= k <= 10 && k <= |src| && Groups(src[..k]) && GroupsValue(src[..k]) == v < 0x1_0000_0000_0000_0000
  }

  /**
    * How the decoder reads a varint against its budget: it takes the bytes of the varint and is charged
    * those of the number's minimal one; without a varint it fails as it was told to, and with one that
    * the budget does not cover it overflows.
    */
  lemma ReadVarintExact(c: Cursor, error: DecodeError)
    requires error != BufferOverflow
    ensures ReadVarint(false, c, error) == Err(error) <==> forall v: nat, k: nat :: !VarintAt(c.rest, v, k)
    ensures ReadVarint(false, c, error) == Err(BufferOverflow) <==>
      exists v: nat, k: nat :: VarintAt(c.rest, v, k) && |EncodeVarint(v)| > c.limit
    ensures forall v: nat, k: nat | VarintAt(c.rest, v, k) && |EncodeVarint(v)| <= c.limit ::
      ReadVarint(false, c, error) == Ok((v, Cursor(c.limit - |EncodeVarint(v)|, c.rest[k..])))
  {
    forall v: nat, k: nat ensures VarintAt(c.rest, v, k) <==> DecodeVarint(c.rest) == Some(Varint(v, k)) {
      DecodeVarintExact(c.rest, v, k);
    }
    if DecodeVarint(c.rest).Some? {
      var Varint(v, k) := DecodeVarint(c.rest).value;
      assert VarintAt(c.rest, v, k);
      EncodeVarintLength(v);
    }
    hide DecodeVarint, EncodeVarint, VarintAt;
  }
}
