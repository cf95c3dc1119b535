/** Which versions and servers are accepted, written out: versions are made of decimal numbers. */
module Versions {
  import opened Prelude
  import opened Strings
  import opened Hex
  import opened Names
  import opened ComponentNames

  /** A number in decimal. */
  function Dec(n: nat): (s: string)
    ensures s != []
  {
    if n < 10 then ["0123456789"[n]] else Dec(n / 10) + ["0123456789"[n % 10]]
  }

  // ---------------------------------------------------------------------------------------
  // Decimal numbers
  // ---------------------------------------------------------------------------------------

  lemma Figure(n: nat)
    requires n < 10
    ensures "0123456789"[n] == '0' + n as char && '0' <= "0123456789"[n] <= '9'
  {
  }

  lemma {:induction false} DecNumeric(n: nat)
    ensures Numeric(Dec(n)) && (n > 0 ==> Dec(n)[0] != '0')
    ensures forall c <- Dec(n) :: '0' <= c <= '9'
  {
    Figure(n % 10);
    if n >= 10 { DecNumeric(n / 10); }
  }

  /** The number that digits stand for. */
  function Value(s: string): nat
    requires forall i | 0 <= i < |s| :: '0' <= s[i] <= '9'
  {
    if s == [] then 0 else 10 * Value(s[..|s| - 1]) + (s[|s| - 1] - '0') as nat
  }

  lemma DecStep(high: nat, low: nat)
    requires low < 10
    ensures high > 0 ==> Dec(10 * high + low) == Dec(high) + ['0' + low as char]
    ensures Dec(low) == ['0' + low as char]
  {
    Figure(low);
    assert (10 * high + low) / 10 == high && (10 * high + low) % 10 == low;
  }

  lemma {:induction false} NumericDec(s: string)
    requires Numeric(s)
    ensures (forall i | 0 <= i < |s| :: '0' <= s[i] <= '9') && Dec(Value(s)) == s && (s[0] != '0' ==> Value(s) > 0)
  {
    hide Dec;
    var n := |s| - 1;
    assert forall i | 0 <= i < |s| :: IsDigit(s[i]);
    var low := (s[n] - '0') as nat;
    if n > 0 {
      NumericDec(s[..n]);
      DecStep(Value(s[..n]), low);
      assert s == s[..n] + [s[n]];
    } else {
      assert s[..n] == [] && s == [s[n]];
      DecStep(0, low);
    }
  }

  ghost predicate IsDec(s: string) {
    exists n: nat :: s == Dec(n)
  }

  lemma NumericExact(s: string)
    ensures Numeric(s) <==> IsDec(s)
  {
    if Numeric(s) { NumericDec(s); }
    forall n: nat | s == Dec(n) ensures Numeric(s) { DecNumeric(n); }
  }

  // ---------------------------------------------------------------------------------------
  // Versions
  // ---------------------------------------------------------------------------------------

  predicate LetterDigitDash(c: char) {
    'a' <= c <= 'z' || 'A' <= c <= 'Z' || '0' <= c <= '9' || c == '-'
  }

  /** What may follow the dash: a number, or letters, digits and dashes with a non-digit and no final dash. */
  ghost predicate PreRelease(s: string) {
    IsDec(s) || Mixed(s)
  }

  predicate Mixed(s: string) {
    && s != [] && s[|s| - 1] != '-'
    && (forall c <- s :: LetterDigitDash(c))
    && (exists c <- s :: !('0' <= c <= '9'))
  }

  ghost predicate Suffix(s: string) {
    s == [] || (s[0] == '-' && PreRelease(s[1..]))
  }

  function Core(a: nat, b: nat, c: nat): string {
    Dec(a) + "." + Dec(b) + "." + Dec(c)
  }

  ghost predicate IsVersion(v: string) {
    |v| <= 63 && exists a: nat, b: nat, c: nat, suffix :: Suffix(suffix) && v == Core(a, b, c) + suffix
  }

  lemma MixedExact(s: string)
    ensures AlphaNumeric(s) <==> Mixed(s)
  {
    forall i | 0 <= i < |s|
      ensures s[i] in s && (LetterDigitDash(s[i]) <==> IsDigit(s[i]) || IsLower(s[i]) || IsUpper(s[i]) || s[i] == '-')
    {}
    if Mixed(s) {
      var c :| c in s && !('0' <= c <= '9');
      var i :| 0 <= i < |s| && s[i] == c;
      assert !IsDigit(s[i]);
    }
    if AlphaNumeric(s) {
      var i :| 0 <= i < |s| && !IsDigit(s[i]);
      assert s[i] in s && !('0' <= s[i] <= '9');
    }
  }

  lemma PreReleaseExact(s: string)
    ensures Numeric(s) || AlphaNumeric(s) <==> PreRelease(s)
  {
    NumericExact(s);
    MixedExact(s);
    hide Numeric, AlphaNumeric, Mixed;
  }

  lemma JoinThree(parts: seq<string>)
    requires |parts| == 3
    ensures Join(parts, '.') == parts[0] + "." + parts[1] + "." + parts[2]
  {
    assert parts[1..][1..] == [parts[2]];
    assert Join(parts[1..], '.') == parts[1] + ['.'] + parts[2];
    assert parts[0] + ['.'] + (parts[1] + ['.'] + parts[2]) == parts[0] + "." + parts[1] + "." + parts[2];
  }

  lemma SplitCore(a: nat, b: nat, c: nat)
    ensures Split(Core(a, b, c), '.') == [Dec(a), Dec(b), Dec(c)]
    ensures '-' !in Core(a, b, c)
  {
    var parts := [Dec(a), Dec(b), Dec(c)];
    DecNumeric(a);
    DecNumeric(b);
    DecNumeric(c);
    JoinThree(parts);
    SplitJoin(parts, '.');
    hide Split, Join, Dec;
  }

  lemma AcceptedIsVersion(v: string)
    requires ValidVersion(v)
    ensures IsVersion(v)
  {
    var i := Find(v, {'-'});
    var core := Split(v[..i], '.');
    FindStops(v, {'-'});
    hide Find, Split, Numeric, AlphaNumeric, PreRelease, Join;
    var a := Number(core[0]);
    var b := Number(core[1]);
    var c := Number(core[2]);
    assert v[..i] == Core(a, b, c) by {
      JoinSplit(v[..i], '.');
      JoinThree(core);
    }
    if i < |v| {
      PreReleaseExact(v[i + 1..]);
      assert v[i..][1..] == v[i + 1..] && v[i..][0] == v[i];
    }
    assert Suffix(v[i..]) && v == v[..i] + v[i..];
  }

  lemma Number(s: string) returns (n: nat)
    requires Numeric(s)
    ensures s == Dec(n)
  {
    NumericDec(s);
    n := Value(s);
  }

  lemma VersionIsAccepted(a: nat, b: nat, c: nat, suffix: string)
    requires Suffix(suffix) && |Core(a, b, c) + suffix| <= 63
    ensures ValidVersion(Core(a, b, c) + suffix)
  {
    var core := Core(a, b, c);
    var v := core + suffix;
    SplitCore(a, b, c);
    DecNumeric(a);
    DecNumeric(b);
    DecNumeric(c);
    if suffix == [] {
      assert v == core;
      FindAfter(core, '-', [], {'-'});
      assert v[..|core|] == core;
    } else {
      PreReleaseExact(suffix[1..]);
      assert v == core + ['-'] + suffix[1..];
      FindAfter(core, '-', suffix[1..], {'-'});
      assert v[..|core|] == core && v[|core| + 1..] == suffix[1..];
    }
  }

  /**
    * A version is accepted if and only if it has at most 63 characters and is three decimal numbers with
    * periods between them, perhaps with a dash and a pre-release behind.
    */
  lemma VersionExact(v: string)
    ensures ValidVersion(v) <==> IsVersion(v)
  {
    if ValidVersion(v) { AcceptedIsVersion(v); }
    if IsVersion(v) {
      var a: nat, b: nat, c: nat, suffix :| Suffix(suffix) && v == Core(a, b, c) + suffix;
      VersionIsAccepted(a, b, c, suffix);
    }
  }

  // ---------------------------------------------------------------------------------------
  // Servers, and components
  // ---------------------------------------------------------------------------------------

  predicate LowerOrDigit(c: char) { 'a' <= c <= 'z' || '0' <= c <= '9' }

  /** A lower-case letter, then up to 61 letters, digits and dashes, and a letter or a digit at the end. */
  predicate IsServer(s: string) {
    && 1 <= |s| <= 63
    && 'a' <= s[0] <= 'z'
    && (forall i | 0 < i < |s| - 1 :: LowerOrDigit(s[i]) || s[i] == '-')
    && LowerOrDigit(s[|s| - 1])
  }

  lemma ServerExact(s: string)
    ensures ValidServer(s) <==> IsServer(s)
  {
    if IsServer(s) {
      forall i | 0 <= i < |s| ensures IsLower(s[i]) || IsDigit(s[i]) || s[i] == '-' {
        assert i == 0 || i == |s| - 1 || LowerOrDigit(s[i]) || s[i] == '-';
      }
    }
  }

  /** A component has a proper version, or else a proper server, or else is one. */
  lemma ComponentAccepted(domain: seq<byte>, server: string, version: string)
    ensures NewComponent(domain, server, version) == Err(InvalidVersion) <==> !IsVersion(version)
    ensures NewComponent(domain, server, version) == Err(InvalidServer) <==> IsVersion(version) && !IsServer(server)
    ensures NewComponent(domain, server, version) == Ok(ComponentName(domain, server, version))
       <==> IsVersion(version) && IsServer(server)
    ensures ValidComponent(ComponentName(domain, server, version))
       <==> |domain| == 16 && IsVersion(version) && IsServer(server)
  {
    VersionExact(version);
    ServerExact(server);
    hide ValidVersion, ValidServer, IsVersion, IsServer;
  }

  // ---------------------------------------------------------------------------------------
  // Pod ids
  // ---------------------------------------------------------------------------------------

  function LowerCase(s: string): string {
    seq(|s|, i requires 0 <= i < |s| => if 'A' <= s[i] <= 'F' then s[i] - 'A' + 'a' else s[i])
  }

  /** Upper-case digits and a plus in front make no difference to a pod id. */
  lemma RadixForgives(s: string)
    ensures FromRadix16(LowerCase(s)) == FromRadix16(s)
    ensures (s == [] || s[0] != '+') ==> FromRadix16("+" + s) == FromRadix16(s)
  {
    var digits := if s != [] && s[0] == '+' then s[1..] else s;
    assert LowerCase(digits) == if s != [] && s[0] == '+' then LowerCase(s)[1..] else LowerCase(s);
    assert s != [] ==> (LowerCase(s)[0] == '+' <==> s[0] == '+');
    LowerSame(digits);
    assert ("+" + s)[1..] == s;
  }

  lemma {:induction false} LowerSame(s: string)
    ensures AllHex(LowerCase(s)) <==> AllHex(s)
    ensures AllHex(s) ==> HexValue(LowerCase(s)) == HexValue(s)
  {
    if s != [] {
      var n := |s| - 1;
      LowerSame(s[..n]);
      assert LowerCase(s)[..n] == LowerCase(s[..n]);
      if AllHex(s) { assert AllHex(s[..n]); }
      if AllHex(LowerCase(s)) {
        forall i | 0 <= i < |s| ensures IsAnyHex(s[i]) { assert IsAnyHex(LowerCase(s)[i]); }
      }
      if AllHex(s) {
        forall i | 0 <= i < |s| ensures IsAnyHex(LowerCase(s)[i]) { assert IsAnyHex(s[i]); }
      }
    }
  }

  // ---------------------------------------------------------------------------------------
  // What is refused
  // ---------------------------------------------------------------------------------------

  predicate DigitsOnly(s: string) {
    forall c <- s :: '0' <= c <= '9' || 'a' <= c <= 'f'
  }

  /** The error for the domain, the version and the server, in this order. */
  ghost function PartsRefused(domain: string, server: string, version: string): Option<NameError> {
    if |domain| != 32 then Some(InvalidDomainLength)
    else if !DigitsOnly(domain) then Some(InvalidDomain)
    else if !IsVersion(version) then Some(InvalidVersion)
    else if !IsServer(server) then Some(InvalidServer)
    else None
  }

  lemma UuidRefused(domain: string)
    ensures ParseUuid(domain) == Err(InvalidDomainLength) <==> |domain| != 32
    ensures ParseUuid(domain) == Err(InvalidDomain) <==> |domain| == 32 && !DigitsOnly(domain)
  {
    if |domain| == 32 {
      UnhexifyAccepts(domain);
      if DigitsOnly(domain) {
        forall i | 0 <= i < 32 ensures IsHex(domain[i]) { assert domain[i] in domain; }
      }
      hide Unhexify;
    }
  }

  /**
    * A name is refused as one of a component if it lacks a domain or a version or has a pod, and else for
    * its parts; as one of a pod if it lacks one of the three, and else for its parts, or for the id if
    * this is no hexadecimal number of 64 bits.
    */
  lemma NamesRefused(n: Name)
    ensures n.domain.None? || n.version.None? || n.pod.Some? ==> Component(n) == Err(InvalidName)
    ensures n.domain.None? || n.version.None? || n.pod.None? ==> PodOf(n) == Err(InvalidName)
    ensures n.domain.Some? && n.version.Some? ==>
      var refused := PartsRefused(n.domain.value, n.server, n.version.value);
      && (n.pod.None? ==> if refused.Some? then Component(n) == Err(refused.value) else Component(n).Ok?)
      && (n.pod.Some? ==>
            if refused.Some? then PodOf(n) == Err(refused.value)
            else if FromRadix16(n.pod.value).None? then PodOf(n) == Err(InvalidPodId)
            else PodOf(n).Ok?)
  {
    if n.domain.Some? && n.version.Some? {
      UuidRefused(n.domain.value);
      if ParseUuid(n.domain.value).Ok? {
        ComponentAccepted(ParseUuid(n.domain.value).value, n.server, n.version.value);
      }
    }
    hide ParseUuid, NewComponent, IsVersion, IsServer, DigitsOnly, FromRadix16;
  }
}
