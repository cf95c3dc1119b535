/** Names of components and of pods: what is valid, and that their printed forms are canonical. */
module ComponentNames {
  import opened Prelude
  import opened Strings
  import opened Hex
  import opened Names

  const LABEL_MAX := 63
  const USIZE_MAX := 0xFFFF_FFFF_FFFF_FFFF

  // ---------------------------------------------------------------------------------------
  // Validity
  // ---------------------------------------------------------------------------------------

  predicate IsDigit(c: char) { '0' <= c <= '9' }

  predicate IsLower(c: char) { 'a' <= c <= 'z' }

  predicate IsUpper(c: char) { 'A' <= c <= 'Z' }

  /** `^[a-z](?:[0-9a-z-]{0,61}[0-9a-z])?$` */
  predicate ValidServer(s: string) {
    && 1 <= |s| <= LABEL_MAX
    && IsLower(s[0])
    && (forall i | 0 <= i < |s| :: IsLower(s[i]) || IsDigit(s[i]) || s[i] == '-')
    && s[|s| - 1] != '-'
  }

  /** `0|[1-9][0-9]*` */
  predicate Numeric(s: string) {
    && s != []
    && (forall i | 0 <= i < |s| :: IsDigit(s[i]))
    && (s[0] == '0' ==> |s| == 1)
  }

  /** Alphanumerics and dashes with a non-digit among them and no dash at the end. */
  predicate AlphaNumeric(s: string) {
    && s != []
    && (forall i | 0 <= i < |s| :: IsDigit(s[i]) || IsLower(s[i]) || IsUpper(s[i]) || s[i] == '-')
    && (exists i | 0 <= i < |s| :: !IsDigit(s[i]))
    && s[|s| - 1] != '-'
  }

  /** A semantic version without a build, short enough for a label. */
  predicate ValidVersion(v: string) {
    var i := Find(v, {'-'});
    var core := Split(v[..i], '.');
    && |v| <= LABEL_MAX
    && |core| == 3 && Numeric(core[0]) && Numeric(core[1]) && Numeric(core[2])
    && (i < |v| ==> Numeric(v[i + 1..]) || AlphaNumeric(v[i + 1..]))
  }

  predicate ValidComponent(c: ComponentName) {
    |c.domain| == 16 && ValidServer(c.server) && ValidVersion(c.version)
  }

  // ---------------------------------------------------------------------------------------
  // Conversions
  // ---------------------------------------------------------------------------------------

  function ParseUuid(text: string): Result<seq<byte>, NameError> {
    if |text| != 32 then Err(InvalidDomainLength)
    else
      match Unhexify(text)
      case None => Err(InvalidDomain)
      case Some(bytes) => Ok(bytes)
  }

  function NewComponent(domain: seq<byte>, server: string, version: string): Result<ComponentName, NameError> {
    if !ValidVersion(version) then Err(InvalidVersion)
    else if !ValidServer(server) then Err(InvalidServer)
    else Ok(ComponentName(domain, server, version))
  }

  function Component(n: Name): Result<ComponentName, NameError> {
    if n.domain.None? || n.version.None? || n.pod.Some? then Err(InvalidName)
    else
      var domain :- ParseUuid(n.domain.value);
      NewComponent(domain, n.server, n.version.value)
  }

  function PodOf(n: Name): Result<PodName, NameError> {
    if n.domain.None? || n.version.None? || n.pod.None? then Err(InvalidName)
    else
      var domain :- ParseUuid(n.domain.value);
      var component :- NewComponent(domain, n.server, n.version.value);
      match FromRadix16(n.pod.value)
      case None => Err(InvalidPodId)
      case Some(id) => Ok(PodName(component, id))
  }

  function ComponentParts(c: ComponentName, pod: Option<string>): Name {
    Name(Some(Encode(c.domain)), c.server, Some(c.version), pod)
  }

  function PrintComponent(c: ComponentName): string {
    Encode(c.domain) + [':'] + c.server + ['@'] + c.version
  }

  function PrintPod(p: PodName): string {
    PrintComponent(p.component) + ['#'] + LowerHex(p.pod)
  }

  lemma PrintedParts(c: ComponentName)
    ensures PrintComponent(c) == Print(ComponentParts(c, None))
    ensures forall id: u64 :: PrintPod(PodName(c, id)) == Print(ComponentParts(c, Some(LowerHex(id))))
  {
    hide Encode, LowerHex;
    var head := Encode(c.domain) + [':'] + c.server;
    Assoc(head, ['@'], c.version);
    Assoc(['@'], c.version, []);
    forall id: u64 ensures PrintPod(PodName(c, id)) == Print(ComponentParts(c, Some(LowerHex(id)))) {
      Assoc(head + ['@'] + c.version, ['#'], LowerHex(id));
      Assoc(head, ['@'] + c.version, ['#'] + LowerHex(id));
    }
  }

  // ---------------------------------------------------------------------------------------
  // Pod ids in hexadecimal, most significant digit first
  // ---------------------------------------------------------------------------------------

  function LowerHex(n: nat): string {
    if n < 16 then [Digit(n)] else LowerHex(n / 16) + [Digit(n % 16)]
  }

  predicate IsAnyHex(c: char) { IsHex(c) || 'A' <= c <= 'F' }

  function AnyNibble(c: char): nibble
    requires IsAnyHex(c)
  {
    if IsHex(c) then NibbleOf(c) else c as int - ('A' as int - 10)
  }

  predicate AllHex(s: string) { forall i | 0 <= i < |s| :: IsAnyHex(s[i]) }

  function HexValue(s: string): nat
    requires AllHex(s)
  {
    if s == [] then 0 else HexValue(s[..|s| - 1]) * 16 + AnyNibble(s[|s| - 1])
  }

  /** Unsigned, so that of the signs only a plus is taken; either case; any number of leading zeros. */
  function FromRadix16(s: string): Option<u64> {
    var digits := if s != [] && s[0] == '+' then s[1..] else s;
    if digits == [] || !AllHex(digits) || HexValue(digits) > USIZE_MAX then None else Some(HexValue(digits))
  }

  /** How a pod id is printed: lower case, and no zero in front. */
  predicate CanonicalHex(s: string) {
    s != [] && (forall i | 0 <= i < |s| :: IsHex(s[i])) && (s[0] == '0' ==> |s| == 1)
  }

  lemma {:induction false} LowerHexCanonical(n: nat)
    ensures CanonicalHex(LowerHex(n)) && AllHex(LowerHex(n)) && HexValue(LowerHex(n)) == n
    ensures n > 0 ==> LowerHex(n)[0] != '0'
  {
    if n >= 16 {
      LowerHexCanonical(n / 16);
      assert LowerHex(n)[..|LowerHex(n)| - 1] == LowerHex(n / 16);
    } else {
      assert [Digit(n)][..0] == [];
      assert n > 0 ==> NibbleOf(Digit(n)) != NibbleOf('0');
    }
  }

  lemma HighAndLow(high: nat, low: nibble)
    ensures (high * 16 + low) / 16 == high && (high * 16 + low) % 16 == low
  {
  }

  lemma LowerHexStep(high: nat, low: nibble)
    ensures high > 0 ==> LowerHex(high * 16 + low) == LowerHex(high) + [Digit(low)]
    ensures LowerHex(low) == [Digit(low)]
  {
    hide Digit;
    HighAndLow(high, low);
    var n := high * 16 + low;
    assert n / 16 == high && n % 16 == low;
    assert high > 0 ==> n >= 16;
    assert n >= 16 ==> LowerHex(n) == LowerHex(n / 16) + [Digit(n % 16)];
  }

  lemma {:induction false} CanonicalLowerHex(s: string)
    requires CanonicalHex(s)
    ensures AllHex(s) && LowerHex(HexValue(s)) == s
    ensures s[0] != '0' ==> HexValue(s) > 0
  {
    var n := |s| - 1;
    DigitOfNibble(s[n]);
    assert AllHex(s);
    hide LowerHex, Digit;
    if n > 0 {
      CanonicalLowerHex(s[..n]);
      LowerHexStep(HexValue(s[..n]), NibbleOf(s[n]));
      assert s == s[..n] + [s[n]];
    } else {
      assert s[..n] == [] && s == [s[n]];
      assert HexValue(s[..n]) == 0;
      LowerHexStep(0, NibbleOf(s[n]));
    }
  }

  lemma RadixTrip(id: u64)
    ensures FromRadix16(LowerHex(id)) == Some(id) && CanonicalHex(LowerHex(id))
  {
    LowerHexCanonical(id);
  }

  lemma RadixCanonical(s: string, id: u64)
    requires FromRadix16(s) == Some(id)
    ensures CanonicalHex(s) <==> LowerHex(id) == s
  {
    if CanonicalHex(s) { CanonicalLowerHex(s); } else { LowerHexCanonical(id); }
  }

  // ---------------------------------------------------------------------------------------
  // Round trips
  // ---------------------------------------------------------------------------------------

  lemma UuidTrip(text: string, bytes: seq<byte>)
    ensures ParseUuid(text) == Ok(bytes) <==> |bytes| == 16 && Encode(bytes) == text
  {
    hide Unhexify;
    DecodeEncode(bytes);
    if |text| == 32 {
      UnhexifyIsDecode(text);
      if Decode(text).Some? { EncodeDecode(text); }
    }
  }

  lemma {:induction false} EncodedPlain(bytes: seq<byte>)
    ensures ':' !in Encode(bytes) && '@' !in Encode(bytes) && '#' !in Encode(bytes) && '/' !in Encode(bytes)
  {
    if bytes != [] { EncodedPlain(bytes[1..]); }
  }

  lemma {:induction false} SplitMembers(s: string, sep: char, c: char)
    requires c in s && c != sep
    ensures exists i :: 0 <= i < |Split(s, sep)| && c in Split(s, sep)[i]
  {
    if s[0] == sep {
      SplitMembers(s[1..], sep, c);
      var i :| 0 <= i < |Split(s[1..], sep)| && c in Split(s[1..], sep)[i];
      assert Split(s, sep)[i + 1] == Split(s[1..], sep)[i];
    } else if s[0] == c {
      assert c in Split(s, sep)[0];
    } else {
      SplitMembers(s[1..], sep, c);
      var i :| 0 <= i < |Split(s[1..], sep)| && c in Split(s[1..], sep)[i];
      assert c in Split(s, sep)[i];
    }
  }

  /** What is special in names does not occur in versions. */
  lemma VersionPlain(v: string, c: char)
    requires ValidVersion(v) && c in {'#', '@', ':', '/'}
    ensures c !in v
  {
    var i := Find(v, {'-'});
    if i < |v| {
      FindStops(v, {'-'});
      assert v == v[..i] + [v[i]] + v[i + 1..];
    } else {
      assert v == v[..i];
    }
    if c in v[..i] { SplitMembers(v[..i], '.', c); }
  }

  lemma PartsUnambiguous(c: ComponentName, pod: Option<string>)
    requires ValidComponent(c)
    ensures Unambiguous(ComponentParts(c, pod))
  {
    EncodedPlain(c.domain);
    VersionPlain(c.version, '#');
  }

  /** A string is a component's name exactly when the component is valid and prints to it. */
  lemma ComponentTrip(s: string, c: ComponentName)
    ensures Component(Parse(s)) == Ok(c) <==> ValidComponent(c) && PrintComponent(c) == s
  {
    PrintedParts(c);
    hide PrintComponent, ValidVersion, ValidServer, Encode, ParseUuid, PrintPod;
    var n := Parse(s);
    PrintParse(s);
    if n.domain.Some? { UuidTrip(n.domain.value, c.domain); }
    if ValidComponent(c) && PrintComponent(c) == s {
      PartsUnambiguous(c, None);
      hide Parse, Print;
      ParsePrint(ComponentParts(c, None));
    }
    hide Parse, Print;
  }

  /** A valid pod prints to a string that names it. */
  lemma PodTrip(p: PodName)
    requires ValidComponent(p.component)
    ensures PodOf(Parse(PrintPod(p))) == Ok(p)
  {
    var c, n := p.component, ComponentParts(p.component, Some(LowerHex(p.pod)));
    PrintedParts(c);
    PartsUnambiguous(c, Some(LowerHex(p.pod)));
    UuidTrip(Encode(c.domain), c.domain);
    RadixTrip(p.pod);
    hide ValidVersion, ValidServer, Encode, ParseUuid, PrintPod, Parse, Print, LowerHex, FromRadix16, Unambiguous;
    hide CanonicalHex;
    ParsePrint(n);
    assert PodOf(n) == Ok(p);
  }

  /**
    * A string that names a pod names a valid one, and is the one that it prints to exactly when its
    * id is written in lower case without sign or leading zeros.
    */
  lemma PodCanonical(s: string, p: PodName)
    requires PodOf(Parse(s)) == Ok(p)
    ensures ValidComponent(p.component)
    ensures PrintPod(p) == s <==> CanonicalHex(Parse(s).pod.value)
  {
    var c, n := p.component, Parse(s);
    PrintedParts(c);
    PrintParse(s);
    UuidTrip(n.domain.value, c.domain);
    hide ValidVersion, ValidServer, Encode, ParseUuid, PrintPod, Parse, Print, LowerHex, FromRadix16, CanonicalHex;
    RadixCanonical(n.pod.value, p.pod);
    assert ValidComponent(c) && n == ComponentParts(c, n.pod);
    if PrintPod(p) == s { PodIsNamed(p, s); }
  }

  lemma PodIsNamed(p: PodName, s: string)
    requires ValidComponent(p.component) && PrintPod(p) == s
    ensures Parse(s).pod == Some(LowerHex(p.pod))
  {
    PrintedParts(p.component);
    PartsUnambiguous(p.component, Some(LowerHex(p.pod)));
    hide ValidVersion, ValidServer, Encode, PrintPod, Parse, Print, LowerHex;
    ParsePrint(ComponentParts(p.component, Some(LowerHex(p.pod))));
  }
}
