/** Canonical names of components and pods: a permissive parser, its printers, and what is valid. */
module Names {
  import opened Prelude
  import opened Strings
  import opened Hex

  datatype Name = Name(domain: Option<string>, server: string, version: Option<string>, pod: Option<string>)

  datatype ComponentName = ComponentName(domain: seq<byte>, server: string, version: string)

  datatype PodName = PodName(component: ComponentName, pod: u64)

  datatype NameError =
    | InvalidName
    | InvalidDomainLength
    | InvalidDomain
    | InvalidVersion
    | InvalidServer
    | InvalidPodId

  // ---------------------------------------------------------------------------------------
  // Parsing and printing
  // ---------------------------------------------------------------------------------------

  /** Where the first of the characters is, or the length of the string. */
  function Find(s: string, stops: set<char>): (i: nat)
    ensures i <= |s|
  {
    if s == [] || s[0] in stops then 0 else 1 + Find(s[1..], stops)
  }

  lemma {:induction false} FindStops(s: string, stops: set<char>)
    ensures forall c <- s[..Find(s, stops)] :: c !in stops
    ensures Find(s, stops) < |s| ==> s[Find(s, stops)] in stops
  {
    if s != [] && s[0] !in stops {
      FindStops(s[1..], stops);
      assert s[..Find(s, stops)] == [s[0]] + s[1..][..Find(s[1..], stops)];
    }
  }

  function ParseVersion(s: string): (Option<string>, Option<string>) {
    var i := Find(s, {'#'});
    if i == |s| then (Some(s), None) else (Some(s[..i]), Some(s[i + 1..]))
  }

  function Versioned(domain: Option<string>, server: string, s: string): Name {
    var (version, pod) := ParseVersion(s);
    Name(domain, server, version, pod)
  }

  function Parse(full: string): Name {
    var i := Find(full, {':', '@'});
    if i == |full| then Name(None, full, None, None)
    else if full[i] == '@' then Versioned(None, full[..i], full[i + 1..])
    else
      var rest := full[i + 1..];
      var v := Find(rest, {'@'});
      if v == |rest| then Name(Some(full[..i]), rest, None, None)
      else Versioned(Some(full[..i]), rest[..v], rest[v + 1..])
  }

  method ParseName(full: string) returns (name: Name)
    ensures name == Parse(full)
  {
    var domain, version, pod: Option<string> := None, None, None;
    var start, end := 0, |full|;
    var index := Find(full, {':', '@'});
    FindStops(full, {':', '@'});
    hide Find, ParseVersion;
    if index < |full| {
      if full[index] == ':' {
        domain := Some(full[..index]);
        start := index + 1;
        var v := Find(full[start..], {'@'});
        if start + v < |full| {
          end := start + v;
          assert full[start..][v + 1..] == full[end + 1..];
          var pair := ParseVersion(full[end + 1..]);
          version, pod := pair.0, pair.1;
        }
      } else {
        end := index;
        var pair := ParseVersion(full[end + 1..]);
        version, pod := pair.0, pair.1;
      }
    }
    assert full[start..][..end - start] == full[start..end];
    name := Name(domain, full[start..end], version, pod);
  }

  function PrintVersion(version: Option<string>, pod: Option<string>): string {
    if version.None? then []
    else ['@'] + version.value + if pod.None? then [] else ['#'] + pod.value
  }

  function Print(n: Name): string {
    (if n.domain.Some? then n.domain.value + [':'] else []) + n.server + PrintVersion(n.version, n.pod)
  }

  lemma PrintParsedVersion(s: string)
    ensures PrintVersion(ParseVersion(s).0, ParseVersion(s).1) == ['@'] + s
  {
    var i := Find(s, {'#'});
    FindStops(s, {'#'});
    hide Find;
    if i < |s| {
      Cut(s, i);
      Assoc(['@'], s[..i], ['#'] + s[i + 1..]);
    } else {
      Assoc(['@'], s, []);
    }
  }

  lemma Assoc(a: string, b: string, c: string)
    ensures a + b + c == a + (b + c)
    ensures b + [] == b
  {
  }

  lemma Cut(s: string, i: nat)
    requires i < |s|
    ensures s == s[..i] + ([s[i]] + s[i + 1..])
  {
  }

  lemma PrintVersioned(domain: Option<string>, server: string, s: string)
    ensures Print(Versioned(domain, server, s)) ==
            (if domain.Some? then domain.value + [':'] else []) + (server + (['@'] + s))
  {
    PrintParsedVersion(s);
    hide PrintVersion, ParseVersion;
    var n := Versioned(domain, server, s);
    var head := if domain.Some? then domain.value + [':'] else [];
    assert Print(n) == head + server + (['@'] + s);
  }

  /** Printing what any string was parsed to gives the string back. */
  lemma PrintParse(full: string)
    ensures Print(Parse(full)) == full
  {
    var i := Find(full, {':', '@'});
    FindStops(full, {':', '@'});
    if i == |full| {
      Assoc([], full, []);
      hide Find;
    } else {
      Cut(full, i);
      var head, rest := full[..i], full[i + 1..];
      if full[i] == '@' {
        assert Parse(full) == Versioned(None, head, rest);
        hide *;
        PrintVersioned(None, head, rest);
        Assoc([], [], head + (['@'] + rest));
      } else {
        var v := Find(rest, {'@'});
        assert Parse(full) ==
          if v == |rest| then Name(Some(head), rest, None, None) else Versioned(Some(head), rest[..v], rest[v + 1..]);
        hide *;
        PrintRest(head, rest);
        Assoc(head, [':'], rest);
      }
    }
  }

  /** What follows the domain. */
  lemma PrintRest(domain: string, rest: string)
    ensures var v := Find(rest, {'@'});
      Print(if v == |rest| then Name(Some(domain), rest, None, None)
            else Versioned(Some(domain), rest[..v], rest[v + 1..])) == domain + [':'] + rest
  {
    var v := Find(rest, {'@'});
    FindStops(rest, {'@'});
    hide Find, Versioned;
    if v < |rest| {
      Cut(rest, v);
      PrintVersioned(Some(domain), rest[..v], rest[v + 1..]);
    } else {
      Assoc(domain + [':'], rest, []);
    }
  }

  /** The name has its separators where a parser looks for them, and nowhere else. */
  ghost predicate Unambiguous(n: Name) {
    && (n.domain.Some? ==> ':' !in n.domain.value && '@' !in n.domain.value)
    && (n.domain.None? ==> ':' !in n.server)
    && '@' !in n.server
    && (n.version.Some? ==> '#' !in n.version.value)
    && (n.version.None? ==> n.pod.None?)
  }

  lemma {:induction false} FindAfter(before: string, stop: char, after: string, stops: set<char>)
    requires stop in stops && forall c <- before :: c !in stops
    ensures Find(before + [stop] + after, stops) == |before|
    ensures Find(before, stops) == |before|
  {
    if before == [] {
      assert ([] + [stop] + after)[0] == stop;
    } else {
      FindAfter(before[1..], stop, after, stops);
      assert (before + [stop] + after)[1..] == before[1..] + [stop] + after;
    }
  }

  lemma ParsePrintedVersion(version: string, pod: Option<string>)
    requires '#' !in version
    ensures PrintVersion(Some(version), pod) != [] && PrintVersion(Some(version), pod)[0] == '@'
    ensures ParseVersion(PrintVersion(Some(version), pod)[1..]) == (Some(version), pod)
  {
    var s := PrintVersion(Some(version), pod)[1..];
    match pod
    case None =>
      assert s == version;
      FindAfter(version, '#', [], {'#'});
    case Some(p) =>
      assert s == version + ['#'] + p;
      FindAfter(version, '#', p, {'#'});
      assert s[..|version|] == version && s[|version| + 1..] == p;
  }

  lemma VersionedUnambiguous(domain: Option<string>, server: string, s: string)
    requires domain.Some? ==> ':' !in domain.value && '@' !in domain.value
    requires (domain.None? ==> ':' !in server) && '@' !in server
    ensures Unambiguous(Versioned(domain, server, s))
  {
    FindStops(s, {'#'});
    hide Find;
  }

  lemma ParsedUnambiguous(full: string)
    ensures Unambiguous(Parse(full))
  {
    var i := Find(full, {':', '@'});
    FindStops(full, {':', '@'});
    assert i == |full| ==> full[..i] == full;
    if i < |full| {
      var rest := full[i + 1..];
      var v := Find(rest, {'@'});
      FindStops(rest, {'@'});
      assert v == |rest| ==> rest[..v] == rest;
      hide Find, Versioned;
      if full[i] == '@' { VersionedUnambiguous(None, full[..i], rest); }
      else if v < |rest| { VersionedUnambiguous(Some(full[..i]), rest[..v], rest[v + 1..]); }
    }
  }

  /** A name is found again in its printed form exactly when it is unambiguous. */
  lemma ParsePrint(n: Name)
    ensures Parse(Print(n)) == n <==> Unambiguous(n)
  {
    ParsedUnambiguous(Print(n));
    hide Parse, Print, Unambiguous;
    if Unambiguous(n) { UnambiguousParses(n); }
  }

  lemma UnambiguousParses(n: Name)
    requires Unambiguous(n)
    ensures Parse(Print(n)) == n
  {
    var tail := PrintVersion(n.version, n.pod);
    if n.version.Some? { ParsePrintedVersion(n.version.value, n.pod); }
    hide Find, PrintVersion, ParseVersion;
    match n.domain
    case None =>
      assert [] + n.server == n.server;
      ServerParses(n, tail, {':', '@'});
    case Some(d) => DomainParses(n, d, tail);
  }

  lemma DomainParses(n: Name, d: string, tail: string)
    requires Unambiguous(n) && n.domain == Some(d) && tail == PrintVersion(n.version, n.pod)
    requires n.version.Some? ==> tail != [] && tail[0] == '@' && ParseVersion(tail[1..]) == (n.version, n.pod)
    ensures Parse(Print(n)) == n
  {
    var rest := n.server + tail;
    ServerParses(n, tail, {'@'}) by { assert n.version.None? ==> tail == []; }
    FindAfter(d, ':', rest, {':', '@'});
    hide Find, PrintVersion, ParseVersion;
    Assoc(d + [':'], n.server, tail);
    Parts(d, ':', rest);
  }

  lemma Parts(a: string, c: char, b: string)
    ensures var s := a + [c] + b; s[..|a|] == a && s[|a|] == c && s[|a| + 1..] == b && |s| == |a| + 1 + |b|
  {
  }

  /** The server is cut off before the version, if there is one. */
  lemma ServerParses(n: Name, tail: string, stops: set<char>)
    requires '@' in stops && forall c <- n.server :: c !in stops
    requires n.version.Some? ==> tail != [] && tail[0] == '@'
    requires n.version.None? ==> tail == []
    ensures var s, k := n.server + tail, |n.server|;
      Find(s, stops) == k && s[..k] == n.server
      && (n.version.Some? ==> k < |s| && s[k] == '@' && s[k + 1..] == tail[1..])
      && (n.version.None? ==> s == n.server)
  {
    if n.version.Some? {
      assert tail == ['@'] + tail[1..];
      Assoc(n.server, ['@'], tail[1..]);
      Parts(n.server, '@', tail[1..]);
      FindAfter(n.server, '@', tail[1..], stops);
    } else {
      assert n.server + tail == n.server;
      FindAfter(n.server, '@', [], stops);
    }
  }
}
