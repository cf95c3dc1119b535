/** Names of Protobuf types, and the dotted paths by which fields and methods refer to them. */
module TypePaths {
  import opened Prelude
  import opened Strings

  datatype Qualifier = Qualifier(package: seq<string>, outer: seq<string>) {
    function Type(name: string): TypeName { TypeName(this, name) }

    function Nested(name: string): Qualifier { Qualifier(package, outer + [name]) }
  }

  datatype TypeName = TypeName(qualifier: Qualifier, name: string)

  datatype PathError = EmptyPart

  /** Protobuf identifiers are ASCII; a package is told from a message by its first letter. */
  predicate LowerInitial(part: string) {
    part != [] && 'a' <= part[0] <= 'z'
  }

  /** How many of the parts, from the front, are package parts. */
  function PackageParts(parts: seq<string>): (n: nat)
    ensures n <= |parts|
    ensures forall i | 0 <= i < n :: LowerInitial(parts[i])
    ensures n < |parts| ==> !LowerInitial(parts[n])
  {
    if parts != [] && LowerInitial(parts[0]) then 1 + PackageParts(parts[1..]) else 0
  }

  /** The type a path denotes: absolute if it has a leading period, else within the default package. */
  function FromPath(path: string, defaultPackage: seq<string>): Result<TypeName, PathError> {
    var parts := Split(path, '.');
    var last := |parts| - 1;
    if path == [] || path[0] != '.' then Ok(Qualifier(defaultPackage, parts[..last]).Type(parts[last]))
    else
      var middle := parts[1..last];
      var n := PackageParts(middle);
      if n < |middle| && middle[n] == [] then Err(EmptyPart)
      else Ok(Qualifier(middle[..n], middle[n..]).Type(parts[last]))
  }

  /** Package parts up to the first message, then messages; an empty part on the way is fatal. */
  method Separate(middle: seq<string>) returns (package: seq<string>, outer: seq<string>, fatal: bool)
    ensures var n := PackageParts(middle);
      && (fatal <==> n < |middle| && middle[n] == [])
      && (!fatal ==> package == middle[..n] && outer == middle[n..])
  {
    package, outer := [], [];
    var parts := middle;
    hide LowerInitial, PackageParts;
    while parts != [] && outer == []
      invariant |package| <= PackageParts(middle) && package == middle[..|package|]
      invariant outer == [] ==> parts == middle[|package|..]
      invariant outer != [] ==> |package| == PackageParts(middle) < |middle| && middle[|package|] != []
      invariant outer != [] ==> outer == [middle[|package|]] && parts == middle[|package| + 1..]
      decreases |parts|
    {
      var part := parts[0];
      assert part == middle[|package|];
      PackagePrefix(middle, |package|);
      if part == [] {
        return package, outer, true;
      }
      parts := parts[1..];
      if LowerInitial(part) {
        PackagePrefix(middle, |package| + 1);
        package := package + [part];
      } else {
        outer := [part];
      }
    }
    assert outer + parts == middle[|package|..];
    for i := 0 to |parts|
      invariant outer + parts[i..] == middle[|package|..]
    {
      outer := outer + [parts[i]];
    }
    fatal := false;
  }

  method ResolvePath(path: string, defaultPackage: seq<string>) returns (r: Result<TypeName, PathError>)
    ensures r == FromPath(path, defaultPackage)
  {
    var parts := Split(path, '.');
    var name := parts[|parts| - 1];
    parts := parts[..|parts| - 1];
    if path != [] && path[0] == '.' {
      assert parts[1..] == Split(path, '.')[1..|parts|];
      var package, outer, fatal := Separate(parts[1..]);
      r := if fatal then Err(EmptyPart) else Ok(Qualifier(package, outer).Type(name));
    } else {
      r := Ok(Qualifier(defaultPackage, parts).Type(name));
    }
  }

  lemma {:induction false} PackagePrefix(parts: seq<string>, n: nat)
    requires n <= |parts| && forall i | 0 <= i < n :: LowerInitial(parts[i])
    ensures n <= PackageParts(parts)
    ensures n < |parts| && parts[n] == [] ==> PackageParts(parts) == n
    ensures n < |parts| && !LowerInitial(parts[n]) ==> PackageParts(parts) == n
  {
    if n > 0 { PackagePrefix(parts[1..], n - 1); }
  }

  // ---------------------------------------------------------------------------------------
  // Paths name the types they were made from
  // ---------------------------------------------------------------------------------------

  /** All the parts of a type's name, outermost first. */
  function Parts(t: TypeName): seq<string> {
    t.qualifier.package + t.qualifier.outer + [t.name]
  }

  /** The absolute path of a type. */
  function Dotted(t: TypeName): string {
    ['.'] + Join(Parts(t), '.')
  }

  ghost predicate Plain(t: TypeName) {
    forall i | 0 <= i < |Parts(t)| :: Parts(t)[i] != [] && '.' !in Parts(t)[i]
  }

  /** An absolute path by its parts. */
  lemma FromAbsolute(parts: seq<string>, defaultPackage: seq<string>)
    requires parts != [] && forall i | 0 <= i < |parts| :: '.' !in parts[i]
    ensures var last := |parts| - 1;
      var n := PackageParts(parts[..last]);
      FromPath(['.'] + Join(parts, '.'), defaultPackage) ==
      if n < last && parts[n] == [] then Err(EmptyPart)
      else Ok(TypeName(Qualifier(parts[..n], parts[n..last]), parts[last]))
  {
    SplitAbsolute(parts);
    hide *;
    var path, last := ['.'] + Join(parts, '.'), |parts| - 1;
    Shifted(parts);
    FromSplit(path, defaultPackage, [[]] + parts, parts[..last], parts[last]);
    Cuts(parts, last, PackageParts(parts[..last]));
  }

  lemma Shifted(parts: seq<string>)
    requires parts != []
    ensures ([[]] + parts)[1..|parts|] == parts[..|parts| - 1] && ([[]] + parts)[|parts|] == parts[|parts| - 1]
  {
  }

  lemma Cuts(parts: seq<string>, last: nat, n: nat)
    requires n <= last <= |parts|
    ensures parts[..last][..n] == parts[..n] && parts[..last][n..] == parts[n..last]
    ensures n < last ==> parts[..last][n] == parts[n]
  {
  }

  lemma FromSplit(path: string, defaultPackage: seq<string>, all: seq<string>, middle: seq<string>, name: string)
    requires path != [] && path[0] == '.' && Split(path, '.') == all && |all| >= 2
    requires middle == all[1..|all| - 1] && name == all[|all| - 1]
    ensures var n := PackageParts(middle);
      FromPath(path, defaultPackage) ==
      if n < |middle| && middle[n] == [] then Err(EmptyPart)
      else Ok(TypeName(Qualifier(middle[..n], middle[n..]), name))
  {
    hide Split, PackageParts;
  }

  lemma SplitAbsolute(parts: seq<string>)
    requires parts != [] && forall i | 0 <= i < |parts| :: '.' !in parts[i]
    ensures Split(['.'] + Join(parts, '.'), '.') == [[]] + parts
  {
    SplitJoin(parts, '.');
    var path := ['.'] + Join(parts, '.');
    hide Join;
    assert path[1..] == Join(parts, '.');
  }

  /**
    * The path of a type resolves to that type, whatever the default package, exactly when its
    * package parts begin in lower case and its outermost message does not.
    */
  lemma PathNamesType(t: TypeName, defaultPackage: seq<string>)
    requires Plain(t)
    ensures FromPath(Dotted(t), defaultPackage) == Ok(t) <==>
              && (forall i | 0 <= i < |t.qualifier.package| :: LowerInitial(t.qualifier.package[i]))
              && (t.qualifier.outer != [] ==> !LowerInitial(t.qualifier.outer[0]))
  {
    var Qualifier(package, outer) := t.qualifier;
    var parts := Parts(t);
    var middle := parts[..|parts| - 1];
    assert middle == package + outer;
    FromAbsolute(parts, defaultPackage);
    hide Join, Split, FromPath, PackageParts;
    PackageCut(package, outer);
    var n := PackageParts(middle);
    assert parts[..n] == middle[..n] && parts[n..|parts| - 1] == middle[n..];
    assert n < |middle| ==> parts[n] == middle[n] && parts[n] != [];
    assert parts[|parts| - 1] == t.name;
  }

  /** The parts are cut between the package and the messages exactly when the former begin in lower case. */
  lemma PackageCut(package: seq<string>, outer: seq<string>)
    ensures var n := PackageParts(package + outer);
      && (n == |package| <==>
           && (forall i | 0 <= i < |package| :: LowerInitial(package[i]))
           && (outer != [] ==> !LowerInitial(outer[0])))
      && ((package + outer)[..n] == package && (package + outer)[n..] == outer <==> n == |package|)
  {
    var middle := package + outer;
    var n := PackageParts(middle);
    assert forall i | 0 <= i < |package| :: middle[i] == package[i];
    assert outer != [] ==> middle[|package|] == outer[0];
    if forall i | 0 <= i < |package| :: LowerInitial(package[i]) {
      PackagePrefix(middle, |package|);
      if outer != [] && LowerInitial(outer[0]) { PackagePrefix(middle, |package| + 1); }
    }
    assert n != |package| ==> |middle[..n]| != |package|;
    assert middle[..|package|] == package && middle[|package|..] == outer;
  }

  /** A file without a package declares its types under one empty part, which no absolute path reaches. */
  lemma NoPackageUnreachable(path: string, defaultPackage: seq<string>)
    requires path != [] && path[0] == '.'
    ensures FromPath(path, defaultPackage).Ok? ==>
              forall i | 0 <= i < |FromPath(path, defaultPackage).value.qualifier.package| ::
                FromPath(path, defaultPackage).value.qualifier.package[i] != []
    ensures FromPath(path, defaultPackage).Ok? ==>
              FromPath(path, defaultPackage).value.qualifier.package != Split([], '.')
  {
  }

  /** A path without a leading period names a type in the default package, all but its last part being messages. */
  lemma RelativePath(parts: seq<string>, defaultPackage: seq<string>)
    requires parts != [] && (forall i | 0 <= i < |parts| :: '.' !in parts[i]) && (parts[0] != [] || |parts| == 1)
    ensures var last := |parts| - 1;
      FromPath(Join(parts, '.'), defaultPackage) == Ok(TypeName(Qualifier(defaultPackage, parts[..last]), parts[last]))
  {
    SplitJoin(parts, '.');
    assert parts[0] != [] ==> Join(parts, '.')[0] == parts[0][0] && parts[0][0] in parts[0];
  }

  /**
    * An absolute path: parts that begin in 'a' to 'z' name the package, the others up to the last name
    * messages, and an empty part right after the package is fatal.
    */
  lemma AbsolutePath(parts: seq<string>, n: nat, defaultPackage: seq<string>)
    requires parts != [] && (forall i | 0 <= i < |parts| :: '.' !in parts[i]) && n < |parts|
    requires forall i | 0 <= i < n :: parts[i] != [] && 'a' <= parts[i][0] <= 'z'
    requires n < |parts| - 1 ==> parts[n] == [] || !('a' <= parts[n][0] <= 'z')
    ensures var last := |parts| - 1;
      FromPath(['.'] + Join(parts, '.'), defaultPackage) ==
      if n < last && parts[n] == [] then Err(EmptyPart)
      else Ok(TypeName(Qualifier(parts[..n], parts[n..last]), parts[last]))
  {
    PackagePrefix(parts[..|parts| - 1], n);
    hide Join, Split, PackageParts, FromPath;
    FromAbsolute(parts, defaultPackage);
  }
}
