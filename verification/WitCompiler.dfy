/** The compilation of a code generator request (`compile`): which requests succeed, and what they define. */
module WitCompiler {
  import opened Prelude
  import opened Strings
  import opened TypePaths
  import opened Descriptors
  import opened WitTypes
  import opened WitFiles

  // ---------------------------------------------------------------------------------------
  // Services
  // ---------------------------------------------------------------------------------------

  predicate MethodResolves(m: MethodDescriptor, package: seq<string>) {
    FromPath(m.input, package).Ok? && FromPath(m.output, package).Ok?
  }

  predicate ServiceResolves(s: ServiceDescriptor, package: seq<string>) {
    forall m <- s.methods :: MethodResolves(m, package)
  }

  predicate ServicesResolve(ss: seq<ServiceDescriptor>, package: seq<string>) {
    forall s <- ss :: ServiceResolves(s, package)
  }

  function MethodTypes(m: MethodDescriptor, package: seq<string>): set<TypeName>
    requires MethodResolves(m, package)
  {
    {FromPath(m.input, package).value, FromPath(m.output, package).value}
  }

  function ServiceTypes(s: ServiceDescriptor, package: seq<string>): set<TypeName>
    requires ServiceResolves(s, package)
  {
    set m, t | m in s.methods && t in MethodTypes(m, package) :: t
  }

  function ServicesTypes(ss: seq<ServiceDescriptor>, package: seq<string>): set<TypeName>
    requires ServicesResolve(ss, package)
  {
    set s, t | s in ss && t in ServiceTypes(s, package) :: t
  }

  /** Services use the types that the paths of their inputs and outputs name, and no others. */
  lemma ServicesUse(ss: seq<ServiceDescriptor>, package: seq<string>, t: TypeName)
    ensures ServicesResolve(ss, package) <==>
      forall s <- ss, m <- s.methods :: FromPath(m.input, package).Ok? && FromPath(m.output, package).Ok?
    ensures ServicesResolve(ss, package) ==>
      (t in ServicesTypes(ss, package) <==>
         exists s, m :: s in ss && m in s.methods && Ok(t) in {FromPath(m.input, package), FromPath(m.output, package)})
  {
    hide FromPath;
    if ServicesResolve(ss, package) {
      forall s, m | s in ss && m in s.methods && Ok(t) in {FromPath(m.input, package), FromPath(m.output, package)}
        ensures t in ServicesTypes(ss, package)
      {
        assert t in MethodTypes(m, package) && t in ServiceTypes(s, package);
      }
    }
  }

  method CompileService(wit: WitFile, s: ServiceDescriptor) returns (error: Option<CompileError>)
    requires wit.package.Some?
    modifies wit`services, wit`worldUsed
    ensures error.None? <==> ServiceResolves(s, wit.package.value)
    ensures error.None? ==> wit.worldUsed == old(wit.worldUsed) + ServiceTypes(s, wit.package.value)
    ensures error.None? ==> wit.services == old(wit.services) + [s]
  {
    ghost var package := wit.package.value;
    for i := 0 to |s.methods|
      invariant wit.services == old(wit.services)
      invariant forall j | 0 <= j < i :: MethodResolves(s.methods[j], package)
      invariant forall t :: t in wit.worldUsed <==>
        t in old(wit.worldUsed) || exists j :: 0 <= j < i && t in MethodTypes(s.methods[j], package)
    {
      var m := s.methods[i];
      var input := ResolvePath(m.input, wit.package.value);
      var output := ResolvePath(m.output, wit.package.value);
      if input.Err? || output.Err? {
        assert !MethodResolves(s.methods[i], package);
        return Some(BadPath);
      }
      wit.worldUsed := wit.worldUsed + {input.value, output.value};
      assert MethodTypes(m, package) == {input.value, output.value};
    }
    wit.services := wit.services + [s];
    error := None;
  }

  method CompileServices(wit: WitFile, ss: seq<ServiceDescriptor>) returns (error: Option<CompileError>)
    requires wit.package.Some?
    modifies wit`services, wit`worldUsed
    ensures error.None? <==> ServicesResolve(ss, wit.package.value)
    ensures error.None? ==> wit.services == old(wit.services) + ss
    ensures error.None? ==> wit.worldUsed == old(wit.worldUsed) + ServicesTypes(ss, wit.package.value)
  {
    hide ServiceTypes, ServiceResolves;
    for i := 0 to |ss|
      invariant forall j | 0 <= j < i :: ServiceResolves(ss[j], wit.package.value)
      invariant wit.services == old(wit.services) + ss[..i]
      invariant forall t :: t in wit.worldUsed <==>
        t in old(wit.worldUsed) || exists j :: 0 <= j < i && t in ServiceTypes(ss[j], wit.package.value)
    {
      error := CompileService(wit, ss[i]);
      if error.Some? {
        assert !ServiceResolves(ss[i], wit.package.value);
        return;
      }
      assert ss[..i + 1] == ss[..i] + [ss[i]];
    }
    assert ss[..|ss|] == ss;
    error := None;
  }

  // ---------------------------------------------------------------------------------------
  // Messages
  // ---------------------------------------------------------------------------------------

  /** The types of a set of roots and everything they refer to, all good and each defined once. */
  ghost predicate Closure(ds: DescriptorSet, package: seq<string>, a: Tables, roots: set<TypeName>) {
    && roots <= a.compiled
    && ClosedUnder(ds, package, a.compiled)
    && (forall t <- a.compiled :: Good(ds, package, t) && FromRoots(ds, package, roots, t))
    && (forall t :: Definitions(a.interfaces, t) == if t in a.compiled then 1 else 0)
    && Right(ds, package, a.interfaces)
  }

  ghost predicate FromRoots(ds: DescriptorSet, package: seq<string>, roots: set<TypeName>, t: TypeName) {
    exists r :: r in roots && Reaches(ds, package, r, t)
  }

  lemma RootsMore(ds: DescriptorSet, package: seq<string>, roots: set<TypeName>, r: TypeName, t: TypeName)
    requires FromRoots(ds, package, roots, t) || Reaches(ds, package, r, t)
    ensures FromRoots(ds, package, roots + {r}, t)
  {
    hide Reaches;
    assert r in roots + {r};
    if FromRoots(ds, package, roots, t) {
      var root :| root in roots && Reaches(ds, package, root, t);
      assert root in roots + {r};
    }
  }

  lemma ClosureMore(ds: DescriptorSet, package: seq<string>, a: Tables, b: Tables, roots: set<TypeName>, r: TypeName)
    requires Closure(ds, package, a, roots) && Advances(ds, package, a, b, r) && r in b.compiled
    ensures Closure(ds, package, b, roots + {r})
  {
    hide Good, Reaches, UsedBy, Definitions, Right, FromRoots;
    forall t <- b.compiled
      ensures Good(ds, package, t) && FromRoots(ds, package, roots + {r}, t)
      ensures forall u <- UsedBy(ds, package, t) :: u in b.compiled
    {
      assert t !in a.compiled ==> Added(ds, package, b, r, t);
      RootsMore(ds, package, roots, r, t);
    }
  }

  /** A closure of roots is everything that they reach. */
  lemma ClosureExact(ds: DescriptorSet, package: seq<string>, a: Tables, roots: set<TypeName>)
    requires Closure(ds, package, a, roots)
    ensures forall t :: t in a.compiled <==> FromRoots(ds, package, roots, t)
    ensures forall r <- roots :: !Fails(ds, package, r)
  {
    hide Good, Reaches, UsedBy, Definitions, Right;
    forall r <- roots, t | Reaches(ds, package, r, t) ensures t in a.compiled {
      ClosedReaches(ds, package, a.compiled, r, t);
    }
  }

  function FileRoots(file: FileDescriptor): set<TypeName> {
    set m | m in file.messages :: TopLevel(file).Type(m.name)
  }

  ghost predicate SomeFails(ds: DescriptorSet, package: seq<string>, roots: set<TypeName>) {
    exists r :: r in roots && Fails(ds, package, r)
  }

  method CompileMessages(wit: WitFile, e: FileEntry, ds: DescriptorSet, ghost roots: set<TypeName>, ghost kept: bool)
    returns (error: Option<CompileError>)
    requires wit.package == Some(TopLevel(e.file).package) && Keyed(ds) && FileListed(ds, e)
    requires kept ==> FileKept(ds, e) && Closure(ds, wit.package.value, wit.View(), roots)
    modifies wit`compiled, wit`interfaces
    ensures kept && error.None? ==> Closure(ds, wit.package.value, wit.View(), roots + FileRoots(e.file))
    ensures kept && error.Some? ==> SomeFails(ds, wit.package.value, FileRoots(e.file))
  {
    var q := TopLevel(e.file);
    hide Closure, Advances, Fails, Keyed;
    ghost var done := roots;
    for i := 0 to |e.file.messages|
      invariant kept ==> Closure(ds, wit.package.value, wit.View(), done)
      invariant forall t :: t in done <==> t in roots || exists j :: 0 <= j < i && t == q.Type(e.file.messages[j].name)
    {
      var m := e.file.messages[i];
      assert Entry(e, m).key == q.Type(m.name);
      ghost var before := wit.View();
      error := wit.CompileMessage(m, q, e.syntax, ds);
      if error.Some? {
        assert q.Type(m.name) in FileRoots(e.file);
        return;
      }
      if kept { ClosureMore(ds, wit.package.value, before, wit.View(), done, q.Type(m.name)); }
      done := done + {q.Type(m.name)};
    }
    assert done == roots + FileRoots(e.file);
    error := None;
  }

  // ---------------------------------------------------------------------------------------
  // Requests
  // ---------------------------------------------------------------------------------------

  function Package(ds: DescriptorSet, name: string): seq<string>
    requires name in ds.files
  {
    TopLevel(ds.files[name].file).package
  }

  /** The top-level messages of the files to generate. */
  function Roots(ds: DescriptorSet, names: seq<string>): set<TypeName> {
    if names == [] then {}
    else
      var n := |names| - 1;
      Roots(ds, names[..n]) + if names[n] in ds.files then FileRoots(ds.files[names[n]].file) else {}
  }

  /** The file is known, in the package of the server, and its services refer to types by proper paths. */
  predicate Presentable(ds: DescriptorSet, package: seq<string>, name: string) {
    && name in ds.files
    && Package(ds, name) == package
    && ServicesResolve(ds.files[name].file.services, package)
  }

  /** What it takes for the files to be generated. */
  ghost predicate Compilable(ds: DescriptorSet, names: seq<string>) {
    names != [] ==>
      && names[0] in ds.files
      && (forall i | 0 <= i < |names| :: Presentable(ds, Package(ds, names[0]), names[i]))
      && !SomeFails(ds, Package(ds, names[0]), Roots(ds, names))
  }

  lemma {:induction false} RootsOf(ds: DescriptorSet, names: seq<string>, i: nat)
    requires i < |names| && names[i] in ds.files
    ensures FileRoots(ds.files[names[i]].file) <= Roots(ds, names)
    decreases |names|
  {
    if i < |names| - 1 { RootsOf(ds, names[..|names| - 1], i); }
  }

  /** The roots are the top-level messages of all the files to generate, each under its own name. */
  lemma {:induction false} RootsExact(ds: DescriptorSet, names: seq<string>, t: TypeName)
    ensures t in Roots(ds, names) <==>
      exists name, m :: name in names && name in ds.files && m in ds.files[name].file.messages
        && t == TypeName(Qualifier(Split(ds.files[name].file.package, '.'), []), m.name)
  {
    hide Split;
    if names != [] {
      var n := |names| - 1;
      RootsExact(ds, names[..n], t);
      assert forall name :: name in names <==> name in names[..n] || name == names[n];
    }
  }

  /** What it takes for a file to be presented: to be known, in the package, and with paths that resolve. */
  lemma PresentableExact(ds: DescriptorSet, package: seq<string>, name: string)
    ensures Presentable(ds, package, name) <==>
      && name in ds.files
      && Split(ds.files[name].file.package, '.') == package
      && forall s <- ds.files[name].file.services, m <- s.methods ::
           FromPath(m.input, package).Ok? && FromPath(m.output, package).Ok?
  {
    hide Split, FromPath;
    if name in ds.files { ServicesUse(ds.files[name].file.services, package, TypeName(Qualifier([], []), [])); }
  }

  lemma SomeFailsIn(ds: DescriptorSet, package: seq<string>, some: set<TypeName>, all: set<TypeName>)
    requires SomeFails(ds, package, some) && some <= all
    ensures SomeFails(ds, package, all)
  {
    hide Fails;
    var r :| r in some && Fails(ds, package, r);
    assert r in all;
  }

  method SetOrCheckServerPackage(wit: WitFile, package: seq<string>) returns (conflict: bool)
    modifies wit`package
    ensures conflict <==> old(wit.package).Some? && old(wit.package).value != package
    ensures wit.package == if old(wit.package).Some? then old(wit.package) else Some(package)
  {
    if wit.package.None? { wit.package := Some(package); }
    conflict := wit.package.value != package;
  }

  lemma EmptyClosure(ds: DescriptorSet, package: seq<string>)
    ensures Closure(ds, package, Tables({}, map[]), {})
  {
  }

  /** One file to generate: its package, its services, its messages. */
  method CompileFile(
    wit: WitFile, name: string, ds: DescriptorSet, ghost package: seq<string>, ghost roots: set<TypeName>, ghost kept: bool)
    returns (error: Option<CompileError>)
    requires Keyed(ds) && (name in ds.files ==> FileListed(ds, ds.files[name]))
    requires kept && name in ds.files ==> FileKept(ds, ds.files[name])
    requires wit.package == None ==> name in ds.files ==> package == Package(ds, name)
    requires wit.package.Some? ==> wit.package.value == package
    requires kept ==> Closure(ds, package, wit.View(), roots)
    modifies wit
    ensures error.None? ==> Presentable(ds, package, name) && wit.package == Some(package)
    ensures kept && error.None? ==> Closure(ds, package, wit.View(), roots + FileRoots(ds.files[name].file))
    ensures kept && error.Some? && Presentable(ds, package, name) ==>
              SomeFails(ds, package, FileRoots(ds.files[name].file))
  {
    hide Closure, FileKept, FileListed, Keyed, SomeFails, ServicesResolve;
    if name !in ds.files {
      return Some(UnknownFile);
    }
    var e := ds.files[name];
    ghost var before := wit.View();
    var conflict := SetOrCheckServerPackage(wit, TopLevel(e.file).package);
    if conflict {
      return Some(ConflictingPackages);
    }
    error := CompileServices(wit, e.file.services);
    if error.Some? {
      return;
    }
    assert wit.View() == before;
    error := CompileMessages(wit, e, ds, roots, kept);
  }

  /** The types that the request defines: those its top-level messages reach. */
  ghost predicate Defines(ds: DescriptorSet, names: seq<string>, t: TypeName) {
    names != [] && names[0] in ds.files && FromRoots(ds, Package(ds, names[0]), Roots(ds, names), t)
  }

  /** What the WIT file holds when the request was compiled. */
  ghost predicate Compiled(ds: DescriptorSet, names: seq<string>, a: Tables) {
    && (forall t :: t in a.compiled <==> Defines(ds, names, t))
    && (forall t :: Definitions(a.interfaces, t) == if Defines(ds, names, t) then 1 else 0)
    && (names != [] && names[0] in ds.files ==> Right(ds, Package(ds, names[0]), a.interfaces))
  }

  /**
    * Every request is answered. If no message name is declared twice, it succeeds if and only if its
    * files are known, of one package, with proper paths, and no type that their messages reach is
    * unsupported or refers to an unknown one. Then exactly the types so reached are defined, each
    * once, under its own qualifier, as its descriptor says.
    */
  method Compile(files: seq<FileDescriptor>, names: seq<string>) returns (wit: WitFile, error: Option<CompileError>)
    ensures fresh(wit)
    ensures Described(files).Err? ==> error == Some(Described(files).error)
    ensures Described(files).Ok? && error.None? ==>
              forall i | 0 <= i < |names| :: Presentable(Described(files).value, wit.package.UnwrapOr([]), names[i])
    ensures Described(files).Ok? && UniqueMessages(files) ==>
      && (error.None? <==> Compilable(Described(files).value, names))
      && (error.None? ==> Compiled(Described(files).value, names, wit.View()))
  {
    wit := new WitFile();
    var described := Build(files);
    if described.Err? {
      return wit, Some(described.error);
    }
    var ds := described.value;
    ghost var kept := UniqueMessages(files);
    DescribedKeyed(files);
    forall i | 0 <= i < |names| && names[i] in ds.files
      ensures FileListed(ds, ds.files[names[i]]) && (kept ==> FileKept(ds, ds.files[names[i]]))
    {
      DescribedListed(files, names[i]);
      if kept { DescribedKept(files, names[i]); }
    }
    hide Described, UniqueMessages, Compilable, Compiled, FileKept, FileListed, Keyed, Presentable;
    error := CompileFiles(wit, ds, names, kept);
  }

  method CompileFiles(wit: WitFile, ds: DescriptorSet, names: seq<string>, ghost kept: bool)
    returns (error: Option<CompileError>)
    requires Keyed(ds) && forall i | 0 <= i < |names| && names[i] in ds.files :: FileListed(ds, ds.files[names[i]])
    requires kept ==> forall i | 0 <= i < |names| && names[i] in ds.files :: FileKept(ds, ds.files[names[i]])
    requires wit.package == None && wit.View() == Tables({}, map[])
    modifies wit
    ensures error.None? ==> forall i | 0 <= i < |names| :: Presentable(ds, wit.package.UnwrapOr([]), names[i])
    ensures kept ==> (error.None? <==> Compilable(ds, names))
    ensures kept && error.None? ==> Compiled(ds, names, wit.View())
  {
    ghost var package := if names != [] && names[0] in ds.files then Package(ds, names[0]) else [];
    EmptyClosure(ds, package);
    hide Closure, FileKept, FileListed, Keyed, SomeFails, Presentable, Compiled;
    for i := 0 to |names|
      invariant i == 0 ==> wit.package == None
      invariant i > 0 ==> names[0] in ds.files && wit.package == Some(package)
      invariant forall j | 0 <= j < i :: Presentable(ds, package, names[j])
      invariant kept ==> Closure(ds, package, wit.View(), Roots(ds, names[..i]))
    {
      assert names[..i + 1][..i] == names[..i];
      error := CompileFile(wit, names[i], ds, package, Roots(ds, names[..i]), kept);
      if error.Some? {
        if kept && Presentable(ds, package, names[i]) { FileFails(ds, package, names, i); }
        return;
      }
      PresentableKnown(ds, package, names[i]);
    }
    assert names[..|names|] == names;
    if kept { ClosureSucceeds(ds, package, names, wit.View()); }
    error := None;
  }

  lemma PresentableKnown(ds: DescriptorSet, package: seq<string>, name: string)
    requires Presentable(ds, package, name)
    ensures name in ds.files && Package(ds, name) == package
  {
  }

  lemma FileFails(ds: DescriptorSet, package: seq<string>, names: seq<string>, i: nat)
    requires i < |names| && Presentable(ds, package, names[i])
    requires SomeFails(ds, package, FileRoots(ds.files[names[i]].file))
    ensures SomeFails(ds, package, Roots(ds, names))
  {
    RootsOf(ds, names, i);
    SomeFailsIn(ds, package, FileRoots(ds.files[names[i]].file), Roots(ds, names));
  }

  lemma ClosureSucceeds(ds: DescriptorSet, package: seq<string>, names: seq<string>, a: Tables)
    requires Closure(ds, package, a, Roots(ds, names))
    requires names != [] ==> names[0] in ds.files && package == Package(ds, names[0])
    ensures !SomeFails(ds, package, Roots(ds, names))
    ensures Compiled(ds, names, a)
  {
    ClosureExact(ds, package, a, Roots(ds, names));
  }
}
