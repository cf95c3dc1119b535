/**
  * The WIT file being built (`WitFile`): a depth-first closure over the graph of types, which may
  * have cycles, that defines every type it gets to once, in the interface of its qualifier.
  */
module WitFiles {
  import opened Prelude
  import opened Strings
  import opened TypePaths
  import opened Descriptors
  import opened WitTypes

  datatype Interface = Interface(defined: seq<TypeDef>, used: set<TypeName>)

  type Interfaces = map<Qualifier, Interface>

  /** What the compilation of types changes. */
  datatype Tables = Tables(compiled: set<TypeName>, interfaces: Interfaces)

  function Elements(s: seq<TypeName>): (r: set<TypeName>)
    ensures forall x :: x in r <==> x in s
  {
    set x | x in s
  }

  function Upsert(interfaces: Interfaces, q: Qualifier, definition: TypeDef, used: seq<TypeName>): Interfaces {
    if q in interfaces then
      interfaces[q := Interface(interfaces[q].defined + [definition], interfaces[q].used + Elements(used))]
    else
      interfaces[q := Interface([definition], Elements(used))]
  }

  /** How many of the definitions have the name. */
  function Named(definitions: seq<TypeDef>, name: string): nat {
    if definitions == [] then 0
    else
      var n := |definitions| - 1;
      Named(definitions[..n], name) + if definitions[n].name == name then 1 else 0
  }

  /** How often the type is defined in the interface of its qualifier. */
  function Definitions(interfaces: Interfaces, t: TypeName): nat {
    if t.qualifier in interfaces then Named(interfaces[t.qualifier].defined, t.name) else 0
  }

  /** The definition that the descriptors give the type. */
  predicate Renders(ds: DescriptorSet, package: seq<string>, t: TypeName, definition: TypeDef) {
    if t in ds.messages then
      DefinitionOf(ds, package, t).Ok? && definition == RecordDef(t.name, DefinitionOf(ds, package, t).value.fields)
    else
      t in ds.enums && definition == EnumDef(t.name, ds.enums[t].values)
  }

  /** Every definition is the right one, and an interface uses exactly what its definitions refer to. */
  ghost predicate Right(ds: DescriptorSet, package: seq<string>, interfaces: Interfaces) {
    forall q <- interfaces :: RightInterface(ds, package, q, interfaces[q])
  }

  ghost predicate RightInterface(ds: DescriptorSet, package: seq<string>, q: Qualifier, i: Interface) {
    && (forall d <- i.defined :: Renders(ds, package, q.Type(d.name), d))
    && (forall u :: u in i.used <==> Mentions(ds, package, q, i.defined, u))
  }

  ghost predicate Mentions(ds: DescriptorSet, package: seq<string>, q: Qualifier, defined: seq<TypeDef>, u: TypeName) {
    exists d :: d in defined && u in UsedBy(ds, package, q.Type(d.name))
  }

  /**
    * What compiling from `start` does to the tables: it adds good types that `start` reaches, with
    * everything they refer to, and defines each of them once.
    */
  ghost predicate Advances(ds: DescriptorSet, package: seq<string>, a: Tables, b: Tables, start: TypeName) {
    && a.compiled <= b.compiled
    && (forall t <- b.compiled | t !in a.compiled :: Added(ds, package, b, start, t))
    && (forall t :: Definitions(b.interfaces, t) ==
                    Definitions(a.interfaces, t) + if t in b.compiled && t !in a.compiled then 1 else 0)
    && (Right(ds, package, a.interfaces) ==> Right(ds, package, b.interfaces))
  }

  ghost predicate Added(ds: DescriptorSet, package: seq<string>, b: Tables, start: TypeName, t: TypeName) {
    && Good(ds, package, t)
    && Reaches(ds, package, start, t)
    && forall u <- UsedBy(ds, package, t) :: u in b.compiled
  }

  lemma AdvanceOn(ds: DescriptorSet, package: seq<string>, a: Tables, b: Tables, c: Tables, start: TypeName, u: TypeName)
    requires Advances(ds, package, a, b, start) && Advances(ds, package, b, c, u)
    requires u in UsedBy(ds, package, start)
    ensures Advances(ds, package, a, c, start)
  {
    hide Good, Right, Reaches, UsedBy, Definitions;
    forall t <- c.compiled | t !in a.compiled ensures Added(ds, package, c, start, t) {
      if t in b.compiled {
        assert Added(ds, package, b, start, t);
      } else {
        assert Added(ds, package, c, u, t);
        ReachesOn(ds, package, start, u, t);
      }
    }
  }

  lemma NamedMore(definitions: seq<TypeDef>, d: TypeDef, name: string)
    ensures Named(definitions + [d], name) == Named(definitions, name) + if d.name == name then 1 else 0
  {
    assert (definitions + [d])[..|definitions|] == definitions;
  }

  lemma UpsertCounts(interfaces: Interfaces, q: Qualifier, definition: TypeDef, used: seq<TypeName>, t: TypeName)
    ensures Definitions(Upsert(interfaces, q, definition, used), t) ==
            Definitions(interfaces, t) + if t == q.Type(definition.name) then 1 else 0
  {
    NamedMore([], definition, t.name);
    assert [] + [definition] == [definition] && Named([], t.name) == 0;
    if q in interfaces { NamedMore(interfaces[q].defined, definition, t.name); }
    assert t == t.qualifier.Type(t.name);
    hide Named;
  }

  lemma UpsertRight(
    ds: DescriptorSet, package: seq<string>, interfaces: Interfaces, q: Qualifier, definition: TypeDef, used: seq<TypeName>)
    requires Right(ds, package, interfaces) && Renders(ds, package, q.Type(definition.name), definition)
    requires used == UsedBy(ds, package, q.Type(definition.name))
    ensures Right(ds, package, Upsert(interfaces, q, definition, used))
  {
    hide Renders, UsedBy;
    var before := if q in interfaces then interfaces[q] else Interface([], {});
    assert RightInterface(ds, package, q, before);
    var after := Upsert(interfaces, q, definition, used)[q];
    assert after.defined == before.defined + [definition];
    forall d <- after.defined ensures Renders(ds, package, q.Type(d.name), d) {
      assert d in before.defined || d == definition;
    }
    forall u ensures u in after.used <==> Mentions(ds, package, q, after.defined, u) {
      if u in after.used {
        if u in before.used {
          assert Mentions(ds, package, q, before.defined, u);
          var d :| d in before.defined && u in UsedBy(ds, package, q.Type(d.name));
          assert d in after.defined;
        } else {
          assert definition in after.defined;
        }
      }
      if Mentions(ds, package, q, after.defined, u) {
        var d :| d in after.defined && u in UsedBy(ds, package, q.Type(d.name));
        assert d in before.defined ==> Mentions(ds, package, q, before.defined, u);
      }
    }
  }

  /** Defining the type one started from, after everything it refers to. */
  lemma AdvanceHome(
    ds: DescriptorSet, package: seq<string>, a: Tables, b: Tables, t: TypeName, definition: TypeDef, used: seq<TypeName>)
    requires t !in a.compiled && Advances(ds, package, a.(compiled := a.compiled + {t}), b, t)
    requires Good(ds, package, t) && Renders(ds, package, t, definition) && definition.name == t.name
    requires used == UsedBy(ds, package, t) && forall u <- used :: u in b.compiled
    ensures Advances(ds, package, a, b.(interfaces := Upsert(b.interfaces, t.qualifier, definition, used)), t)
  {
    var c := b.(interfaces := Upsert(b.interfaces, t.qualifier, definition, used));
    hide Good, Renders, UsedBy, Reaches, Definitions, Upsert, RightInterface;
    ReachesSelf(ds, package, t);
    forall n ensures Definitions(c.interfaces, n) ==
                     Definitions(a.interfaces, n) + if n in c.compiled && n !in a.compiled then 1 else 0
    {
      UpsertCounts(b.interfaces, t.qualifier, definition, used, n);
    }
    forall n <- c.compiled | n !in a.compiled ensures Added(ds, package, c, t, n) {
      if n != t { assert Added(ds, package, b, t, n); }
    }
    if Right(ds, package, a.interfaces) {
      UpsertRight(ds, package, b.interfaces, t.qualifier, definition, used);
    }
  }

  ghost predicate Fails(ds: DescriptorSet, package: seq<string>, start: TypeName) {
    exists t :: Reaches(ds, package, start, t) && !Good(ds, package, t)
  }

  lemma FailsOn(ds: DescriptorSet, package: seq<string>, start: TypeName, u: TypeName)
    requires u in UsedBy(ds, package, start) && Fails(ds, package, u)
    ensures Fails(ds, package, start)
  {
    var t :| Reaches(ds, package, u, t) && !Good(ds, package, t);
    ReachesOn(ds, package, start, u, t);
  }

  lemma FailsHere(ds: DescriptorSet, package: seq<string>, start: TypeName)
    requires !Good(ds, package, start)
    ensures Fails(ds, package, start)
  {
    ReachesSelf(ds, package, start);
  }

  /** The first of the types are known and compiled. */
  ghost predicate Covered(ds: DescriptorSet, compiled: set<TypeName>, used: seq<TypeName>, n: nat)
    requires n <= |used|
  {
    forall j | 0 <= j < n :: used[j] in compiled && Known(ds, used[j])
  }

  lemma CoveredNone(ds: DescriptorSet, compiled: set<TypeName>, used: seq<TypeName>)
    ensures Covered(ds, compiled, used, 0)
  {
  }

  lemma CoveredMore(ds: DescriptorSet, a: set<TypeName>, b: set<TypeName>, used: seq<TypeName>, n: nat)
    requires n < |used| && Covered(ds, a, used, n) && a <= b && used[n] in b && Known(ds, used[n])
    ensures Covered(ds, b, used, n + 1)
  {
  }

  class WitFile {
    var package: Option<seq<string>>
    var services: seq<ServiceDescriptor>
    var worldUsed: set<TypeName>
    var interfaces: Interfaces
    var compiled: set<TypeName>

    constructor ()
      ensures package == None && services == [] && worldUsed == {}
      ensures interfaces == map[] && compiled == {}
    {
      package, services, worldUsed, interfaces, compiled := None, [], {}, map[], {};
    }

    ghost function View(): Tables
      reads this
    {
      Tables(compiled, interfaces)
    }

    method UpsertTypeDefinition(q: Qualifier, definition: TypeDef, used: seq<TypeName>)
      modifies this`interfaces
      ensures interfaces == Upsert(old(interfaces), q, definition, used)
    {
      if q in interfaces {
        var i := interfaces[q];
        interfaces := interfaces[q := Interface(i.defined + [definition], i.used + Elements(used))];
      } else {
        interfaces := interfaces[q := Interface([definition], Elements(used))];
      }
    }

    method CompileEnum(e: EnumDescriptor, q: Qualifier, ghost ds: DescriptorSet)
      requires package.Some?
      requires q.Type(e.name) !in ds.messages
      requires q.Type(e.name) in ds.enums && ds.enums[q.Type(e.name)] == e
      modifies this`compiled, this`interfaces
      ensures q.Type(e.name) in compiled
      ensures Advances(ds, package.value, old(View()), View(), q.Type(e.name))
    {
      var t := q.Type(e.name);
      if t !in compiled {
        ghost var before := View();
        compiled := compiled + {t};
        var definition := EnumDef(t.name, e.values);
        AdvanceHome(ds, package.value, before, View(), t, definition, []);
        UpsertTypeDefinition(q, definition, []);
      }
    }

    /**
      * Adds exactly good types reached from the message, each defined once, and fails only if the
      * message reaches a type that is not good, provided the message is the one kept under its name.
      * Terminates on any graph, be that so or not.
      */
    method CompileMessage(d: MessageDescriptor, q: Qualifier, syntax: Syntax, ds: DescriptorSet)
      returns (error: Option<CompileError>)
      requires package.Some? && Keyed(ds) && q.Type(d.name) in ds.messages
      modifies this`compiled, this`interfaces
      ensures old(compiled) <= compiled
      ensures error.None? ==> q.Type(d.name) in compiled
      ensures ds.messages[q.Type(d.name)] == MessageEntry(d, syntax) ==>
        && (error.None? ==> Advances(ds, package.value, old(View()), View(), q.Type(d.name)))
        && (error.Some? ==> Fails(ds, package.value, q.Type(d.name)))
      decreases ds.messages.Keys - compiled, 0
    {
      var t := q.Type(d.name);
      ghost var pkg, kept := package.value, ds.messages[q.Type(d.name)] == MessageEntry(d, syntax);
      if t in compiled {
        return None;
      }
      ghost var before := View();
      compiled := compiled + {t};
      var definition := MessageTypeDefinition(d, syntax, package.value);
      if definition.Err? {
        if kept { FailsHere(ds, pkg, t); }
        return Some(definition.error);
      }
      var used := definition.value.used;
      assert kept ==> used == UsedBy(ds, pkg, t);
      hide Good, Renders, UsedBy, Advances, Fails, Known;
      error := CompileAllUsed(t, used, ds, kept);
      if error.Some? {
        return;
      }
      var record := RecordDef(t.name, definition.value.fields);
      if kept {
        AllKnown(ds, pkg, t);
        AdvanceHome(ds, pkg, before, View(), t, record, used);
      }
      UpsertTypeDefinition(q, record, used);
    }

    method CompileAllUsed(ghost t: TypeName, used: seq<TypeName>, ds: DescriptorSet, ghost kept: bool)
      returns (error: Option<CompileError>)
      requires package.Some? && Keyed(ds)
      requires kept ==> forall u <- used :: u in UsedBy(ds, package.value, t)
      modifies this`compiled, this`interfaces
      ensures old(compiled) <= compiled
      ensures error.None? ==> Covered(ds, compiled, used, |used|)
      ensures kept && error.None? ==> Advances(ds, package.value, old(View()), View(), t)
      ensures kept && error.Some? ==> Fails(ds, package.value, t)
      decreases ds.messages.Keys - compiled, 2
    {
      ghost var pkg, before := package.value, View();
      AdvanceNone(ds, pkg, before, t);
      CoveredNone(ds, compiled, used);
      hide UsedBy, Advances, Fails, Known, Covered;
      for i := 0 to |used|
        invariant before.compiled <= compiled && (kept ==> Advances(ds, pkg, before, View(), t))
        invariant Covered(ds, compiled, used, i)
      {
        ghost var here := View();
        error := CompileUsed(used[i], ds);
        if error.Some? {
          if kept { FailsOn(ds, pkg, t, used[i]); }
          return;
        }
        if kept { AdvanceOn(ds, pkg, before, here, View(), t, used[i]); }
        CoveredMore(ds, here.compiled, compiled, used, i);
      }
      error := None;
    }

    /** One type that a message refers to: a message first, else an enum, else it is unknown. */
    method CompileUsed(u: TypeName, ds: DescriptorSet) returns (error: Option<CompileError>)
      requires package.Some? && Keyed(ds)
      modifies this`compiled, this`interfaces
      ensures old(compiled) <= compiled
      ensures error.None? ==> u in compiled && Known(ds, u)
      ensures error.None? ==> Advances(ds, package.value, old(View()), View(), u)
      ensures error.Some? ==> Fails(ds, package.value, u)
      decreases ds.messages.Keys - compiled, 1
    {
      if u in ds.messages {
        var entry := ds.messages[u];
        error := CompileMessage(entry.message, u.qualifier, entry.syntax, ds);
      } else if u in ds.enums {
        CompileEnum(ds.enums[u], u.qualifier, ds);
        error := None;
      } else {
        FailsHere(ds, package.value, u);
        error := Some(TypeNotFound(u));
      }
    }
  }

  lemma AdvanceNone(ds: DescriptorSet, package: seq<string>, a: Tables, t: TypeName)
    ensures Advances(ds, package, a, a, t)
  {
  }

  lemma AllKnown(ds: DescriptorSet, package: seq<string>, t: TypeName)
    requires t in ds.messages && DefinitionOf(ds, package, t).Ok?
    requires forall u <- UsedBy(ds, package, t) :: Known(ds, u)
    ensures Good(ds, package, t)
    ensures Renders(ds, package, t, RecordDef(t.name, DefinitionOf(ds, package, t).value.fields))
  {
  }
}
