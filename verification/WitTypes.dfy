/** From message and enum descriptors to WIT type definitions, and which types they refer to. */
module WitTypes {
  import opened Prelude
  import opened TypePaths
  import opened Descriptors

  datatype WitType =
    | F64 | F32 | S64 | U64 | S32 | U32 | U8 | WitBool | WitString
    | ListOf(item: WitType)
    | OptionOf(item: WitType)
    | NamedType(name: string)

  datatype WitField = WitField(name: string, wit: WitType)

  datatype TypeDef = RecordDef(name: string, fields: seq<WitField>) | EnumDef(name: string, cases: seq<string>)

  /** The fields of a record, and the types they refer to in order of mention. */
  datatype Definition = Definition(fields: seq<WitField>, used: seq<TypeName>)

  function ScalarWit(kind: ProtoType): WitType
    requires kind !in {ProtoType.Message, ProtoType.Enum, ProtoType.Group}
  {
    match kind
    case Double => F64
    case Float => F32
    case Int64 => S64
    case Uint64 => U64
    case Int32 => S32
    case Fixed64 => U64
    case Fixed32 => U32
    case Bool => WitBool
    case String => WitString
    case Bytes => ListOf(U8)
    case Uint32 => U32
    case Sfixed32 => S32
    case Sfixed64 => S64
    case Sint32 => S32
    case Sint64 => S64
  }

  function Labelled(f: FieldDescriptor, wit: WitType, syntax: Syntax): Result<WitType, CompileError> {
    match f.cardinality
    case Optional => Ok(if syntax.Proto2? || f.proto3Optional then OptionOf(wit) else wit)
    case Required => Err(RequiredUnsupported)
    case Repeated => Ok(ListOf(wit))
  }

  /** The definition with one more field. */
  function AddField(before: Definition, f: FieldDescriptor, syntax: Syntax, package: seq<string>)
    : Result<Definition, CompileError>
  {
    match f.kind
    case Group => Err(GroupUnsupported)
    case Message => AddNamed(before, f, syntax, package)
    case Enum => AddNamed(before, f, syntax, package)
    case _ =>
      var wit :- Labelled(f, ScalarWit(f.kind), syntax);
      Ok(Definition(before.fields + [WitField(f.name, wit)], before.used))
  }

  function AddNamed(before: Definition, f: FieldDescriptor, syntax: Syntax, package: seq<string>)
    : Result<Definition, CompileError>
  {
    match FromPath(f.typeName, package)
    case Err(_) => Err(BadPath)
    case Ok(used) =>
      var wit :- Labelled(f, NamedType(used.name), syntax);
      Ok(Definition(before.fields + [WitField(f.name, wit)], before.used + [used]))
  }

  function Define(fields: seq<FieldDescriptor>, syntax: Syntax, package: seq<string>): Result<Definition, CompileError> {
    if fields == [] then Ok(Definition([], []))
    else
      var before :- Define(fields[..|fields| - 1], syntax, package);
      AddField(before, fields[|fields| - 1], syntax, package)
  }

  lemma {:induction false} DefineFails(fields: seq<FieldDescriptor>, n: nat, syntax: Syntax, package: seq<string>)
    requires n <= |fields| && Define(fields[..n], syntax, package).Err?
    ensures Define(fields, syntax, package) == Define(fields[..n], syntax, package)
    decreases |fields|
  {
    if n < |fields| {
      assert fields[..|fields| - 1][..n] == fields[..n];
      DefineFails(fields[..|fields| - 1], n, syntax, package);
    } else {
      assert fields[..n] == fields;
    }
  }

  /** The body of the loop over fields: the type, then the label. */
  method PushField(before: Definition, f: FieldDescriptor, syntax: Syntax, package: seq<string>)
    returns (r: Result<Definition, CompileError>)
    ensures r == AddField(before, f, syntax, package)
  {
    var used := before.used;
    var wit: WitType;
    if f.kind.Group? {
      return Err(GroupUnsupported);
    } else if f.kind.Message? || f.kind.Enum? {
      var name := ResolvePath(f.typeName, package);
      if name.Err? {
        return Err(BadPath);
      }
      used := used + [name.value];
      wit := NamedType(name.value.name);
    } else {
      wit := ScalarWit(f.kind);
    }
    match f.cardinality {
      case Optional => if syntax.Proto2? || f.proto3Optional { wit := OptionOf(wit); }
      case Required => return Err(RequiredUnsupported);
      case Repeated => wit := ListOf(wit);
    }
    r := Ok(Definition(before.fields + [WitField(f.name, wit)], used));
  }

  method MessageTypeDefinition(d: MessageDescriptor, syntax: Syntax, package: seq<string>)
    returns (r: Result<Definition, CompileError>)
    ensures r == Define(d.fields, syntax, package)
  {
    hide AddField;
    r := Ok(Definition([], []));
    for i := 0 to |d.fields|
      invariant r.Ok? && Define(d.fields[..i], syntax, package) == r
    {
      assert d.fields[..i + 1][..i] == d.fields[..i];
      r := PushField(r.value, d.fields[i], syntax, package);
      if r.Err? {
        DefineFails(d.fields, i + 1, syntax, package);
        return;
      }
    }
    assert d.fields[..|d.fields|] == d.fields;
  }

  // ---------------------------------------------------------------------------------------
  // The graph of types
  // ---------------------------------------------------------------------------------------

  /** The definition of a message by name; `default_package` is the package of the server. */
  function DefinitionOf(ds: DescriptorSet, package: seq<string>, t: TypeName): Result<Definition, CompileError>
    requires t in ds.messages
  {
    Define(ds.messages[t].message.fields, ds.messages[t].syntax, package)
  }

  /** The types a type refers to; an enum refers to none. */
  function UsedBy(ds: DescriptorSet, package: seq<string>, t: TypeName): seq<TypeName> {
    if t in ds.messages && DefinitionOf(ds, package, t).Ok? then DefinitionOf(ds, package, t).value.used else []
  }

  predicate Known(ds: DescriptorSet, t: TypeName) {
    t in ds.messages || t in ds.enums
  }

  /** The type can be defined, and everything it refers to is known. */
  predicate Good(ds: DescriptorSet, package: seq<string>, t: TypeName) {
    && Known(ds, t)
    && (t in ds.messages ==> DefinitionOf(ds, package, t).Ok?)
    && (forall u <- UsedBy(ds, package, t) :: Known(ds, u))
  }

  ghost predicate IsPath(ds: DescriptorSet, package: seq<string>, path: seq<TypeName>) {
    && path != []
    && forall i | 0 <= i < |path| - 1 :: path[i + 1] in UsedBy(ds, package, path[i])
  }

  ghost predicate Reaches(ds: DescriptorSet, package: seq<string>, a: TypeName, b: TypeName) {
    exists path :: IsPath(ds, package, path) && path[0] == a && path[|path| - 1] == b
  }

  lemma ReachesSelf(ds: DescriptorSet, package: seq<string>, a: TypeName)
    ensures Reaches(ds, package, a, a)
  {
    assert IsPath(ds, package, [a]);
  }

  lemma ReachesOn(ds: DescriptorSet, package: seq<string>, a: TypeName, u: TypeName, b: TypeName)
    requires u in UsedBy(ds, package, a) && Reaches(ds, package, u, b)
    ensures Reaches(ds, package, a, b)
  {
    var path :| IsPath(ds, package, path) && path[0] == u && path[|path| - 1] == b;
    hide UsedBy;
    var longer := [a] + path;
    forall i | 0 <= i < |longer| - 1 ensures longer[i + 1] in UsedBy(ds, package, longer[i]) {
      assert longer[i + 1] == path[i] && (i > 0 ==> longer[i] == path[i - 1]);
    }
    assert IsPath(ds, package, longer) && longer[|longer| - 1] == b;
  }

  ghost predicate ClosedUnder(ds: DescriptorSet, package: seq<string>, types: set<TypeName>) {
    forall t <- types, u <- UsedBy(ds, package, t) :: u in types
  }

  lemma ClosedReaches(ds: DescriptorSet, package: seq<string>, types: set<TypeName>, a: TypeName, b: TypeName)
    requires ClosedUnder(ds, package, types) && a in types && Reaches(ds, package, a, b)
    ensures b in types
  {
    var path :| IsPath(ds, package, path) && path[0] == a && path[|path| - 1] == b;
    PathStays(ds, package, types, path);
  }

  lemma {:induction false} PathStays(ds: DescriptorSet, package: seq<string>, types: set<TypeName>, path: seq<TypeName>)
    requires ClosedUnder(ds, package, types) && IsPath(ds, package, path) && path[0] in types
    ensures path[|path| - 1] in types
  {
    if |path| > 1 {
      assert path[1] in UsedBy(ds, package, path[0]);
      PathStays(ds, package, types, path[1..]);
    }
  }
}
