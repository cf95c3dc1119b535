/**
  * The types of a definition against the runtime: a field of a message is given the component type of
  * exactly those values that the runtime's coding of the same Protobuf type takes.
  */
module WitKinds {
  import opened Prelude
  import opened TypePaths
  import opened Descriptors
  import opened WitTypes
  import opened WitFiles
  import Values
  import opened Format

  /** The values of a component type. A named type is a record or an enumeration. */
  predicate Admits(wit: WitType, v: Values.Val)
    decreases wit
  {
    match wit
    case F64 => v.Float64?
    case F32 => v.Float32?
    case S64 => v.S64?
    case U64 => v.U64?
    case S32 => v.S32?
    case U32 => v.U32?
    case U8 => v.U8?
    case WitBool => v.Bool?
    case WitString => v.String?
    case ListOf(item) => v.List? && forall i | 0 <= i < |v.items| :: Admits(item, v.items[i])
    case OptionOf(item) => v.Opt? && (v.option.Some? ==> Admits(item, v.option.value))
    case NamedType(_) => v.Record? || v.Enum?
  }

  /** The number of the runtime's coding, of presence 0, for each Protobuf scalar type. */
  function CodingOf(kind: ProtoType): Option<i32> {
    match kind
    case Bytes => Some(0)
    case String => Some(4)
    case Bool => Some(12)
    case Int32 => Some(16)
    case Sint32 => Some(20)
    case Sfixed32 => Some(24)
    case Uint32 => Some(28)
    case Fixed32 => Some(32)
    case Int64 => Some(36)
    case Sint64 => Some(40)
    case Sfixed64 => Some(44)
    case Uint64 => Some(48)
    case Fixed64 => Some(52)
    case Float => Some(56)
    case Double => Some(60)
    case Message => None
    case Enum => None
    case Group => None
  }

  /** Whether absence of the field can be told from its default. */
  predicate IsOption(f: FieldDescriptor, syntax: Syntax) {
    f.cardinality == Optional && (syntax == Proto2 || f.proto3Optional)
  }

  /** The runtime's field for the descriptor: repeated of presence 3, optional of 2, else of 0. */
  function RuntimeField(f: FieldDescriptor, syntax: Syntax, number: u32, coding: i32): Values.Field
    requires 0 <= coding <= 60
  {
    var presence := if f.cardinality == Repeated then 3 else if IsOption(f, syntax) then 2 else 0;
    Values.Field(number, f.name, [], Values.ScalarCoding(coding + presence))
  }

  /** The field can be given a type. */
  predicate Typeable(f: FieldDescriptor, package: seq<string>) {
    && f.kind != Group && f.cardinality != Required
    && (f.kind in {ProtoType.Message, ProtoType.Enum} ==> FromPath(f.typeName, package).Ok?)
  }

  /** The type the field is given: by the values it has, or by the name it resolves to. */
  ghost predicate RightField(f: FieldDescriptor, syntax: Syntax, package: seq<string>, w: WitField) {
    && w.name == f.name
    && match CodingOf(f.kind)
       case Some(coding) =>
         forall v, number :: Admits(w.wit, v) <==> Written(RuntimeField(f, syntax, number, coding), v).Some?
       case None =>
         && f.kind in {ProtoType.Message, ProtoType.Enum} && FromPath(f.typeName, package).Ok?
         && var named := NamedType(FromPath(f.typeName, package).value.name);
            w.wit == if f.cardinality == Repeated then ListOf(named) else if IsOption(f, syntax) then OptionOf(named) else named
  }

  // ---------------------------------------------------------------------------------------
  // Scalars
  // ---------------------------------------------------------------------------------------

  lemma ScalarAdmits(kind: ProtoType, coding: i32, v: Values.Val, presence: nat)
    requires CodingOf(kind) == Some(coding) && presence in {0, 2, 3}
    ensures Admits(ScalarWit(kind), v) <==> ScalarToken(coding + presence, v).Some?
  {
    assert v.List? ==> forall i | 0 <= i < |v.items| :: Admits(U8, v.items[i]) <==> v.items[i].U8?;
  }

  lemma {:induction false} TokensAdmit(kind: ProtoType, coding: i32, items: seq<Values.Val>)
    requires CodingOf(kind) == Some(coding)
    ensures LeafTokens(ScalarLeaf(coding + 3), items).Some? <==>
      forall i | 0 <= i < |items| :: Admits(ScalarWit(kind), items[i])
  {
    hide ScalarToken, Admits, ScalarWit;
    if items != [] {
      ScalarAdmits(kind, coding, items[0], 3);
      TokensAdmit(kind, coding, items[1..]);
    }
  }

  /** The type of a field of a scalar type, with its label. */
  lemma ScalarFieldRight(f: FieldDescriptor, syntax: Syntax, package: seq<string>, coding: i32, v: Values.Val, number: u32)
    requires CodingOf(f.kind) == Some(coding) && f.cardinality != Required
    ensures Labelled(f, ScalarWit(f.kind), syntax).Ok?
    ensures Admits(Labelled(f, ScalarWit(f.kind), syntax).value, v) <==>
            Written(RuntimeField(f, syntax, number, coding), v).Some?
  {
    hide ScalarToken, LeafTokens, ScalarWit, CodingOf, Written, RuntimeField;
    CodingSteps(f.kind, coding);
    if f.cardinality == Repeated {
      WrittenSome(number, f.name, coding, 3, v);
      if v.List? { TokensAdmit(f.kind, coding, v.items); }
    } else if IsOption(f, syntax) {
      WrittenSome(number, f.name, coding, 2, v);
      if v.Opt? && v.option.Some? { ScalarAdmits(f.kind, coding, v.option.value, 2); }
    } else {
      WrittenSome(number, f.name, coding, 0, v);
      ScalarAdmits(f.kind, coding, v, 0);
    }
    RuntimeFieldIs(f, syntax, number, coding);
  }

  lemma RuntimeFieldIs(f: FieldDescriptor, syntax: Syntax, number: u32, coding: i32)
    requires 0 <= coding <= 60
    ensures var presence := if f.cardinality == Repeated then 3 else if IsOption(f, syntax) then 2 else 0;
      RuntimeField(f, syntax, number, coding) == Values.Field(number, f.name, [], Values.ScalarCoding(coding + presence))
  {
  }

  /** Which values a scalar field writes anything for, by presence. */
  lemma WrittenSome(number: u32, name: string, coding: i32, presence: nat, v: Values.Val)
    requires 0 <= coding <= 60 && coding % 4 == 0 && presence in {0, 2, 3}
    ensures Written(Values.Field(number, name, [], Values.ScalarCoding(coding + presence)), v).Some? <==>
      if presence == 0 then ScalarToken(coding, v).Some? && ScalarToken(coding + presence, v).Some?
      else if presence == 2 then v.Opt? && (v.option.Some? ==> ScalarToken(coding + 2, v.option.value).Some?)
      else v.List? && LeafTokens(ScalarLeaf(coding + 3), v.items).Some?
  {
    hide ScalarToken, LeafTokens, Records, Payloads, RecordBytes, Zero;
    assert (coding + presence) % 4 == presence;
  }

  lemma CodingSteps(kind: ProtoType, coding: i32)
    requires CodingOf(kind) == Some(coding)
    ensures 0 <= coding <= 60 && coding % 4 == 0
  {
  }

  lemma AddedRight(before: Definition, f: FieldDescriptor, syntax: Syntax, package: seq<string>)
    ensures AddField(before, f, syntax, package).Ok? <==> Typeable(f, package)
    ensures AddField(before, f, syntax, package).Ok? ==>
      var after := AddField(before, f, syntax, package).value;
      && |after.fields| == |before.fields| + 1 && after.fields[..|before.fields|] == before.fields
      && RightField(f, syntax, package, after.fields[|before.fields|])
      && after.used == before.used + if f.kind in {ProtoType.Message, ProtoType.Enum} then [FromPath(f.typeName, package).value] else []
  {
    match CodingOf(f.kind)
    case None =>
      hide FromPath;
    case Some(coding) =>
      hide FromPath, Admits, Written, ScalarWit, RuntimeField;
      if f.cardinality != Required {
        forall v, number
          ensures Admits(Labelled(f, ScalarWit(f.kind), syntax).value, v) <==>
                  Written(RuntimeField(f, syntax, number, coding), v).Some?
        {
          ScalarFieldRight(f, syntax, package, coding, v, number);
        }
      }
  }

  /** The names that fields of message and enum types resolve to, in order. */
  function Mentioned(fields: seq<FieldDescriptor>, package: seq<string>): seq<TypeName> {
    if fields == [] then []
    else
      var n := |fields| - 1;
      Mentioned(fields[..n], package) +
      if fields[n].kind in {ProtoType.Message, ProtoType.Enum} && FromPath(fields[n].typeName, package).Ok?
      then [FromPath(fields[n].typeName, package).value] else []
  }

  /**
    * A message has a definition if and only if none of its fields is a group, is required or refers to a
    * type by a bad path. Then each field, in order, has its right type, and the types used are those
    * that its fields name.
    */
  lemma {:induction false} DefinitionRight(fields: seq<FieldDescriptor>, syntax: Syntax, package: seq<string>)
    ensures Define(fields, syntax, package).Ok? <==> forall i | 0 <= i < |fields| :: Typeable(fields[i], package)
    ensures Define(fields, syntax, package).Ok? ==>
      var d := Define(fields, syntax, package).value;
      && |d.fields| == |fields| && d.used == Mentioned(fields, package)
      && forall i | 0 <= i < |fields| :: RightField(fields[i], syntax, package, d.fields[i])
  {
    hide AddField, RightField, FromPath;
    if fields != [] {
      var n := |fields| - 1;
      DefinitionRight(fields[..n], syntax, package);
      if Define(fields[..n], syntax, package).Ok? {
        var before := Define(fields[..n], syntax, package).value;
        AddedRight(before, fields[n], syntax, package);
        if AddField(before, fields[n], syntax, package).Ok? {
          var after := AddField(before, fields[n], syntax, package).value;
          forall i | 0 <= i < |fields| ensures RightField(fields[i], syntax, package, after.fields[i]) {
            if i < n { assert after.fields[i] == after.fields[..n][i]; }
          }
        }
      }
    }
  }

  /** All fields of a message can be given types. */
  predicate AllTypeable(fields: seq<FieldDescriptor>, package: seq<string>) {
    forall i | 0 <= i < |fields| :: Typeable(fields[i], package)
  }

  /** Which types are good, and which a type refers to, from the descriptors alone. */
  lemma GoodExact(ds: DescriptorSet, package: seq<string>, t: TypeName)
    ensures Good(ds, package, t) <==>
      if t in ds.messages then
        && AllTypeable(ds.messages[t].message.fields, package)
        && forall u <- Mentioned(ds.messages[t].message.fields, package) :: u in ds.messages || u in ds.enums
      else t in ds.enums
    ensures UsedBy(ds, package, t) ==
      if t in ds.messages && AllTypeable(ds.messages[t].message.fields, package)
      then Mentioned(ds.messages[t].message.fields, package) else []
  {
    if t in ds.messages { DefinitionRight(ds.messages[t].message.fields, ds.messages[t].syntax, package); }
    hide Define, Mentioned, RightField, Typeable;
  }

  /** A definition in an interface says what the descriptor of its name says. */
  ghost predicate SaysDescriptor(ds: DescriptorSet, package: seq<string>, t: TypeName, d: TypeDef) {
    if t in ds.messages then
      var MessageEntry(message, syntax) := ds.messages[t];
      && d.RecordDef? && d.name == t.name && |d.fields| == |message.fields|
      && forall i | 0 <= i < |message.fields| :: RightField(message.fields[i], syntax, package, d.fields[i])
    else
      t in ds.enums && d == EnumDef(t.name, ds.enums[t].values)
  }

  /** In interfaces that are right, every definition says what its descriptor says, field by field. */
  lemma DefinitionsSay(ds: DescriptorSet, package: seq<string>, interfaces: Interfaces, q: Qualifier, d: TypeDef)
    requires Right(ds, package, interfaces) && q in interfaces && d in interfaces[q].defined
    ensures SaysDescriptor(ds, package, q.Type(d.name), d)
  {
    var t := q.Type(d.name);
    assert RightInterface(ds, package, q, interfaces[q]);
    assert Renders(ds, package, t, d);
    hide Define, RightField;
    if t in ds.messages { DefinitionRight(ds.messages[t].message.fields, ds.messages[t].syntax, package); }
  }
}
