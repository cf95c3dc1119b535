/** The descriptors of a code generator request, and the maps they are kept in by qualified name. */
module Descriptors {
  import opened Prelude
  import opened Strings
  import opened TypePaths

  datatype ProtoType =
    | Double | Float | Int64 | Uint64 | Int32 | Fixed64 | Fixed32 | Bool | String | Group
    | Message | Bytes | Uint32 | Enum | Sfixed32 | Sfixed64 | Sint32 | Sint64

  datatype Label = Optional | Required | Repeated

  datatype FieldDescriptor = FieldDescriptor(
    name: string, kind: ProtoType, typeName: string, cardinality: Label, proto3Optional: bool)

  datatype EnumDescriptor = EnumDescriptor(name: string, values: seq<string>)

  datatype MessageDescriptor = MessageDescriptor(
    name: string, fields: seq<FieldDescriptor>, nested: seq<MessageDescriptor>, enums: seq<EnumDescriptor>)

  datatype MethodDescriptor = MethodDescriptor(name: string, input: string, output: string)

  datatype ServiceDescriptor = ServiceDescriptor(name: string, methods: seq<MethodDescriptor>)

  datatype FileDescriptor = FileDescriptor(
    name: string, package: string, syntax: Option<string>,
    messages: seq<MessageDescriptor>, enums: seq<EnumDescriptor>, services: seq<ServiceDescriptor>)

  datatype Syntax = Proto2 | Proto3

  datatype CompileError =
    | EditionsUnsupported
    | UnknownSyntax
    | UnknownFile
    | ConflictingPackages
    | GroupUnsupported
    | RequiredUnsupported
    | TypeNotFound(missing: TypeName)
    | BadPath

  datatype MessageEntry = MessageEntry(message: MessageDescriptor, syntax: Syntax)

  datatype FileEntry = FileEntry(file: FileDescriptor, syntax: Syntax)

  datatype DescriptorSet = DescriptorSet(
    files: map<string, FileEntry>, messages: map<TypeName, MessageEntry>, enums: map<TypeName, EnumDescriptor>)

  function SyntaxOf(file: FileDescriptor): Result<Syntax, CompileError> {
    match file.syntax
    case None => Ok(Proto2)
    case Some(s) =>
      if s == "proto2" then Ok(Proto2)
      else if s == "proto3" then Ok(Proto3)
      else if s == "editions" then Err(EditionsUnsupported)
      else Err(UnknownSyntax)
  }

  function TopLevel(file: FileDescriptor): Qualifier {
    Qualifier(Split(file.package, '.'), [])
  }

  // ---------------------------------------------------------------------------------------
  // Every message and enum of a file, with its name
  // ---------------------------------------------------------------------------------------

  datatype Named<+T> = Named(key: TypeName, value: T)

  /** The messages nested in one, and the message itself, in the order in which they are stored. */
  function MessagesIn(d: MessageDescriptor, q: Qualifier, syntax: Syntax): seq<Named<MessageEntry>>
    decreases d, 1
  {
    AllMessages(d.nested, q.Nested(d.name), syntax) + [Named(q.Type(d.name), MessageEntry(d, syntax))]
  }

  function AllMessages(ds: seq<MessageDescriptor>, q: Qualifier, syntax: Syntax): seq<Named<MessageEntry>>
    decreases ds, 0
  {
    if ds == [] then [] else AllMessages(ds[..|ds| - 1], q, syntax) + MessagesIn(ds[|ds| - 1], q, syntax)
  }

  function EnumsIn(d: MessageDescriptor, q: Qualifier): seq<Named<EnumDescriptor>>
    decreases d, 1
  {
    AllEnums(d.nested, q.Nested(d.name)) + NamedEnums(d.enums, q.Nested(d.name))
  }

  function AllEnums(ds: seq<MessageDescriptor>, q: Qualifier): seq<Named<EnumDescriptor>>
    decreases ds, 0
  {
    if ds == [] then [] else AllEnums(ds[..|ds| - 1], q) + EnumsIn(ds[|ds| - 1], q)
  }

  function NamedEnums(es: seq<EnumDescriptor>, q: Qualifier): (r: seq<Named<EnumDescriptor>>)
    ensures |r| == |es| && forall i | 0 <= i < |es| :: r[i] == Named(q.Type(es[i].name), es[i])
  {
    if es == [] then []
    else NamedEnums(es[..|es| - 1], q) + [Named(q.Type(es[|es| - 1].name), es[|es| - 1])]
  }

  /** The map with the entries put into it one after the other. */
  function PutAll<V>(m: map<TypeName, V>, entries: seq<Named<V>>): map<TypeName, V> {
    if entries == [] then m
    else
      var last := entries[|entries| - 1];
      PutAll(m, entries[..|entries| - 1])[last.key := last.value]
  }

  lemma {:induction false} PutMore<V>(m: map<TypeName, V>, a: seq<Named<V>>, b: seq<Named<V>>)
    ensures PutAll(PutAll(m, a), b) == PutAll(m, a + b)
  {
    if b == [] {
      assert a + b == a;
    } else {
      var n := |b| - 1;
      PutMore(m, a, b[..n]);
      assert (a + b)[..|a + b| - 1] == a + b[..n];
    }
  }

  lemma {:induction false} PutKeys<V>(m: map<TypeName, V>, entries: seq<Named<V>>)
    ensures forall i | 0 <= i < |entries| :: entries[i].key in PutAll(m, entries)
    ensures forall k | k in m :: k in PutAll(m, entries)
    ensures forall k | k in PutAll(m, entries) ::
      (k in m && PutAll(m, entries)[k] == m[k]) || Named(k, PutAll(m, entries)[k]) in entries
  {
    if entries != [] { PutKeys(m, entries[..|entries| - 1]); }
  }

  /** Of several entries with one key the last is kept; entries with keys of their own are all kept. */
  lemma {:induction false} PutDistinct<V>(m: map<TypeName, V>, entries: seq<Named<V>>)
    requires forall i, j | 0 <= i < j < |entries| :: entries[i].key != entries[j].key
    ensures forall i | 0 <= i < |entries| ::
      entries[i].key in PutAll(m, entries) && PutAll(m, entries)[entries[i].key] == entries[i].value
  {
    if entries != [] { PutDistinct(m, entries[..|entries| - 1]); }
  }

  // ---------------------------------------------------------------------------------------
  // All files
  // ---------------------------------------------------------------------------------------

  function FileMessages(file: FileDescriptor, syntax: Syntax): seq<Named<MessageEntry>> {
    AllMessages(file.messages, TopLevel(file), syntax)
  }

  function FileEnums(file: FileDescriptor): seq<Named<EnumDescriptor>> {
    AllEnums(file.messages, TopLevel(file)) + NamedEnums(file.enums, TopLevel(file))
  }

  /** Messages of all the files in the order in which they are stored, up to the first bad syntax. */
  function RequestMessages(files: seq<FileDescriptor>): Result<seq<Named<MessageEntry>>, CompileError> {
    if files == [] then Ok([])
    else
      var n := |files| - 1;
      var before :- RequestMessages(files[..n]);
      var syntax :- SyntaxOf(files[n]);
      Ok(before + FileMessages(files[n], syntax))
  }

  function RequestEnums(files: seq<FileDescriptor>): seq<Named<EnumDescriptor>> {
    if files == [] then [] else RequestEnums(files[..|files| - 1]) + FileEnums(files[|files| - 1])
  }

  function RequestFiles(files: seq<FileDescriptor>): map<string, FileEntry> {
    if files == [] then map[]
    else
      var n := |files| - 1;
      var before := RequestFiles(files[..n]);
      match SyntaxOf(files[n])
      case Err(_) => before
      case Ok(syntax) => before[files[n].name := FileEntry(files[n], syntax)]
  }

  function Described(files: seq<FileDescriptor>): Result<DescriptorSet, CompileError> {
    var messages :- RequestMessages(files);
    Ok(DescriptorSet(RequestFiles(files), PutAll(map[], messages), PutAll(map[], RequestEnums(files))))
  }

  /** `DescriptorMap`: filled message by message. */
  class DescriptorMap {
    var files: map<string, FileEntry>
    var messages: map<TypeName, MessageEntry>
    var enums: map<TypeName, EnumDescriptor>

    constructor ()
      ensures files == map[] && messages == map[] && enums == map[]
    {
      files, messages, enums := map[], map[], map[];
    }

    method InsertEnum(e: EnumDescriptor, q: Qualifier)
      modifies this`enums
      ensures enums == old(enums)[q.Type(e.name) := e]
    {
      enums := enums[q.Type(e.name) := e];
    }

    method InsertEnums(es: seq<EnumDescriptor>, q: Qualifier)
      modifies this`enums
      ensures enums == PutAll(old(enums), NamedEnums(es, q))
    {
      for i := 0 to |es|
        invariant enums == PutAll(old(enums), NamedEnums(es[..i], q))
      {
        InsertEnum(es[i], q);
        assert es[..i + 1][..i] == es[..i];
      }
      assert es[..|es|] == es;
    }

    method InsertMessage(d: MessageDescriptor, q: Qualifier, syntax: Syntax)
      modifies this`messages, this`enums
      ensures messages == PutAll(old(messages), MessagesIn(d, q, syntax))
      ensures enums == PutAll(old(enums), EnumsIn(d, q))
      decreases d, 1
    {
      var nested := q.Nested(d.name);
      InsertMessages(d.nested, nested, syntax);
      InsertEnums(d.enums, nested);
      PutMore(old(enums), AllEnums(d.nested, nested), NamedEnums(d.enums, nested));
      var own := [Named(q.Type(d.name), MessageEntry(d, syntax))];
      messages := messages[q.Type(d.name) := MessageEntry(d, syntax)];
      assert own[..0] == [];
      PutMore(old(messages), AllMessages(d.nested, nested, syntax), own);
    }

    method InsertMessages(ds: seq<MessageDescriptor>, q: Qualifier, syntax: Syntax)
      modifies this`messages, this`enums
      ensures messages == PutAll(old(messages), AllMessages(ds, q, syntax))
      ensures enums == PutAll(old(enums), AllEnums(ds, q))
      decreases ds, 0
    {
      for i := 0 to |ds|
        invariant messages == PutAll(old(messages), AllMessages(ds[..i], q, syntax))
        invariant enums == PutAll(old(enums), AllEnums(ds[..i], q))
      {
        InsertMessage(ds[i], q, syntax);
        PutMore(old(messages), AllMessages(ds[..i], q, syntax), MessagesIn(ds[i], q, syntax));
        PutMore(old(enums), AllEnums(ds[..i], q), EnumsIn(ds[i], q));
        assert ds[..i + 1][..i] == ds[..i];
      }
      assert ds[..|ds|] == ds;
    }

    method InsertFile(file: FileDescriptor, syntax: Syntax)
      modifies this
      ensures messages == PutAll(old(messages), FileMessages(file, syntax))
      ensures enums == PutAll(old(enums), FileEnums(file))
      ensures files == old(files)[file.name := FileEntry(file, syntax)]
    {
      InsertMessages(file.messages, TopLevel(file), syntax);
      InsertEnums(file.enums, TopLevel(file));
      PutMore(old(enums), AllEnums(file.messages, TopLevel(file)), NamedEnums(file.enums, TopLevel(file)));
      files := files[file.name := FileEntry(file, syntax)];
    }
  }

  method Build(files: seq<FileDescriptor>) returns (r: Result<DescriptorSet, CompileError>)
    ensures r == Described(files)
  {
    var descriptors := new DescriptorMap();
    hide FileMessages, FileEnums, SyntaxOf;
    for i := 0 to |files|
      invariant RequestMessages(files[..i]).Ok?
      invariant descriptors.messages == PutAll(map[], RequestMessages(files[..i]).value)
      invariant descriptors.enums == PutAll(map[], RequestEnums(files[..i]))
      invariant descriptors.files == RequestFiles(files[..i])
    {
      var file := files[i];
      assert files[..i + 1][..i] == files[..i];
      var syntax := SyntaxOf(file);
      if syntax.Err? {
        BadSyntaxStays(files, i);
        return Err(syntax.error);
      }
      descriptors.InsertFile(file, syntax.value);
      OneMoreFile(files[..i + 1]);
    }
    assert files[..|files|] == files;
    r := Ok(DescriptorSet(descriptors.files, descriptors.messages, descriptors.enums));
  }

  lemma OneMoreFile(files: seq<FileDescriptor>)
    requires files != []
    ensures var n := |files| - 1;
      RequestMessages(files[..n]).Ok? && SyntaxOf(files[n]).Ok? ==>
        && RequestMessages(files).Ok?
        && PutAll(map[], RequestMessages(files).value) ==
           PutAll(PutAll(map[], RequestMessages(files[..n]).value), FileMessages(files[n], SyntaxOf(files[n]).value))
        && PutAll(map[], RequestEnums(files)) == PutAll(PutAll(map[], RequestEnums(files[..n])), FileEnums(files[n]))
        && RequestFiles(files) == RequestFiles(files[..n])[files[n].name := FileEntry(files[n], SyntaxOf(files[n]).value)]
  {
    var n := |files| - 1;
    if RequestMessages(files[..n]).Ok? && SyntaxOf(files[n]).Ok? {
      hide FileMessages, FileEnums;
      PutMore(map[], RequestMessages(files[..n]).value, FileMessages(files[n], SyntaxOf(files[n]).value));
      PutMore(map[], RequestEnums(files[..n]), FileEnums(files[n]));
    }
  }

  lemma {:induction false} BadSyntaxStays(files: seq<FileDescriptor>, i: nat)
    requires i < |files| && RequestMessages(files[..i]).Ok? && SyntaxOf(files[i]).Err?
    ensures RequestMessages(files) == Err(SyntaxOf(files[i]).error)
    decreases |files|
  {
    var n := |files| - 1;
    if i < n {
      assert files[..n][..i] == files[..i];
      BadSyntaxStays(files[..n], i);
    }
  }

  // ---------------------------------------------------------------------------------------
  // What the maps hold
  // ---------------------------------------------------------------------------------------

  /** No message name is declared twice, which `protoc` sees to. */
  ghost predicate UniqueMessages(files: seq<FileDescriptor>) {
    RequestMessages(files).Ok? ==>
      var entries := RequestMessages(files).value;
      forall i, j | 0 <= i < j < |entries| :: entries[i].key != entries[j].key
  }

  predicate NamedAfterMessage(e: Named<MessageEntry>) { e.key.name == e.value.message.name }

  predicate NamedAfterEnum(e: Named<EnumDescriptor>) { e.key.name == e.value.name }

  lemma {:induction false} MessageNamed(d: MessageDescriptor, q: Qualifier, syntax: Syntax)
    ensures forall e <- MessagesIn(d, q, syntax) :: NamedAfterMessage(e)
    ensures forall e <- EnumsIn(d, q) :: NamedAfterEnum(e)
    decreases d, 1
  {
    MessagesNamed(d.nested, q.Nested(d.name), syntax);
  }

  lemma {:induction false} MessagesNamed(ds: seq<MessageDescriptor>, q: Qualifier, syntax: Syntax)
    ensures forall e <- AllMessages(ds, q, syntax) :: NamedAfterMessage(e)
    ensures forall e <- AllEnums(ds, q) :: NamedAfterEnum(e)
    decreases ds, 0
  {
    if ds != [] {
      MessagesNamed(ds[..|ds| - 1], q, syntax);
      MessageNamed(ds[|ds| - 1], q, syntax);
    }
  }

  lemma {:induction false} RequestNamed(files: seq<FileDescriptor>)
    requires RequestMessages(files).Ok?
    ensures forall e <- RequestMessages(files).value :: NamedAfterMessage(e)
    ensures forall e <- RequestEnums(files) :: NamedAfterEnum(e)
  {
    if files != [] {
      var n := |files| - 1;
      RequestNamed(files[..n]);
      MessagesNamed(files[n].messages, TopLevel(files[n]), SyntaxOf(files[n]).value);
    }
  }

  function Entry(e: FileEntry, m: MessageDescriptor): Named<MessageEntry> {
    Named(TopLevel(e.file).Type(m.name), MessageEntry(m, e.syntax))
  }

  lemma {:induction false} TopLevelListed(ds: seq<MessageDescriptor>, q: Qualifier, syntax: Syntax)
    ensures forall m <- ds :: Named(q.Type(m.name), MessageEntry(m, syntax)) in AllMessages(ds, q, syntax)
  {
    if ds != [] {
      TopLevelListed(ds[..|ds| - 1], q, syntax);
      forall m <- ds ensures m in ds[..|ds| - 1] || m == ds[|ds| - 1] {}
    }
  }

  lemma {:induction false} FilesListed(files: seq<FileDescriptor>)
    requires RequestMessages(files).Ok?
    ensures forall name <- RequestFiles(files), m <- RequestFiles(files)[name].file.messages ::
      Entry(RequestFiles(files)[name], m) in RequestMessages(files).value
  {
    if files != [] {
      var n := |files| - 1;
      FilesListed(files[..n]);
      TopLevelListed(files[n].messages, TopLevel(files[n]), SyntaxOf(files[n]).value);
    }
  }

  /** Messages and enums are kept under their own names. */
  ghost predicate Keyed(ds: DescriptorSet) {
    && (forall t <- ds.messages :: ds.messages[t].message.name == t.name)
    && (forall t <- ds.enums :: ds.enums[t].name == t.name)
  }

  /** The messages of the file are the ones kept under their names. */
  ghost predicate FileKept(ds: DescriptorSet, e: FileEntry) {
    forall m <- e.file.messages :: Entry(e, m).key in ds.messages && ds.messages[Entry(e, m).key] == Entry(e, m).value
  }

  lemma DescribedKeyed(files: seq<FileDescriptor>)
    requires Described(files).Ok?
    ensures Keyed(Described(files).value)
  {
    RequestNamed(files);
    PutKeys(map[], RequestMessages(files).value);
    PutKeys(map[], RequestEnums(files));
    var ds := Described(files).value;
    forall t <- ds.messages ensures ds.messages[t].message.name == t.name {
      assert NamedAfterMessage(Named(t, ds.messages[t]));
    }
    forall t <- ds.enums ensures ds.enums[t].name == t.name {
      assert NamedAfterEnum(Named(t, ds.enums[t]));
    }
  }

  /** The names of the messages of the file are known, be it as those messages or as others. */
  ghost predicate FileListed(ds: DescriptorSet, e: FileEntry) {
    forall m <- e.file.messages :: Entry(e, m).key in ds.messages
  }

  lemma DescribedListed(files: seq<FileDescriptor>, name: string)
    requires Described(files).Ok? && name in Described(files).value.files
    ensures FileListed(Described(files).value, Described(files).value.files[name])
  {
    var entries := RequestMessages(files).value;
    var e := RequestFiles(files)[name];
    FilesListed(files);
    PutKeys(map[], entries);
    forall m <- e.file.messages ensures Entry(e, m).key in PutAll(map[], entries) {
      var i :| 0 <= i < |entries| && entries[i] == Entry(e, m);
    }
  }

  lemma DescribedKept(files: seq<FileDescriptor>, name: string)
    requires Described(files).Ok? && UniqueMessages(files) && name in Described(files).value.files
    ensures FileKept(Described(files).value, Described(files).value.files[name])
  {
    var entries := RequestMessages(files).value;
    var e := RequestFiles(files)[name];
    FilesListed(files);
    PutDistinct(map[], entries);
    forall m <- e.file.messages
      ensures Entry(e, m).key in PutAll(map[], entries) && PutAll(map[], entries)[Entry(e, m).key] == Entry(e, m).value
    {
      var i :| 0 <= i < |entries| && entries[i] == Entry(e, m);
    }
  }
}
