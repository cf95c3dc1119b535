/**
  * What a request declares, and under which names: messages by the chain of messages they are nested
  * in, enums likewise, and the syntax of their files.
  */
module Declarations {
  import opened Prelude
  import opened Strings
  import opened TypePaths
  import opened Descriptors

  /** Each message of the chain is nested in the one before. */
  ghost predicate IsChain(ds: seq<MessageDescriptor>, chain: seq<MessageDescriptor>) {
    && chain != [] && chain[0] in ds
    && forall i | 0 <= i < |chain| - 1 :: chain[i + 1] in chain[i].nested
  }

  function NamesOf(chain: seq<MessageDescriptor>): seq<string> {
    if chain == [] then [] else [chain[0].name] + NamesOf(chain[1..])
  }

  function Last(chain: seq<MessageDescriptor>): MessageDescriptor
    requires chain != []
  {
    chain[|chain| - 1]
  }

  /** The entry of the last message of a chain, under the names of the others. */
  function EntryOf(q: Qualifier, chain: seq<MessageDescriptor>, syntax: Syntax): Named<MessageEntry>
    requires chain != []
  {
    Named(TypeName(Qualifier(q.package, q.outer + NamesOf(chain[..|chain| - 1])), Last(chain).name),
          MessageEntry(Last(chain), syntax))
  }

  function EnumEntryOf(q: Qualifier, chain: seq<MessageDescriptor>, e: EnumDescriptor): Named<EnumDescriptor> {
    Named(TypeName(Qualifier(q.package, q.outer + NamesOf(chain)), e.name), e)
  }

  /** One message in front of a chain. */
  lemma Longer(d: MessageDescriptor, chain: seq<MessageDescriptor>, q: Qualifier, syntax: Syntax)
    requires IsChain(d.nested, chain)
    ensures forall ds | d in ds :: IsChain(ds, [d] + chain)
    ensures Last([d] + chain) == Last(chain)
    ensures EntryOf(q, [d] + chain, syntax) == EntryOf(q.Nested(d.name), chain, syntax)
    ensures forall e :: EnumEntryOf(q, [d] + chain, e) == EnumEntryOf(q.Nested(d.name), chain, e)
  {
    var all := [d] + chain;
    assert all[1..] == chain;
    assert all[..|all| - 1] == [d] + chain[..|chain| - 1];
    assert ([d] + chain[..|chain| - 1])[1..] == chain[..|chain| - 1];
    assert q.outer + ([d.name] + NamesOf(chain[..|chain| - 1])) == q.outer + [d.name] + NamesOf(chain[..|chain| - 1]);
    assert q.outer + ([d.name] + NamesOf(chain)) == q.outer + [d.name] + NamesOf(chain);
  }

  lemma Single(ds: seq<MessageDescriptor>, d: MessageDescriptor, q: Qualifier, syntax: Syntax)
    requires d in ds
    ensures IsChain(ds, [d]) && Last([d]) == d
    ensures EntryOf(q, [d], syntax) == Named(q.Type(d.name), MessageEntry(d, syntax))
    ensures forall e :: EnumEntryOf(q, [d], e) == Named(q.Nested(d.name).Type(e.name), e)
  {
    assert [d][..0] == [] && NamesOf([]) == [] && q.outer + [] == q.outer;
    assert [d][1..] == [] && NamesOf([d]) == [d.name];
  }

  // ---------------------------------------------------------------------------------------
  // Messages
  // ---------------------------------------------------------------------------------------

  /** The chain an entry stems from. */
  lemma {:induction false} ChainOf(ds: seq<MessageDescriptor>, q: Qualifier, syntax: Syntax, e: Named<MessageEntry>)
    returns (chain: seq<MessageDescriptor>)
    requires e in AllMessages(ds, q, syntax)
    ensures IsChain(ds, chain) && e == EntryOf(q, chain, syntax)
    decreases ds
  {
    hide IsChain, EntryOf, EnumEntryOf;
    var n := |ds| - 1;
    var d := ds[n];
    if e in AllMessages(ds[..n], q, syntax) {
      chain := ChainOf(ds[..n], q, syntax, e);
      ChainWider(ds[..n], ds, chain);
    } else if e == Named(q.Type(d.name), MessageEntry(d, syntax)) {
      chain := [d];
      Single(ds, d, q, syntax);
    } else {
      var rest := ChainOf(d.nested, q.Nested(d.name), syntax, e);
      Longer(d, rest, q, syntax);
      chain := [d] + rest;
      assert d in ds;
    }
  }

  lemma ChainWider(some: seq<MessageDescriptor>, all: seq<MessageDescriptor>, chain: seq<MessageDescriptor>)
    requires IsChain(some, chain) && forall d <- some :: d in all
    ensures IsChain(all, chain)
  {
  }

  lemma {:induction false} AllHas(ds: seq<MessageDescriptor>, q: Qualifier, syntax: Syntax, d: MessageDescriptor)
    requires d in ds
    ensures forall e <- MessagesIn(d, q, syntax) :: e in AllMessages(ds, q, syntax)
    ensures forall e <- EnumsIn(d, q) :: e in AllEnums(ds, q)
  {
    hide MessagesIn, EnumsIn;
    var n := |ds| - 1;
    if d != ds[n] {
      assert d in ds[..n];
      AllHas(ds[..n], q, syntax, d);
    }
  }

  lemma {:induction false} ChainIn(ds: seq<MessageDescriptor>, q: Qualifier, syntax: Syntax, chain: seq<MessageDescriptor>)
    requires IsChain(ds, chain)
    ensures EntryOf(q, chain, syntax) in AllMessages(ds, q, syntax)
    ensures forall e <- Last(chain).enums :: EnumEntryOf(q, chain, e) in AllEnums(ds, q)
    decreases |chain|
  {
    var d := chain[0];
    AllHas(ds, q, syntax, d);
    if |chain| == 1 {
      Single(ds, d, q, syntax);
      assert chain == [d];
      forall e <- d.enums ensures EnumEntryOf(q, chain, e) in EnumsIn(d, q) {
        EnumListed(d.enums, q.Nested(d.name), e);
      }
    } else {
      var rest := chain[1..];
      assert IsChain(d.nested, rest);
      ChainIn(d.nested, q.Nested(d.name), syntax, rest);
      Longer(d, rest, q, syntax);
      assert chain == [d] + rest;
    }
  }

  lemma EnumListed(es: seq<EnumDescriptor>, q: Qualifier, e: EnumDescriptor)
    requires e in es
    ensures Named(q.Type(e.name), e) in NamedEnums(es, q)
  {
    var i :| 0 <= i < |es| && es[i] == e;
    assert NamedEnums(es, q)[i] == Named(q.Type(e.name), e);
  }

  /** The chain an enum stems from, and its place there. */
  lemma {:induction false} EnumChainOf(ds: seq<MessageDescriptor>, q: Qualifier, x: Named<EnumDescriptor>)
    returns (chain: seq<MessageDescriptor>)
    requires x in AllEnums(ds, q)
    ensures IsChain(ds, chain) && x.value in Last(chain).enums && x == EnumEntryOf(q, chain, x.value)
    decreases ds
  {
    hide IsChain, EntryOf, EnumEntryOf;
    var n := |ds| - 1;
    var d := ds[n];
    if x in AllEnums(ds[..n], q) {
      chain := EnumChainOf(ds[..n], q, x);
      ChainWider(ds[..n], ds, chain);
    } else if x in NamedEnums(d.enums, q.Nested(d.name)) {
      chain := [d];
      Single(ds, d, q, Proto2);
    } else {
      var rest := EnumChainOf(d.nested, q.Nested(d.name), x);
      Longer(d, rest, q, Proto2);
      chain := [d] + rest;
      assert d in ds;
    }
  }

  // ---------------------------------------------------------------------------------------
  // Requests
  // ---------------------------------------------------------------------------------------

  /** A file without a package has one empty part for it. */
  function PackageOf(file: FileDescriptor): Qualifier { Qualifier(Split(file.package, '.'), []) }

  /** The syntax that the file names, "proto2" if it names none. */
  predicate HasSyntax(file: FileDescriptor, syntax: Syntax) {
    match syntax
    case Proto2 => file.syntax == None || file.syntax == Some("proto2")
    case Proto3 => file.syntax == Some("proto3")
  }

  lemma SyntaxExact(file: FileDescriptor)
    ensures forall syntax :: SyntaxOf(file) == Ok(syntax) <==> HasSyntax(file, syntax)
    ensures SyntaxOf(file) == Err(EditionsUnsupported) <==> file.syntax == Some("editions")
    ensures SyntaxOf(file).Err? <==> SyntaxOf(file) in {Err(EditionsUnsupported), Err(UnknownSyntax)}
  {
  }

  /** The file declares the message at the end of the chain. */
  ghost predicate DeclaresMessage(file: FileDescriptor, chain: seq<MessageDescriptor>, e: Named<MessageEntry>) {
    IsChain(file.messages, chain) && HasSyntax(file, e.value.syntax) && e == EntryOf(PackageOf(file), chain, e.value.syntax)
  }

  ghost predicate DeclaresEnum(file: FileDescriptor, chain: seq<MessageDescriptor>, x: Named<EnumDescriptor>) {
    && x == EnumEntryOf(PackageOf(file), chain, x.value)
    && if chain == [] then x.value in file.enums else IsChain(file.messages, chain) && x.value in Last(chain).enums
  }

  lemma {:induction false} MessageStems(files: seq<FileDescriptor>, e: Named<MessageEntry>)
    returns (file: FileDescriptor, chain: seq<MessageDescriptor>)
    requires RequestMessages(files).Ok? && e in RequestMessages(files).value
    ensures file in files && DeclaresMessage(file, chain, e)
  {
    var n := |files| - 1;
    if e in RequestMessages(files[..n]).value {
      file, chain := MessageStems(files[..n], e);
    } else {
      file := files[n];
      SyntaxExact(file);
      chain := ChainOf(file.messages, TopLevel(file), SyntaxOf(file).value, e);
    }
  }

  lemma {:induction false} MessageStays(files: seq<FileDescriptor>, file: FileDescriptor, chain: seq<MessageDescriptor>, e: Named<MessageEntry>)
    requires RequestMessages(files).Ok? && file in files && DeclaresMessage(file, chain, e)
    ensures e in RequestMessages(files).value
  {
    hide EntryOf, IsChain;
    var n := |files| - 1;
    if file == files[n] {
      SyntaxExact(file);
      ChainIn(file.messages, TopLevel(file), e.value.syntax, chain);
    } else {
      MessageStays(files[..n], file, chain, e);
    }
  }

  /**
    * The messages of a request are those of its files and those nested in them, at any depth, each
    * under the names of the messages around it and with the syntax of its file.
    */
  lemma MessagesDeclared(files: seq<FileDescriptor>, e: Named<MessageEntry>)
    requires RequestMessages(files).Ok?
    ensures e in RequestMessages(files).value <==> exists file, chain :: file in files && DeclaresMessage(file, chain, e)
  {
    hide DeclaresMessage;
    if e in RequestMessages(files).value { var file, chain := MessageStems(files, e); }
    forall file, chain | file in files && DeclaresMessage(file, chain, e) ensures e in RequestMessages(files).value {
      MessageStays(files, file, chain, e);
    }
  }

  lemma {:induction false} EnumStems(files: seq<FileDescriptor>, x: Named<EnumDescriptor>)
    returns (file: FileDescriptor, chain: seq<MessageDescriptor>)
    requires x in RequestEnums(files)
    ensures file in files && DeclaresEnum(file, chain, x)
  {
    var n := |files| - 1;
    if x in RequestEnums(files[..n]) {
      file, chain := EnumStems(files[..n], x);
    } else {
      file := files[n];
      if x in NamedEnums(file.enums, TopLevel(file)) {
        chain := [];
        assert TopLevel(file).outer + [] == TopLevel(file).outer;
      } else {
        chain := EnumChainOf(file.messages, TopLevel(file), x);
      }
    }
  }

  lemma {:induction false} EnumStays(files: seq<FileDescriptor>, file: FileDescriptor, chain: seq<MessageDescriptor>, x: Named<EnumDescriptor>)
    requires file in files && DeclaresEnum(file, chain, x)
    ensures x in RequestEnums(files)
  {
    var n := |files| - 1;
    if file != files[n] {
      EnumStays(files[..n], file, chain, x);
    } else if chain == [] {
      assert NamesOf([]) == [] && TopLevel(file).outer + [] == TopLevel(file).outer;
      EnumListed(file.enums, TopLevel(file), x.value);
    } else {
      ChainIn(file.messages, TopLevel(file), Proto2, chain);
    }
  }

  /** The same for enums, at the top of a file or in a message at any depth. */
  lemma EnumsDeclared(files: seq<FileDescriptor>, x: Named<EnumDescriptor>)
    ensures x in RequestEnums(files) <==> exists file, chain :: file in files && DeclaresEnum(file, chain, x)
  {
    hide DeclaresEnum;
    if x in RequestEnums(files) { var file, chain := EnumStems(files, x); }
    forall file, chain | file in files && DeclaresEnum(file, chain, x) ensures x in RequestEnums(files) {
      EnumStays(files, file, chain, x);
    }
  }

  /** If no message name is declared twice, the map of messages is what the files declare. */
  lemma MessagesKept(files: seq<FileDescriptor>, e: Named<MessageEntry>)
    requires Described(files).Ok? && UniqueMessages(files)
    ensures var messages := Described(files).value.messages;
      (e.key in messages && messages[e.key] == e.value) <==>
      exists file, chain :: file in files && DeclaresMessage(file, chain, e)
  {
    var entries := RequestMessages(files).value;
    PutKeys(map[], entries);
    PutDistinct(map[], entries);
    MessagesDeclared(files, e);
    hide DeclaresMessage, RequestMessages, PutAll;
    assert e == Named(e.key, e.value);
    if e in entries { var i :| 0 <= i < |entries| && entries[i] == e; }
  }

  /** The map of enums has a name if and only if some file declares it, and then one of those enums. */
  lemma EnumsKept(files: seq<FileDescriptor>, t: TypeName)
    requires Described(files).Ok?
    ensures var enums := Described(files).value.enums;
      && (t in enums <==> exists x, file, chain :: file in files && DeclaresEnum(file, chain, x) && x.key == t)
      && (t in enums ==> exists file, chain :: file in files && DeclaresEnum(file, chain, Named(t, enums[t])))
  {
    var entries := RequestEnums(files);
    var enums := Described(files).value.enums;
    PutKeys(map[], entries);
    hide DeclaresEnum, RequestEnums, PutAll;
    if t in enums { EnumsDeclared(files, Named(t, enums[t])); }
    forall x, file, chain | file in files && DeclaresEnum(file, chain, x) && x.key == t ensures t in enums {
      EnumsDeclared(files, x);
      var i :| 0 <= i < |entries| && entries[i] == x;
    }
  }

  /** The last of the files that has the name. */
  function LastFile(files: seq<FileDescriptor>, name: string): (r: Option<FileDescriptor>)
    ensures r.Some? ==> r.value in files && r.value.name == name
    ensures r.None? ==> forall file <- files :: file.name != name
  {
    if files == [] then None
    else if files[|files| - 1].name == name then Some(files[|files| - 1])
    else LastFile(files[..|files| - 1], name)
  }

  /** Files are found under their names, the last of each, with their syntax. */
  lemma {:induction false} FilesKept(files: seq<FileDescriptor>, name: string)
    requires Described(files).Ok?
    ensures var found, file := Described(files).value.files, LastFile(files, name);
      && (name in found <==> file.Some?)
      && (file.Some? ==> found[name].file == file.value && HasSyntax(file.value, found[name].syntax))
  {
    if files != [] {
      var n := |files| - 1;
      FilesKept(files[..n], name);
      SyntaxExact(files[n]);
      hide RequestEnums, PutAll, AllMessages;
    }
  }
}
