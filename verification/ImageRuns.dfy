/**
  * The image store over any sequence of pulls and removals, on whatever root it was given, each of
  * which may fail anywhere: how its counters stand to the truth, and which image each name has.
  */
module ImageRuns {
  import opened Prelude
  import opened Wire
  import opened Hex
  import opened Names
  import opened ComponentNames
  import opened ImageStore
  import Format
  import FormatEncode

  datatype Disk = Disk(dirs: set<Path>, files: Files)

  const EMPTY := Disk({}, map[])

  datatype Op =
    | PullOp(name: ComponentName, image: Image, fault: Fault)
    | RemoveOp(name: ComponentName, failing: nat, stuck: set<Path>)

  predicate SizedOp(op: Op) {
    op.PullOp? ==> Sized(op.image)
  }

  function Done(s: Disk, op: Op): Disk
    requires SizedOp(op)
  {
    match op
    case PullOp(name, image, fault) =>
      Disk(PulledDirs(s.dirs, name, fault), PulledFiles(s.files, name, image, fault))
    case RemoveOp(name, failing, stuck) =>
      Disk(RemovedDirs(s.dirs, s.files, name, failing, stuck), RemovedFiles(s.files, name, failing))
  }

  predicate AllSized(ops: seq<Op>) {
    forall i | 0 <= i < |ops| :: SizedOp(ops[i])
  }

  /** The tree after the operations. */
  function RunOf(start: Disk, ops: seq<Op>): Disk
    requires AllSized(ops)
  {
    if ops == [] then start
    else Done(RunOf(start, ops[..|ops| - 1]), ops[|ops| - 1])
  }

  lemma NextOfRun(start: Disk, ops: seq<Op>)
    requires AllSized(ops) && ops != []
    ensures RunOf(start, ops) == Done(RunOf(start, ops[..|ops| - 1]), ops[|ops| - 1])
  {
  }

  // ---------------------------------------------------------------------------------------
  // Counters
  // ---------------------------------------------------------------------------------------

  /** The bytes that the operation overwrites. */
  function Overwrites(s: Disk, op: Op): nat {
    if op.PullOp? then Overwritten(s.files, op.name, op.fault) else 0
  }

  /** The bytes that the operation writes without counting them, because the call failed. */
  function Tears(op: Op): nat
    requires SizedOp(op)
  {
    if op.PullOp? then Torn(op.image, op.fault) else 0
  }

  /** The directories that the operation makes without counting them. */
  function HalfMakes(s: Disk, op: Op): nat {
    if op.PullOp? then HalfMade(s.dirs, op.name, op.fault) else 0
  }

  function AllOverwritten(start: Disk, ops: seq<Op>): nat
    requires AllSized(ops)
  {
    if ops == [] then 0
    else
      var n := |ops| - 1;
      AllOverwritten(start, ops[..n]) + Overwrites(RunOf(start, ops[..n]), ops[n])
  }

  function AllTorn(ops: seq<Op>): nat
    requires AllSized(ops)
  {
    if ops == [] then 0 else AllTorn(ops[..|ops| - 1]) + Tears(ops[|ops| - 1])
  }

  function AllHalfMade(start: Disk, ops: seq<Op>): nat
    requires AllSized(ops)
  {
    if ops == [] then 0
    else
      var n := |ops| - 1;
      AllHalfMade(start, ops[..n]) + HalfMakes(RunOf(start, ops[..n]), ops[n])
  }

  /** The counter of bytes: what the files hold, less what was never counted, plus what was overwritten. */
  ghost function BytesCounted(start: Disk, ops: seq<Op>): int
    requires AllSized(ops)
  {
    Total(RunOf(start, ops).files) - Total(start.files) - AllTorn(ops) + AllOverwritten(start, ops)
  }

  function InodesCounted(start: Disk, ops: seq<Op>): int
    requires AllSized(ops)
  {
    var s := RunOf(start, ops);
    |s.dirs| + |s.files| - |start.dirs| - |start.files| - AllHalfMade(start, ops)
  }

  predicate NeverOverwrites(start: Disk, ops: seq<Op>)
    requires AllSized(ops)
  {
    forall i | 0 <= i < |ops| :: Overwrites(RunOf(start, ops[..i]), ops[i]) == 0
  }

  /**
    * After any sequence of operations, however far each of them gets, the tree is that of the run and
    * the counters are what `BytesCounted` and `InodesCounted` say. On an empty root and without torn
    * writes, the counter of bytes is exact if and only if no pull ever overwrote a byte.
    */
  method Replay(start: Disk, ops: seq<Op>) returns (store: ContainerStore)
    requires Tree(start.dirs, start.files) && AllSized(ops)
    ensures fresh(store) && store.Valid()
    ensures Disk(store.dirs, store.files) == RunOf(start, ops)
    ensures store.bytes == BytesCounted(start, ops) && store.inodes == InodesCounted(start, ops)
    ensures start == EMPTY && AllTorn(ops) == 0 ==>
              (store.bytes == Total(store.files) <==> NeverOverwrites(start, ops))
  {
    store := new ContainerStore(start.dirs, start.files);
    store.Counts();
    PerformAll(store, start, ops);
    store.Counts();
    hide *;
    CountedAll(store.Slack(), store.Gap(), start, ops);
  }

  method PerformAll(store: ContainerStore, start: Disk, ops: seq<Op>)
    requires AllSized(ops) && store.Valid() && Disk(store.dirs, store.files) == start
    requires store.bytes == 0 && store.inodes == 0
    modifies store
    ensures store.Valid() && Disk(store.dirs, store.files) == RunOf(start, ops)
    ensures Counted(store.Slack(), store.Gap(), start, ops)
  {
    Starting(store, start);
    hide *;
    assert ops[..0] == [];
    for i := 0 to |ops|
      invariant store.Valid() && Disk(store.dirs, store.files) == RunOf(start, ops[..i])
      invariant Counted(store.Slack(), store.Gap(), start, ops[..i])
    {
      assert ops[..i + 1][..i] == ops[..i] && ops[..i + 1][i] == ops[i];
      PerformNext(store, start, ops[..i + 1]);
    }
    assert ops[..|ops|] == ops;
  }

  lemma Starting(store: ContainerStore, start: Disk)
    requires store.Valid() && Disk(store.dirs, store.files) == start && store.bytes == 0 && store.inodes == 0
    ensures Disk(store.dirs, store.files) == RunOf(start, [])
    ensures Counted(store.Slack(), store.Gap(), start, [])
  {
    store.Counts();
    CountedNone(start);
  }

  /** The last operation of a run whose others were performed. */
  method PerformNext(store: ContainerStore, start: Disk, ops: seq<Op>)
    requires AllSized(ops) && ops != [] && store.Valid()
    requires Disk(store.dirs, store.files) == RunOf(start, ops[..|ops| - 1])
    requires Counted(store.Slack(), store.Gap(), start, ops[..|ops| - 1])
    modifies store
    ensures store.Valid() && Disk(store.dirs, store.files) == RunOf(start, ops)
    ensures Counted(store.Slack(), store.Gap(), start, ops)
  {
    assert SizedOp(ops[|ops| - 1]);
    CountedNext(store.Slack(), store.Gap(), start, ops);
    hide *;
    Perform(store, ops[|ops| - 1]);
  }

  /** By how much the counters exceed the truth after the operations. */
  ghost predicate Counted(slack: int, gap: int, start: Disk, ops: seq<Op>)
    requires AllSized(ops)
  {
    && slack == AllOverwritten(start, ops) - AllTorn(ops) - Total(start.files)
    && gap == 0 - AllHalfMade(start, ops) - |start.dirs| - |start.files|
  }

  lemma CountedNext(slack: int, gap: int, start: Disk, ops: seq<Op>)
    requires AllSized(ops) && ops != [] && Counted(slack, gap, start, ops[..|ops| - 1])
    ensures var n := |ops| - 1; var s := RunOf(start, ops[..n]);
      && RunOf(start, ops) == Done(s, ops[n])
      && Counted(slack + Overwrites(s, ops[n]) - Tears(ops[n]), gap - HalfMakes(s, ops[n]), start, ops)
  {
    NextOfRun(start, ops);
    NextSums(start, ops);
  }

  lemma CountedAll(slack: int, gap: int, start: Disk, ops: seq<Op>)
    requires AllSized(ops) && Counted(slack, gap, start, ops)
    ensures var s := RunOf(start, ops);
      && slack + Total(s.files) == BytesCounted(start, ops)
      && gap + |s.dirs| + |s.files| == InodesCounted(start, ops)
    ensures start == EMPTY && AllTorn(ops) == 0 ==> (slack == 0 <==> NeverOverwrites(start, ops))
  {
    SumIffAll(start, ops);
    TotalOfNone();
    hide RunOf, AllOverwritten, AllTorn, AllHalfMade, NeverOverwrites, Total;
  }

  lemma CountedNone(start: Disk)
    ensures RunOf(start, []) == start
    ensures Counted(0 - Total(start.files), 0 - |start.dirs| - |start.files|, start, [])
  {
  }

  lemma TotalOfNone()
    ensures Total(map[]) == 0
  {
  }

  lemma NothingYet(start: Disk)
    ensures RunOf(start, []) == start && BytesCounted(start, []) == 0 && InodesCounted(start, []) == 0
  {
  }

  lemma NextSums(start: Disk, ops: seq<Op>)
    requires AllSized(ops) && ops != []
    ensures var n := |ops| - 1; var s := RunOf(start, ops[..n]);
      && AllOverwritten(start, ops) == AllOverwritten(start, ops[..n]) + Overwrites(s, ops[n])
      && AllTorn(ops) == AllTorn(ops[..n]) + Tears(ops[n])
      && AllHalfMade(start, ops) == AllHalfMade(start, ops[..n]) + HalfMakes(s, ops[n])
  {
    hide RunOf, Overwrites, Tears, HalfMakes;
  }

  method Perform(store: ContainerStore, op: Op)
    requires store.Valid() && SizedOp(op)
    modifies store
    ensures store.Valid()
    ensures Disk(store.dirs, store.files) == Done(old(Disk(store.dirs, store.files)), op)
    ensures store.Slack() == old(store.Slack()) + Overwrites(old(Disk(store.dirs, store.files)), op) - Tears(op)
    ensures store.Gap() == old(store.Gap()) - HalfMakes(old(Disk(store.dirs, store.files)), op)
  {
    match op {
      case PullOp(name, image, fault) => var _ := store.Pull(name, image, fault);
      case RemoveOp(name, failing, stuck) => var _ := store.RemoveImage(name, failing, stuck);
    }
  }

  lemma {:induction false} SumIffAll(start: Disk, ops: seq<Op>)
    requires AllSized(ops)
    ensures AllOverwritten(start, ops) == 0 <==> NeverOverwrites(start, ops)
  {
    hide RunOf, Overwrites;
    if ops != [] {
      var n := |ops| - 1;
      SumIffAll(start, ops[..n]);
      forall i | 0 <= i < n ensures ops[..n][..i] == ops[..i] && ops[..n][i] == ops[i] {}
    }
  }

  // ---------------------------------------------------------------------------------------
  // Underflow
  // ---------------------------------------------------------------------------------------

  /** A counter is taken below zero by some operation of the run. */
  ghost predicate Underflows(start: Disk, ops: seq<Op>)
    requires AllSized(ops)
  {
    exists i | 0 <= i <= |ops| :: BytesCounted(start, ops[..i]) < 0 || InodesCounted(start, ops[..i]) < 0
  }

  /**
    * No counter underflows on a root that was empty, as long as no call fails halfway. Otherwise one
    * does when more goes than was ever counted: `BytesCounted` and `InodesCounted` say exactly when.
    */
  lemma EmptyRootNeverUnderflows(ops: seq<Op>)
    requires AllSized(ops) && AllTorn(ops) == 0 && AllHalfMade(EMPTY, ops) == 0
    ensures !Underflows(EMPTY, ops)
  {
    forall i | 0 <= i <= |ops| ensures AllTorn(ops[..i]) == 0 && AllHalfMade(EMPTY, ops[..i]) == 0 {
      PrefixSums(EMPTY, ops, i);
    }
    TotalOfNone();
    hide RunOf, AllOverwritten, AllTorn, AllHalfMade, Total;
  }

  lemma {:induction false} PrefixSums(start: Disk, ops: seq<Op>, i: nat)
    requires AllSized(ops) && i <= |ops|
    ensures AllTorn(ops[..i]) <= AllTorn(ops) && AllHalfMade(start, ops[..i]) <= AllHalfMade(start, ops)
    decreases |ops|
  {
    if i < |ops| {
      var n := |ops| - 1;
      NextSums(start, ops);
      PrefixSums(start, ops[..n], i);
      assert ops[..n][..i] == ops[..i];
    } else {
      assert ops[..i] == ops;
    }
  }

  /** Removing an image that was there before the store was made takes the counters below zero. */
  lemma FoundImageUnderflows(start: Disk, name: ComponentName, stuck: set<Path>)
    requires HasBoth(start.files, name)
    ensures InodesCounted(start, [RemoveOp(name, 4, stuck)]) < 0
    ensures BytesCounted(start, [RemoveOp(name, 4, stuck)])
         == -(|start.files[ContainerPath(name)]| + |start.files[SpecPath(name)]|)
    ensures Underflows(start, [RemoveOp(name, 4, stuck)])
  {
    var op := RemoveOp(name, 4, stuck);
    var ops := [op];
    assert ops[..0] == [] && ops[..1] == ops;
    NextOfRun(start, ops);
    NextSums(start, ops);
    NothingYet(start);
    PathsDiffer(name, name);
    hide ContainerPath, SpecPath, ComponentPath, Total, RunOf, AllOverwritten, AllTorn, AllHalfMade, Pruned;
    RemovalShrinks(start, name, stuck);
    assert AllTorn(ops) == 0 && AllOverwritten(start, ops) == 0 && AllHalfMade(start, ops) == 0;
  }

  lemma RemovalShrinks(s: Disk, name: ComponentName, stuck: set<Path>)
    requires HasBoth(s.files, name)
    ensures var t := Done(s, RemoveOp(name, 4, stuck));
      && |t.dirs| <= |s.dirs| && |t.files| == |s.files| - 2
      && Total(t.files) == Total(s.files) - |s.files[ContainerPath(name)]| - |s.files[SpecPath(name)]|
  {
    var c, i := ContainerPath(name), SpecPath(name);
    var t := Done(s, RemoveOp(name, 4, stuck));
    PathsDiffer(name, name);
    PrunedWithin(s.dirs, t.files, ComponentPath(name), 3, stuck);
    SubsetSize(t.dirs, s.dirs);
    hide ContainerPath, SpecPath, ComponentPath, Pruned, Total;
    assert t.files == s.files - {c} - {i};
    TotalWithout(s.files, c);
    TotalWithout(s.files - {c}, i);
  }

  lemma SubsetSize(a: set<Path>, b: set<Path>)
    requires a <= b
    ensures |a| <= |b|
  {
    assert b == a + (b - a);
  }

  /** So does removing an image of which one write was torn, once nothing else was counted. */
  lemma TornWriteUnderflows(name: ComponentName, component: seq<byte>)
    requires 0 < |component| <= 0xFFFF_FFFF_FFFF_FFFF
    ensures var ops := [
        PullOp(name, Image(component, [], []), Fault(4, |component|)), RemoveOp(name, 4, {})];
      AllSized(ops) && BytesCounted(EMPTY, ops) == -|component|
  {
    var image, fault := Image(component, [], []), Fault(4, |component|);
    var pull, remove := PullOp(name, image, fault), RemoveOp(name, 4, {});
    var ops := [pull, remove];
    assert ops[..1] == [pull] && [pull][..0] == [];
    NothingYet(EMPTY);
    NextOfRun(EMPTY, [pull]);
    NextSums(EMPTY, [pull]);
    NextOfRun(EMPTY, ops);
    NextSums(EMPTY, ops);
    PathsDiffer(name, name);
    hide ContainerPath, SpecPath, ComponentPath, RunOf, AllOverwritten, AllTorn, AllHalfMade, Pruned, LittleEndian;
    var t := Done(EMPTY, pull);
    assert Done(t, remove).files == map[];
    TotalOfNone();
    assert Overwrites(EMPTY, pull) == 0 && Tears(pull) == |component| && Tears(remove) == 0;
  }

  // ---------------------------------------------------------------------------------------
  // Images
  // ---------------------------------------------------------------------------------------

  /**
    * What can be read of the name after a pull that got as far as creating the container's file. One
    * that fails later may leave something that reads as an image.
    */
  function Remains(image: Image, fault: Fault): Option<Image>
    requires fault.call > 1
  {
    var Image(component, metadata, spec) := image;
    if fault.call == 2 then None
    else if fault.call == 3 then if component == [] && fault.partial >= 8 then Some(Image([], [], [])) else None
    else if fault.call == 4 then if fault.partial >= |component| then Some(Image(component, [], [])) else None
    else if fault.call == 5 then Some(Image(component, Front(metadata, fault.partial), []))
    else if fault.call == 6 then Some(Image(component, metadata, Front(spec, fault.partial)))
    else Some(image)
  }

  /** What can be read of the name after the operation, given what could be before. */
  function ReadableAfter(before: Option<Image>, op: Op): Option<Image> {
    match op
    case PullOp(_, image, fault) => if fault.call <= 1 then before else Remains(image, fault)
    case RemoveOp(_, failing, _) => if failing <= 1 then before else None
  }

  function Readable(start: Option<Image>, ops: seq<Op>, name: ComponentName): Option<Image> {
    if ops == [] then start
    else
      var n := |ops| - 1;
      var before := Readable(start, ops[..n], name);
      if ops[n].name == name then ReadableAfter(before, ops[n]) else before
  }

  /** Over every run, however far each operation gets, a name has the image that its own operations leave. */
  lemma {:induction false} ReadableOfRun(start: Disk, ops: seq<Op>, name: ComponentName)
    requires AllSized(ops)
    ensures ImageOf(RunOf(start, ops).files, name) == Readable(ImageOf(start.files, name), ops, name)
  {
    if ops != [] {
      var n := |ops| - 1;
      ReadableOfRun(start, ops[..n], name);
      NextOfRun(start, ops);
      hide RunOf, ImageOf;
      OneMore(RunOf(start, ops[..n]), ops[n], name);
    }
  }

  lemma OneMore(s: Disk, op: Op, name: ComponentName)
    requires SizedOp(op)
    ensures ImageOf(Done(s, op).files, name) ==
            if op.name == name then ReadableAfter(ImageOf(s.files, name), op) else ImageOf(s.files, name)
  {
    var after := Done(s, op).files;
    if op.name != name {
      match op {
        case PullOp(_, image, fault) => PulledFacts(s.files, op.name, image, fault);
        case RemoveOp(_, failing, _) => RemovedOnly(op.name, s.files, failing);
      }
      hide Done, ImageOf, OnlyFilesOf;
      OthersKept(op.name, name, s.files, after);
    } else {
      match op
      case PullOp(_, image, fault) => if fault.call > 1 { TornPull(s.files, name, image, fault); }
      case RemoveOp(_, failing, _) =>
        PathsDiffer(name, name);
        hide ContainerPath, SpecPath, ReadContainer;
    }
  }

  /** A pull that creates the container's file leaves what `Remains` says, whatever was there before. */
  lemma TornPull(files: Files, name: ComponentName, image: Image, fault: Fault)
    requires Sized(image) && fault.call > 1
    ensures ImageOf(PulledFiles(files, name, image, fault), name) == Remains(image, fault)
  {
    PathsDiffer(name, name);
    if fault.call > 2 { FilledReads(image, fault); }
    hide ContainerPath, SpecPath, ReadContainer, Filled;
    assert fault.call == 2 ==> ReadContainer([]) == Err(TooShort) by { ShortReads(); }
  }

  lemma ShortReads()
    ensures ReadContainer([]) == Err(TooShort)
  {
  }

  /** What `get` makes of the container's file after the call that failed. */
  lemma FilledReads(image: Image, fault: Fault)
    requires Sized(image) && fault.call > 2
    ensures var r := ReadContainer(Filled(image, fault));
      var found := Remains(image, fault);
      if found.Some? then r == Ok((found.value.component, found.value.metadata)) else r == Err(TooShort)
  {
    var length, c := LittleEndian(|image.component|, 8), image.component;
    Pow256Values();
    assert Pow256(8) == 0x1_0000_0000_0000_0000;
    LittleEndianRoundTrip(|c|, 8);
    hide LittleEndian, FromLittleEndian;
    if fault.call == 3 {
      FrontWhole(length, fault.partial);
      PrefixReads(length, c, [], []);
      assert length + [] + [] == length;
    } else {
      PrefixReads(length, c, Front(c, fault.partial), []);
      PrefixReads(length, c, c, []);
      PrefixReads(length, c, c, Front(image.metadata, fault.partial));
      PrefixReads(length, c, c, image.metadata);
      hide ReadContainer;
    }
  }

  /** A file with the length of the component in front, some of the component, and some metadata. */
  lemma PrefixReads(length: seq<byte>, c: seq<byte>, some: seq<byte>, metadata: seq<byte>)
    requires |length| == 8 && FromLittleEndian(length) == |c| && some <= c && (some == c || metadata == [])
    ensures ReadContainer(length + some + metadata) == if some == c then Ok((c, metadata)) else Err(TooShort)
    ensures length + some + [] == length + some
  {
    hide FromLittleEndian;
    var file := length + some + metadata;
    assert file[..8] == length;
    assert some == c || |some| < |c|;
    if some == c { assert file[8..8 + |c|] == c && file[8 + |c|..] == metadata; }
  }

  /** The pull reported a failure, and left an image that is not the one it was given. */
  predicate LeavesWrongImage(image: Image, fault: Fault) {
    fault.call < 9 && fault.call > 1 && Remains(image, fault).Some? && Remains(image, fault) != Some(image)
  }

  /**
    * It does so if and only if the component was written in full, what failed came before the end of
    * the image spec, and something that is not empty is missing.
    */
  lemma WrongImageIff(image: Image, fault: Fault)
    ensures LeavesWrongImage(image, fault) <==>
      || (fault.call == 3 && image.component == [] && fault.partial >= 8 && (image.metadata != [] || image.spec != []))
      || (fault.call == 4 && fault.partial >= |image.component| && (image.metadata != [] || image.spec != []))
      || (fault.call == 5 && (fault.partial < |image.metadata| || image.spec != []))
      || (fault.call == 6 && fault.partial < |image.spec|)
  {
    var Image(component, metadata, spec) := image;
    FrontWhole(metadata, fault.partial);
    FrontWhole(spec, fault.partial);
  }

  lemma FrontWhole(data: seq<byte>, n: nat)
    ensures Front(data, n) == data <==> n >= |data|
  {
  }

  /** A failed pull on an empty root after which `get` reads a component without its metadata. */
  lemma WrongImageHappens(name: ComponentName, component: seq<byte>, metadata: seq<byte>, spec: seq<byte>)
    requires |component| <= 0xFFFF_FFFF_FFFF_FFFF && metadata != []
    ensures var image := Image(component, metadata, spec);
      && ImageOf(Done(EMPTY, PullOp(name, image, Fault(5, 0))).files, name) == Some(Image(component, [], []))
      && LeavesWrongImage(image, Fault(5, 0))
  {
    var image := Image(component, metadata, spec);
    TornPull(map[], name, image, Fault(5, 0));
    hide ImageOf, PulledFiles;
    assert Front(metadata, 0) == [];
  }

  // The store as a map from names to images.

  predicate Completes(op: Op) {
    if op.PullOp? then op.fault.call >= 9 else op.failing > 3
  }

  /** What the map would hold. */
  function Stored(start: Option<Image>, ops: seq<Op>, name: ComponentName): Option<Image> {
    if ops == [] then start
    else
      var op := ops[|ops| - 1];
      if op.name != name then Stored(start, ops[..|ops| - 1], name)
      else if op.PullOp? then Some(op.image)
      else None
  }

  /**
    * As long as no operation on the name fails, whatever happens to the others, its image is that of
    * its last pull, unless it was removed since.
    */
  lemma {:induction false} StoreIsMap(start: Disk, ops: seq<Op>, name: ComponentName)
    requires AllSized(ops) && forall i | 0 <= i < |ops| && ops[i].name == name :: Completes(ops[i])
    ensures ImageOf(RunOf(start, ops).files, name) == Stored(ImageOf(start.files, name), ops, name)
  {
    ReadableOfRun(start, ops, name);
    hide RunOf, ImageOf;
    CompleteReadable(ImageOf(start.files, name), ops, name);
  }

  lemma {:induction false} CompleteReadable(start: Option<Image>, ops: seq<Op>, name: ComponentName)
    requires forall i | 0 <= i < |ops| && ops[i].name == name :: Completes(ops[i])
    ensures Readable(start, ops, name) == Stored(start, ops, name)
  {
    if ops != [] { CompleteReadable(start, ops[..|ops| - 1], name); }
  }

  // ---------------------------------------------------------------------------------------
  // A pull undone
  // ---------------------------------------------------------------------------------------

  /** Pulling a new image into a tidy tree and removing it leaves the tree as it was. */
  lemma PullUndone(s: Disk, name: ComponentName, image: Image)
    requires Tree(s.dirs, s.files) && Tidy(s.dirs, s.files) && Sized(image)
    requires ContainerPath(name) !in s.files && SpecPath(name) !in s.files
    ensures Done(Done(s, PullOp(name, image, NO_FAULT)), RemoveOp(name, 9, {})) == s
  {
    var t := Done(s, PullOp(name, image, NO_FAULT));
    RemovalParts(t, name);
    PulledParts(s, name, image);
    hide *;
    RemoveUndoesFiles(name, s.files, t.files);
    RemoveUndoesDirs(name, s.dirs, s.files, t.dirs, t.files);
  }

  lemma RemovalParts(t: Disk, name: ComponentName)
    ensures Done(t, RemoveOp(name, 9, {})) ==
            Disk(RemovedDirs(t.dirs, t.files, name, 9, {}), RemovedFiles(t.files, name, 9))
  {
  }

  lemma PulledParts(s: Disk, name: ComponentName, image: Image)
    requires Tree(s.dirs, s.files) && Tidy(s.dirs, s.files) && Sized(image)
    ensures var t := Done(s, PullOp(name, image, NO_FAULT));
      && Tree(t.dirs, t.files) && Tidy(t.dirs, t.files)
      && HasBoth(t.files, name) && OnlyFilesOf(name, s.files, t.files) && ComponentPath(name) in t.dirs
  {
    var t := Done(s, PullOp(name, image, NO_FAULT));
    PulledFacts(s.files, name, image, NO_FAULT);
    PulledTree(s.dirs, s.files, name, image);
    PulledTidy(name, s.dirs, s.files, t.dirs, t.files);
    hide Tree, Tidy, ContainerPath, SpecPath, ComponentPath, PulledFiles, PulledDirs, ImageOf, OnlyFilesOf;
  }

  lemma RemoveUndoesFiles(name: ComponentName, files: Files, pulled: Files)
    requires ContainerPath(name) !in files && SpecPath(name) !in files
    requires HasBoth(pulled, name) && OnlyFilesOf(name, files, pulled)
    ensures RemovedFiles(pulled, name, 9) == files == pulled - {ContainerPath(name), SpecPath(name)}
  {
    hide ContainerPath, SpecPath;
    assert files - {ContainerPath(name), SpecPath(name)} == files;
  }

  lemma RemoveUndoesDirs(name: ComponentName, dirs: set<Path>, files: Files, pulledDirs: set<Path>, pulled: Files)
    requires Tree(dirs, files) && Tidy(dirs, files) && Tree(pulledDirs, pulled) && Tidy(pulledDirs, pulled)
    requires RemovedFiles(pulled, name, 9) == files == pulled - {ContainerPath(name), SpecPath(name)}
    requires HasBoth(pulled, name) && ComponentPath(name) in pulledDirs
    ensures RemovedDirs(pulledDirs, pulled, name, 9, {}) == dirs
  {
    hide *;
    var path := ComponentPath(name);
    assert path[..3] == path;
    RemovalPrunes(pulledDirs, pulled, name, 9, {});
    RemovedTree(pulledDirs, pulled, name);
    PrunedTidy(pulledDirs, pulledDirs, pulled, files, path, 3);
    TidyUnique(dirs, Pruned(pulledDirs, files, path, 3, {}), files);
  }

  lemma PulledTree(dirs: set<Path>, files: Files, name: ComponentName, image: Image)
    requires Tree(dirs, files) && Sized(image)
    ensures Tree(PulledDirs(dirs, name, NO_FAULT), PulledFiles(files, name, image, NO_FAULT))
    ensures HasBoth(PulledFiles(files, name, image, NO_FAULT), name)
    ensures files.Keys <= PulledFiles(files, name, image, NO_FAULT).Keys
    ensures ComponentPath(name) in PulledDirs(dirs, name, NO_FAULT)
  {
    var made := PulledDirs(dirs, name, NO_FAULT);
    var c, i := ContainerPath(name), SpecPath(name);
    assert c[..3] == ComponentPath(name) && i[..3] == ComponentPath(name) && |c| == |i| == 4;
    hide ComponentPath, ContainerPath, SpecPath, Filled, SpecFilled, Made, Tree;
    MadeTree(dirs, files, ComponentPath(name), 3);
    MadeHas(dirs, ComponentPath(name));
    TreeWith(made, files, c, Filled(image, NO_FAULT));
    TreeWith(made, files[c := Filled(image, NO_FAULT)], i, SpecFilled(image, NO_FAULT));
  }

  lemma TreeWith(dirs: set<Path>, files: Files, p: Path, content: seq<byte>)
    requires Tree(dirs, files) && |p| == 4 && p[..3] in dirs
    ensures Tree(dirs, files[p := content])
  {
  }

  // ---------------------------------------------------------------------------------------
  // Where an image is
  // ---------------------------------------------------------------------------------------

  /** The length of the component in eight bytes, least significant first. */
  function LengthBytes(n: u64): seq<byte> {
    Format.FourBytes(n % 0x1_0000_0000) + Format.FourBytes(n / 0x1_0000_0000)
  }

  /** A pull puts two files into the directory of the domain, the server and the version. */
  lemma PulledWhere(s: Disk, name: ComponentName, image: Image)
    requires Tree(s.dirs, s.files) && Sized(image)
    ensures var d := Encode(name.domain);
      Done(s, PullOp(name, image, NO_FAULT)) ==
      Disk(s.dirs + {[d], [d, name.server], [d, name.server, name.version]},
           s.files[[d, name.server, name.version, "container"] :=
                     LengthBytes(|image.component|) + image.component + image.metadata]
                  [[d, name.server, name.version, "image-spec.binpb"] := image.spec])
  {
    var d := Encode(name.domain);
    PathOf(name);
    PulledContent(image);
    MadeAll(s.dirs, ComponentPath(name));
    hide LittleEndian, Encode, LengthBytes, ComponentPath, ContainerPath, SpecPath, Filled, Made;
  }

  lemma PathOf(name: ComponentName)
    ensures var d := Encode(name.domain);
      var path := ComponentPath(name);
      && path == [d, name.server, name.version] && path[..2] == [d, name.server] && path[..1] == [d]
      && ContainerPath(name) == [d, name.server, name.version, "container"]
      && SpecPath(name) == [d, name.server, name.version, "image-spec.binpb"]
  {
    hide Encode;
  }

  lemma PulledContent(image: Image)
    requires Sized(image)
    ensures Filled(image, NO_FAULT) == LengthBytes(|image.component|) + image.component + image.metadata
  {
    FormatEncode.LittleEndianEight(|image.component|);
    hide LittleEndian, Format.FourBytes;
  }

  lemma MadeAll(dirs: set<Path>, path: Path)
    requires |path| == 3
    ensures Made(dirs, path, 3) == dirs + {path[..1], path[..2], path}
  {
  }

  /**
    * A removal takes first the one file away and then the other, as far as its calls succeed: two to each
    * of them, and none to the second if the first is not there.
    */
  lemma RemovedWhere(s: Disk, name: ComponentName, failing: nat)
    ensures var d := Encode(name.domain);
      var container := [d, name.server, name.version, "container"];
      var spec := [d, name.server, name.version, "image-spec.binpb"];
      Done(s, RemoveOp(name, failing, {})).files ==
      if container !in s.files || failing in {0, 1} then s.files
      else if spec !in s.files || failing in {2, 3} then s.files - {container}
      else s.files - {container, spec}
  {
    hide Encode, Pruned;
    var d := Encode(name.domain);
    var path := ComponentPath(name);
    assert path + ["container"] == [d, name.server, name.version, "container"];
    assert path + ["image-spec.binpb"] == [d, name.server, name.version, "image-spec.binpb"];
  }
}
