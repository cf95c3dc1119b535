/**
  * The local store of images: a tree of directories by domain, server and version with two files
  * at its leaves, and running counters of what the tree takes up. Calls into the filesystem may
  * fail between any two of them.
  */
module ImageStore {
  import opened Prelude
  import opened Wire
  import opened Strings
  import opened Hex
  import opened Names
  import opened ComponentNames

  type Path = seq<string>

  type Files = map<Path, seq<byte>>

  const CONTAINER := "container"
  const IMAGE_SPEC := "image-spec.binpb"

  datatype Image = Image(component: seq<byte>, metadata: seq<byte>, spec: seq<byte>)

  function ComponentPath(name: ComponentName): (p: Path)
    ensures |p| == 3
  {
    [Encode(name.domain), name.server, name.version]
  }

  function ContainerPath(name: ComponentName): Path { ComponentPath(name) + [CONTAINER] }

  function SpecPath(name: ComponentName): Path { ComponentPath(name) + [IMAGE_SPEC] }

  /** Names have paths of their own. */
  lemma PathsDiffer(a: ComponentName, b: ComponentName)
    ensures ComponentPath(a) == ComponentPath(b) ==> a == b
    ensures a != b ==> {ContainerPath(a), SpecPath(a)} !! {ContainerPath(b), SpecPath(b)}
    ensures ContainerPath(a) != SpecPath(b)
  {
    DecodeEncode(a.domain);
    DecodeEncode(b.domain);
    hide Encode;
    assert ContainerPath(a)[..3] == SpecPath(a)[..3] == ComponentPath(a);
    assert ContainerPath(b)[..3] == SpecPath(b)[..3] == ComponentPath(b);
    assert ComponentPath(a)[0] == Encode(a.domain) && ComponentPath(a)[1] == a.server && ComponentPath(a)[2] == a.version;
    assert ComponentPath(b)[0] == Encode(b.domain) && ComponentPath(b)[1] == b.server && ComponentPath(b)[2] == b.version;
    assert ContainerPath(a)[3] == CONTAINER && SpecPath(b)[3] == IMAGE_SPEC && |CONTAINER| != |IMAGE_SPEC|;
  }

  /** The parts of a valid name's path are plain file names. */
  lemma PathPlain(name: ComponentName, i: nat)
    requires ValidComponent(name) && i < 3
    ensures ComponentPath(name)[i] !in {"", ".", ".."} && '/' !in ComponentPath(name)[i]
  {
    EncodedPlain(name.domain);
    VersionPlain(name.version, '/');
    assert |Encode(name.domain)| == 32;
    VersionLong(name.version);
  }

  lemma VersionLong(v: string)
    requires ValidVersion(v)
    ensures |v| >= 5
  {
    var core := v[..Find(v, {'-'})];
    JoinSplit(core, '.');
    var parts := Split(core, '.');
    assert parts[1..][1..] == [parts[2]];
    assert Join(parts[1..], '.') == parts[1] + ['.'] + Join([parts[2]], '.');
    assert Join(parts, '.') == parts[0] + ['.'] + Join(parts[1..], '.');
  }

  // ---------------------------------------------------------------------------------------
  // The file of a container: the length of the component, the component, the metadata
  // ---------------------------------------------------------------------------------------

  function ContainerFile(component: seq<byte>, metadata: seq<byte>): seq<byte>
    requires |component| <= 0xFFFF_FFFF_FFFF_FFFF
  {
    LittleEndian(|component|, 8) + component + metadata
  }

  datatype ReadError = NotFound | TooShort

  function ReadContainer(file: seq<byte>): Result<(seq<byte>, seq<byte>), ReadError> {
    if |file| < 8 then Err(TooShort)
    else
      var size := FromLittleEndian(file[..8]);
      if |file| - 8 < size then Err(TooShort)
      else Ok((file[8..8 + size], file[8 + size..]))
  }

  lemma ContainerTrip(component: seq<byte>, metadata: seq<byte>)
    requires |component| <= 0xFFFF_FFFF_FFFF_FFFF
    ensures ReadContainer(ContainerFile(component, metadata)) == Ok((component, metadata))
  {
    assert Pow256(8) == 0x1_0000_0000_0000_0000;
    LittleEndianRoundTrip(|component|, 8);
    hide FromLittleEndian, LittleEndian;
    var file := ContainerFile(component, metadata);
    assert file[..8] == LittleEndian(|component|, 8);
    assert file[8..8 + |component|] == component && file[8 + |component|..] == metadata;
  }

  // ---------------------------------------------------------------------------------------
  // What the tree takes up
  // ---------------------------------------------------------------------------------------

  ghost function Total(files: Files): nat {
    if files == map[] then 0
    else
      var p :| p in files;
      |files[p]| + Total(files - {p})
  }

  lemma {:induction false} TotalWithout(files: Files, p: Path)
    requires p in files
    ensures Total(files) == |files[p]| + Total(files - {p})
    decreases |files|
  {
    var q :| q in files && Total(files) == |files[q]| + Total(files - {q});
    if q != p {
      TotalWithout(files - {q}, p);
      TotalWithout(files - {p}, q);
      assert files - {q} - {p} == files - {p} - {q};
    }
  }

  lemma TotalPut(files: Files, p: Path, content: seq<byte>)
    ensures Total(files[p := content]) == Total(files - {p}) + |content|
  {
    TotalWithout(files[p := content], p);
    assert files[p := content] - {p} == files - {p};
  }

  predicate IsParent(d: Path, p: Path) {
    |p| == |d| + 1 && p[..|d|] == d
  }

  predicate Empty(dirs: set<Path>, files: Files, d: Path) {
    (forall p <- dirs :: !IsParent(d, p)) && (forall p <- files :: !IsParent(d, p))
  }

  /** Directories at three levels below the root and files in the lowest, each within the one above. */
  ghost predicate Tree(dirs: set<Path>, files: Files) {
    && (forall p <- dirs :: 1 <= |p| <= 3 && (|p| > 1 ==> p[..|p| - 1] in dirs))
    && (forall p <- files :: |p| == 4 && p[..3] in dirs)
  }

  /** The directory has a file somewhere in it. */
  predicate Holds(files: Files, d: Path) {
    exists p <- files :: Within(d, p)
  }

  predicate Within(d: Path, p: Path) {
    |d| < |p| && p[..|d|] == d
  }

  /** No directory is without files. */
  predicate Tidy(dirs: set<Path>, files: Files) {
    forall d <- dirs :: Holds(files, d)
  }

  /** In a tidy tree the directories follow from the files. */
  lemma TidyUnique(dirs: set<Path>, others: set<Path>, files: Files)
    requires Tree(dirs, files) && Tidy(dirs, files) && Tree(others, files) && Tidy(others, files)
    ensures dirs == others
  {
    forall d | d in dirs || d in others ensures d in dirs && d in others {
      var p :| p in files && Within(d, p);
      assert |d| <= 3;
      AboveFile(dirs, files, d, p);
      AboveFile(others, files, d, p);
    }
  }

  lemma AboveFile(dirs: set<Path>, files: Files, d: Path, p: Path)
    requires Tree(dirs, files) && p in files && Within(d, p) && |d| >= 1
    ensures d in dirs
  {
    var v := p[..3];
    assert v in dirs && v[..2] in dirs && v[..2][..1] in dirs;
    assert v[..2] == p[..2] && v[..2][..1] == p[..1];
  }

  /** The files that are gone were all in the directory. */
  predicate OnlyBelow(path: Path, before: Files, after: Files) {
    && (forall p <- after :: p in before)
    && (forall p <- before :: p in after || Within(path, p))
  }

  // ---------------------------------------------------------------------------------------
  // The store
  // ---------------------------------------------------------------------------------------

  /** The image of a name, if both its files are there and the container's can be read. */
  function ImageOf(files: Files, name: ComponentName): Option<Image> {
    if ContainerPath(name) !in files || SpecPath(name) !in files then None
    else
      match ReadContainer(files[ContainerPath(name)])
      case Err(_) => None
      case Ok((component, metadata)) => Some(Image(component, metadata, files[SpecPath(name)]))
  }

  /** Files other than the two of the name are as they were. */
  predicate OnlyFilesOf(name: ComponentName, before: Files, after: Files) {
    after - {ContainerPath(name), SpecPath(name)} == before - {ContainerPath(name), SpecPath(name)}
  }

  /** What is done to the files of one name does not show in the images of the others. */
  lemma OthersKept(name: ComponentName, other: ComponentName, before: Files, after: Files)
    requires OnlyFilesOf(name, before, after) && other != name
    ensures ImageOf(after, other) == ImageOf(before, other)
  {
    PathsDiffer(name, other);
    hide ContainerPath, SpecPath, ReadContainer;
    var own := {ContainerPath(name), SpecPath(name)};
    forall p | p in {ContainerPath(other), SpecPath(other)}
      ensures (p in after <==> p in before) && (p in after ==> after[p] == before[p])
    {
      assert p in after <==> p in after - own;
      assert p in before <==> p in before - own;
      assert p in after ==> (after - own)[p] == after[p];
      assert p in before ==> (before - own)[p] == before[p];
    }
  }

  function SizeAt(files: Files, p: Path): nat {
    if p in files then |files[p]| else 0
  }

  /**
    * The call into the filesystem that fails, numbered from 0 in the order of the code, and how much
    * of it was done: directories made, or bytes written. No call fails if the number is beyond the last.
    */
  datatype Fault = Fault(call: nat, partial: nat)

  const NO_FAULT := Fault(9, 0)

  /** How much a pull overwrites before the call that fails. */
  function Overwritten(files: Files, name: ComponentName, fault: Fault): nat {
    (if fault.call > 1 then SizeAt(files, ContainerPath(name)) else 0)
    + (if fault.call > 2 then SizeAt(files, SpecPath(name)) else 0)
  }

  /** The length of a component is kept in eight bytes. */
  predicate Sized(image: Image) {
    |image.component| <= 0xFFFF_FFFF_FFFF_FFFF
  }

  function Front(data: seq<byte>, n: nat): (r: seq<byte>)
    ensures |r| == Min(n, |data|)
  {
    data[..Min(n, |data|)]
  }

  /** What the calls numbered 3 to 6 write: to the container's file, and last to the image spec's. */
  function Piece(image: Image, call: nat): seq<byte>
    requires Sized(image)
  {
    if call == 3 then LittleEndian(|image.component|, 8)
    else if call == 4 then image.component
    else if call == 5 then image.metadata
    else if call == 6 then image.spec
    else []
  }

  /** The container's file once it was created and as much of it written as was. */
  function Filled(image: Image, fault: Fault): seq<byte>
    requires Sized(image)
  {
    var length := LittleEndian(|image.component|, 8);
    if fault.call <= 2 then []
    else if fault.call == 3 then Front(length, fault.partial)
    else if fault.call == 4 then length + Front(image.component, fault.partial)
    else if fault.call == 5 then length + image.component + Front(image.metadata, fault.partial)
    else length + image.component + image.metadata
  }

  function SpecFilled(image: Image, fault: Fault): seq<byte> {
    if fault.call <= 5 then [] else if fault.call == 6 then Front(image.spec, fault.partial) else image.spec
  }

  /** The bytes that were written by the call that failed, and so were not counted. */
  function Torn(image: Image, fault: Fault): nat
    requires Sized(image)
  {
    |Front(Piece(image, fault.call), fault.partial)|
  }

  function PulledFiles(files: Files, name: ComponentName, image: Image, fault: Fault): Files
    requires Sized(image)
  {
    if fault.call <= 1 then files
    else if fault.call == 2 then files[ContainerPath(name) := []]
    else files[ContainerPath(name) := Filled(image, fault)][SpecPath(name) := SpecFilled(image, fault)]
  }

  /** How many levels of the path there are as directories, from the domain down. */
  function Depth(dirs: set<Path>, path: Path): (n: nat)
    requires |path| == 3
    ensures n <= 3
  {
    if path in dirs then 3 else if path[..2] in dirs then 2 else if path[..1] in dirs then 1 else 0
  }

  /** With up to `n` more levels of the path made. */
  function Made(dirs: set<Path>, path: Path, n: nat): set<Path>
    requires |path| == 3
  {
    var depth := Min(3, Depth(dirs, path) + n);
    if depth == 3 then dirs + {path, path[..2], path[..1]}
    else if depth == 2 then dirs + {path[..2], path[..1]}
    else if depth == 1 then dirs + {path[..1]}
    else dirs
  }

  function PulledDirs(dirs: set<Path>, name: ComponentName, fault: Fault): set<Path> {
    Made(dirs, ComponentPath(name), if fault.call == 0 then fault.partial else 3)
  }

  /** The directories that were made by a call that failed, and so were not counted. */
  function HalfMade(dirs: set<Path>, name: ComponentName, fault: Fault): nat {
    if fault.call == 0 then Min(fault.partial, 3 - Depth(dirs, ComponentPath(name))) else 0
  }

  predicate HasBoth(files: Files, name: ComponentName) {
    ContainerPath(name) in files && SpecPath(name) in files
  }

  function RemovedFiles(files: Files, name: ComponentName, failing: nat): Files {
    if failing <= 1 || ContainerPath(name) !in files then files
    else if failing <= 3 || SpecPath(name) !in files then files - {ContainerPath(name)}
    else files - {ContainerPath(name), SpecPath(name)}
  }

  /** The directories of the path, from level `k` up, are removed while they are empty and not stuck. */
  function Pruned(dirs: set<Path>, files: Files, path: Path, k: nat, stuck: set<Path>): set<Path>
    requires k <= |path|
  {
    if k == 0 || path[..k] !in dirs || path[..k] in stuck || !Empty(dirs, files, path[..k]) then dirs
    else Pruned(dirs - {path[..k]}, files, path, k - 1, stuck)
  }

  function RemovedDirs(dirs: set<Path>, files: Files, name: ComponentName, failing: nat, stuck: set<Path>): set<Path> {
    if failing > 3 && HasBoth(files, name) then
      Pruned(dirs, RemovedFiles(files, name, failing), ComponentPath(name), 3, stuck)
    else dirs
  }

  /**
    * The counters are unsigned words in the code. Here they are integers: one below zero is an
    * underflow.
    */
  class ContainerStore {
    var dirs: set<Path>
    var files: Files
    var bytes: int
    var inodes: int

    ghost predicate Valid()
      reads this
    {
      Tree(dirs, files)
    }

    /** By how much the counter of bytes exceeds what the files hold. */
    ghost function Slack(): int
      reads this
    {
      bytes - Total(files)
    }

    /** By how much the counter of inodes exceeds the directories and files. */
    ghost function Gap(): int
      reads this
    {
      inodes - |dirs| - |files|
    }

    lemma Counts()
      ensures bytes == Slack() + Total(files) && inodes == Gap() + |dirs| + |files|
    {
    }

    /** A store on a root as it was found. The counters start at zero whatever there is. */
    constructor (dirs: set<Path>, files: Files)
      requires Tree(dirs, files)
      ensures Valid() && this.dirs == dirs && this.files == files && bytes == 0 && inodes == 0
    {
      this.dirs, this.files, bytes, inodes := dirs, files, 0, 0;
    }

    /** `File::create`: empties the file if it is there. */
    method CreateFile(p: Path, newInode: nat)
      requires Valid() && |p| == 4 && p[..3] in dirs
      requires newInode == if p in files then 0 else 1
      modifies this`files, this`inodes
      ensures Valid() && files == old(files)[p := []]
      ensures Slack() == old(Slack()) + SizeAt(old(files), p) && Gap() == old(Gap())
    {
      if p in files { TotalWithout(files, p); } else { assert files - {p} == files; }
      TotalPut(files, p, []);
      files := files[p := []];
      inodes := inodes + newInode;
    }

    /** `write_all`, counted if it succeeds; if it fails some of the bytes may have been written. */
    method WriteAll(p: Path, data: seq<byte>, torn: Option<nat>) returns (ok: bool)
      requires Valid() && p in files
      modifies this`files, this`bytes
      ensures Valid() && (ok <==> torn.None?)
      ensures ok ==> files == Adds(old(files), p, data) && Slack() == old(Slack())
      ensures !ok ==> files == Adds(old(files), p, Front(data, torn.value))
      ensures !ok ==> Slack() == old(Slack()) - |Front(data, torn.value)|
      ensures Gap() == old(Gap())
    {
      var written := if torn.None? then data else Front(data, torn.value);
      TotalWithout(files, p);
      TotalPut(files, p, files[p] + written);
      files := files[p := files[p] + written];
      if torn.None? { bytes := bytes + |data|; }
      ok := torn.None?;
    }

    method RemoveFile(p: Path)
      requires Valid() && p in files
      modifies this`files, this`bytes, this`inodes
      ensures Valid() && files == old(files) - {p}
      ensures Slack() == old(Slack()) && Gap() == old(Gap())
    {
      TotalWithout(files, p);
      bytes := bytes - |files[p]|;
      files := files - {p};
      inodes := inodes - 1;
    }

    /**
      * `create_dir_all`, with the inodes it takes counted beforehand from the top level that is there,
      * and added if it succeeds; if it fails some of the levels may have been made.
      */
    method MakeDirs(path: Path, torn: Option<nat>) returns (ok: bool)
      requires Valid() && |path| == 3
      modifies this`dirs, this`inodes
      ensures Valid() && Slack() == old(Slack()) && (ok <==> torn.None?)
      ensures ok ==> dirs == Made(old(dirs), path, 3) && Gap() == old(Gap())
      ensures !ok ==> dirs == Made(old(dirs), path, torn.value)
      ensures !ok ==> Gap() == old(Gap()) - Min(torn.value, 3 - Depth(old(dirs), path))
    {
      var added := if path in dirs then 0 else if path[..2] in dirs then 1 else if path[..1] in dirs then 2 else 3;
      var n := if torn.None? then 3 else torn.value;
      assert added == 3 - Depth(dirs, path);
      hide Tree, Made, Total, Depth;
      MadeTree(dirs, files, path, n);
      MadeDirs(dirs, files, path, n);
      dirs := Made(dirs, path, n);
      if torn.None? { inodes := inodes + added; }
      ok := torn.None?;
    }

    /**
      * Stores an image, as far as the calls into the filesystem succeed. Images of other names are
      * untouched; the counter of bytes runs ahead by what was overwritten and falls behind by what a
      * failing call wrote, the counter of inodes falls behind by what a failing call made.
      */
    method Pull(name: ComponentName, image: Image, fault: Fault) returns (ok: bool)
      requires Valid() && Sized(image)
      modifies this
      ensures Valid() && OnlyFilesOf(name, old(files), files)
      ensures ok <==> fault.call >= 9
      ensures ok ==> ImageOf(files, name) == Some(image)
      ensures Slack() == old(Slack()) + Overwritten(old(files), name, fault) - Torn(image, fault)
      ensures Gap() == old(Gap()) - HalfMade(old(dirs), name, fault)
      ensures files == PulledFiles(old(files), name, image, fault)
      ensures dirs == PulledDirs(old(dirs), name, fault)
    {
      PulledFacts(files, name, image, fault);
      hide Valid, Slack, Gap, ImageOf, OnlyFilesOf, Overwritten, PulledFiles, PulledDirs, Torn, HalfMade;
      ok := MakePlace(name, fault);
      if ok { ok := StoreFiles(name, image, fault); }
      NothingPulled(old(files), name, image, fault);
    }

    /** The directories of the name, if the call succeeds and so does what comes next. */
    method MakePlace(name: ComponentName, fault: Fault) returns (ok: bool)
      requires Valid()
      modifies this`dirs, this`inodes
      ensures Valid() && Slack() == old(Slack()) && (ok <==> fault.call > 1)
      ensures Gap() == old(Gap()) - HalfMade(old(dirs), name, fault)
      ensures dirs == PulledDirs(old(dirs), name, fault) && (ok ==> ComponentPath(name) in dirs)
    {
      MadeHas(dirs, ComponentPath(name));
      hide Valid, Slack, Gap, ComponentPath, Made, Depth;
      ok := MakeDirs(ComponentPath(name), if fault.call == 0 then Some(fault.partial) else None);
      ok := ok && fault.call > 1;
    }

    /** The two files of the name, created and filled as far as the calls succeed. */
    method StoreFiles(name: ComponentName, image: Image, fault: Fault) returns (ok: bool)
      requires Valid() && Sized(image) && ComponentPath(name) in dirs && fault.call > 1
      modifies this`files, this`inodes, this`bytes
      ensures Valid() && Gap() == old(Gap()) && (ok <==> fault.call >= 9)
      ensures Slack() == old(Slack()) + Overwritten(old(files), name, fault) - Torn(image, fault)
      ensures files == PulledFiles(old(files), name, image, fault)
    {
      PathsDiffer(name, name);
      PulledInTurn(files, name, image, fault);
      hide Valid, Slack, Gap, ContainerPath, SpecPath, ComponentPath, Overwritten, Stage, PulledFiles, Torn;
      ok := CreateFiles(name, fault);
      if ok { ok := Write(ContainerPath(name), SpecPath(name), image, fault); }
    }

    /** The two files of the name, empty, as far as the calls succeed. */
    method CreateFiles(name: ComponentName, fault: Fault) returns (ok: bool)
      requires Valid() && ComponentPath(name) in dirs && fault.call > 1
      modifies this`files, this`inodes
      ensures Valid() && Gap() == old(Gap()) && (ok <==> fault.call > 2)
      ensures Slack() == old(Slack()) + Overwritten(old(files), name, fault)
      ensures !ok ==> files == old(files)[ContainerPath(name) := []]
      ensures ok ==> files == old(files)[ContainerPath(name) := []][SpecPath(name) := []]
    {
      var path, container, image := ComponentPath(name), ContainerPath(name), SpecPath(name);
      PathsDiffer(name, name);
      assert container[..3] == path && image[..3] == path && |container| == 4 && |image| == 4;
      OverwrittenInTurn(files, name, fault);
      hide Valid, ContainerPath, SpecPath, ComponentPath, Slack, Gap, SizeAt, Overwritten;
      var newContainer, newImage := if container in files then 0 else 1, if image in files then 0 else 1;
      CreateFile(container, newContainer);
      if fault.call == 2 { return false; }
      CreateFile(image, newImage);
      ok := true;
    }

    /** Fills the two files, the component after its length, as far as the calls succeed. */
    method Write(container: Path, spec: Path, image: Image, fault: Fault) returns (ok: bool)
      requires Valid() && Sized(image) && container != spec && fault.call > 2
      requires container in files && spec in files && files[container] == [] && files[spec] == []
      modifies this`files, this`bytes
      ensures Valid() && Gap() == old(Gap()) && Slack() == old(Slack()) - Torn(image, fault)
      ensures ok <==> fault.call >= 9
      ensures files == Stage(old(files), container, spec, image, fault)
    {
      StageSteps(files, container, spec, image, 6, fault.partial);
      StageEnds(files, container, spec, image, fault);
      hide Valid, Slack, Gap, LittleEndian, Stage, Adds, Front, Torn;
      ok := WriteContainer(container, spec, image, fault);
      if !ok { return; }
      ok := WriteAll(spec, image.spec, if fault.call == 6 then Some(fault.partial) else None);
      ok := fault.call >= 9;
    }

    method WriteContainer(container: Path, ghost spec: Path, image: Image, fault: Fault) returns (ok: bool)
      requires Valid() && Sized(image) && container != spec && fault.call > 2
      requires container in files && spec in files && files[container] == [] && files[spec] == []
      modifies this`files, this`bytes
      ensures Valid() && Gap() == old(Gap()) && (ok <==> fault.call > 5)
      ensures Slack() == old(Slack()) - if ok then 0 else Torn(image, fault)
      ensures files == Stage(old(files), container, spec, image, if ok then Fault(6, 0) else fault)
    {
      StageSteps(files, container, spec, image, 3, fault.partial);
      StageSteps(files, container, spec, image, 4, fault.partial);
      StageSteps(files, container, spec, image, 5, fault.partial);
      StageEnds(files, container, spec, image, fault);
      hide Valid, Slack, Gap, LittleEndian, Stage, Adds, Front, Torn;
      ok := WriteAll(container, LittleEndian(|image.component|, 8), if fault.call == 3 then Some(fault.partial) else None);
      if !ok { return; }
      ok := WriteAll(container, image.component, if fault.call == 4 then Some(fault.partial) else None);
      if !ok { return; }
      ok := WriteAll(container, image.metadata, if fault.call == 5 then Some(fault.partial) else None);
    }

    /** `remove_dir`: fails if the directory is missing, not empty or stuck. */
    method RemoveDir(d: Path, stuck: set<Path>) returns (removed: bool)
      requires Valid()
      modifies this`dirs, this`inodes
      ensures Valid() && Slack() == old(Slack()) && Gap() == old(Gap())
      ensures removed <==> d in old(dirs) && d !in stuck && Empty(old(dirs), files, d)
      ensures dirs == if removed then old(dirs) - {d} else old(dirs)
    {
      removed := d in dirs && d !in stuck && Empty(dirs, files, d);
      if removed {
        EmptyTree(dirs, files, d);
        hide Tree;
        dirs := dirs - {d};
        inodes := inodes - 1;
      }
    }

    /** From the version up to the domain, directories are removed while they are empty and not stuck. */
    method RemoveDirs(path: Path, stuck: set<Path>)
      requires Valid() && |path| == 3
      modifies this`dirs, this`inodes
      ensures Valid() && Slack() == old(Slack()) && Gap() == old(Gap())
      ensures dirs == Pruned(old(dirs), files, path, 3, stuck)
    {
      var k: nat := 3;
      PrunedStep(dirs, files, path, 0, stuck);
      hide Valid, Slack, Gap, Empty, Pruned;
      while k > 0
        invariant k <= 3 && Valid() && Slack() == old(Slack()) && Gap() == old(Gap())
        invariant Pruned(dirs, files, path, k, stuck) == Pruned(old(dirs), files, path, 3, stuck)
      {
        PrunedStep(dirs, files, path, k, stuck);
        var removed := RemoveDir(path[..k], stuck);
        if !removed { break; }
        k := k - 1;
        PrunedStep(dirs, files, path, k, stuck);
      }
    }

    /** `get`: the component and the metadata of a container. */
    method Get(name: ComponentName) returns (r: Result<(seq<byte>, seq<byte>), ReadError>)
      ensures r == if ContainerPath(name) in files then ReadContainer(files[ContainerPath(name)]) else Err(NotFound)
      ensures ImageOf(files, name).Some? ==>
                r == Ok((ImageOf(files, name).value.component, ImageOf(files, name).value.metadata))
    {
      var path := ContainerPath(name);
      if path !in files {
        return Err(NotFound);
      }
      var file := files[path];
      if |file| < 8 {
        return Err(TooShort);
      }
      var size := FromLittleEndian(file[..8]);
      if |file| - 8 < size {
        return Err(TooShort);
      }
      r := Ok((file[8..8 + size], file[8 + size..]));
    }

    /** `get_image`: the size of the container's file and the image spec. */
    method GetImage(name: ComponentName) returns (r: Result<(nat, seq<byte>), ReadError>)
      ensures r.Ok? <==> ContainerPath(name) in files && SpecPath(name) in files
      ensures r.Ok? ==> r.value == (|files[ContainerPath(name)]|, files[SpecPath(name)])
    {
      if ContainerPath(name) !in files || SpecPath(name) !in files {
        return Err(NotFound);
      }
      r := Ok((|files[ContainerPath(name)]|, files[SpecPath(name)]));
    }

    /**
      * Deletes an image, as far as the calls into the filesystem succeed. Images of other names are
      * untouched, the counters stand to the truth as before, and when the directories left empty could
      * be removed none is left behind.
      */
    method RemoveImage(name: ComponentName, failing: nat, stuck: set<Path>) returns (ok: bool)
      requires Valid()
      modifies this
      ensures Valid() && Slack() == old(Slack()) && Gap() == old(Gap()) && OnlyFilesOf(name, old(files), files)
      ensures ok <==> failing > 3 && HasBoth(old(files), name)
      ensures files == RemovedFiles(old(files), name, failing)
      ensures dirs == RemovedDirs(old(dirs), old(files), name, failing, stuck) && dirs <= old(dirs)
      ensures ok && stuck == {} && Tidy(old(dirs), old(files)) ==> Tidy(dirs, files)
    {
      TreeOfStore();
      hide *;
      RemovalFacts(dirs, files, name, failing, stuck);
      ok := RemoveFiles(name, failing);
      if ok { RemoveDirs(ComponentPath(name), stuck); }
    }

    lemma TreeOfStore()
      requires Valid()
      ensures Tree(dirs, files)
    {
    }

    method RemoveFiles(name: ComponentName, failing: nat) returns (ok: bool)
      requires Valid()
      modifies this`files, this`bytes, this`inodes
      ensures Valid() && Slack() == old(Slack()) && Gap() == old(Gap())
      ensures ok <==> failing > 3 && HasBoth(old(files), name)
      ensures files == RemovedFiles(old(files), name, failing)
    {
      var container, image := ContainerPath(name), SpecPath(name);
      PathsDiffer(name, name);
      hide Valid, ContainerPath, SpecPath, Slack, Gap;
      ok := false;
      if failing == 0 || container !in files { return; }
      if failing == 1 { return; }
      RemoveFile(container);
      if failing == 2 || image !in files { return; }
      if failing == 3 { return; }
      RemoveFile(image);
      ok := true;
      assert files == old(files) - {container, image};
    }
  }

  lemma NothingPulled(files: Files, name: ComponentName, image: Image, fault: Fault)
    requires Sized(image)
    ensures fault.call <= 1 ==> PulledFiles(files, name, image, fault) == files
    ensures fault.call <= 1 ==> Overwritten(files, name, fault) == 0 && Torn(image, fault) == 0
  {
  }

  lemma OverwrittenInTurn(files: Files, name: ComponentName, fault: Fault)
    ensures fault.call == 2 ==> Overwritten(files, name, fault) == SizeAt(files, ContainerPath(name))
    ensures fault.call > 2 ==>
      Overwritten(files, name, fault)
      == SizeAt(files, ContainerPath(name)) + SizeAt(files[ContainerPath(name) := []], SpecPath(name))
  {
    PathsDiffer(name, name);
    hide ContainerPath, SpecPath;
  }

  /** The two files after the calls numbered from 3 up to the one that fails. */
  function Stage(files: Files, container: Path, spec: Path, image: Image, fault: Fault): (r: Files)
    requires Sized(image)
    ensures container in r && spec in r
  {
    files[container := Filled(image, fault)][spec := SpecFilled(image, fault)]
  }

  function Adds(files: Files, p: Path, data: seq<byte>): Files
    requires p in files
  {
    files[p := files[p] + data]
  }

  lemma UpdateAgain(files: Files, c: Path, i: Path, x: seq<byte>, y: seq<byte>, z: seq<byte>)
    requires c != i
    ensures files[c := x][i := y][c := z] == files[c := z][i := y]
    ensures files[c := x][i := y][i := z] == files[c := x][i := z]
  {
  }

  /** One call more: all of its piece, or as much as was written before it failed. */
  lemma FillSteps(image: Image, call: nat, partial: nat)
    requires Sized(image) && 3 <= call <= 6
    ensures call < 6 ==>
      && Filled(image, Fault(call, partial)) == Filled(image, Fault(call, 0)) + Front(Piece(image, call), partial)
      && Filled(image, Fault(call + 1, 0)) == Filled(image, Fault(call, 0)) + Piece(image, call)
      && SpecFilled(image, Fault(call, partial)) == SpecFilled(image, Fault(call + 1, 0)) == []
      && SpecFilled(image, Fault(call, 0)) == []
    ensures call == 6 ==>
      && SpecFilled(image, Fault(call, partial)) == SpecFilled(image, Fault(call, 0)) + Front(Piece(image, call), partial)
      && SpecFilled(image, Fault(call + 1, 0)) == SpecFilled(image, Fault(call, 0)) + Piece(image, call)
      && Filled(image, Fault(call, partial)) == Filled(image, Fault(call + 1, 0)) == Filled(image, Fault(call, 0))
  {
    hide LittleEndian;
  }

  lemma StageSteps(files: Files, container: Path, spec: Path, image: Image, call: nat, partial: nat)
    requires Sized(image) && 3 <= call <= 6 && container != spec
    ensures var p := if call < 6 then container else spec;
      var here := Stage(files, container, spec, image, Fault(call, 0));
      && Adds(here, p, Front(Piece(image, call), partial)) == Stage(files, container, spec, image, Fault(call, partial))
      && Adds(here, p, Piece(image, call)) == Stage(files, container, spec, image, Fault(call + 1, 0))
  {
    FillSteps(image, call, partial);
    hide Filled, SpecFilled, Front, Piece;
    var x, y := Filled(image, Fault(call, 0)), SpecFilled(image, Fault(call, 0));
    UpdateAgain(files, container, spec, x, y, Filled(image, Fault(call, partial)));
    UpdateAgain(files, container, spec, x, y, Filled(image, Fault(call + 1, 0)));
    UpdateAgain(files, container, spec, x, y, SpecFilled(image, Fault(call, partial)));
    UpdateAgain(files, container, spec, x, y, SpecFilled(image, Fault(call + 1, 0)));
  }

  /** Where the calls start, and where they end when none of them fails. */
  lemma StageEnds(files: Files, container: Path, spec: Path, image: Image, fault: Fault)
    requires Sized(image) && container != spec
    requires container in files && spec in files && files[container] == [] && files[spec] == []
    ensures Stage(files, container, spec, image, Fault(3, 0)) == files
    ensures fault.call > 6 ==>
      Stage(files, container, spec, image, fault) == Stage(files, container, spec, image, Fault(7, 0))
    ensures Torn(image, fault) == |Front(Piece(image, fault.call), fault.partial)|
    ensures fault.call > 6 ==> Torn(image, fault) == 0
  {
    hide LittleEndian;
    assert Filled(image, Fault(3, 0)) == [] && SpecFilled(image, Fault(3, 0)) == [];
  }

  lemma PulledInTurn(files: Files, name: ComponentName, image: Image, fault: Fault)
    requires Sized(image)
    ensures var c, i := ContainerPath(name), SpecPath(name);
      var after := PulledFiles(files, name, image, fault);
      && (fault.call == 2 ==> after == files[c := []] && Torn(image, fault) == 0)
      && (fault.call > 2 ==> after == Stage(files[c := []][i := []], c, i, image, fault))
  {
    PathsDiffer(name, name);
    hide Filled, SpecFilled, ContainerPath, SpecPath;
  }

  /** A pull touches the files of its name only, and if it gets to the end they hold the image. */
  lemma PulledFacts(files: Files, name: ComponentName, image: Image, fault: Fault)
    requires Sized(image)
    ensures OnlyFilesOf(name, files, PulledFiles(files, name, image, fault))
    ensures fault.call > 6 ==> ImageOf(PulledFiles(files, name, image, fault), name) == Some(image)
  {
    PathsDiffer(name, name);
    ContainerTrip(image.component, image.metadata);
    hide ReadContainer, LittleEndian, ContainerPath, SpecPath, Front;
  }

  lemma RemovedOnly(name: ComponentName, files: Files, failing: nat)
    ensures OnlyFilesOf(name, files, RemovedFiles(files, name, failing))
  {
    hide ContainerPath, SpecPath;
  }

  lemma MadeTree(dirs: set<Path>, files: Files, path: Path, n: nat)
    requires Tree(dirs, files) && |path| == 3
    ensures Tree(Made(dirs, path, n), files)
  {
    assert path[..2][..1] == path[..1];
  }

  lemma MadeHas(dirs: set<Path>, path: Path)
    requires |path| == 3
    ensures path in Made(dirs, path, 3)
  {
  }

  lemma MadeDirs(dirs: set<Path>, files: Files, path: Path, n: nat)
    requires Tree(dirs, files) && |path| == 3
    ensures |Made(dirs, path, n)| == |dirs| + Min(n, 3 - Depth(dirs, path))
  {
    var b, a := path[..2], path[..1];
    assert b[..1] == a && |path| != |b| && |b| != |a|;
    assert path in dirs ==> b in dirs;
    assert b in dirs ==> a in dirs;
    hide Tree;
    AddedLevels(dirs, path, b, a);
  }

  /** Sizes of a set with levels of a path added, of which the upper ones may be there. */
  lemma AddedLevels(dirs: set<Path>, c: Path, b: Path, a: Path)
    requires c != b && b != a && c != a && (c in dirs ==> b in dirs) && (b in dirs ==> a in dirs)
    ensures var n := if c in dirs then 3 else if b in dirs then 2 else if a in dirs then 1 else 0;
      && |dirs + {c, b, a}| == |dirs| + 3 - n
      && (n <= 2 ==> |dirs + {b, a}| == |dirs| + 2 - n)
      && (n <= 1 ==> |dirs + {a}| == |dirs| + 1 - n)
  {
    if a in dirs { assert dirs + {a} == dirs; }
    if b in dirs { assert dirs + {b, a} == dirs; } else { assert dirs + {b, a} == dirs + {a} + {b}; }
    if c in dirs { assert dirs + {c, b, a} == dirs; } else { assert dirs + {c, b, a} == dirs + {b, a} + {c}; }
  }

  lemma PrunedStep(dirs: set<Path>, files: Files, path: Path, k: nat, stuck: set<Path>)
    requires k <= |path|
    ensures k == 0 ==> Pruned(dirs, files, path, k, stuck) == dirs
    ensures k > 0 ==> var d := path[..k];
      Pruned(dirs, files, path, k, stuck) ==
      if d in dirs && d !in stuck && Empty(dirs, files, d) then Pruned(dirs - {d}, files, path, k - 1, stuck) else dirs
  {
  }

  lemma EmptyTree(dirs: set<Path>, files: Files, d: Path)
    requires Tree(dirs, files) && d in dirs && Empty(dirs, files, d)
    ensures Tree(dirs - {d}, files)
  {
    forall p <- dirs | |p| > 1 ensures p[..|p| - 1] != d { assert !IsParent(d, p); }
    forall p <- files ensures p[..3] != d { assert !IsParent(d, p); }
  }

  lemma BothWithin(d: Path, path: Path, p: Path)
    requires Within(d, p) && Within(path, p) && |d| <= |path|
    ensures d == path[..|d|]
  {
    assert p[..|path|][..|d|] == p[..|d|];
  }

  lemma WithinChain(d: Path, q: Path, p: Path)
    requires Within(q, p) && |d| <= |q| && q[..|d|] == d
    ensures Within(d, p)
  {
    assert p[..|q|][..|d|] == p[..|d|];
  }

  /**
    * Directories that lost their only files are removed, up to the first that has others, so that a
    * tidy tree stays tidy; `left` is what there was down to level `k`.
    */
  lemma {:induction false} PrunedTidy(dirs: set<Path>, left: set<Path>, before: Files, after: Files, path: Path, k: nat)
    requires Tree(left, after) && |path| == 3 && k <= 3 && left <= dirs
    requires Tidy(dirs, before) && OnlyBelow(path, before, after)
    requires Gone(left, path, k) && (k > 0 ==> path[..k] in left)
    ensures Tree(Pruned(left, after, path, k, {}), after) && Tidy(Pruned(left, after, path, k, {}), after)
  {
    hide Tree, Tidy, OnlyBelow, Empty, Gone;
    if k > 0 && Empty(left, after, path[..k]) {
      EmptyTree(left, after, path[..k]);
      ParentStays(left, after, path, k);
      GoneMore(left, path, k);
      PrunedTidy(dirs, left - {path[..k]}, before, after, path, k - 1);
    } else {
      TidyAfter(dirs, left, before, after, path, k);
    }
  }

  /** The directories of the path below level `k` are not there. */
  predicate Gone(dirs: set<Path>, path: Path, k: nat)
    requires |path| == 3
  {
    forall j | k < j <= 3 :: path[..j] !in dirs
  }

  lemma GoneMore(dirs: set<Path>, path: Path, k: nat)
    requires |path| == 3 && 1 <= k <= 3 && Gone(dirs, path, k)
    ensures Gone(dirs - {path[..k]}, path, k - 1)
  {
  }

  lemma ParentStays(dirs: set<Path>, files: Files, path: Path, k: nat)
    requires Tree(dirs, files) && |path| == 3 && 1 <= k <= 3 && path[..k] in dirs
    ensures k > 1 ==> path[..k - 1] in dirs - {path[..k]}
  {
    if k > 1 {
      assert path[..k][..k - 1] == path[..k - 1];
      assert |path[..k - 1]| != |path[..k]|;
    }
  }

  lemma TidyAfter(dirs: set<Path>, left: set<Path>, before: Files, after: Files, path: Path, k: nat)
    requires Tree(left, after) && |path| == 3 && k <= 3 && left <= dirs
    requires Tidy(dirs, before) && OnlyBelow(path, before, after)
    requires Gone(left, path, k)
    requires k > 0 ==> path[..k] in left && !Empty(left, after, path[..k])
    ensures Tidy(left, after)
  {
    if k > 0 { StillHolds(dirs, left, before, after, path, k); }
    forall d <- left ensures Holds(after, d) {
      assert Holds(before, d) && 1 <= |d| <= 3;
      var p :| p in before && Within(d, p);
      hide Tree, Tidy, Empty, Within, IsParent;
      if p !in after {
        BothWithin(d, path, p);
        HoldsAbove(after, path, |d|, k);
      }
    }
  }

  lemma HoldsAbove(files: Files, path: Path, j: nat, k: nat)
    requires j <= k <= |path| && Holds(files, path[..k])
    ensures Holds(files, path[..j])
  {
    var q :| q in files && Within(path[..k], q);
    assert path[..k][..j] == path[..j];
    WithinChain(path[..j], path[..k], q);
  }

  lemma StillHolds(dirs: set<Path>, left: set<Path>, before: Files, after: Files, path: Path, k: nat)
    requires Tree(left, after) && |path| == 3 && 1 <= k <= 3 && left <= dirs
    requires Tidy(dirs, before) && OnlyBelow(path, before, after)
    requires Gone(left, path, k)
    requires path[..k] in left && !Empty(left, after, path[..k])
    ensures Holds(after, path[..k])
  {
    var d := path[..k];
    if q :| q in after && IsParent(d, q) {
      assert Within(d, q);
    } else {
      var q :| q in left && IsParent(d, q);
      assert Holds(before, q) && |q| == k + 1 <= 3;
      var p :| p in before && Within(q, p);
      WithinChain(d, q, p);
      hide Within;
      assert p in after by {
        if p !in after { BothWithin(q, path, p); }
      }
    }
  }

  lemma PulledTidy(name: ComponentName, dirs: set<Path>, files: Files, dirsAfter: set<Path>, filesAfter: Files)
    requires Tidy(dirs, files) && files.Keys <= filesAfter.Keys && ContainerPath(name) in filesAfter
    requires dirsAfter == Made(dirs, ComponentPath(name), 3)
    ensures Tidy(dirsAfter, filesAfter)
  {
    var path := ComponentPath(name);
    forall k | 1 <= k <= 3 ensures Within(path[..k], ContainerPath(name)) {
      assert ContainerPath(name)[..k] == path[..k];
    }
    assert path[..3] == path;
    hide ContainerPath, ComponentPath, Within;
    forall d <- dirsAfter ensures Holds(filesAfter, d) {
      if d in dirs { var p :| p in files && Within(d, p); }
    }
  }

  lemma RemovalPrunes(dirs: set<Path>, files: Files, name: ComponentName, failing: nat, stuck: set<Path>)
    requires HasBoth(files, name) && failing > 3
    ensures RemovedDirs(dirs, files, name, failing, stuck) ==
            Pruned(dirs, RemovedFiles(files, name, failing), ComponentPath(name), 3, stuck)
  {
  }

  lemma RemovedTree(dirs: set<Path>, files: Files, name: ComponentName)
    requires Tree(dirs, files)
    ensures Tree(dirs, files - {ContainerPath(name), SpecPath(name)})
    ensures OnlyBelow(ComponentPath(name), files, files - {ContainerPath(name), SpecPath(name)})
    ensures Gone(dirs, ComponentPath(name), 3)
  {
    assert Within(ComponentPath(name), ContainerPath(name)) && Within(ComponentPath(name), SpecPath(name));
    hide ContainerPath, SpecPath, ComponentPath, Within;
  }

  /** A removal that is not hindered leaves no directory without files. */
  lemma RemovalTidy(dirs: set<Path>, files: Files, name: ComponentName, failing: nat)
    requires Tree(dirs, files) && Tidy(dirs, files) && HasBoth(files, name) && failing > 3
    ensures Tidy(RemovedDirs(dirs, files, name, failing, {}), RemovedFiles(files, name, failing))
  {
    hide *;
    var path, left := ComponentPath(name), RemovedFiles(files, name, failing);
    assert path[..3] == path;
    RemovalTakes(files, name, failing);
    PlaceOf(dirs, files, name);
    RemovalPrunes(dirs, files, name, failing, {});
    RemovedTree(dirs, files, name);
    PrunedTidy(dirs, dirs, files, left, path, 3);
  }

  lemma {:induction false} PrunedWithin(dirs: set<Path>, files: Files, path: Path, k: nat, stuck: set<Path>)
    requires k <= |path|
    ensures Pruned(dirs, files, path, k, stuck) <= dirs
  {
    hide Empty;
    if k > 0 { PrunedWithin(dirs - {path[..k]}, files, path, k - 1, stuck); }
  }

  lemma RemovalFacts(dirs: set<Path>, files: Files, name: ComponentName, failing: nat, stuck: set<Path>)
    requires Tree(dirs, files)
    ensures var left, after := RemovedDirs(dirs, files, name, failing, stuck), RemovedFiles(files, name, failing);
      && OnlyFilesOf(name, files, after)
      && left <= dirs
      && (if failing > 3 && HasBoth(files, name) then left == Pruned(dirs, after, ComponentPath(name), 3, stuck)
          else left == dirs)
      && (failing > 3 && HasBoth(files, name) && stuck == {} && Tidy(dirs, files) ==> Tidy(left, after))
  {
    RemovedOnly(name, files, failing);
    hide Pruned, Empty, Tree, Tidy, HasBoth, OnlyFilesOf, ComponentPath, RemovedFiles;
    if failing > 3 && HasBoth(files, name) {
      PrunedWithin(dirs, RemovedFiles(files, name, failing), ComponentPath(name), 3, stuck);
      if Tidy(dirs, files) { RemovalTidy(dirs, files, name, failing); }
    }
  }

  lemma RemovalTakes(files: Files, name: ComponentName, failing: nat)
    requires HasBoth(files, name) && failing > 3
    ensures RemovedFiles(files, name, failing) == files - {ContainerPath(name), SpecPath(name)}
  {
  }

  lemma PlaceOf(dirs: set<Path>, files: Files, name: ComponentName)
    requires Tree(dirs, files) && HasBoth(files, name)
    ensures ComponentPath(name) in dirs
  {
    assert ContainerPath(name)[..3] == ComponentPath(name);
  }
}
