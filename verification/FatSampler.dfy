/**
 * The sampler itself: file system type, cluster contents, the recursive directory walk, and the
 * final sort by path. Exceptions, including Python's RecursionError on a directory cycle, end in
 * the read_error result; the recursion limit is the parameter `budget`.
 */
module FatSampler {
  import opened Prelude
  import opened FatTable
  import opened FatDirectory

  /** A sampled file. Its content stands for the SHA-256 of its content. */
  datatype FileRec = FileRec(path: Text, size: nat, content: seq<Byte>)

  datatype Geometry = Geometry(
    bytesPerSector: nat, sectorsPerCluster: nat, fatOffset: nat, fatType: FatType, firstDataSector: nat)

  // ---------------------------------------------------------------- cluster contents

  function ClusterBytes(image: seq<Byte>, g: Geometry, cluster: nat): seq<Byte>
    requires cluster >= 2
  {
    var offset := (g.firstDataSector + (cluster - 2) * g.sectorsPerCluster) * g.bytesPerSector;
    Slice(image, offset, offset + g.bytesPerSector * g.sectorsPerCluster)
  }

  ghost function ChainOf(image: seq<Byte>, g: Geometry, start: nat): (chain: seq<nat>)
    ensures forall i :: 0 <= i < |chain| ==> 2 <= chain[i]
  {
    ChainFromIsWalk(Table(image, g.fatOffset, g.fatType), Eof(g.fatType), start, {});
    ChainFrom(Table(image, g.fatOffset, g.fatType), Eof(g.fatType), start, {})
  }

  function ChainBytes(image: seq<Byte>, g: Geometry, chain: seq<nat>): seq<Byte>
    requires forall i :: 0 <= i < |chain| ==> 2 <= chain[i]
  {
    if chain == [] then []
    else ChainBytes(image, g, chain[..|chain|-1]) + ClusterBytes(image, g, chain[|chain|-1])
  }

  ghost function ReadSpec(image: seq<Byte>, g: Geometry, start: nat): seq<Byte> {
    ChainBytes(image, g, ChainOf(image, g, start))
  }

  /** What every cluster number reads as. */
  ghost function Reader(image: seq<Byte>, g: Geometry): nat -> seq<Byte> {
    (start: nat) => ReadSpec(image, g, start)
  }

  method ReadChain(image: seq<Byte>, g: Geometry, startCluster: nat) returns (bytes: seq<Byte>)
    ensures bytes == ReadSpec(image, g, startCluster)
  {
    bytes := [];
    if startCluster < 2 {
      return;
    }
    var chain := Chain(image, g.fatOffset, startCluster, g.fatType);
    assert chain == ChainOf(image, g, startCluster);
    for i := 0 to |chain|
      invariant bytes == ChainBytes(image, g, chain[..i])
    {
      bytes := bytes + ClusterBytes(image, g, chain[i]);
      assert chain[..i+1][..i] == chain[..i];
    }
    assert chain[..|chain|] == chain;
  }

  // ---------------------------------------------------------------- the directory walk

  function PathOf(prefix: Text, name: Text): Text {
    if prefix != [] then prefix + [47] + name else name
  }

  function Then(found: seq<FileRec>, r: Result<seq<FileRec>>): Result<seq<FileRec>> {
    if r.Ok? then Ok(found + r.value) else r
  }

  lemma ThenNothing(found: seq<FileRec>, r: Result<seq<FileRec>>)
    ensures Then([], r) == r && Then(found, Ok([])) == Ok(found)
  {
    assert found + [] == found;
    if r.Ok? { assert [] + r.value == r.value; }
  }

  function NameOf(lfn: seq<Text>, entry: seq<Byte>): Text
    requires |entry| == 32
  {
    if lfn != [] then Join(lfn) else ShortName(entry)
  }

  /** What a file or directory entry with a proper name contributes. */
  ghost function Visit(read: nat -> seq<Byte>, fatType: FatType, path: Text, entry: seq<Byte>,
      budget: nat): Result<seq<FileRec>>
    requires |entry| == 32
    decreases budget, 0
  {
    var cluster := EntryCluster(entry, fatType);
    if HasBit(entry[11], 0x10) then
      if cluster < 2 then Ok([])
      else if budget == 0 then Err("maximum recursion depth exceeded")
      else WalkDir(read, fatType, path, read(cluster), [], budget - 1)
    else
      var size := U32(entry, 28);
      Ok([FileRec(path, size, Slice(read(cluster), 0, size))])
  }

  /** The walk over a directory's bytes, holding the name fragments read so far. */
  ghost function WalkDir(read: nat -> seq<Byte>, fatType: FatType, prefix: Text, dir: seq<Byte>, lfn: seq<Text>,
      budget: nat): Result<seq<FileRec>>
    decreases budget, |dir| + 1
  {
    if |dir| < 32 || dir[0] == 0 then Ok([])
    else
      var entry, rest := dir[..32], dir[32..];
      if entry[0] == 0xE5 then WalkDir(read, fatType, prefix, rest, [], budget)
      else if entry[11] == 0x0F then
        WalkDir(read, fatType, prefix, rest, [DecodeUnits(FragmentBytes(entry))] + lfn, budget)
      else if HasBit(entry[11], 0x08) || NameOf(lfn, entry) in {[], DOT, DOT_DOT} then
        WalkDir(read, fatType, prefix, rest, [], budget)
      else
        var here := Visit(read, fatType, PathOf(prefix, NameOf(lfn, entry)), entry, budget);
        if here.Err? then here else Then(here.value, WalkDir(read, fatType, prefix, rest, [], budget))
  }

  method Walk(image: seq<Byte>, g: Geometry, prefix: Text, directory: seq<Byte>,
      budget: nat) returns (r: Result<seq<FileRec>>)
    ensures r == WalkDir(Reader(image, g), g.fatType, prefix, directory, [], budget)
    decreases budget
  {
    var files: seq<FileRec> := [];
    var lfnParts: seq<Text> := [];
    var offset := 0;
    assert directory[0..] == directory;
    ThenNothing(files, WalkDir(Reader(image, g), g.fatType, prefix, directory, [], budget));
    while offset < |directory|
      invariant 0 <= offset
      invariant Then(files, WalkDir(Reader(image, g), g.fatType, prefix, directory[Min(offset, |directory|)..], lfnParts, budget))
             == WalkDir(Reader(image, g), g.fatType, prefix, directory, [], budget)
    {
      var entry := Slice(directory, offset, offset + 32);
      ghost var dir := directory[offset..];
      if |entry| < 32 {
        break;
      }
      assert entry == dir[..32];
      if entry[0] == 0x00 {
        break;
      }
      ghost var rest := directory[offset+32..];
      assert dir[32..] == rest;
      offset := offset + 32;
      if entry[0] == 0xE5 {
        lfnParts := [];
        continue;
      }
      if entry[11] == 0x0F {
        var fragment := DecodeLfnFragment(entry);
        lfnParts := [fragment] + lfnParts;
        continue;
      }
      if HasBit(entry[11], 0x08) {
        lfnParts := [];
        continue;
      }
      var name := NameOf(lfnParts, entry);
      lfnParts := [];
      if name in {[], DOT, DOT_DOT} {
        continue;
      }
      var here := VisitEntry(image, g, PathOf(prefix, name), entry, budget);
      if here.Err? {
        return here;
      }
      ghost var tail := WalkDir(Reader(image, g), g.fatType, prefix, rest, [], budget);
      if tail.Ok? {
        Regroup(files, here.value, tail.value);
      }
      files := files + here.value;
    }
    ThenNothing(files, Ok([]));
    return Ok(files);
  }

  method VisitEntry(image: seq<Byte>, g: Geometry, path: Text, entry: seq<Byte>,
      budget: nat) returns (r: Result<seq<FileRec>>)
    requires |entry| == 32
    ensures r == Visit(Reader(image, g), g.fatType, path, entry, budget)
    decreases budget, 0
  {
    hide WalkDir, EntryCluster, HasBit, U32, Slice;
    var cluster := EntryCluster(entry, g.fatType);
    if HasBit(entry[11], 0x10) {
      if cluster < 2 {
        return Ok([]);
      }
      if budget == 0 {
        return Err("maximum recursion depth exceeded");
      }
      var directory := ReadChain(image, g, cluster);
      r := Walk(image, g, path, directory, budget - 1);
      return;
    }
    var size := U32(entry, 28);
    var bytes := ReadChain(image, g, cluster);
    return Ok([FileRec(path, size, Slice(bytes, 0, size))]);
  }

  // ---------------------------------------------------------------- sorting by path

  /** Python's string order: by code point, a prefix first. */
  predicate PathLe(a: Text, b: Text) {
    a == [] || (b != [] && (a[0] < b[0] || (a[0] == b[0] && PathLe(a[1..], b[1..]))))
  }

  function Insert(f: FileRec, files: seq<FileRec>): seq<FileRec> {
    if files == [] || PathLe(f.path, files[0].path) then [f] + files else [files[0]] + Insert(f, files[1..])
  }

  /** files.sort(key=path): stable, since an equal path is inserted before those that followed it. */
  function SortByPath(files: seq<FileRec>): seq<FileRec> {
    if files == [] then [] else Insert(files[0], SortByPath(files[1..]))
  }

  /** One path stands before another if it is its beginning, or has the smaller character where they first differ. */
  lemma {:induction false} PathOrderIs(a: Text, b: Text)
    ensures PathLe(a, b) <==> (a <= b || exists k: nat :: k < |a| && k < |b| && a[..k] == b[..k] && a[k] < b[k])
  {
    if a != [] && b != [] {
      var c, d := a[1..], b[1..];
      PathOrderIs(c, d);
      if a[0] == b[0] {
        assert a == [a[0]] + c && b == [b[0]] + d;
        if k: nat :| k < |c| && k < |d| && c[..k] == d[..k] && c[k] < d[k] {
          assert a[..k+1] == [a[0]] + c[..k] == b[..k+1] && a[k+1] < b[k+1];
        }
        if k: nat :| k < |a| && k < |b| && a[..k] == b[..k] && a[k] < b[k] {
          assert k > 0 && c[..k-1] == a[..k][1..] == b[..k][1..] == d[..k-1] && c[k-1] < d[k-1];
        }
      } else {
        assert a[..0] == b[..0];
        if k: nat :| k < |a| && k < |b| && a[..k] == b[..k] && a[k] < b[k] {
          assert k > 0 ==> a[..k][0] == b[..k][0];
        }
      }
    }
  }

  lemma {:induction false} PathOrderIsTotal(a: Text, b: Text)
    ensures PathLe(a, b) || PathLe(b, a)
    ensures PathLe(a, b) && PathLe(b, a) ==> a == b
  {
    if a != [] && b != [] && a[0] == b[0] {
      PathOrderIsTotal(a[1..], b[1..]);
      if PathLe(a, b) && PathLe(b, a) { assert a == [a[0]] + a[1..] && b == [b[0]] + b[1..]; }
    }
  }

  lemma {:induction false} PathOrderIsTransitive(a: Text, b: Text, c: Text)
    requires PathLe(a, b) && PathLe(b, c)
    ensures PathLe(a, c)
  {
    if a != [] && a[0] == b[0] == c[0] { PathOrderIsTransitive(a[1..], b[1..], c[1..]); }
  }

  predicate SortedByPath(files: seq<FileRec>) {
    forall i, j :: 0 <= i < j < |files| ==> PathLe(files[i].path, files[j].path)
  }

  lemma {:induction false} InsertSorts(f: FileRec, files: seq<FileRec>)
    requires SortedByPath(files)
    ensures SortedByPath(Insert(f, files)) && multiset(Insert(f, files)) == multiset{f} + multiset(files)
  {
    hide PathLe, SortedByPath;
    if files == [] {
      OneIsSorted(f);
      assert [f] + files == [f];
    } else {
      assert files == [files[0]] + files[1..];
      PathOrderIsTotal(f.path, files[0].path);
      FirstIsLeast(files);
      if PathLe(f.path, files[0].path) {
        forall j | 0 <= j < |files| ensures PathLe(f.path, files[j].path) {
          PathOrderIsTransitive(f.path, files[0].path, files[j].path);
        }
        SortedFromFirst(f, files);
      } else {
        InsertSorts(f, files[1..]);
        var rest := Insert(f, files[1..]);
        forall j | 0 <= j < |rest| ensures PathLe(files[0].path, rest[j].path) {
          assert rest[j] in multiset(rest);
          assert rest[j] == f || rest[j] in files[1..];
        }
        SortedFromFirst(files[0], rest);
      }
    }
  }

  lemma OneIsSorted(f: FileRec)
    ensures SortedByPath([f])
  {
  }

  lemma FirstIsLeast(files: seq<FileRec>)
    requires files != [] && SortedByPath(files)
    ensures SortedByPath(files[1..]) && forall j :: 0 <= j < |files| ==> PathLe(files[0].path, files[j].path)
  {
    PathOrderIsTotal(files[0].path, files[0].path);
  }

  lemma SortedFromFirst(f: FileRec, files: seq<FileRec>)
    requires SortedByPath(files) && forall j :: 0 <= j < |files| ==> PathLe(f.path, files[j].path)
    ensures SortedByPath([f] + files)
  {
    var all := [f] + files;
    forall i, j | 0 <= i < j < |all| ensures PathLe(all[i].path, all[j].path) {
      assert all[j] == files[j-1];
      if i > 0 { assert all[i] == files[i-1]; }
    }
  }

  lemma {:induction false} SortSorts(files: seq<FileRec>)
    ensures SortedByPath(SortByPath(files)) && multiset(SortByPath(files)) == multiset(files)
  {
    if files != [] {
      SortSorts(files[1..]);
      InsertSorts(files[0], SortByPath(files[1..]));
      assert files == [files[0]] + files[1..];
    }
  }

  // ---------------------------------------------------------------- the whole image

  datatype Sampled = Sampled(files: seq<FileRec>, readError: Option<string>)

  /** "FAT Type Determination": the type follows from the number of clusters alone. */
  function TypeOfCount(clusterCount: int): FatType {
    if clusterCount < 4085 then Fat12 else if clusterCount < 65525 then Fat16 else Fat32
  }

  /** The boot sector fields the sampler uses. */
  datatype Bpb = Bpb(
    bytesPerSector: nat, sectorsPerCluster: nat, reservedSectors: nat, fatCount: nat, rootEntryCount: nat,
    totalSectors16: nat, sectorsPerFat16: nat, totalSectors32: nat, sectorsPerFat32: nat, rootCluster: nat)
  {
    function TotalSectors(): nat { if totalSectors16 != 0 then totalSectors16 else totalSectors32 }

    function SectorsPerFat(): nat { if sectorsPerFat16 != 0 then sectorsPerFat16 else sectorsPerFat32 }

    /** The root directory's 32-byte entries, rounded up to whole sectors. */
    function RootDirSectors(): nat
      requires bytesPerSector > 0
    {
      (rootEntryCount * 32 + (bytesPerSector - 1)) / bytesPerSector
    }

    function ClusterCount(): int
      requires bytesPerSector > 0
    {
      if sectorsPerCluster == 0 then 0
      else (TotalSectors() - (reservedSectors + fatCount * SectorsPerFat() + RootDirSectors())) / sectorsPerCluster
    }

    function Type(): FatType
      requires bytesPerSector > 0
    {
      TypeOfCount(ClusterCount())
    }

    function FirstRootDirSector(): nat { reservedSectors + fatCount * SectorsPerFat() }

    function Shape(): Geometry
      requires bytesPerSector > 0
    {
      Geometry(bytesPerSector, sectorsPerCluster, reservedSectors * bytesPerSector, Type(),
                          FirstRootDirSector() + RootDirSectors())
    }
  }

  function ReadBpb(image: seq<Byte>): Bpb
    requires |image| >= 64
  {
    Bpb(U16(image, 11), image[13], U16(image, 14), image[16], U16(image, 17), U16(image, 19),
        U16(image, 22), U32(image, 32), U32(image, 36), U32(image, 44))
  }

  ghost function RootWalk(image: seq<Byte>, b: Bpb, budget: nat): Result<seq<FileRec>>
    requires b.bytesPerSector > 0
  {
    var directory :=
      if b.Type() == Fat32 then ReadSpec(image, b.Shape(), b.rootCluster)
      else Slice(image, b.FirstRootDirSector() * b.bytesPerSector,
                 (b.FirstRootDirSector() + b.RootDirSectors()) * b.bytesPerSector);
    WalkDir(Reader(image, b.Shape()), b.Type(), [], directory, [], budget)
  }

  const TOO_SMALL := "disk image is too small to contain a FAT boot sector"
  const DIVISION_BY_ZERO := "integer division or modulo by zero"

  /** What is wrong with an image, if anything. */
  ghost function ReadError(image: seq<Byte>, budget: nat): Option<string> {
    if |image| < 64 then Some(TOO_SMALL)
    else if ReadBpb(image).bytesPerSector == 0 then Some(DIVISION_BY_ZERO)
    else var walked := RootWalk(image, ReadBpb(image), budget); if walked.Err? then Some(walked.message) else None
  }

  /** The two errors that come before any directory is read. */
  lemma BootErrors(image: seq<Byte>, budget: nat)
    ensures |image| < 64 ==> ReadError(image, budget) == Some("disk image is too small to contain a FAT boot sector")
    ensures |image| >= 64 && image[11] == image[12] == 0 ==>
      ReadError(image, budget) == Some("integer division or modulo by zero")
  {
    hide RootWalk;
    if |image| >= 64 && image[11] == image[12] == 0 {
      assert Slice(image, 11, 13) == [0, 0];
      assert [0, 0][1..] == [0] && [0][1..] == [];
    }
  }

  method SampleFatExternalState(image: seq<Byte>, budget: nat) returns (s: Sampled)
    ensures s.readError == ReadError(image, budget)
    ensures s.files == if s.readError.None? then SortByPath(RootWalk(image, ReadBpb(image), budget).value) else []
  {
    if |image| < 64 {
      return Sampled([], Some(TOO_SMALL));
    }
    var b := ReadBpb(image);
    if b.bytesPerSector == 0 {
      return Sampled([], Some(DIVISION_BY_ZERO));
    }
    var directory: seq<Byte>;
    if b.Type() != Fat32 {
      directory := Slice(image, b.FirstRootDirSector() * b.bytesPerSector,
                         (b.FirstRootDirSector() + b.RootDirSectors()) * b.bytesPerSector);
    } else {
      directory := ReadChain(image, b.Shape(), b.rootCluster);
    }
    var walked := Walk(image, b.Shape(), [], directory, budget);
    match walked {
      case Err(message) => return Sampled([], Some(message));
      case Ok(files) => return Sampled(SortByPath(files), None);
    }
  }
}
