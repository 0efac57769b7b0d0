/** The sampler reads back exactly the tree that was laid out. */
module FatRoundTrip {
  import opened Prelude
  import opened FatTable
  import opened FatDirectory
  import opened FatSampler
  import opened FatLayout
  import opened FatReadable

  /** The image answers table and cluster reads as the disk would. */
  ghost predicate Carries(image: seq<Byte>, g: Geometry, d: Disk) {
    && g.fatType == d.fatType
    && (forall c: nat :: c < |d.fat| ==> Entry(image, g.fatOffset, c, g.fatType) == LinkOf(d.fatType, d.fat[c]))
    && (forall c: nat :: 2 <= c < 2 + |d.clusters| ==> ClusterBytes(image, g, c) == d.clusters[c-2])
  }

  lemma {:induction false} ContentsRead(image: seq<Byte>, g: Geometry, d: Disk, chain: seq<nat>)
    requires Carries(image, g, d)
    requires forall i :: 0 <= i < |chain| ==> 2 <= chain[i] < 2 + |d.clusters|
    ensures ChainBytes(image, g, chain) == Contents(d, chain)
  {
    if chain != [] {
      ContentsRead(image, g, d, chain[..|chain|-1]);
    }
  }

  /** Reading from a stored chain's first cluster gives the chain's contents. */
  lemma ChainRead(image: seq<Byte>, g: Geometry, d: Disk, chain: seq<nat>)
    requires Carries(image, g, d) && Chained(d, chain)
    ensures ReadSpec(image, g, First(chain)) == Contents(d, chain)
  {
    var next := Table(image, g.fatOffset, g.fatType);
    if chain != [] {
      assert forall i :: 0 <= i < |chain| ==> next(chain[i]) == LinkOf(d.fatType, d.fat[chain[i]]);
      WalkIsUnique(next, Eof(g.fatType), chain[0], {}, chain);
    }
    ContentsRead(image, g, d, chain);
  }

  // ---------------------------------------------------------------- walking over encoded entries

  lemma SplitEntry(e: seq<Byte>, rest: seq<Byte>)
    requires |e| == 32
    ensures (e + rest)[..32] == e && (e + rest)[32..] == rest
  {
  }

  /** One step of the walk over an entry that is not reported. */
  lemma StepSkips(read: nat -> seq<Byte>, fatType: FatType, prefix: Text, e: seq<Byte>, rest: seq<Byte>,
      lfn: seq<Text>, budget: nat)
    requires |e| == 32 && e[0] != 0
    requires e[0] == 0xE5 || (e[11] != 0x0F && (HasBit(e[11], 0x08) || NameOf(lfn, e) in {[], DOT, DOT_DOT}))
    ensures WalkDir(read, fatType, prefix, e + rest, lfn, budget) == WalkDir(read, fatType, prefix, rest, [], budget)
  {
    SplitEntry(e, rest);
  }

  /** One step of the walk over an entry that names a file or directory. */
  lemma StepVisits(read: nat -> seq<Byte>, fatType: FatType, prefix: Text, e: seq<Byte>, rest: seq<Byte>,
      lfn: seq<Text>, budget: nat)
    requires |e| == 32 && e[0] !in {0, 0xE5} && e[11] != 0x0F && !HasBit(e[11], 0x08)
    requires NameOf(lfn, e) !in {[], DOT, DOT_DOT}
    ensures var here := Visit(read, fatType, PathOf(prefix, NameOf(lfn, e)), e, budget);
      WalkDir(read, fatType, prefix, e + rest, lfn, budget)
      == if here.Err? then here else Then(here.value, WalkDir(read, fatType, prefix, rest, [], budget))
  {
    SplitEntry(e, rest);
  }

  lemma DotName(e: seq<Byte>)
    requires |e| == 32 && (e[0..11] == Field([46], 11) || e[0..11] == Field([46, 46], 11))
    ensures e[0] == 46 && ShortName(e) in {DOT, DOT_DOT}
  {
    var stem := if e[0..11] == Field([46], 11) then [46] else [46, 46];
    assert e[0..8] == e[0..11][..8] && e[8..11] == e[0..11][8..];
    assert e[0..8] == Field(stem, 8) && e[8..11] == Field([], 3);
    ShortNameRoundTrip(e, stem, []);
    assert ShortText(stem, []) in {DOT, DOT_DOT};
  }

  lemma WalkSkips(read: nat -> seq<Byte>, fatType: FatType, prefix: Text, item: Item, rest: seq<Byte>, budget: nat)
    requires (item.Unused? || item.DotItem?) && Encodable(item)
    ensures WalkDir(read, fatType, prefix, item.entry + rest, [], budget) == WalkDir(read, fatType, prefix, rest, [], budget)
  {
    BitsAreRead(item.entry[11]);
    if item.DotItem? {
      DotName(item.entry);
    }
    StepSkips(read, fatType, prefix, item.entry, rest, [], budget);
  }

  lemma WalkFragment(read: nat -> seq<Byte>, fatType: FatType, prefix: Text, order: Byte, checksum: Byte, units: seq<nat>,
                     rest: seq<Byte>, lfn: seq<Text>, budget: nat)
    requires |units| <= 13 && NameUnits(units) && 0 < order < 0xE5
    ensures WalkDir(read, fatType, prefix, FragmentEntry(order, checksum, Padded(units)) + rest, lfn, budget)
         == WalkDir(read, fatType, prefix, rest, [units] + lfn, budget)
  {
    SplitEntry(FragmentEntry(order, checksum, Padded(units)), rest);
    FragmentRoundTrip(order, checksum, units);
  }

  /** The fragments of a long name, met last to first, are collected first to last. */
  lemma {:induction false} WalkLongName(read: nat -> seq<Byte>, fatType: FatType, prefix: Text, units: seq<nat>, order: nat,
                                        checksum: Byte, rest: seq<Byte>, lfn: seq<Text>, budget: nat)
    requires NameUnits(units) && 1 <= order && 13 * order + |units| <= 268
    ensures WalkDir(read, fatType, prefix, EncodeLongName(units, order, checksum) + rest, lfn, budget)
         == WalkDir(read, fatType, prefix, rest, Fragments(units) + lfn, budget)
    decreases |units|
  {
    if |units| <= 13 {
      WalkFragment(read, fatType, prefix, order + 0x40, checksum, units, rest, lfn, budget);
    } else {
      var fragment := FragmentEntry(order, checksum, units[..13]);
      assert Padded(units[..13]) == units[..13];
      Regroup(EncodeLongName(units[13..], order + 1, checksum), fragment, rest);
      WalkLongName(read, fatType, prefix, units[13..], order + 1, checksum, fragment + rest, lfn, budget);
      WalkFragment(read, fatType, prefix, order, checksum, units[..13], rest, Fragments(units[13..]) + lfn, budget);
      Regroup([units[..13]], Fragments(units[13..]), lfn);
    }
  }

  ghost function AfterVisit(read: nat -> seq<Byte>, fatType: FatType, prefix: Text, name: Text, e: seq<Byte>,
      rest: seq<Byte>, budget: nat): Result<seq<FileRec>>
    requires |e| == 32
  {
    var here := Visit(read, fatType, PathOf(prefix, name), e, budget);
    if here.Err? then here else Then(here.value, WalkDir(read, fatType, prefix, rest, [], budget))
  }

  /** The walk goes past a named entry: to its file or directory, or over it. */
  ghost function AfterName(read: nat -> seq<Byte>, fatType: FatType, prefix: Text, name: Text, e: seq<Byte>,
      rest: seq<Byte>, budget: nat): Result<seq<FileRec>>
    requires |e| == 32
  {
    if IsSkipped(name) then WalkDir(read, fatType, prefix, rest, [], budget)
    else AfterVisit(read, fatType, prefix, name, e, rest, budget)
  }

  lemma ShortNameOf(name: Name, e: seq<Byte>)
    requires name.Short? && ValidName(name) && |e| == 32
    requires e[0] == Name11(name)[0] && e[0..8] == Name11(name)[..8] && e[8..11] == Name11(name)[8..]
    ensures NameOf([], e) == SeenText(name) && e[0] !in {0, 0xE5}
  {
    ShortNameReads(e, StoredStem(name.stem), name.suffix);
  }

  lemma WalkShortNamed(read: nat -> seq<Byte>, fatType: FatType, prefix: Text, name: Name, e: seq<Byte>,
      rest: seq<Byte>, budget: nat)
    requires name.Short? && ValidName(name) && |e| == 32 && !HasBit(e[11], 0x08)
    requires e[0] == Name11(name)[0] && e[0..8] == Name11(name)[..8] && e[8..11] == Name11(name)[8..]
    ensures WalkDir(read, fatType, prefix, e + rest, [], budget) == AfterName(read, fatType, prefix, SeenText(name), e, rest, budget)
  {
    hide SeenText, Visit, PathOf, ValidName, Name11;
    ShortNameOf(name, e);
    if IsSkipped(SeenText(name)) {
      StepSkips(read, fatType, prefix, e, rest, [], budget);
    } else {
      StepVisits(read, fatType, prefix, e, rest, [], budget);
    }
  }

  lemma WalkLongNamed(read: nat -> seq<Byte>, fatType: FatType, prefix: Text, name: Name, e: seq<Byte>,
      rest: seq<Byte>, budget: nat)
    requires name.Long? && ValidName(name) && |e| == 32 && !HasBit(e[11], 0x08) && e[0] == name.alias[0]
    ensures WalkDir(read, fatType, prefix, e + rest, Fragments(name.units), budget)
         == AfterName(read, fatType, prefix, SeenText(name), e, rest, budget)
  {
    FragmentsJoin(name.units);
    LongIsSeen(name);
    StepVisits(read, fatType, prefix, e, rest, Fragments(name.units), budget);
  }

  /** A named item's entries lead to one visit under the name that is seen, or to none. */
  lemma WalkNamed(read: nat -> seq<Byte>, fatType: FatType, prefix: Text, name: Name, e: seq<Byte>, rest: seq<Byte>,
      budget: nat)
    requires ValidName(name) && |e| == 32 && !HasBit(e[11], 0x08)
    requires e[0] == Name11(name)[0] && e[0..8] == Name11(name)[..8] && e[8..11] == Name11(name)[8..]
    ensures WalkDir(read, fatType, prefix, NameEntries(name) + e + rest, [], budget)
         == AfterName(read, fatType, prefix, SeenText(name), e, rest, budget)
  {
    hide SeenText, AfterName, WalkDir, EncodeLongName, Fragments, HasBit;
    if name.Short? {
      assert NameEntries(name) + e + rest == e + rest;
      WalkShortNamed(read, fatType, prefix, name, e, rest, budget);
    } else {
      assert NameEntries(name) + e + rest == NameEntries(name) + (e + rest);
      WalkLongName(read, fatType, prefix, name.units, 1, name.checksum, e + rest, [], budget);
      assert Fragments(name.units) + [] == Fragments(name.units);
      WalkLongNamed(read, fatType, prefix, name, e, rest, budget);
    }
  }

  // ---------------------------------------------------------------- walking over a stored tree

  /** What the walk over a directory finds, starting with no name fragments. */
  ghost function Found(read: nat -> seq<Byte>, fatType: FatType, prefix: Text, dir: seq<Byte>,
      budget: nat): Result<seq<FileRec>> {
    WalkDir(read, fatType, prefix, dir, [], budget)
  }

  /** Reading the first cluster of any chain delivers the bytes it holds. */
  ghost predicate Delivers(read: nat -> seq<Byte>, fatType: FatType, holds: (seq<nat>, seq<Byte>) -> bool) {
    forall chain, bytes :: holds(chain, bytes) ==>
      && read(First(chain)) == bytes
      && (chain != [] ==> 2 <= First(chain))
      && (fatType == Fat32 || First(chain) < 0x1_0000)
  }

  function ShortEntryOf(item: Item): (e: seq<Byte>)
    requires (item.FileItem? || item.DirItem?) && Encodable(item)
    ensures |e| == 32
  {
    EncodeEntry(Name11(item.name), item.stamp.attributes, item.stamp.mid8, item.stamp.time4, First(item.chain),
                if item.FileItem? then |item.content| else 0)
  }

  lemma ShortEntryFields(item: Item, fatType: FatType)
    requires (item.FileItem? || item.DirItem?) && Encodable(item)
    requires fatType == Fat32 || First(item.chain) < 0x1_0000
    ensures var e := ShortEntryOf(item);
      && !HasBit(e[11], 0x08) && (HasBit(e[11], 0x10) <==> item.DirItem?)
      && e[0] == Name11(item.name)[0] && e[0..8] == Name11(item.name)[..8] && e[8..11] == Name11(item.name)[8..]
      && EntryCluster(e, fatType) == First(item.chain) && (item.FileItem? ==> U32(e, 28) == |item.content|)
  {
    hide HasBit, IsLabel, IsDirectory, EncodeEntry, ValidName, Name11, EntryCluster;
    var size := if item.FileItem? then |item.content| else 0;
    BitsAreRead(item.stamp.attributes);
    EntryFields(Name11(item.name), item.stamp.attributes, item.stamp.mid8, item.stamp.time4, First(item.chain), size, fatType);
  }

  lemma VisitFile(read: nat -> seq<Byte>, fatType: FatType, holds: (seq<nat>, seq<Byte>) -> bool, path: Text,
      item: Item, budget: nat)
    requires Delivers(read, fatType, holds) && Stored(holds, item) && item.FileItem?
    ensures Visit(read, fatType, path, ShortEntryOf(item), budget) == Ok([FileRec(path, |item.content|, item.content)])
  {
    assert holds(item.chain, item.content + item.slack);
    ShortEntryFields(item, fatType);
    assert Slice(item.content + item.slack, 0, |item.content|) == item.content;
  }

  lemma VisitDirectory(read: nat -> seq<Byte>, fatType: FatType, holds: (seq<nat>, seq<Byte>) -> bool, path: Text,
      item: Item,
                       directory: seq<Byte>, budget: nat)
    requires Delivers(read, fatType, holds) && item.DirItem? && Encodable(item) && item.chain != [] && holds(item.chain, directory)
    ensures var here := Visit(read, fatType, path, ShortEntryOf(item), budget);
      if budget == 0 then here.Err? else here == Found(read, fatType, path, directory, budget - 1)
  {
    ShortEntryFields(item, fatType);
  }

  /** A named item is passed over, or reported as its visit has it. */
  lemma WalkReported(read: nat -> seq<Byte>, fatType: FatType, prefix: Text, item: Item, rest: seq<Byte>, budget: nat)
    requires (item.FileItem? || item.DirItem?) && Encodable(item)
    ensures Found(read, fatType, prefix, EncodeItem(item) + rest, budget)
         == AfterName(read, fatType, prefix, SeenText(item.name), ShortEntryOf(item), rest, budget)
  {
    ShortEntryFields(item, Fat32);
    assert EncodeItem(item) == NameEntries(item.name) + ShortEntryOf(item);
    WalkNamed(read, fatType, prefix, item.name, ShortEntryOf(item), rest, budget);
  }

  lemma WalkUnreported(read: nat -> seq<Byte>, fatType: FatType, prefix: Text, item: Item, rest: seq<Byte>, budget: nat)
    requires (item.Unused? || item.DotItem?) && Encodable(item)
    ensures Found(read, fatType, prefix, EncodeItem(item) + rest, budget)
         == Then([], Found(read, fatType, prefix, rest, budget))
  {
    WalkSkips(read, fatType, prefix, item, rest, budget);
    ThenNothing([], Found(read, fatType, prefix, rest, budget));
  }

  /** Within the recursion limit an item's files are found; beyond it the walk fails. */
  ghost predicate Reports(read: nat -> seq<Byte>, fatType: FatType, prefix: Text, item: Item, rest: seq<Byte>, budget: nat)
    requires Encodable(item)
  {
    var here := Found(read, fatType, prefix, EncodeItem(item) + rest, budget);
    if DepthOf(item) <= budget then here == Then(SeenOfItem(prefix, item), Found(read, fatType, prefix, rest, budget))
    else here.Err?
  }

  lemma SkippedReports(read: nat -> seq<Byte>, fatType: FatType, prefix: Text, item: Item, rest: seq<Byte>, budget: nat)
    requires (item.FileItem? || item.DirItem?) && Encodable(item) && IsSkipped(SeenText(item.name))
    ensures Reports(read, fatType, prefix, item, rest, budget)
  {
    WalkReported(read, fatType, prefix, item, rest, budget);
    ThenNothing([], Found(read, fatType, prefix, rest, budget));
  }

  /** The visit of a named item gives the item's files, or fails beyond the recursion limit. */
  ghost predicate Visited(read: nat -> seq<Byte>, fatType: FatType, prefix: Text, item: Item, budget: nat)
    requires (item.FileItem? || item.DirItem?) && Encodable(item)
  {
    var here := Visit(read, fatType, PathOf(prefix, SeenText(item.name)), ShortEntryOf(item), budget);
    if DepthOf(item) <= budget then here == Ok(SeenOfItem(prefix, item)) else here.Err?
  }

  lemma VisitedReports(read: nat -> seq<Byte>, fatType: FatType, prefix: Text, item: Item, rest: seq<Byte>, budget: nat)
    requires (item.FileItem? || item.DirItem?) && Encodable(item) && !IsSkipped(SeenText(item.name))
    requires Visited(read, fatType, prefix, item, budget)
    ensures Reports(read, fatType, prefix, item, rest, budget)
  {
    hide SeenOfItem, DepthOf, PathOf, SeenText, IsSkipped, Encodable, EncodeItem, ShortEntryOf, Visit;
    WalkReported(read, fatType, prefix, item, rest, budget);
  }

  lemma FileVisited(read: nat -> seq<Byte>, fatType: FatType, holds: (seq<nat>, seq<Byte>) -> bool, prefix: Text,
      item: Item, budget: nat)
    requires Delivers(read, fatType, holds) && Stored(holds, item) && item.FileItem? && !IsSkipped(SeenText(item.name))
    ensures Visited(read, fatType, prefix, item, budget)
  {
    VisitFile(read, fatType, holds, PathOf(prefix, SeenText(item.name)), item, budget);
  }

  lemma {:induction false} DirectoryVisited(read: nat -> seq<Byte>, fatType: FatType, holds: (seq<nat>,
      seq<Byte>) -> bool, prefix: Text,
                                            item: Item, budget: nat)
    requires Delivers(read, fatType, holds) && Stored(holds, item) && item.DirItem? && !IsSkipped(SeenText(item.name))
    ensures Visited(read, fatType, prefix, item, budget)
    decreases budget, 0, 0
  {
    hide SeenOf, EncodeItems, PathOf, SeenText, Delivers, IsSkipped, Visit, Encodable, ShortEntryOf, Depth;
    var path, directory := PathOf(prefix, SeenText(item.name)), EncodeItems(item.items) + item.tail;
    VisitDirectory(read, fatType, holds, path, item, directory, budget);
    if budget > 0 {
      WalkItems(read, fatType, holds, path, item.items, item.tail, directory, budget - 1);
    }
  }

  /** Walking over one item's entries reports exactly the item's files. */
  lemma {:induction false} ItemReports(read: nat -> seq<Byte>, fatType: FatType, holds: (seq<nat>,
      seq<Byte>) -> bool, prefix: Text, item: Item, rest: seq<Byte>, budget: nat)
    requires Delivers(read, fatType, holds) && Stored(holds, item)
    ensures Reports(read, fatType, prefix, item, rest, budget)
    decreases budget, 0, 1
  {
    hide SeenText, IsSkipped;
    if item.Unused? || item.DotItem? {
      WalkUnreported(read, fatType, prefix, item, rest, budget);
    } else if IsSkipped(SeenText(item.name)) {
      SkippedReports(read, fatType, prefix, item, rest, budget);
    } else if item.DirItem? {
      DirectoryVisited(read, fatType, holds, prefix, item, budget);
      VisitedReports(read, fatType, prefix, item, rest, budget);
    } else {
      FileVisited(read, fatType, holds, prefix, item, budget);
      VisitedReports(read, fatType, prefix, item, rest, budget);
    }
  }

  lemma {:induction false} WalkItems(read: nat -> seq<Byte>, fatType: FatType, holds: (seq<nat>, seq<Byte>) -> bool,
      prefix: Text, items: seq<Item>, tail: seq<Byte>,
                                     directory: seq<Byte>, budget: nat)
    requires Delivers(read, fatType, holds) && Ended(tail)
    requires AllEncodable(items) && AllStored(holds, items) && directory == EncodeItems(items) + tail
    ensures var found := Found(read, fatType, prefix, directory, budget);
      if Depth(items) <= budget then found == Ok(SeenOf(prefix, items)) else found.Err?
    decreases budget, |items| + 1
  {
    if items == [] {
      assert directory == tail;
    } else {
      var rest := EncodeItems(items[1..]) + tail;
      Regroup(EncodeItem(items[0]), EncodeItems(items[1..]), tail);
      ItemReports(read, fatType, holds, prefix, items[0], rest, budget);
      WalkItems(read, fatType, holds, prefix, items[1..], tail, rest, budget);
    }
  }

  // ---------------------------------------------------------------- reading an encoded volume

  lemma FieldRead(boot: seq<Byte>, rest: seq<Byte>, lo: nat, hi: nat)
    requires lo <= hi <= |boot|
    ensures Slice(boot + rest, lo, hi) == boot[lo..hi]
  {
  }

  lemma BpbRead(boot: seq<Byte>, b: Bpb, rest: seq<Byte>)
    requires BpbInRange(b) && BootHolds(boot, b)
    ensures ReadBpb(boot + rest) == b
  {
    FieldRead(boot, rest, 11, 13);
    FieldRead(boot, rest, 14, 16);
    FieldRead(boot, rest, 17, 19);
    FieldRead(boot, rest, 19, 21);
    FieldRead(boot, rest, 22, 24);
    FieldRead(boot, rest, 32, 36);
    FieldRead(boot, rest, 36, 40);
    FieldRead(boot, rest, 44, 48);
  }

  lemma {:induction false} FlattenAt(clusters: seq<seq<Byte>>, size: nat, k: nat, tail: seq<Byte>)
    requires k < |clusters| && forall i :: 0 <= i < |clusters| ==> |clusters[i]| == size
    ensures Slice(Flatten(clusters) + tail, k * size, k * size + size) == clusters[k]
    decreases k
  {
    var rest := Flatten(clusters[1..]) + tail;
    assert Flatten(clusters) == clusters[0] + Flatten(clusters[1..]);
    Regroup(clusters[0], Flatten(clusters[1..]), tail);
    hide Flatten;
    if k == 0 {
      assert Slice(clusters[0] + rest, 0, size) == clusters[0];
    } else {
      FlattenAt(clusters[1..], size, k - 1, tail);
      assert k * size == (k - 1) * size + size;
      SliceAfter(clusters[0], rest, (k - 1) * size, (k - 1) * size + size);
    }
  }

  lemma SliceAfter(a: seq<Byte>, b: seq<Byte>, lo: nat, hi: nat)
    requires lo <= hi
    ensures Slice(a + b, |a| + lo, |a| + hi) == Slice(b, lo, hi)
  {
  }

  lemma ClusterOffset(first: nat, k: nat, spc: nat, bps: nat)
    ensures (first + k * spc) * bps == first * bps + k * (bps * spc)
  {
    assert (first + k * spc) * bps == first * bps + k * spc * bps;
    assert k * spc * bps == k * (spc * bps);
  }

  lemma RegionSizes(b: Bpb)
    requires b.bytesPerSector > 0
    ensures b.FirstRootDirSector() * b.bytesPerSector
         == b.reservedSectors * b.bytesPerSector + b.fatCount * b.SectorsPerFat() * b.bytesPerSector
    ensures (b.FirstRootDirSector() + b.RootDirSectors()) * b.bytesPerSector
         == b.FirstRootDirSector() * b.bytesPerSector + b.RootDirSectors() * b.bytesPerSector
  {
  }

  /** The sampler's numbers are those that the volume was laid out with. */
  lemma TypesAgree(v: Volume)
    requires WellFormed(v)
    ensures v.bpb.bytesPerSector > 0 && v.disk.fatType == v.bpb.Type()
    ensures v.bpb.SectorsPerFat() == v.extent.fatSectors && v.bpb.RootDirSectors() == v.extent.rootSectors
    ensures |v.boot| == v.bpb.Shape().fatOffset && v.disk.fatType == v.bpb.Shape().fatType
  {
    hide Describes, BootHolds, EncodeFat;
    ExtentIsComputed(v.bpb, v.extent);
  }

  /** Where the root directory's region begins and ends. */
  lemma RootRegionIs(v: Volume)
    requires WellFormed(v)
    ensures v.bpb.bytesPerSector > 0
    ensures |v.boot| + |EncodeFat(v.disk.fatType, v.disk.fat)| + |v.fatSlack| + |v.otherFats|
         == v.bpb.FirstRootDirSector() * v.bpb.bytesPerSector
    ensures v.bpb.FirstRootDirSector() * v.bpb.bytesPerSector + |v.root|
         == (v.bpb.FirstRootDirSector() + v.bpb.RootDirSectors()) * v.bpb.bytesPerSector
  {
    hide Describes, BootHolds, EncodeFat;
    TypesAgree(v);
    RegionSizes(v.bpb);
  }

  lemma TableCarried(v: Volume)
    requires WellFormed(v)
    ensures forall c: nat :: c < |v.disk.fat| ==>
      Entry(EncodeVolume(v), |v.boot|, c, v.disk.fatType) == LinkOf(v.disk.fatType, v.disk.fat[c])
  {
    hide Entry, LinkOf, Successor, EncodeFat, Describes, BootHolds, Flatten;
    var afterFat := v.fatSlack + v.otherFats + v.root + Flatten(v.disk.clusters) + v.tail;
    EntriesAreRead(v.disk.fatType, 0);
    assert EncodeVolume(v) == v.boot + EncodeFat(v.disk.fatType, v.disk.fat) + afterFat;
    forall c: nat | c < |v.disk.fat|
      ensures Entry(EncodeVolume(v), |v.boot|, c, v.disk.fatType) == LinkOf(v.disk.fatType, v.disk.fat[c])
    {
      FatEntryRead(v.disk.fatType, v.boot, v.disk.fat, afterFat, c);
      EntriesAreRead(v.disk.fatType, v.disk.fat[c]);
    }
  }

  lemma ClustersCarried(v: Volume)
    requires WellFormed(v)
    ensures forall c: nat :: 2 <= c < 2 + |v.disk.clusters| ==>
      ClusterBytes(EncodeVolume(v), v.bpb.Shape(), c) == v.disk.clusters[c-2]
  {
    hide Describes, BootHolds, EncodeFat, Flatten;
    TypesAgree(v);
    var image, g := EncodeVolume(v), v.bpb.Shape();
    var before := v.boot + EncodeFat(v.disk.fatType, v.disk.fat) + v.fatSlack + v.otherFats + v.root;
    assert image == before + (Flatten(v.disk.clusters) + v.tail);
    RegionSizes(v.bpb);
    assert |before| == g.firstDataSector * g.bytesPerSector;
    forall c: nat | 2 <= c < 2 + |v.disk.clusters| ensures ClusterBytes(image, g, c) == v.disk.clusters[c-2] {
      ClusterCarried(image, before, v.disk.clusters, v.tail, g, c);
    }
  }

  lemma VolumeCarries(v: Volume)
    requires WellFormed(v)
    ensures Carries(EncodeVolume(v), v.bpb.Shape(), v.disk)
  {
    hide WellFormed, EncodeVolume, Entry, ClusterBytes, LinkOf;
    TypesAgree(v);
    TableCarried(v);
    ClustersCarried(v);
  }

  lemma ClusterCarried(image: seq<Byte>, before: seq<Byte>, clusters: seq<seq<Byte>>, tail: seq<Byte>, g: Geometry, c: nat)
    requires image == before + (Flatten(clusters) + tail) && |before| == g.firstDataSector * g.bytesPerSector
    requires forall i :: 0 <= i < |clusters| ==> |clusters[i]| == g.bytesPerSector * g.sectorsPerCluster
    requires 2 <= c < 2 + |clusters|
    ensures ClusterBytes(image, g, c) == clusters[c-2]
  {
    hide Flatten, Slice;
    var size := g.bytesPerSector * g.sectorsPerCluster;
    ClusterOffset(g.firstDataSector, c - 2, g.sectorsPerCluster, g.bytesPerSector);
    SliceAfter(before, Flatten(clusters) + tail, (c - 2) * size, (c - 2) * size + size);
    FlattenAt(clusters, size, c - 2, tail);
  }

  lemma RegionRead(before: seq<Byte>, region: seq<Byte>, after: seq<Byte>, lo: nat, hi: nat)
    requires lo == |before| && hi == |before| + |region|
    ensures Slice(before + region + after, lo, hi) == region
  {
  }

  lemma RootRegionRead(v: Volume, lo: nat, hi: nat)
    requires WellFormed(v) && lo == v.bpb.FirstRootDirSector() * v.bpb.bytesPerSector
    requires hi == (v.bpb.FirstRootDirSector() + v.bpb.RootDirSectors()) * v.bpb.bytesPerSector
    ensures Slice(EncodeVolume(v), lo, hi) == v.root
  {
    var before := v.boot + EncodeFat(v.disk.fatType, v.disk.fat) + v.fatSlack + v.otherFats;
    var after := Flatten(v.disk.clusters) + v.tail;
    hide Describes, BootHolds, EncodeFat, Flatten, Slice;
    assert EncodeVolume(v) == before + v.root + after;
    RootRegionIs(v);
    RegionRead(before, v.root, after, lo, hi);
  }

  lemma RootWalkIs(image: seq<Byte>, b: Bpb, directory: seq<Byte>, budget: nat)
    requires b.bytesPerSector > 0
    requires if b.Type() == Fat32 then Reader(image, b.Shape())(b.rootCluster) == directory
             else Slice(image, b.FirstRootDirSector() * b.bytesPerSector,
                        (b.FirstRootDirSector() + b.RootDirSectors()) * b.bytesPerSector) == directory
    ensures RootWalk(image, b, budget) == Found(Reader(image, b.Shape()), b.Type(), [], directory, budget)
  {
  }

  lemma RootRead(v: Volume, rootChain: seq<nat>, directory: seq<Byte>, budget: nat)
    requires WellFormed(v) && Delivers(Reader(EncodeVolume(v), v.bpb.Shape()), v.disk.fatType, Holding(v.disk))
    requires if v.disk.fatType == Fat32
             then rootChain != [] && rootChain[0] == v.bpb.rootCluster && ChainHolds(v.disk, rootChain, directory)
             else v.root == directory
    ensures RootWalk(EncodeVolume(v), v.bpb, budget)
         == Found(Reader(EncodeVolume(v), v.bpb.Shape()), v.disk.fatType, [], directory, budget)
  {
    hide WellFormed, EncodeVolume, ChainHolds, WalkDir, Reader, Found, RootWalk;
    TypesAgree(v);
    if v.disk.fatType == Fat32 {
      assert Holding(v.disk)(rootChain, directory);
    } else {
      RootRegionRead(v, v.bpb.FirstRootDirSector() * v.bpb.bytesPerSector,
                     (v.bpb.FirstRootDirSector() + v.bpb.RootDirSectors()) * v.bpb.bytesPerSector);
    }
    RootWalkIs(EncodeVolume(v), v.bpb, directory, budget);
  }

  lemma VolumeBpb(v: Volume)
    requires WellFormed(v)
    ensures |EncodeVolume(v)| >= 64 && ReadBpb(EncodeVolume(v)) == v.bpb
  {
    var rest := EncodeFat(v.disk.fatType, v.disk.fat) + v.fatSlack + v.otherFats + v.root + Flatten(v.disk.clusters) + v.tail;
    assert EncodeVolume(v) == v.boot + rest;
    BpbRead(v.boot, v.bpb, rest);
  }

  lemma VolumeDelivers(v: Volume)
    requires WellFormed(v)
    ensures Delivers(Reader(EncodeVolume(v), v.bpb.Shape()), v.disk.fatType, Holding(v.disk))
  {
    hide EncodeVolume, Carries, BootHolds;
    VolumeCarries(v);
    forall chain, bytes | Holding(v.disk)(chain, bytes)
      ensures Reader(EncodeVolume(v), v.bpb.Shape())(First(chain)) == bytes
    {
      ChainRead(EncodeVolume(v), v.bpb.Shape(), v.disk, chain);
    }
  }

  /**
   * The round trip: walking the encoding of a well-formed FAT12, FAT16 or FAT32 volume, whatever
   * deleted entries, volume labels and dot entries lie between, finds the files of the tree it holds
   * under the names that the sampler reads, and fails exactly if the directories that it enters are
   * nested deeper than the recursion limit.
   */
  lemma WalkFindsTheTree(v: Volume, rootChain: seq<nat>, items: seq<Item>, tail: seq<Byte>, budget: nat)
    requires WellFormed(v) && RootHolds(v, rootChain, items, tail)
    ensures var found := RootWalk(EncodeVolume(v), v.bpb, budget);
      if Depth(items) <= budget then found == Ok(SeenOf([], items)) else found.Err?
  {
    var read, directory := Reader(EncodeVolume(v), v.bpb.Shape()), EncodeItems(items) + tail;
    VolumeDelivers(v);
    RootRead(v, rootChain, directory, budget);
    WalkItems(read, v.disk.fatType, Holding(v.disk), [], items, tail, directory, budget);
  }

  /**
   * Exactly which volumes come back: those in which every name on the way to a file is a long name
   * within 16 bits or an ASCII short name, and whose directories are not nested deeper than the
   * recursion limit.
   */
  lemma TreeComesBackIff(v: Volume, rootChain: seq<nat>, items: seq<Item>, tail: seq<Byte>, budget: nat)
    requires WellFormed(v) && RootHolds(v, rootChain, items, tail)
    ensures RootWalk(EncodeVolume(v), v.bpb, budget) == Ok(FilesOf([], items)) <==> Readable(items) && Depth(items) <= budget
  {
    hide WellFormed, Readable, Depth, SeenOf, FilesOf, EncodeVolume, RootWalk;
    WalkFindsTheTree(v, rootChain, items, tail, budget);
    SeenIffReadable(Holding(v.disk), items);
  }

  /** And which come back as a list that can be written to a file as well: those with clean names. */
  lemma TreeIsWrittenIff(v: Volume, rootChain: seq<nat>, items: seq<Item>, tail: seq<Byte>, budget: nat)
    requires WellFormed(v) && RootHolds(v, rootChain, items, tail)
    ensures RootWalk(EncodeVolume(v), v.bpb, budget) == Ok(FilesOf([], items)) && Writable(FilesOf([], items)) <==>
      Clean(items) && Depth(items) <= budget
  {
    hide WellFormed, Readable, Clean, Depth, SeenOf, FilesOf, EncodeVolume, RootWalk, Writable;
    TreeComesBackIff(v, rootChain, items, tail, budget);
    ItemsAreClean(Holding(v.disk), [], items);
  }

  /** The original does not notice what it drops: this volume's file is missing, and no error is reported. */
  lemma OemNameIsPassedOver(read: nat -> seq<Byte>, fatType: FatType, prefix: Text, item: Item, rest: seq<Byte>, budget: nat)
    requires item.FileItem? && Encodable(item)
    requires item.name.Short? && item.name.suffix == [] && |item.name.stem| == 1 && 128 <= item.name.stem[0] != 0xE5
    ensures Found(read, fatType, prefix, EncodeItem(item) + rest, budget) == Found(read, fatType, prefix, rest, budget)
  {
    assert SeenText(item.name) == [] by {
      assert item.name.stem[1..] == [];
    }
    WalkReported(read, fatType, prefix, item, rest, budget);
  }

  /**
   * Nor does it notice a long name that was left without its short entry, which the standard tells by the
   * checksum: the file after it is reported under that name.
   */
  lemma OrphanRenames(read: nat -> seq<Byte>, fatType: FatType, holds: (seq<nat>, seq<Byte>) -> bool, prefix: Text,
      units: seq<nat>, checksum: Byte, item: Item, rest: seq<Byte>, budget: nat)
    requires Delivers(read, fatType, holds) && Stored(holds, item) && item.FileItem? && item.name.Short?
    requires NameUnits(units) && 1 <= |units| <= 255 && units !in {DOT, DOT_DOT}
    ensures Found(read, fatType, prefix, EncodeLongName(units, 1, checksum) + (EncodeItem(item) + rest), budget)
         == Then([FileRec(PathOf(prefix, units), |item.content|, item.content)], Found(read, fatType, prefix, rest, budget))
  {
    hide Delivers, Visit, PathOf, HasBit, ValidName, ValidStamp, Name11;
    var e := ShortEntryOf(item);
    ShortIsEntry(item);
    WalkLongName(read, fatType, prefix, units, 1, checksum, EncodeItem(item) + rest, [], budget);
    assert Fragments(units) + [] == Fragments(units);
    FragmentsJoin(units);
    StepVisits(read, fatType, prefix, e, rest, Fragments(units), budget);
    VisitFile(read, fatType, holds, PathOf(prefix, units), item, budget);
  }

  lemma ShortIsEntry(item: Item)
    requires item.FileItem? && item.name.Short? && Encodable(item)
    ensures var e := ShortEntryOf(item);
      EncodeItem(item) == e && e[0] !in {0, 0xE5} && e[11] != 0x0F && !HasBit(e[11], 0x08)
  {
    hide ValidName, Name11, SeenText, EncodeEntry;
    ShortEntryFields(item, Fat32);
    ShortNameOf(item.name, ShortEntryOf(item));
    assert [] + ShortEntryOf(item) == ShortEntryOf(item);
  }

  lemma SectorsAreNotEmpty(v: Volume)
    requires WellFormed(v)
    ensures v.bpb.bytesPerSector > 0
  {
  }

  /**
   * Sampling the image of a well-formed volume: an error exactly beyond the recursion limit, and else
   * the files by path; they are those of the tree if and only if the tree is readable.
   */
  method SampleVolume(image: seq<Byte>, ghost v: Volume, ghost rootChain: seq<nat>, ghost items: seq<Item>,
      ghost tail: seq<Byte>, budget: nat)
    returns (s: Sampled)
    requires WellFormed(v) && RootHolds(v, rootChain, items, tail) && image == EncodeVolume(v)
    ensures s.readError.None? <==> Depth(items) <= budget
    ensures s.readError.None? ==> SortedByPath(s.files) && multiset(s.files) == multiset(SeenOf([], items))
    ensures s.readError.None? ==> (multiset(s.files) == multiset(FilesOf([], items)) <==> Readable(items))
    ensures s.readError.None? ==> (multiset(s.files) == multiset(FilesOf([], items)) && Writable(s.files) <==> Clean(items))
    ensures s.readError.Some? ==> s.files == []
  {
    hide WellFormed, Readable, Clean, Writable, Depth, SeenOf, FilesOf, RootWalk, SortByPath, SortedByPath, EncodeVolume;
    VolumeBpb(v);
    WalkFindsTheTree(v, rootChain, items, tail, budget);
    SeenIffReadable(Holding(v.disk), items);
    SeenAndWrittenIff(Holding(v.disk), items);
    SortSorts(SeenOf([], items));
    WritableOfMultiset(SortByPath(SeenOf([], items)), SeenOf([], items));
    SectorsAreNotEmpty(v);
    s := SampleFatExternalState(image, budget);
  }
}
