/**
 * How the FAT standard lays a directory tree out on a disk, written as an encoder: directory items
 * become entries, chains are recorded in the allocation table, and an image is the boot sector, the
 * tables, the root directory and the clusters one after the other. This is the partner of the
 * sampler: the round-trip theorem is stated between the two.
 */
module FatLayout {
  import opened Prelude
  import opened FatTable
  import opened FatDirectory
  import opened FatSampler

  // ---------------------------------------------------------------- names and entries

  datatype Name =
    | Short(stem: seq<Byte>, suffix: seq<Byte>)
    | Long(units: seq<nat>, checksum: Byte, alias: seq<Byte>)

  /** The characters of a name. The units of a long name are UTF-16. */
  function NameText(n: Name): Text {
    match n case Short(stem, suffix) => ShortText(stem, suffix) case Long(units, _, _) => Utf16(units)
  }

  /** Any byte may stand in a short name, but for the two values with a meaning as its first byte. */
  ghost predicate ValidName(n: Name) {
    && NameText(n) !in {[46], [46, 46]}
    && match n
       case Short(stem, suffix) => FieldText(stem, 8) && FieldText(suffix, 3) && stem != [] && stem[0] !in {0, 5}
       case Long(units, _, alias) =>
         NameUnits(units) && 1 <= |units| <= 255 && |alias| == 11 && alias[0] !in {0, 0xE5}
  }

  /** A name that begins with 0xE5 is stored with 0x05 there, for 0xE5 marks a deleted entry. */
  function StoredStem(stem: seq<Byte>): (t: seq<Byte>)
    ensures |t| == |stem|
  {
    if stem != [] && stem[0] == 0xE5 then [5] + stem[1..] else stem
  }

  /** What the sampler takes a name for. */
  function SeenText(n: Name): Text {
    match n case Short(stem, suffix) => SeenShort(StoredStem(stem), suffix) case Long(units, _, _) => units
  }

  /** The names that the sampler reads as they are: long ones within 16 bits, and short ones in ASCII. */
  predicate ReadableName(n: Name) {
    match n case Short(stem, suffix) => IsAscii(stem) && IsAscii(suffix) case Long(units, _, _) => NoPair(units)
  }

  /** Those that can be written as UTF-8 besides: without the half of a character. */
  predicate CleanName(n: Name) {
    match n case Short(stem, suffix) => IsAscii(stem) && IsAscii(suffix) case Long(units, _, _) => IsUnicode(units)
  }

  lemma SeenTextIff(n: Name)
    requires ValidName(n)
    ensures if ReadableName(n) then SeenText(n) == NameText(n) else Sum(SeenText(n)) < Sum(NameText(n))
  {
    if n.Short? {
      if n.stem[0] == 0xE5 {
        StoredStemSum(n.stem);
        SeenPartIff(n.stem, 8);
        SeenPartIff(StoredStem(n.stem), 8);
        SeenPartIff(n.suffix, 3);
        DottedSum(n.stem, n.suffix);
        DottedSum(SeenPart(StoredStem(n.stem)), SeenPart(n.suffix));
      } else {
        SeenShortIff(n.stem, n.suffix);
      }
    } else {
      Utf16Iff(n.units);
    }
  }

  /** Clean names are the readable ones that are seen without halves of characters. */
  lemma CleanNameIff(n: Name)
    requires ValidName(n)
    ensures CleanName(n) <==> ReadableName(n) && IsUnicode(SeenText(n))
  {
    if n.Short? && ReadableName(n) {
      SeenTextIff(n);
      assert IsUnicode(ShortText(n.stem, n.suffix));
    }
  }

  /** A long name that is valid is never passed over. */
  lemma LongIsSeen(n: Name)
    requires ValidName(n) && n.Long?
    ensures !IsSkipped(SeenText(n))
  {
    Utf16Iff(n.units);
  }

  lemma StoredStemSum(stem: seq<Byte>)
    requires stem != [] && stem[0] == 0xE5
    ensures Sum(StoredStem(stem)) < Sum(stem)
  {
    SumAppend([5], stem[1..]);
    SumAppend([0xE5], stem[1..]);
    var rest: Text := stem[1..];
    var whole: Text := stem;
    assert whole == [0xE5] + rest;
    var one: Text := [5];
    var other: Text := [0xE5];
    assert one[..0] == [] && other[..0] == [];
    assert Sum(one) == 6 && Sum(other) == 0xE6;
  }

  function Name11(n: Name): (f: seq<Byte>)
    requires ValidName(n)
    ensures |f| == 11
  {
    match n case Short(stem, suffix) => Field(StoredStem(stem), 8) + Field(suffix, 3) case Long(_, _, alias) => alias
  }

  /** The entries that come before the short entry. */
  function NameEntries(n: Name): seq<Byte>
    requires ValidName(n)
  {
    match n case Short(_, _) => [] case Long(units, checksum, _) => EncodeLongName(units, 1, checksum)
  }

  /** Attributes, and the fields the sampler does not look at. */
  datatype Stamp = Stamp(attributes: Byte, mid8: seq<Byte>, time4: seq<Byte>)

  /** Bit 3 of the attributes marks a volume label, bit 4 a directory. */
  predicate IsLabel(attributes: Byte) { attributes % 16 >= 8 }

  predicate IsDirectory(attributes: Byte) { attributes % 32 >= 16 }

  ghost predicate ValidStamp(s: Stamp, directory: bool) {
    |s.mid8| == 8 && |s.time4| == 4 && !IsLabel(s.attributes) && (IsDirectory(s.attributes) <==> directory)
  }

  lemma BitsAreRead(attributes: Byte)
    ensures HasBit(attributes, 0x08) == IsLabel(attributes) && HasBit(attributes, 0x10) == IsDirectory(attributes)
  {
    assert attributes % 16 == attributes % 8 + 8 * (attributes / 8 % 2);
    assert attributes % 32 == attributes % 16 + 16 * (attributes / 16 % 2);
  }

  // ---------------------------------------------------------------- trees

  datatype Item =
    | Unused(entry: seq<Byte>)    // a deleted entry or a volume label
    | DotItem(entry: seq<Byte>)   // "." or ".."
    | FileItem(name: Name, stamp: Stamp, chain: seq<nat>, content: seq<Byte>, slack: seq<Byte>)
    | DirItem(name: Name, stamp: Stamp, chain: seq<nat>, items: seq<Item>, tail: seq<Byte>)

  function First(chain: seq<nat>): nat { if chain == [] then 0 else chain[0] }

  ghost predicate Encodable(item: Item) {
    match item
    case Unused(e) => |e| == 32 && e[0] != 0 && (e[0] == 0xE5 || (e[11] != 0x0F && IsLabel(e[11])))
    case DotItem(e) => |e| == 32 && (e[0..11] == Field([46], 11) || e[0..11] == Field([46, 46], 11)) && !IsLabel(e[11])
    case FileItem(name, stamp, chain, content, _) =>
      ValidName(name) && ValidStamp(stamp, false) && First(chain) < 0x1_0000_0000 && |content| < 0x1_0000_0000
    case DirItem(name, stamp, chain, _, _) =>
      ValidName(name) && ValidStamp(stamp, true) && First(chain) < 0x1_0000_0000
  }

  function EncodeItem(item: Item): seq<Byte>
    requires Encodable(item)
  {
    match item
    case Unused(e) => e
    case DotItem(e) => e
    case FileItem(name, stamp, chain, content, _) =>
      NameEntries(name) + EncodeEntry(Name11(name), stamp.attributes, stamp.mid8, stamp.time4, First(chain), |content|)
    case DirItem(name, stamp, chain, _, _) =>
      NameEntries(name) + EncodeEntry(Name11(name), stamp.attributes, stamp.mid8, stamp.time4, First(chain), 0)
  }

  ghost predicate AllEncodable(items: seq<Item>) {
    items == [] || (Encodable(items[0]) && AllEncodable(items[1..]))
  }

  function EncodeItems(items: seq<Item>): seq<Byte>
    requires AllEncodable(items)
  {
    if items == [] then [] else EncodeItem(items[0]) + EncodeItems(items[1..])
  }

  /** The path of an entry in a directory: names are separated by slashes, and the root has none. */
  function PathIn(directory: Text, name: Text): Text { if directory == [] then name else directory + [47] + name }

  lemma PathInIsPath(directory: Text, name: Text)
    ensures PathIn(directory, name) == PathOf(directory, name)
  {
  }

  /** The files of a tree in directory order, which is what the sampler is for. */
  function FilesOfItem(prefix: Text, item: Item): seq<FileRec>
    decreases item, 1
  {
    match item
    case Unused(_) => []
    case DotItem(_) => []
    case FileItem(name, _, _, content, _) => [FileRec(PathIn(prefix, NameText(name)), |content|, content)]
    case DirItem(name, _, _, items, _) => FilesOf(PathIn(prefix, NameText(name)), items)
  }

  function FilesOf(prefix: Text, items: seq<Item>): seq<FileRec>
    decreases items, 0
  {
    if items == [] then [] else FilesOfItem(prefix, items[0]) + FilesOf(prefix, items[1..])
  }

  /** The names that the sampler passes over. */
  predicate IsSkipped(name: Text) { name in {[], DOT, DOT_DOT} }

  /** The files that the sampler finds: under the names it reads, and none under a name it passes over. */
  function SeenOfItem(prefix: Text, item: Item): seq<FileRec>
    decreases item, 1
  {
    match item
    case Unused(_) => []
    case DotItem(_) => []
    case FileItem(name, _, _, content, _) =>
      if IsSkipped(SeenText(name)) then [] else [FileRec(PathOf(prefix, SeenText(name)), |content|, content)]
    case DirItem(name, _, _, items, _) =>
      if IsSkipped(SeenText(name)) then [] else SeenOf(PathOf(prefix, SeenText(name)), items)
  }

  function SeenOf(prefix: Text, items: seq<Item>): seq<FileRec>
    decreases items, 0
  {
    if items == [] then [] else SeenOfItem(prefix, items[0]) + SeenOf(prefix, items[1..])
  }

  /** How deep the directories are nested that the sampler enters. */
  function DepthOf(item: Item): nat
    decreases item, 1
  {
    if item.DirItem? && !IsSkipped(SeenText(item.name)) then 1 + Depth(item.items) else 0
  }

  function Depth(items: seq<Item>): nat
    decreases items, 0
  {
    if items == [] then 0 else Max(DepthOf(items[0]), Depth(items[1..]))
  }

  // ---------------------------------------------------------------- disks

  /** The allocation table's entries and the data clusters, cluster 2 first. */
  datatype Disk = Disk(fatType: FatType, fat: seq<nat>, clusters: seq<seq<Byte>>)

  /** Entries of a table have 12, 16 or 28 bits, and the eight greatest values mark the end of a chain. */
  function EndMark(fatType: FatType): nat {
    match fatType case Fat12 => 4096 - 8 case Fat16 => 65536 - 8 case Fat32 => 268435456 - 8
  }

  /** An entry is stored in 12, 16 or 32 bits. */
  function EntryLimit(fatType: FatType): nat {
    match fatType case Fat12 => 4096 case Fat16 => 65536 case Fat32 => 4294967296
  }

  /** What an entry links to: on FAT32 the four highest of its bits are reserved and do not count. */
  function LinkOf(fatType: FatType, entry: nat): nat {
    if fatType == Fat32 then entry - entry / 268435456 * 268435456 else entry
  }

  lemma EntriesAreRead(fatType: FatType, entry: nat)
    ensures LinkOf(fatType, entry) == Successor(fatType, entry) && EntryLimit(fatType) == EntryBound(fatType)
  {
  }

  /** The clusters of a chain are distinct, linked in order, and ended by an end-of-chain mark. */
  ghost predicate Chained(d: Disk, chain: seq<nat>) {
    && (forall i :: 0 <= i < |chain| ==> 2 <= chain[i] < Min(Min(|d.fat|, 2 + |d.clusters|), EndMark(d.fatType)))
    && (forall i, j :: 0 <= i < j < |chain| ==> chain[i] != chain[j])
    && (forall i :: 0 < i < |chain| ==> chain[i] == LinkOf(d.fatType, d.fat[chain[i-1]]))
    && (chain != [] ==> EndMark(d.fatType) <= LinkOf(d.fatType, d.fat[chain[|chain|-1]]))
  }

  ghost function Contents(d: Disk, chain: seq<nat>): seq<Byte>
    requires forall i :: 0 <= i < |chain| ==> 2 <= chain[i] < 2 + |d.clusters|
  {
    if chain == [] then [] else Contents(d, chain[..|chain|-1]) + d.clusters[chain[|chain|-1] - 2]
  }

  /** A directory's data ends, or is followed by an entry that begins with 0x00. */
  ghost predicate Ended(tail: seq<Byte>) { |tail| < 32 || tail[0] == 0 }

  /** The chain is recorded on the disk and its clusters, one after the other, hold the bytes. */
  ghost predicate ChainHolds(d: Disk, chain: seq<nat>, bytes: seq<Byte>) {
    Chained(d, chain) && Contents(d, chain) == bytes
  }

  /** Which chains hold which bytes on a disk. */
  ghost function Holding(d: Disk): (seq<nat>, seq<Byte>) -> bool {
    (chain: seq<nat>, bytes: seq<Byte>) => ChainHolds(d, chain, bytes)
  }

  /** The item's clusters hold its content, and a directory's clusters hold its items' entries. */
  ghost predicate Stored(holds: (seq<nat>, seq<Byte>) -> bool, item: Item)
    decreases item, 1
  {
    && Encodable(item)
    && match item
       case Unused(_) => true
       case DotItem(_) => true
       case FileItem(_, _, chain, content, slack) => holds(chain, content + slack)
       case DirItem(_, _, chain, items, tail) =>
         && chain != [] && Ended(tail) && AllEncodable(items) && AllStored(holds, items)
         && holds(chain, EncodeItems(items) + tail)
  }

  ghost predicate AllStored(holds: (seq<nat>, seq<Byte>) -> bool, items: seq<Item>)
    decreases items, 0
  {
    items == [] || (Stored(holds, items[0]) && AllStored(holds, items[1..]))
  }

  // ---------------------------------------------------------------- images

  /** The sectors of a volume, of one table and of the root directory, its clusters, and the sectors left over. */
  datatype Extent = Extent(sectors: nat, fatSectors: nat, rootSectors: nat, clusters: nat, spare: nat)

  datatype Volume = Volume(
    bpb: Bpb, extent: Extent, boot: seq<Byte>, disk: Disk, fatSlack: seq<Byte>, otherFats: seq<Byte>, root: seq<Byte>,
    tail: seq<Byte>)

  /** A size stands in the 16-bit field, or in the 32-bit field if that is zero. */
  predicate Recorded(size: nat, short: nat, long: nat) { if short == 0 then long == size else short == size }

  /**
   * The extent that a boot sector describes: the root directory's entries of 32 bytes fill its sectors,
   * the last perhaps in part, and what follows reserved sectors, tables and root directory is cut into
   * as many whole clusters as there are.
   */
  ghost predicate Describes(b: Bpb, e: Extent) {
    && Recorded(e.sectors, b.totalSectors16, b.totalSectors32)
    && Recorded(e.fatSectors, b.sectorsPerFat16, b.sectorsPerFat32)
    && 32 * b.rootEntryCount <= e.rootSectors * b.bytesPerSector < 32 * b.rootEntryCount + b.bytesPerSector
    && e.spare < b.sectorsPerCluster
    && e.sectors == b.reservedSectors + b.fatCount * e.fatSectors + e.rootSectors + e.clusters * b.sectorsPerCluster + e.spare
  }

  /** "FAT Type Determination": up to 4084 clusters, up to 65524, and more. */
  function TypeOfVolume(clusters: nat): FatType {
    if clusters <= 4084 then Fat12 else if clusters <= 65524 then Fat16 else Fat32
  }

  /** The sampler computes the extent that the boot sector describes, and its type. */
  lemma ExtentIsComputed(b: Bpb, e: Extent)
    requires BpbInRange(b) && Describes(b, e)
    ensures b.TotalSectors() == e.sectors && b.SectorsPerFat() == e.fatSectors && b.RootDirSectors() == e.rootSectors
    ensures b.ClusterCount() == e.clusters && b.Type() == TypeOfVolume(e.clusters)
  {
    QuotientIs(32 * b.rootEntryCount + (b.bytesPerSector - 1), b.bytesPerSector, e.rootSectors,
               32 * b.rootEntryCount + (b.bytesPerSector - 1) - e.rootSectors * b.bytesPerSector);
    var data := e.clusters * b.sectorsPerCluster + e.spare;
    QuotientIs(data, b.sectorsPerCluster, e.clusters, e.spare);
    assert b.TotalSectors() - (b.reservedSectors + b.fatCount * b.SectorsPerFat() + b.RootDirSectors()) == data;
  }

  lemma QuotientIs(x: nat, n: nat, q: nat, r: nat)
    requires n > 0 && x == q * n + r && r < n
    ensures x / n == q
  {
    var p, t := x / n, x % n;
    assert x == n * p + t;
    SmallMultiple(n, p, q, t, r);
  }

  lemma SmallMultiple(n: int, p: int, q: int, t: int, r: int)
    requires n * p + t == q * n + r && 0 <= t < n && 0 <= r < n
    ensures p == q
  {
    assert n * (p - q) == r - t;
    if p > q {
      Grows(n, p - q);
      assert false;
    }
    if p < q {
      assert n * (q - p) == t - r;
      Grows(n, q - p);
      assert false;
    }
  }

  lemma {:induction false} Grows(n: int, k: int)
    requires n > 0 && k > 0
    ensures n * k >= n
    decreases k
  {
    if k > 1 {
      Grows(n, k - 1);
      assert n * k == n * (k - 1) + n;
    }
  }

  /** Every boot sector with room for its tables and root directory describes one extent. */
  lemma EveryBpbDescribes(b: Bpb)
    requires BpbInRange(b)
    requires b.reservedSectors + b.fatCount * b.SectorsPerFat() + b.RootDirSectors() <= b.TotalSectors()
    ensures exists e :: Describes(b, e)
  {
    var data := b.TotalSectors() - (b.reservedSectors + b.fatCount * b.SectorsPerFat() + b.RootDirSectors());
    var e := Extent(b.TotalSectors(), b.SectorsPerFat(), b.RootDirSectors(), data / b.sectorsPerCluster, data % b.sectorsPerCluster);
    var bytes := 32 * b.rootEntryCount + (b.bytesPerSector - 1);
    assert bytes == b.bytesPerSector * (bytes / b.bytesPerSector) + bytes % b.bytesPerSector;
    assert data == b.sectorsPerCluster * (data / b.sectorsPerCluster) + data % b.sectorsPerCluster;
    assert Describes(b, e);
  }

  function Flatten(clusters: seq<seq<Byte>>): seq<Byte> {
    if clusters == [] then [] else clusters[0] + Flatten(clusters[1..])
  }

  ghost predicate BpbInRange(b: Bpb) {
    && 0 < b.bytesPerSector < 0x1_0000 && 0 < b.sectorsPerCluster < 256 && b.reservedSectors < 0x1_0000
    && 0 < b.fatCount < 256 && b.rootEntryCount < 0x1_0000 && b.totalSectors16 < 0x1_0000 && b.sectorsPerFat16 < 0x1_0000
    && b.totalSectors32 < 0x1_0000_0000 && b.sectorsPerFat32 < 0x1_0000_0000 && b.rootCluster < 0x1_0000_0000
  }

  /** The boot sector fields at the offsets and widths the standard gives them. */
  ghost predicate BootHolds(boot: seq<Byte>, b: Bpb)
    requires BpbInRange(b)
  {
    && |boot| >= 64
    && boot[11..13] == LE16(b.bytesPerSector) && boot[13] == b.sectorsPerCluster
    && boot[14..16] == LE16(b.reservedSectors) && boot[16] == b.fatCount
    && boot[17..19] == LE16(b.rootEntryCount) && boot[19..21] == LE16(b.totalSectors16)
    && boot[22..24] == LE16(b.sectorsPerFat16) && boot[32..36] == LE32(b.totalSectors32)
    && boot[36..40] == LE32(b.sectorsPerFat32) && boot[44..48] == LE32(b.rootCluster)
  }

  ghost predicate WellFormed(v: Volume) {
    && BpbInRange(v.bpb) && BootHolds(v.boot, v.bpb)
    && Describes(v.bpb, v.extent) && v.disk.fatType == TypeOfVolume(v.extent.clusters)
    && |v.disk.clusters| <= v.extent.clusters
    && (forall i :: 0 <= i < |v.disk.fat| ==> v.disk.fat[i] < EntryLimit(v.disk.fatType))
    && (forall i :: 0 <= i < |v.disk.clusters| ==>
          |v.disk.clusters[i]| == v.bpb.bytesPerSector * v.bpb.sectorsPerCluster)
    && |v.boot| == v.bpb.reservedSectors * v.bpb.bytesPerSector
    && |EncodeFat(v.disk.fatType, v.disk.fat)| + |v.fatSlack| + |v.otherFats|
       == v.bpb.fatCount * v.extent.fatSectors * v.bpb.bytesPerSector
    && |v.root| == v.extent.rootSectors * v.bpb.bytesPerSector
  }

  ghost function EncodeVolume(v: Volume): seq<Byte>
    requires WellFormed(v)
  {
    v.boot + EncodeFat(v.disk.fatType, v.disk.fat) + v.fatSlack + v.otherFats + v.root + Flatten(v.disk.clusters) + v.tail
  }

  /** The root directory of a volume holds these items: in its own region, or on FAT32 in a chain. */
  ghost predicate RootHolds(v: Volume, rootChain: seq<nat>, items: seq<Item>, tail: seq<Byte>) {
    && Ended(tail) && AllEncodable(items) && AllStored(Holding(v.disk), items)
    && if v.disk.fatType == Fat32
       then rootChain != [] && rootChain[0] == v.bpb.rootCluster
            && ChainHolds(v.disk, rootChain, EncodeItems(items) + tail)
       else v.root == EncodeItems(items) + tail
  }
}
