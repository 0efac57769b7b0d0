/**
 * The round trip is about something: every file of up to a sector can be laid out on a volume that
 * meets its conditions, under any name of one byte. With an ASCII letter the file comes back, and with
 * a byte of 128 or more the sampler reports an empty volume.
 */
module FatExample {
  import opened Prelude
  import opened FatTable
  import opened FatDirectory
  import opened FatSampler
  import opened FatLayout
  import opened FatRoundTrip

  /** A byte that may be a name: it has no other meaning there, and is not the padding or a dot. */
  type Letter = b: Byte | b !in {0, 5, 32, 46} witness 65

  function Zeros(n: nat): seq<Byte> { seq(n, _ => 0) }

  /** One sector each for the boot sector, the table and the root directory. */
  function SmallBpb(): Bpb { Bpb(512, 1, 1, 1, 16, 16, 1, 0, 0, 0) }

  function SmallBoot(): seq<Byte> {
    Zeros(11) + LE16(512) + [1] + LE16(1) + [1] + LE16(16) + LE16(16) + [0] + LE16(1) + Zeros(8) + LE32(0) + LE32(0)
      + Zeros(4) + LE32(0) + Zeros(464)
  }

  function OneFile(name: Letter, content: seq<Byte>): Item
    requires |content| <= 512
  {
    FileItem(Short([name], []), Stamp(0x20, Zeros(8), Zeros(4)), [2], content, Zeros(512 - |content|))
  }

  function SmallDisk(content: seq<Byte>): Disk
    requires |content| <= 512
  {
    Disk(Fat12, [0xFF8, 0xFFF, 0xFFF], [content + Zeros(512 - |content|)])
  }

  lemma FileIsEncodable(name: Letter, content: seq<Byte>)
    requires |content| <= 512
    ensures Encodable(OneFile(name, content))
  {
    var t := ShortText([name], []);
    assert t == [name];
    assert t[0] == name;
  }

  lemma FileIsStored(name: Letter, content: seq<Byte>)
    requires |content| <= 512
    ensures Stored(Holding(SmallDisk(content)), OneFile(name, content))
  {
    var d := SmallDisk(content);
    FileIsEncodable(name, content);
    assert Contents(d, [2][..0]) == [];
    assert Contents(d, [2]) == [] + d.clusters[0];
    assert ChainHolds(d, [2], content + Zeros(512 - |content|));
  }

  lemma FieldAt(before: seq<Byte>, field: seq<Byte>, after: seq<Byte>, lo: nat, hi: nat)
    requires lo == |before| && hi == lo + |field|
    ensures (before + field + after)[lo..hi] == field
  {
  }

  lemma SmallBootHolds()
    ensures |SmallBoot()| == 512 && BootHolds(SmallBoot(), SmallBpb())
  {
    hide Zeros, LE16, LE32;
    ZerosLength(11);
    ZerosLength(8);
    ZerosLength(4);
    ZerosLength(464);
    var b := SmallBoot();
    var p := Zeros(11) + LE16(512) + [1] + LE16(1) + [1] + LE16(16) + LE16(16) + [0] + LE16(1) + Zeros(8);
    assert |p| == 32 && |b| == 512;
    SmallHead(p);
    assert b == p + LE32(0) + (LE32(0) + Zeros(4) + LE32(0) + Zeros(464));
    FieldAt(p, LE32(0), LE32(0) + Zeros(4) + LE32(0) + Zeros(464), 32, 36);
    assert b == (p + LE32(0)) + LE32(0) + (Zeros(4) + LE32(0) + Zeros(464));
    FieldAt(p + LE32(0), LE32(0), Zeros(4) + LE32(0) + Zeros(464), 36, 40);
    assert b == (p + LE32(0) + LE32(0) + Zeros(4)) + LE32(0) + Zeros(464);
    FieldAt(p + LE32(0) + LE32(0) + Zeros(4), LE32(0), Zeros(464), 44, 48);
    assert b[..32] == p;
    assert forall lo, hi {:trigger b[lo..hi]} :: 0 <= lo <= hi <= 32 ==> b[lo..hi] == p[lo..hi];
  }

  /** The fields of the first 32 bytes. */
  lemma SmallHead(p: seq<Byte>)
    requires p == Zeros(11) + LE16(512) + [1] + LE16(1) + [1] + LE16(16) + LE16(16) + [0] + LE16(1) + Zeros(8)
    ensures |p| == 32 && p[11..13] == LE16(512) && p[13] == 1 && p[14..16] == LE16(1) && p[16] == 1
    ensures p[17..19] == LE16(16) && p[19..21] == LE16(16) && p[22..24] == LE16(1)
  {
    hide Zeros, LE16;
    ZerosLength(11);
    ZerosLength(8);
  }

  lemma SmallTable()
    ensures |EncodeFat(Fat12, [0xFF8, 0xFFF, 0xFFF])| <= 512
  {
    assert [0xFF8, 0xFFF, 0xFFF][2..] == [0xFFF];
  }

  function Root(name: Letter, content: seq<Byte>): seq<Byte>
    requires |content| <= 512
  {
    FileIsEncodable(name, content);
    assert [OneFile(name, content)][1..] == [];
    EncodeItems([OneFile(name, content)]) + Zeros(480)
  }

  lemma RootIsASector(name: Letter, content: seq<Byte>)
    requires |content| <= 512
    ensures AllEncodable([OneFile(name, content)]) && Root(name, content) == EncodeItems([OneFile(name, content)]) + Zeros(480)
    ensures |Root(name, content)| == 512 && Ended(Zeros(480))
  {
    var f := OneFile(name, content);
    FileIsEncodable(name, content);
    assert [f][1..] == [];
    assert EncodeItems([]) == [];
    assert EncodeItems([f]) == EncodeItem(f) + [];
    assert |EncodeItem(f)| == 32;
  }

  ghost function SmallVolume(name: Letter, content: seq<Byte>): Volume
    requires |content| <= 512
  {
    var table := EncodeFat(Fat12, [0xFF8, 0xFFF, 0xFFF]);
    SmallTable();
    Volume(SmallBpb(), Extent(16, 1, 1, 13, 0), SmallBoot(), SmallDisk(content), Zeros(512 - |table|), [], Root(name, content), [])
  }

  lemma SmallVolumeIsWellFormed(name: Letter, content: seq<Byte>)
    requires |content| <= 512
    ensures WellFormed(SmallVolume(name, content))
  {
    hide Root, SmallBoot, EncodeFat, EncodeItems, BootHolds, Zeros;
    var v := SmallVolume(name, content);
    SmallBootHolds();
    SmallTable();
    RootIsASector(name, content);
    ZerosLength(512 - |content|);
    ZerosLength(512 - |EncodeFat(Fat12, [0xFF8, 0xFFF, 0xFFF])|);
    assert Describes(v.bpb, v.extent);
  }

  lemma ZerosLength(n: nat)
    ensures |Zeros(n)| == n
  {
  }

  /** A well-formed FAT12 volume holds the file, as WalkFindsTheTree asks for it. */
  lemma EveryFileHasAVolume(name: Letter, content: seq<Byte>)
    requires |content| <= 512
    ensures WellFormed(SmallVolume(name, content))
    ensures RootHolds(SmallVolume(name, content), [], [OneFile(name, content)], Zeros(480))
  {
    hide WellFormed, Stored, Encodable, SmallBoot, EncodeFat, EncodeItems, Root, Zeros, Ended, OneFile;
    var v, f := SmallVolume(name, content), OneFile(name, content);
    SmallVolumeIsWellFormed(name, content);
    RootIsASector(name, content);
    FileIsStored(name, content);
    assert [f][1..] == [] && v.disk == SmallDisk(content) && v.root == Root(name, content);
    assert AllStored(Holding(v.disk), [f]);
  }

  /** The 1.44 MB floppy disk: 2880 sectors, two tables of nine, 224 root entries, and 2847 clusters, so FAT12. */
  lemma FloppyIsFat12()
    ensures var floppy := Bpb(512, 1, 1, 2, 224, 2880, 9, 0, 0, 0);
      Describes(floppy, Extent(2880, 9, 14, 2847, 0)) && floppy.Type() == Fat12
  {
    ExtentIsComputed(Bpb(512, 1, 1, 2, 224, 2880, 9, 0, 0, 0), Extent(2880, 9, 14, 2847, 0));
  }

  /** What is seen of the file: ASCII names stay, 0xE5 is not put back in place of 0x05, and others vanish. */
  function Seen(name: Letter, content: seq<Byte>): seq<FileRec> {
    if name < 128 then [FileRec([name], |content|, content)]
    else if name == 0xE5 then [FileRec([5], |content|, content)]
    else []
  }

  lemma ReadsByte(b: Byte)
    requires b != SPACE
    ensures SeenPart([b]) == if b < 128 then [b] else []
  {
    var t: seq<Byte> := [b];
    assert t[1..] == [] && Ascii(t[1..]) == [];
    assert Ascii(t) == if b < 128 then [b] else [];
  }

  lemma SeenOfOneFile(name: Letter, content: seq<Byte>)
    requires |content| <= 512
    ensures SeenOf([], [OneFile(name, content)]) == Seen(name, content) && Depth([OneFile(name, content)]) == 0
  {
    var f := OneFile(name, content);
    assert [f][1..] == [] && [name][1..] == [];
    var mark: seq<Byte> := [5];
    assert name == 0xE5 ==> StoredStem([name]) == mark;
    ReadsByte(name);
    ReadsByte(5);
    assert SeenOf([], [f]) == SeenOfItem([], f) + [];
  }

  /** The walk over the volume's root finds the file as it is exactly under an ASCII name. */
  lemma FoundUnderAscii(name: Letter, content: seq<Byte>, budget: nat)
    requires |content| <= 512
    ensures WellFormed(SmallVolume(name, content))
    ensures RootWalk(EncodeVolume(SmallVolume(name, content)), SmallVolume(name, content).bpb, budget) == Ok(Seen(name, content))
  {
    hide WellFormed, RootHolds, RootWalk, EncodeVolume, SmallVolume, SeenOf, Depth, OneFile, Zeros, Seen;
    EveryFileHasAVolume(name, content);
    SeenOfOneFile(name, content);
    WalkFindsTheTree(SmallVolume(name, content), [], [OneFile(name, content)], Zeros(480), budget);
  }
}
