/**
 * The allocation table of the FAT reader (targets/tgoskits_arceos/api.py): little-endian fields,
 * packed 12-bit entries, and the guarded walk along a cluster chain. "FAT: General Overview of
 * On-Disk Format" v1.03, section "FAT Data Structure", says how entries are packed.
 */
module FatTable {
  import opened Prelude

  /** A Python slice with non-negative bounds: it is cut short at the end of the data. */
  function Slice(s: seq<Byte>, lo: nat, hi: nat): (r: seq<Byte>)
    ensures lo <= hi <= |s| ==> r == s[lo..hi]
  {
    s[Min(lo, |s|)..Max(Min(lo, |s|), Min(hi, |s|))]
  }

  /** int.from_bytes(bs, "little") */
  function LittleEndian(bs: seq<Byte>): nat {
    if bs == [] then 0 else bs[0] as nat + 256 * LittleEndian(bs[1..])
  }

  function U16(payload: seq<Byte>, offset: nat): nat { LittleEndian(Slice(payload, offset, offset + 2)) }

  function U32(payload: seq<Byte>, offset: nat): nat { LittleEndian(Slice(payload, offset, offset + 4)) }

  function U12(payload: seq<Byte>, offset: nat, cluster: nat): nat {
    var value := LittleEndian(Slice(payload, offset, offset + 2));
    if cluster % 2 == 1 then value / 16 else value % 0x1000
  }

  datatype FatType = Fat12 | Fat16 | Fat32

  function Entry(image: seq<Byte>, fatOffset: nat, cluster: nat, fatType: FatType): nat {
    match fatType
    case Fat12 => U12(image, fatOffset + Fat12Position(cluster), cluster)
    case Fat16 => U16(image, fatOffset + cluster * 2)
    case Fat32 => U32(image, fatOffset + cluster * 4) % 0x1000_0000
  }

  function Fat12Position(cluster: nat): nat { cluster * 3 / 2 }

  function Eof(fatType: FatType): nat {
    match fatType case Fat12 => 0x0FF8 case Fat16 => 0xFFF8 case Fat32 => 0x0FFF_FFF8
  }

  // ---------------------------------------------------------------- cluster chains

  /** The successor function that an allocation table holds. */
  function Table(image: seq<Byte>, fatOffset: nat, fatType: FatType): nat -> nat {
    (cluster: nat) => Entry(image, fatOffset, cluster, fatType)
  }

  /** The code: follow successors until one is out of range or was already visited. */
  method Chain(image: seq<Byte>, fatOffset: nat, startCluster: nat, fatType: FatType) returns (chain: seq<nat>)
    ensures chain == ChainFrom(Table(image, fatOffset, fatType), Eof(fatType), startCluster, {})
  {
    if startCluster < 2 {
      return [];
    }
    ghost var next := Table(image, fatOffset, fatType);
    var eof := Eof(fatType);
    var cluster := startCluster;
    var seen: set<nat> := {};
    chain := [];
    while cluster >= 2 && cluster < eof && cluster !in seen
      invariant chain + ChainFrom(next, eof, cluster, seen) == ChainFrom(next, eof, startCluster, {})
      decreases Below(eof) - seen
    {
      VisitingShrinks(eof, seen, cluster);
      Regroup(chain, [cluster], ChainFrom(next, eof, next(cluster), seen + {cluster}));
      seen := seen + {cluster};
      chain := chain + [cluster];
      cluster := Entry(image, fatOffset, cluster, fatType);
    }
  }

  lemma VisitingShrinks(n: nat, seen: set<nat>, c: nat)
    requires c < n && c !in seen
    ensures Below(n) - (seen + {c}) < Below(n) - seen
  {
    assert c in Below(n) - seen && c !in Below(n) - (seen + {c});
  }

  lemma Regroup<T>(a: seq<T>, b: seq<T>, c: seq<T>)
    ensures a + (b + c) == (a + b) + c
  {
  }

  ghost function ChainFrom(next: nat -> nat, eof: nat, cluster: nat, seen: set<nat>): seq<nat>
    decreases Below(eof) - seen
  {
    if 2 <= cluster < eof && cluster !in seen then
      VisitingShrinks(eof, seen, cluster);
      [cluster] + ChainFrom(next, eof, next(cluster), seen + {cluster})
    else []
  }

  /** Where a walk that begins at start and has visited ch goes next. */
  ghost function NextAfter(next: nat -> nat, start: nat, ch: seq<nat>): nat {
    if ch == [] then start else next(ch[|ch|-1])
  }

  /**
   * ch is the walk from start: in-range clusters, none twice and none in seen, each the successor
   * of the one before, and it stops only where the next cluster is out of range or already visited.
   */
  ghost predicate IsWalk(next: nat -> nat, eof: nat, start: nat, seen: set<nat>, ch: seq<nat>) {
    && (forall i :: 0 <= i < |ch| ==> 2 <= ch[i] < eof && ch[i] !in seen)
    && (forall i, j :: 0 <= i < j < |ch| ==> ch[i] != ch[j])
    && (ch != [] ==> ch[0] == start)
    && (forall i :: 0 < i < |ch| ==> ch[i] == next(ch[i-1]))
    && var last := NextAfter(next, start, ch);
       last < 2 || eof <= last || last in seen || last in ch
  }

  lemma WalkExtends(next: nat -> nat, eof: nat, start: nat, seen: set<nat>, rest: seq<nat>)
    requires 2 <= start < eof && start !in seen
    requires IsWalk(next, eof, next(start), seen + {start}, rest)
    ensures IsWalk(next, eof, start, seen, [start] + rest)
  {
    var ch := [start] + rest;
    assert forall i :: 0 < i < |ch| ==> ch[i] == rest[i-1];
    assert NextAfter(next, start, ch) == NextAfter(next, next(start), rest);
  }

  lemma {:induction false} ChainFromIsWalk(next: nat -> nat, eof: nat, start: nat, seen: set<nat>)
    ensures IsWalk(next, eof, start, seen, ChainFrom(next, eof, start, seen))
    decreases Below(eof) - seen
  {
    if 2 <= start < eof && start !in seen {
      VisitingShrinks(eof, seen, start);
      ChainFromIsWalk(next, eof, next(start), seen + {start});
      WalkExtends(next, eof, start, seen, ChainFrom(next, eof, next(start), seen + {start}));
    }
  }

  lemma {:induction false} WalkIsUnique(next: nat -> nat, eof: nat, start: nat, seen: set<nat>, ch: seq<nat>)
    requires IsWalk(next, eof, start, seen, ch)
    ensures ch == ChainFrom(next, eof, start, seen)
    decreases |ch|
  {
    if ch != [] {
      var rest := ch[1..];
      assert ch == [start] + rest;
      assert NextAfter(next, start, ch) == NextAfter(next, next(start), rest);
      WalkIsUnique(next, eof, next(start), seen + {start}, rest);
    }
  }

  /** On any image, even a cyclic or truncated one, the chain is the one walk from its start. */
  lemma ChainIffWalk(image: seq<Byte>, fatOffset: nat, start: nat, fatType: FatType, ch: seq<nat>)
    ensures ch == ChainFrom(Table(image, fatOffset, fatType), Eof(fatType), start, {})
       <==> IsWalk(Table(image, fatOffset, fatType), Eof(fatType), start, {}, ch)
  {
    ChainFromIsWalk(Table(image, fatOffset, fatType), Eof(fatType), start, {});
    if IsWalk(Table(image, fatOffset, fatType), Eof(fatType), start, {}, ch) {
      WalkIsUnique(Table(image, fatOffset, fatType), Eof(fatType), start, {}, ch);
    }
  }

  // ---------------------------------------------------------------- encoding the table

  function LE16(n: nat): (bs: seq<Byte>)
    requires n < 0x1_0000
    ensures |bs| == 2 && LittleEndian(bs) == n
  {
    assert LittleEndian([n / 256]) == n / 256;
    var bs: seq<Byte> := [n % 256, n / 256];
    assert bs[1..] == [n / 256];
    bs
  }

  function LE32(n: nat): (bs: seq<Byte>)
    requires n < 0x1_0000_0000
    ensures |bs| == 4 && LittleEndian(bs) == n
  {
    var lo, hi := LE16(n % 0x1_0000), LE16(n / 0x1_0000);
    assert (lo + hi)[1..] == lo[1..] + hi && (lo[1..] + hi)[1..] == hi;
    lo + hi
  }

  /** 12-bit entries, two to three bytes. */
  function EncodeFat12(es: seq<nat>): seq<Byte>
    requires forall i :: 0 <= i < |es| ==> es[i] < 0x1000
  {
    if |es| == 0 then []
    else if |es| == 1 then [es[0] % 256, es[0] / 256]
    else [es[0] % 256, es[0] / 256 + es[1] % 16 * 16, es[1] / 16] + EncodeFat12(es[2..])
  }

  /** The byte at a position, 0 past the end: what a truncated read amounts to. */
  function ByteAt(s: seq<Byte>, p: nat): int { if p < |s| then s[p] else 0 }

  /** The 12-bit entry in two bytes, one of which it shares with its neighbour. */
  function Unpack12(low: int, high: int, odd: bool): int {
    if odd then low / 16 + 16 * high else low + 256 * (high % 16)
  }

  lemma WordToEntry(low: int, high: int)
    requires 0 <= low < 256 && 0 <= high < 256
    ensures (low + 256 * high) / 16 == Unpack12(low, high, true)
    ensures (low + 256 * high) % 0x1000 == Unpack12(low, high, false)
  {
    assert low == 16 * (low / 16) + low % 16;
    assert high == 16 * (high / 16) + high % 16;
    assert low + 256 * high == 0x1000 * (high / 16) + (low + 256 * (high % 16));
  }

  lemma Fat12EntryBytes(image: seq<Byte>, fatOffset: nat, cluster: nat)
    ensures var p := fatOffset + Fat12Position(cluster);
      Entry(image, fatOffset, cluster, Fat12) == Unpack12(ByteAt(image, p), ByteAt(image, p + 1), cluster % 2 == 1)
  {
    var p := fatOffset + Fat12Position(cluster);
    WordValue(image, p);
    WordToEntry(ByteAt(image, p), ByteAt(image, p + 1));
  }

  lemma WordValue(s: seq<Byte>, p: nat)
    ensures LittleEndian(Slice(s, p, p + 2)) == ByteAt(s, p) + 256 * ByteAt(s, p + 1)
  {
    var t := Slice(s, p, p + 2);
    if p + 2 <= |s| {
      assert t == [s[p]] + [s[p+1]];
      assert t[1..] == [s[p+1]];
      assert LittleEndian(t[1..]) == s[p+1];
    } else if p + 1 == |s| {
      assert t == [s[p]] && t[1..] == [];
    }
  }

  lemma Fat12PositionIs(c: nat)
    ensures Fat12Position(c) == 3 * (c / 2) + c % 2
  {
    var k, r := c / 2, c % 2;
    assert c * 3 == 2 * (3 * k + r) + r;
  }

  /** What packing two 12-bit values into three bytes leaves to be read. */
  lemma PackedPair(v: int, w: int)
    requires 0 <= v < 0x1000 && 0 <= w < 0x1000
    ensures Unpack12(v % 256, v / 256 + w % 16 * 16, false) == v
    ensures Unpack12(v / 256 + w % 16 * 16, w / 16, true) == w
  {
    assert v / 256 < 16;
    assert (v / 256 + w % 16 * 16) % 16 == v / 256;
    assert (v / 256 + w % 16 * 16) / 16 == w % 16;
  }

  lemma FirstPairRead(image: seq<Byte>, fatOffset: nat, v: nat, w: nat)
    requires v < 0x1000 && w < 0x1000 && fatOffset + 2 <= |image|
    requires image[fatOffset] == v % 256 && image[fatOffset+1] == v / 256 + w % 16 * 16
    ensures Entry(image, fatOffset, 0, Fat12) == v
    ensures ByteAt(image, fatOffset + 2) == w / 16 ==> Entry(image, fatOffset, 1, Fat12) == w
  {
    Fat12EntryBytes(image, fatOffset, 0);
    Fat12EntryBytes(image, fatOffset, 1);
    PackedPair(v, w);
  }

  lemma ThreeBytesHoldTwoEntries(image: seq<Byte>, fatOffset: nat, c: nat)
    ensures Entry(image, fatOffset, c + 2, Fat12) == Entry(image, fatOffset + 3, c, Fat12)
  {
    Fat12EntryBytes(image, fatOffset, c + 2);
    Fat12EntryBytes(image, fatOffset + 3, c);
    Fat12PositionIs(c);
    Fat12PositionIs(c + 2);
  }

  lemma {:induction false} Fat12EntryRead(pre: seq<Byte>, es: seq<nat>, post: seq<Byte>, c: nat)
    requires forall i :: 0 <= i < |es| ==> es[i] < 0x1000
    requires c < |es|
    ensures Entry(pre + EncodeFat12(es) + post, |pre|, c, Fat12) == es[c]
    decreases |es|
  {
    var image := pre + EncodeFat12(es) + post;
    if |es| == 1 {
      assert image == pre + [es[0] % 256, es[0] / 256] + post;
      FirstPairRead(image, |pre|, es[0], 0);
    } else {
      var head: seq<Byte> := [es[0] % 256, es[0] / 256 + es[1] % 16 * 16, es[1] / 16];
      assert image == (pre + head) + EncodeFat12(es[2..]) + post;
      if c < 2 {
        assert image[|pre|] == head[0] && image[|pre|+1] == head[1] && image[|pre|+2] == head[2];
        FirstPairRead(image, |pre|, es[0], es[1]);
      } else {
        Fat12EntryRead(pre + head, es[2..], post, c - 2);
        ThreeBytesHoldTwoEntries(image, |pre|, c - 2);
      }
    }
  }

  /** Writing one 12-bit entry in place, keeping the nibble it shares with its neighbour. */
  function Store12(image: seq<Byte>, fatOffset: nat, cluster: nat, value: nat): seq<Byte>
    requires fatOffset + Fat12Position(cluster) + 1 < |image| && value < 0x1000
  {
    var p := fatOffset + Fat12Position(cluster);
    if cluster % 2 == 0
    then image[p := value % 256][p+1 := image[p+1] / 16 * 16 + value / 256]
    else image[p := image[p] % 16 + value % 16 * 16][p+1 := value / 16]
  }

  lemma SharedNibble(low: int, high: int, v: int)
    requires 0 <= low < 256 && 0 <= high < 256 && 0 <= v < 0x1000
    ensures Unpack12(v % 256, high / 16 * 16 + v / 256, false) == v
    ensures Unpack12(low % 16 + v % 16 * 16, v / 16, true) == v
    ensures (high / 16 * 16 + v / 256) / 16 == high / 16
    ensures (low % 16 + v % 16 * 16) % 16 == low % 16
  {
    assert v / 256 < 16;
    assert (high / 16 * 16 + v / 256) % 16 == v / 256;
    assert (low % 16 + v % 16 * 16) / 16 == v % 16;
  }

  /** Storing one entry is read back, and every other entry reads as before. */
  lemma Fat12StoreIsLocal(image: seq<Byte>, fatOffset: nat, cluster: nat, value: nat, other: nat)
    requires fatOffset + Fat12Position(cluster) + 1 < |image| && value < 0x1000
    ensures Entry(Store12(image, fatOffset, cluster, value), fatOffset, other, Fat12)
         == if other == cluster then value else Entry(image, fatOffset, other, Fat12)
  {
    hide Entry, LittleEndian;
    var stored := Store12(image, fatOffset, cluster, value);
    var p := fatOffset + Fat12Position(cluster);
    Fat12EntryBytes(image, fatOffset, other);
    Fat12EntryBytes(stored, fatOffset, other);
    Fat12PositionIs(cluster);
    Fat12PositionIs(other);
    SharedNibble(image[p], image[p+1], value);
    assert forall r: nat :: r != p && r != p + 1 ==> ByteAt(stored, r) == ByteAt(image, r);
  }

  /** 16-bit little-endian units: FAT16 entries, and the characters of long names. */
  function EncodeWords(es: seq<nat>): (bs: seq<Byte>)
    requires forall i :: 0 <= i < |es| ==> es[i] < 0x1_0000
    ensures |bs| == 2 * |es|
  {
    if es == [] then [] else LE16(es[0]) + EncodeWords(es[1..])
  }

  lemma {:induction false} Fat16EntryRead(pre: seq<Byte>, es: seq<nat>, post: seq<Byte>, c: nat)
    decreases |es|
    requires forall i :: 0 <= i < |es| ==> es[i] < 0x1_0000
    requires c < |es|
    ensures Entry(pre + EncodeWords(es) + post, |pre|, c, Fat16) == es[c]
  {
    var image := pre + EncodeWords(es) + post;
    assert image == pre + LE16(es[0]) + (EncodeWords(es[1..]) + post);
    if c == 0 {
      assert Slice(image, |pre|, |pre| + 2) == LE16(es[0]);
    } else {
      assert image == (pre + LE16(es[0])) + EncodeWords(es[1..]) + post;
      Fat16EntryRead(pre + LE16(es[0]), es[1..], post, c - 1);
    }
  }

  /** 32-bit entries; the top four bits are reserved and may hold anything. */
  function EncodeDwords(es: seq<nat>): (bs: seq<Byte>)
    requires forall i :: 0 <= i < |es| ==> es[i] < 0x1_0000_0000
    ensures |bs| == 4 * |es|
  {
    if es == [] then [] else LE32(es[0]) + EncodeDwords(es[1..])
  }

  lemma {:induction false} Fat32EntryRead(pre: seq<Byte>, es: seq<nat>, post: seq<Byte>, c: nat)
    decreases |es|
    requires forall i :: 0 <= i < |es| ==> es[i] < 0x1_0000_0000
    requires c < |es|
    ensures Entry(pre + EncodeDwords(es) + post, |pre|, c, Fat32) == es[c] % 0x1000_0000
  {
    var image := pre + EncodeDwords(es) + post;
    assert image == pre + LE32(es[0]) + (EncodeDwords(es[1..]) + post);
    if c == 0 {
      assert Slice(image, |pre|, |pre| + 4) == LE32(es[0]);
    } else {
      assert image == (pre + LE32(es[0])) + EncodeDwords(es[1..]) + post;
      Fat32EntryRead(pre + LE32(es[0]), es[1..], post, c - 1);
    }
  }

  function EntryBound(fatType: FatType): nat {
    match fatType case Fat12 => 0x1000 case Fat16 => 0x1_0000 case Fat32 => 0x1_0000_0000
  }

  function EncodeFat(fatType: FatType, es: seq<nat>): seq<Byte>
    requires forall i :: 0 <= i < |es| ==> es[i] < EntryBound(fatType)
  {
    match fatType
    case Fat12 => assert EntryBound(fatType) == 0x1000; EncodeFat12(es)
    case Fat16 => assert EntryBound(fatType) == 0x1_0000; EncodeWords(es)
    case Fat32 => assert EntryBound(fatType) == 0x1_0000_0000; EncodeDwords(es)
  }

  /** The successor an entry records. */
  function Successor(fatType: FatType, entry: nat): nat {
    if fatType == Fat32 then entry % 0x1000_0000 else entry
  }

  /** Reading any cluster of an encoded table gives back the successor stored for it. */
  lemma FatEntryRead(fatType: FatType, pre: seq<Byte>, es: seq<nat>, post: seq<Byte>, c: nat)
    requires forall i :: 0 <= i < |es| ==> es[i] < EntryBound(fatType)
    requires c < |es|
    ensures Entry(pre + EncodeFat(fatType, es) + post, |pre|, c, fatType) == Successor(fatType, es[c])
  {
    match fatType {
      case Fat12 => Fat12EntryRead(pre, es, post, c);
      case Fat16 => Fat16EntryRead(pre, es, post, c);
      case Fat32 => Fat32EntryRead(pre, es, post, c);
    }
  }
}
