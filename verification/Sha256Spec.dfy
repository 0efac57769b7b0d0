/**
 * FIPS 180-4 SHA-256, written from the standard: functions (4.1.2), constants (4.2.2), padding
 * (5.1.1), parsing into blocks (5.2.1), initial value (5.3.3) and hash computation (6.2.2). The
 * operations on words (3.2) are a parameter; BitStrings defines them on 32-bit strings.
 */
module Sha256Spec {

  import opened Prelude

  type Block = b: seq<Byte> | |b| == 64 witness seq(64, _ => 0)

  /**
   * Words, their operations and the algorithm's constants. load makes a word of four bytes, extract
   * takes a byte out again, k gives the round constants and iv the initial hash value.
   */
  datatype WordOps<!W> = WordOps(
    and: (W, W) -> W, xor: (W, W) -> W, not: W -> W, shr: (W, nat) -> W, rotr: (W, nat) -> W,
    plus: (W, W) -> W, load: (Byte, Byte, Byte, Byte) -> W, extract: (W, nat) -> Byte, k: nat -> W, iv: Hash<W>)

  /** The two sets of operations agree everywhere. */
  ghost predicate SameOps<W(!new)>(o: WordOps<W>, p: WordOps<W>) {
    && (forall x, y :: o.and(x, y) == p.and(x, y)) && (forall x, y :: o.xor(x, y) == p.xor(x, y))
    && (forall x :: o.not(x) == p.not(x)) && (forall x, n :: o.shr(x, n) == p.shr(x, n))
    && (forall x, n :: o.rotr(x, n) == p.rotr(x, n)) && (forall x, y :: o.plus(x, y) == p.plus(x, y))
    && (forall t :: o.k(t) == p.k(t)) && o.iv == p.iv && (forall x, i :: o.extract(x, i) == p.extract(x, i))
    && (forall b0, b1, b2, b3 :: o.load(b0, b1, b2, b3) == p.load(b0, b1, b2, b3))
  }

  function Sum4<W>(o: WordOps<W>, a: W, b: W, c: W, d: W): W { o.plus(o.plus(o.plus(a, b), c), d) }

  /** A sum of four words may be added up from the other end. */
  ghost predicate ReversesSums<W(!new)>(o: WordOps<W>) {
    forall a, b, c, d :: Sum4(o, a, b, c, d) == Sum4(o, d, c, b, a)
  }

  function Ch<W>(o: WordOps<W>, x: W, y: W, z: W): W { o.xor(o.and(x, y), o.and(o.not(x), z)) }

  function Maj<W>(o: WordOps<W>, x: W, y: W, z: W): W { o.xor(o.xor(o.and(x, y), o.and(x, z)), o.and(y, z)) }

  function BigSigma0<W>(o: WordOps<W>, x: W): W { o.xor(o.xor(o.rotr(x, 2), o.rotr(x, 13)), o.rotr(x, 22)) }

  function BigSigma1<W>(o: WordOps<W>, x: W): W { o.xor(o.xor(o.rotr(x, 6), o.rotr(x, 11)), o.rotr(x, 25)) }

  function SmallSigma0<W>(o: WordOps<W>, x: W): W { o.xor(o.xor(o.rotr(x, 7), o.rotr(x, 18)), o.shr(x, 3)) }

  function SmallSigma1<W>(o: WordOps<W>, x: W): W { o.xor(o.xor(o.rotr(x, 17), o.rotr(x, 19)), o.shr(x, 10)) }

  /** A hash value, or the eight working variables. */
  datatype Hash<+W> = Hash(a: W, b: W, c: W, d: W, e: W, f: W, g: W, h: W)

  /** The message schedule. */
  function Schedule<W>(o: WordOps<W>, b: Block, t: nat): W
    requires t < 64
  {
    if t < 16 then o.load(b[4*t], b[4*t+1], b[4*t+2], b[4*t+3])
    else Sum4(o, SmallSigma1(o, Schedule(o, b, t - 2)), Schedule(o, b, t - 7),
              SmallSigma0(o, Schedule(o, b, t - 15)), Schedule(o, b, t - 16))
  }

  function Round<W>(o: WordOps<W>, v: Hash<W>, k: W, w: W): Hash<W> {
    var t1 := o.plus(o.plus(o.plus(o.plus(v.h, BigSigma1(o, v.e)), Ch(o, v.e, v.f, v.g)), k), w);
    var t2 := o.plus(BigSigma0(o, v.a), Maj(o, v.a, v.b, v.c));
    Hash(o.plus(t1, t2), v.a, v.b, v.c, o.plus(v.d, t1), v.e, v.f, v.g)
  }

  /** The prepared schedule of a block. */
  function Words<W>(o: WordOps<W>, b: Block): (ws: seq<W>)
    ensures |ws| == 64
  {
    seq(64, t requires 0 <= t < 64 => Schedule(o, b, t))
  }

  /** The working variables after t rounds. */
  function Rounds<W>(o: WordOps<W>, v: Hash<W>, ws: seq<W>, t: nat): Hash<W>
    requires t <= |ws|
  {
    if t == 0 then v else Round(o, Rounds(o, v, ws, t - 1), o.k(t - 1), ws[t-1])
  }

  function AddHash<W>(o: WordOps<W>, v: Hash<W>, r: Hash<W>): Hash<W> {
    Hash(o.plus(v.a, r.a), o.plus(v.b, r.b), o.plus(v.c, r.c), o.plus(v.d, r.d),
         o.plus(v.e, r.e), o.plus(v.f, r.f), o.plus(v.g, r.g), o.plus(v.h, r.h))
  }

  function Compress<W>(o: WordOps<W>, v: Hash<W>, b: Block): Hash<W> { AddHash(o, v, Rounds(o, v, Words(o, b), 64)) }

  /** The hash value after the whole blocks of bs, each taken in by the compression function f. */
  function HashBlocks<W>(f: (Hash<W>, Block) -> Hash<W>, iv: Hash<W>, bs: seq<Byte>): Hash<W>
    requires |bs| % 64 == 0
  {
    if bs == [] then iv else f(HashBlocks(f, iv, bs[..|bs|-64]), bs[|bs|-64..])
  }

  /** A 64-bit number as eight bytes, most significant first. */
  function BigEndian64(n: nat): seq<Byte> {
    [n / 0x100_0000_0000_0000 % 256, n / 0x1_0000_0000_0000 % 256, n / 0x100_0000_0000 % 256, n / 0x1_0000_0000 % 256,
     n / 0x100_0000 % 256, n / 0x1_0000 % 256, n / 0x100 % 256, n % 256]
  }

  function Zeros(n: nat): seq<Byte> { seq(n, _ => 0) }

  /** Messages of fewer than 2^64 bits. */
  predicate Hashable(m: seq<Byte>) { 8 * |m| < 0x1_0000_0000_0000_0000 }

  /** A one bit, the least number of zero bits that leaves room, and the length in bits. */
  function Pad(m: seq<Byte>): (p: seq<Byte>)
    requires Hashable(m)
    ensures |p| % 64 == 0
  {
    PadLength(|m|);
    m + [0x80] + Zeros((55 - |m|) % 64) + BigEndian64(8 * |m|)
  }

  lemma PadLength(n: nat)
    ensures (n + 1 + (55 - n) % 64 + 8) % 64 == 0
  {
  }

  function WordBytes<W>(o: WordOps<W>, w: W): (bs: seq<Byte>)
    ensures |bs| == 4
  {
    [o.extract(w, 0), o.extract(w, 1), o.extract(w, 2), o.extract(w, 3)]
  }

  function DigestOf<W>(o: WordOps<W>, v: Hash<W>): (d: seq<Byte>)
    ensures |d| == 32
  {
    WordBytes(o, v.a) + WordBytes(o, v.b) + WordBytes(o, v.c) + WordBytes(o, v.d)
    + WordBytes(o, v.e) + WordBytes(o, v.f) + WordBytes(o, v.g) + WordBytes(o, v.h)
  }

  function Sha256<W>(o: WordOps<W>, m: seq<Byte>): (d: seq<Byte>)
    requires Hashable(m)
    ensures |d| == 32
  {
    DigestOf(o, HashBlocks((v: Hash<W>, b: Block) => Compress(o, v, b), o.iv, Pad(m)))
  }
}
