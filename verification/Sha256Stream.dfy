/**
 * The streaming hash of the guest tracer (agent/linux/trace.c): a 64-byte buffer, the number of
 * bytes in it, the number of bits already hashed, and the hash value, all updated in place.
 */
module Sha256Stream {
  import opened Prelude
  import opened Sha256Spec
  import opened Sha256Congruence
  import BitStrings

  const TWO64 := 0x1_0000_0000_0000_0000

  /** uint64 addition. */
  function Add64(x: nat, y: nat): nat { if x + y < TWO64 then x + y else x + y - TWO64 }

  /** The bit counter after some blocks. */
  function BitsHashed(blocks: nat): nat { if blocks == 0 then 0 else Add64(BitsHashed(blocks - 1), 512) }

  /** The counter is the number of bits modulo 2^64, however many blocks were hashed. */
  lemma {:induction false} BitsHashedIs(blocks: nat)
    ensures BitsHashed(blocks) == 512 * blocks % TWO64
  {
    if blocks > 0 {
      BitsHashedIs(blocks - 1);
      NextCount(512 * (blocks - 1));
    }
  }

  lemma NextCount(x: nat)
    ensures Add64(x % TWO64, 512) == (x + 512) % TWO64
  {
  }

  lemma ScheduleStart<W>(o: WordOps<W>, block: Block, i: nat)
    requires i < 16
    ensures Schedule(o, block, i) == o.load(block[4*i], block[4*i+1], block[4*i+2], block[4*i+3])
  {
  }

  /** The tracer adds the four words up from the other end. */
  lemma ScheduleStep<W(!new)>(o: WordOps<W>, block: Block, i: nat)
    requires ReversesSums(o) && 16 <= i < 64
    ensures Schedule(o, block, i) == o.plus(o.plus(o.plus(Schedule(o, block, i - 16), SmallSigma0(o, Schedule(o, block, i - 15))),
                                                   Schedule(o, block, i - 7)), SmallSigma1(o, Schedule(o, block, i - 2)))
  {
    hide SmallSigma0, SmallSigma1;
    var a, b := Schedule(o, block, i - 16), SmallSigma0(o, Schedule(o, block, i - 15));
    var c, d := Schedule(o, block, i - 7), SmallSigma1(o, Schedule(o, block, i - 2));
    assert Sum4(o, a, b, c, d) == Sum4(o, d, c, b, a);
  }

  class Context<W(0, !new)> {
    const o: WordOps<W>
    const data: array<Byte>
    var datalen: nat
    var bitlen: nat   // a uint64: sums wrap at 2^64
    var state: Hash<W>

    ghost const f: (Hash<W>, Block) -> Hash<W>   // the compression function
    ghost var whole: seq<Byte>                   // the bytes taken in so far: those hashed,
    ghost var rest: seq<Byte>                    // and those still in the buffer
    ghost var blocks: nat                        // how many blocks were hashed

    ghost predicate Ready() {
      && data.Length == 64 && ReversesSums(o)
      && forall v: Hash<W>, b: Block {:trigger Compress(o, v, b)} :: f(v, b) == Compress(o, v, b)
    }

    ghost predicate Valid()
      reads this, data
    {
      && Ready()
      && |whole| == 64 * blocks && datalen == |rest| < 64
      && bitlen == BitsHashed(blocks)
      && data[..datalen] == rest
      && state == HashBlocks(f, o.iv, whole)
    }

    constructor (o: WordOps<W>)
      requires ReversesSums(o)
      ensures this.o == o && Valid() && fresh(data) && whole + rest == []
    {
      this.o := o;
      f := (v: Hash<W>, b: Block) => Compress(o, v, b);
      data := new Byte[64];
      datalen, bitlen := 0, 0;
      state := o.iv;
      whole, rest, blocks := [], [], 0;
    }

    method Transform()
      requires Ready()
      modifies this`state
      ensures state == f(old(state), data[..])
    {
      var m := Expand();
      var v := state;
      ghost var start, ws := state, m[..];
      for i := 0 to 64
        invariant state == start && m[..] == ws && v == Rounds(o, start, ws, i)
      {
        v := TracerRound(o, v, o.k(i), m[i]);
      }
      state := AddHash(o, state, v);
      assert state == Compress(o, start, data[..]);
    }

    /** The message schedule of the buffered block. */
    method Expand() returns (m: array<W>)
      requires Ready()
      ensures fresh(m) && m.Length == 64 && m[..] == Words(o, data[..])
    {
      hide ReversesSums, Sum4, Compress, Schedule;
      ghost var block: Block := data[..];
      m := new W[64];
      var j := 0;
      for i := 0 to 16
        invariant j == 4 * i
        invariant forall t :: 0 <= t < i ==> m[t] == Schedule(o, block, t)
      {
        m[i] := o.load(data[j], data[j+1], data[j+2], data[j+3]);
        ScheduleStart(o, block, i);
        j := j + 4;
      }
      for i := 16 to 64
        invariant forall t :: 0 <= t < i ==> m[t] == Schedule(o, block, t)
      {
        var s0 := o.xor(o.xor(o.rotr(m[i-15], 7), o.rotr(m[i-15], 18)), o.shr(m[i-15], 3));
        var s1 := o.xor(o.xor(o.rotr(m[i-2], 17), o.rotr(m[i-2], 19)), o.shr(m[i-2], 10));
        m[i] := o.plus(o.plus(o.plus(m[i-16], s0), m[i-7]), s1);
        ScheduleStep(o, block, i);
      }
    }

    method Update(bytes: seq<Byte>)
      requires Valid()
      modifies this, data
      ensures Valid() && whole + rest == old(whole + rest) + bytes
    {
      assert bytes[..0] == [];
      for i := 0 to |bytes|
        invariant Valid() && whole + rest == old(whole + rest) + bytes[..i]
      {
        TakeByte(bytes[i]);
        assert bytes[..i] + [bytes[i]] == bytes[..i+1];
      }
      assert bytes[..|bytes|] == bytes;
    }

    /** One turn of the update loop. */
    method TakeByte(x: Byte)
      requires Valid()
      modifies this, data
      ensures Valid() && whole + rest == old(whole + rest) + [x]
    {
      StoreByte(x);
      assert whole + rest == old(whole + rest) + [x];
      if datalen == 64 {
        Flush();
      }
    }

    method StoreByte(x: Byte)
      requires Ready() && datalen == |rest| < 64 && data[..datalen] == rest
      modifies this`datalen, this`rest, data
      ensures rest == old(rest) + [x] && datalen == |rest| && data[..datalen] == rest
    {
      data[datalen] := x;
      datalen := datalen + 1;
      rest := rest + [x];
    }

    /** A full buffer is hashed. */
    method Flush()
      requires Ready() && datalen == |rest| == 64 && data[..datalen] == rest
      requires |whole| == 64 * blocks && bitlen == BitsHashed(blocks) && state == HashBlocks(f, o.iv, whole)
      modifies this
      ensures Valid() && whole == old(whole + rest) && rest == []
    {
      hide HashBlocks, Compress, ReversesSums;
      assert data[..] == rest;
      HashAppend(f, o.iv, whole, rest);
      Transform();
      bitlen := Add64(bitlen, 512);
      datalen := 0;
      whole, rest, blocks := whole + rest, [], blocks + 1;
    }

    method Final(hash: array<Byte>)
      requires Valid() && Hashable(whole + rest)
      requires hash.Length == 32 && hash != data
      modifies this, data, hash
      ensures hash[..] == Sha256(o, old(whole + rest))
    {
      ghost var m := whole + rest;
      BitsHashedIs(blocks);
      if datalen < 56 {
        FinishShort(m);
      } else {
        FinishLong(m);
      }
      Digest(hash);
      SameFold(f, (v: Hash<W>, b: Block) => Compress(o, v, b), o.iv, Pad(m));
    }

    method FinishShort(ghost m: seq<Byte>)
      requires Valid() && m == whole + rest && Hashable(m) && bitlen == 8 * |whole| && datalen < 56
      modifies this`bitlen, this`state, data
      ensures state == HashBlocks(f, o.iv, Pad(m))
    {
      hide Pad, HashBlocks, Zeros, BigEndian64;
      PadBuffer(56);
      ShortPad(m, whole, rest);
      FinalBlock(m, whole);
    }

    method FinishLong(ghost m: seq<Byte>)
      requires Valid() && m == whole + rest && Hashable(m) && bitlen == 8 * |whole| && 56 <= datalen
      modifies this`bitlen, this`state, data
      ensures state == HashBlocks(f, o.iv, Pad(m))
    {
      hide Pad, Zeros, BigEndian64;
      ghost var first := FlushPadding();
      LongPad(m, whole, rest);
      FinalBlock(m, whole + first);
    }

    /** Marker and zeros fill the block, which is hashed; the buffer is cleared for the length. */
    method FlushPadding() returns (ghost first: Block)
      requires Valid()
      modifies this`state, data
      ensures first == rest + [0x80] + Zeros(63 - |rest|) && data[..56] == Zeros(56)
      ensures state == HashBlocks(f, o.iv, whole + first)
    {
      hide HashBlocks, Compress, BitsHashed, ReversesSums, Zeros;
      PadBuffer(64);
      first := data[..];
      HashAppend(f, o.iv, whole, first);
      Transform();
      Clear56();
    }

    method Clear56()
      requires Ready()
      modifies data
      ensures data[..56] == Zeros(56)
    {
      for k := 0 to 56
        invariant data[..k] == Zeros(k)
      {
        data[k] := 0;
      }
    }

    /** The length goes into the last eight bytes and the last block is hashed. */
    method FinalBlock(ghost m: seq<Byte>, ghost before: seq<Byte>)
      requires Ready() && Hashable(m) && |before| % 64 == 0 && state == HashBlocks(f, o.iv, before)
      requires Add64(bitlen, datalen * 8) == 8 * |m|
      modifies this`bitlen, this`state, data
      ensures state == HashBlocks(f, o.iv, before + (old(data[..56]) + BigEndian64(8 * |m|)))
    {
      hide HashBlocks, Compress, ReversesSums, BigEndian64;
      bitlen := Add64(bitlen, datalen * 8);
      StoreLength();
      HashAppend(f, o.iv, before, data[..]);
      Transform();
    }

    /** The marker byte and the zeros that fill the buffer up to a position. */
    method PadBuffer(end: nat)
      requires Ready() && datalen == |rest| < end <= 64 && data[..datalen] == rest
      modifies data
      ensures data[..end] == rest + [0x80] + Zeros(end - datalen - 1)
    {
      var i := datalen;
      data[i] := 0x80;
      i := i + 1;
      while i < end
        invariant datalen < i <= end
        invariant data[..i] == rest + [0x80] + Zeros(i - datalen - 1)
      {
        data[i] := 0;
        i := i + 1;
      }
    }

    method StoreLength()
      requires data.Length == 64 && bitlen < TWO64
      modifies data
      ensures data[..] == old(data[..56]) + BigEndian64(bitlen)
    {
      data[63] := bitlen % 256;
      data[62] := bitlen / 0x100 % 256;
      data[61] := bitlen / 0x1_0000 % 256;
      data[60] := bitlen / 0x100_0000 % 256;
      data[59] := bitlen / 0x1_0000_0000 % 256;
      data[58] := bitlen / 0x100_0000_0000 % 256;
      data[57] := bitlen / 0x1_0000_0000_0000 % 256;
      data[56] := bitlen / 0x100_0000_0000_0000 % 256;
    }

    method Digest(hash: array<Byte>)
      requires hash.Length == 32 && hash != data
      modifies hash
      ensures hash[..] == DigestOf(o, state)
    {
      for i := 0 to 4
        invariant forall k :: 0 <= k < i ==> ColumnDone(o, state, hash[..], k)
      {
        ghost var before := hash[..];
        PutColumn(hash, i);
        forall k | 0 <= k < i ensures ColumnDone(o, state, hash[..], k) {
          assert ColumnDone(o, state, before, k);
        }
      }
      assert ColumnDone(o, state, hash[..], 0) && ColumnDone(o, state, hash[..], 1);
      assert ColumnDone(o, state, hash[..], 2) && ColumnDone(o, state, hash[..], 3);
      ColumnsAreDigest(o, state, hash[..]);
    }

    /** One turn of the output loop. */
    method PutColumn(hash: array<Byte>, i: nat)
      requires hash.Length == 32 && hash != data && i < 4
      modifies hash
      ensures ColumnDone(o, state, hash[..], i)
      ensures forall p :: 0 <= p < 32 && p % 4 != i ==> hash[p] == old(hash[p])
    {
      var v := state;
      hash[i] := o.extract(v.a, i);
      hash[i+4] := o.extract(v.b, i);
      hash[i+8] := o.extract(v.c, i);
      hash[i+12] := o.extract(v.d, i);
      hash[i+16] := o.extract(v.e, i);
      hash[i+20] := o.extract(v.f, i);
      hash[i+24] := o.extract(v.g, i);
      hash[i+28] := o.extract(v.h, i);
    }
  }

  /** Byte i of each word is in place. */
  ghost predicate ColumnDone<W>(o: WordOps<W>, v: Hash<W>, s: seq<Byte>, i: nat)
    requires |s| == 32 && i < 4
  {
    && s[i] == o.extract(v.a, i) && s[i+4] == o.extract(v.b, i) && s[i+8] == o.extract(v.c, i) && s[i+12] == o.extract(v.d, i)
    && s[i+16] == o.extract(v.e, i) && s[i+20] == o.extract(v.f, i) && s[i+24] == o.extract(v.g, i) && s[i+28] == o.extract(v.h, i)
  }

  lemma ColumnsAreDigest<W>(o: WordOps<W>, v: Hash<W>, s: seq<Byte>)
    requires |s| == 32
    requires ColumnDone(o, v, s, 0) && ColumnDone(o, v, s, 1) && ColumnDone(o, v, s, 2) && ColumnDone(o, v, s, 3)
    ensures s == DigestOf(o, v)
  {
    assert s[0..4] == WordBytes(o, v.a) && s[4..8] == WordBytes(o, v.b) && s[8..12] == WordBytes(o, v.c);
    assert s[12..16] == WordBytes(o, v.d) && s[16..20] == WordBytes(o, v.e) && s[20..24] == WordBytes(o, v.f);
    assert s[24..28] == WordBytes(o, v.g) && s[28..32] == WordBytes(o, v.h);
    assert s == s[0..4] + s[4..8] + s[8..12] + s[12..16] + s[16..20] + s[20..24] + s[24..28] + s[28..32];
  }

  /** The body of the tracer's round loop. */
  method TracerRound<W>(o: WordOps<W>, v: Hash<W>, k: W, w: W) returns (r: Hash<W>)
    ensures r == Round(o, v, k, w)
  {
    var S1 := o.xor(o.xor(o.rotr(v.e, 6), o.rotr(v.e, 11)), o.rotr(v.e, 25));
    var ch := o.xor(o.and(v.e, v.f), o.and(o.not(v.e), v.g));
    var temp1 := o.plus(o.plus(o.plus(o.plus(v.h, S1), ch), k), w);
    var S0 := o.xor(o.xor(o.rotr(v.a, 2), o.rotr(v.a, 13)), o.rotr(v.a, 22));
    var maj := o.xor(o.xor(o.and(v.a, v.b), o.and(v.a, v.c)), o.and(v.b, v.c));
    var temp2 := o.plus(S0, maj);
    r := Hash(o.plus(temp1, temp2), v.a, v.b, v.c, o.plus(v.d, temp1), v.e, v.f, v.g);
  }

  lemma HashAppend<W>(f: (Hash<W>, Block) -> Hash<W>, iv: Hash<W>, bs: seq<Byte>, block: Block)
    requires |bs| % 64 == 0
    ensures HashBlocks(f, iv, bs + block) == f(HashBlocks(f, iv, bs), block)
  {
    assert (bs + block)[..|bs + block|-64] == bs && (bs + block)[|bs + block|-64..] == block;
  }

  /** Up to 55 bytes left: marker, zeros and length fit in one block. */
  lemma ShortPad(m: seq<Byte>, whole: seq<Byte>, rest: seq<Byte>)
    requires Hashable(m) && m == whole + rest && |whole| % 64 == 0 && |rest| < 56
    ensures Pad(m) == whole + (rest + [0x80] + Zeros(55 - |rest|) + BigEndian64(8 * |m|))
  {
    hide Zeros, BigEndian64;
    assert (55 - |m|) % 64 == 55 - |rest|;
    assert whole + rest + [0x80] + Zeros(55 - |rest|) + BigEndian64(8 * |m|)
        == whole + (rest + [0x80] + Zeros(55 - |rest|) + BigEndian64(8 * |m|));
  }

  /** From 56 to 63 bytes left: the length goes into a second block. */
  lemma LongPad(m: seq<Byte>, whole: seq<Byte>, rest: seq<Byte>)
    requires Hashable(m) && m == whole + rest && |whole| % 64 == 0 && 56 <= |rest| < 64
    ensures Pad(m) == whole + (rest + [0x80] + Zeros(63 - |rest|)) + (Zeros(56) + BigEndian64(8 * |m|))
  {
    assert (55 - |m|) % 64 == 119 - |rest|;
    assert Zeros(119 - |rest|) == Zeros(63 - |rest|) + Zeros(56);
  }

  method HashWith<W(0, !new)>(o: WordOps<W>, pieces: seq<seq<Byte>>) returns (hash: array<Byte>)
    requires ReversesSums(o) && Hashable(Concat(pieces))
    ensures hash.Length == 32 && hash[..] == Sha256(o, Concat(pieces))
  {
    var ctx := new Context(o);
    hash := new Byte[32];
    for i := 0 to |pieces|
      invariant ctx.Valid() && fresh(ctx) && fresh(ctx.data) && fresh(hash) && hash != ctx.data && ctx.o == o
      invariant ctx.whole + ctx.rest == Concat(pieces[..i])
    {
      ctx.Update(pieces[i]);
      assert pieces[..i+1][..i] == pieces[..i];
    }
    assert pieces[..|pieces|] == pieces;
    ctx.Final(hash);
  }

  /**
   * The tracer's digest: for every way of cutting a message into updates, the C code gives the
   * standard's hash of the concatenation.
   */
  method HashPieces(pieces: seq<seq<Byte>>) returns (hash: array<Byte>)
    requires Hashable(Concat(pieces))
    ensures hash.Length == 32 && hash[..] == Sha256(BitStrings.Standard(), Concat(pieces))
  {
    BitStrings.TracerIsStandard();
    SameSha256(BitStrings.Tracer(), BitStrings.Standard(), Concat(pieces));
    hash := HashWith(BitStrings.Tracer(), pieces);
  }

  function Concat(pieces: seq<seq<Byte>>): seq<Byte> {
    if pieces == [] then [] else Concat(pieces[..|pieces|-1]) + pieces[|pieces|-1]
  }
}
