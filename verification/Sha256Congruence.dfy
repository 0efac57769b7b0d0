/** Word operations that agree everywhere give the same hash. */
module Sha256Congruence {
  import opened Prelude
  import opened Sha256Spec

  lemma {:induction false} SameSchedule<W(!new)>(o: WordOps<W>, p: WordOps<W>, b: Block, t: nat)
    requires SameOps(o, p) && t < 64
    ensures Schedule(o, b, t) == Schedule(p, b, t)
  {
    if t >= 16 {
      SameSchedule(o, p, b, t - 2);
      SameSchedule(o, p, b, t - 7);
      SameSchedule(o, p, b, t - 15);
      SameSchedule(o, p, b, t - 16);
    }
  }

  lemma SameRound<W(!new)>(o: WordOps<W>, p: WordOps<W>, v: Hash<W>, k: W, w: W)
    requires SameOps(o, p)
    ensures Round(o, v, k, w) == Round(p, v, k, w)
  {
  }

  lemma {:induction false} SameRounds<W(!new)>(o: WordOps<W>, p: WordOps<W>, v: Hash<W>, ws: seq<W>, t: nat)
    requires SameOps(o, p) && t <= |ws|
    ensures Rounds(o, v, ws, t) == Rounds(p, v, ws, t)
  {
    if t > 0 {
      SameRounds(o, p, v, ws, t - 1);
      SameRound(o, p, Rounds(o, v, ws, t - 1), o.k(t - 1), ws[t-1]);
    }
  }

  lemma SameCompress<W(!new)>(o: WordOps<W>, p: WordOps<W>, v: Hash<W>, b: Block)
    requires SameOps(o, p)
    ensures Compress(o, v, b) == Compress(p, v, b)
  {
    forall t | 0 <= t < 64 ensures Words(o, b)[t] == Words(p, b)[t] {
      SameSchedule(o, p, b, t);
    }
    assert Words(o, b) == Words(p, b);
    SameRounds(o, p, v, Words(o, b), 64);
  }

  lemma {:induction false} SameFold<W(!new)>(f: (Hash<W>, Block) -> Hash<W>, g: (Hash<W>, Block) -> Hash<W>, iv: Hash<W>, bs: seq<Byte>)
    requires |bs| % 64 == 0 && forall v, b :: f(v, b) == g(v, b)
    ensures HashBlocks(f, iv, bs) == HashBlocks(g, iv, bs)
  {
    if bs != [] {
      SameFold(f, g, iv, bs[..|bs|-64]);
    }
  }

  lemma SameSha256<W(!new)>(o: WordOps<W>, p: WordOps<W>, m: seq<Byte>)
    requires SameOps(o, p) && Hashable(m)
    ensures Sha256(o, m) == Sha256(p, m)
  {
    forall v, b ensures Compress(o, v, b) == Compress(p, v, b) {
      SameCompress(o, p, v, b);
    }
    SameFold((v: Hash<W>, b: Block) => Compress(o, v, b), (v: Hash<W>, b: Block) => Compress(p, v, b), o.iv, Pad(m));
  }
}
