/**
 * Where the constants of SHA-256 come from (FIPS 180-4, sections 4.2.2 and 5.3.3): the first 32 bits of
 * the fractional parts of the cube roots of the first 64 primes, and of the square roots of the first eight.
 */
module Sha256Constants {
  import opened BitStrings
  import opened Sha256Spec

  /** The first 64 primes. */
  function Prime(t: nat): nat
    requires t < 64
  {
    var row: seq<nat> := match t / 8
      case 0 => [2, 3, 5, 7, 11, 13, 17, 19]
      case 1 => [23, 29, 31, 37, 41, 43, 47, 53]
      case 2 => [59, 61, 67, 71, 73, 79, 83, 89]
      case 3 => [97, 101, 103, 107, 109, 113, 127, 131]
      case 4 => [137, 139, 149, 151, 157, 163, 167, 173]
      case 5 => [179, 181, 191, 193, 197, 199, 211, 223]
      case 6 => [227, 229, 233, 239, 241, 251, 257, 263]
      case _ => [269, 271, 277, 281, 283, 293, 307, 311];
    row[t % 8]
  }

  /** a is the whole part of the cube root of p, and k the first 32 bits behind the point. */
  predicate CubeRoot(p: nat, a: nat, k: nat) {
    && a * a * a <= p < (a + 1) * (a + 1) * (a + 1)
    && var x := a * 0x1_0000_0000 + k;
       x * x * x <= p * 0x1_00000000_00000000_00000000 < (x + 1) * (x + 1) * (x + 1)
  }

  /** The same for the square root. */
  predicate SquareRoot(p: nat, a: nat, k: nat) {
    && a * a <= p < (a + 1) * (a + 1)
    && var x := a * 0x1_0000_0000 + k;
       x * x <= p * 0x1_00000000_00000000 < (x + 1) * (x + 1)
  }

  ghost predicate CubeRootBits(p: nat, k: nat) { k < 0x1_0000_0000 && exists a: nat :: CubeRoot(p, a, k) }

  ghost predicate SquareRootBits(p: nat, k: nat) { k < 0x1_0000_0000 && exists a: nat :: SquareRoot(p, a, k) }

  /** Every constant of the rounds. */
  lemma RoundConstants(t: nat)
    requires t < 64
    ensures CubeRootBits(Prime(t), K(t))
  {
    match t / 4 {
      case 0 => ConstantsFrom0(t);
      case 1 => ConstantsFrom4(t);
      case 2 => ConstantsFrom8(t);
      case 3 => ConstantsFrom12(t);
      case 4 => ConstantsFrom16(t);
      case 5 => ConstantsFrom20(t);
      case 6 => ConstantsFrom24(t);
      case 7 => ConstantsFrom28(t);
      case 8 => ConstantsFrom32(t);
      case 9 => ConstantsFrom36(t);
      case 10 => ConstantsFrom40(t);
      case 11 => ConstantsFrom44(t);
      case 12 => ConstantsFrom48(t);
      case 13 => ConstantsFrom52(t);
      case 14 => ConstantsFrom56(t);
      case 15 => ConstantsFrom60(t);
    }
  }

  lemma IsCubeRoot(p: nat, a: nat, k: nat)
    requires k < 0x1_0000_0000 && CubeRoot(p, a, k)
    ensures CubeRootBits(p, k)
  {
  }

  lemma ConstantsFrom0(t: nat)
    requires 0 <= t < 4
    ensures CubeRootBits(Prime(t), K(t))
  {
    hide CubeRootBits;
    match t {
      case 0 => IsCubeRoot(2, 1, 0x428a2f98);
      case 1 => IsCubeRoot(3, 1, 0x71374491);
      case 2 => IsCubeRoot(5, 1, 0xb5c0fbcf);
      case 3 => IsCubeRoot(7, 1, 0xe9b5dba5);
    }
  }

  lemma ConstantsFrom4(t: nat)
    requires 4 <= t < 8
    ensures CubeRootBits(Prime(t), K(t))
  {
    hide CubeRootBits;
    match t {
      case 4 => IsCubeRoot(11, 2, 0x3956c25b);
      case 5 => IsCubeRoot(13, 2, 0x59f111f1);
      case 6 => IsCubeRoot(17, 2, 0x923f82a4);
      case 7 => IsCubeRoot(19, 2, 0xab1c5ed5);
    }
  }

  lemma ConstantsFrom8(t: nat)
    requires 8 <= t < 12
    ensures CubeRootBits(Prime(t), K(t))
  {
    hide CubeRootBits;
    match t {
      case 8 => IsCubeRoot(23, 2, 0xd807aa98);
      case 9 => IsCubeRoot(29, 3, 0x12835b01);
      case 10 => IsCubeRoot(31, 3, 0x243185be);
      case 11 => IsCubeRoot(37, 3, 0x550c7dc3);
    }
  }

  lemma ConstantsFrom12(t: nat)
    requires 12 <= t < 16
    ensures CubeRootBits(Prime(t), K(t))
  {
    hide CubeRootBits;
    match t {
      case 12 => IsCubeRoot(41, 3, 0x72be5d74);
      case 13 => IsCubeRoot(43, 3, 0x80deb1fe);
      case 14 => IsCubeRoot(47, 3, 0x9bdc06a7);
      case 15 => IsCubeRoot(53, 3, 0xc19bf174);
    }
  }

  lemma ConstantsFrom16(t: nat)
    requires 16 <= t < 20
    ensures CubeRootBits(Prime(t), K(t))
  {
    hide CubeRootBits;
    match t {
      case 16 => IsCubeRoot(59, 3, 0xe49b69c1);
      case 17 => IsCubeRoot(61, 3, 0xefbe4786);
      case 18 => IsCubeRoot(67, 4, 0x0fc19dc6);
      case 19 => IsCubeRoot(71, 4, 0x240ca1cc);
    }
  }

  lemma ConstantsFrom20(t: nat)
    requires 20 <= t < 24
    ensures CubeRootBits(Prime(t), K(t))
  {
    hide CubeRootBits;
    match t {
      case 20 => IsCubeRoot(73, 4, 0x2de92c6f);
      case 21 => IsCubeRoot(79, 4, 0x4a7484aa);
      case 22 => IsCubeRoot(83, 4, 0x5cb0a9dc);
      case 23 => IsCubeRoot(89, 4, 0x76f988da);
    }
  }

  lemma ConstantsFrom24(t: nat)
    requires 24 <= t < 28
    ensures CubeRootBits(Prime(t), K(t))
  {
    hide CubeRootBits;
    match t {
      case 24 => IsCubeRoot(97, 4, 0x983e5152);
      case 25 => IsCubeRoot(101, 4, 0xa831c66d);
      case 26 => IsCubeRoot(103, 4, 0xb00327c8);
      case 27 => IsCubeRoot(107, 4, 0xbf597fc7);
    }
  }

  lemma ConstantsFrom28(t: nat)
    requires 28 <= t < 32
    ensures CubeRootBits(Prime(t), K(t))
  {
    hide CubeRootBits;
    match t {
      case 28 => IsCubeRoot(109, 4, 0xc6e00bf3);
      case 29 => IsCubeRoot(113, 4, 0xd5a79147);
      case 30 => IsCubeRoot(127, 5, 0x06ca6351);
      case 31 => IsCubeRoot(131, 5, 0x14292967);
    }
  }

  lemma ConstantsFrom32(t: nat)
    requires 32 <= t < 36
    ensures CubeRootBits(Prime(t), K(t))
  {
    hide CubeRootBits;
    match t {
      case 32 => IsCubeRoot(137, 5, 0x27b70a85);
      case 33 => IsCubeRoot(139, 5, 0x2e1b2138);
      case 34 => IsCubeRoot(149, 5, 0x4d2c6dfc);
      case 35 => IsCubeRoot(151, 5, 0x53380d13);
    }
  }

  lemma ConstantsFrom36(t: nat)
    requires 36 <= t < 40
    ensures CubeRootBits(Prime(t), K(t))
  {
    hide CubeRootBits;
    match t {
      case 36 => IsCubeRoot(157, 5, 0x650a7354);
      case 37 => IsCubeRoot(163, 5, 0x766a0abb);
      case 38 => IsCubeRoot(167, 5, 0x81c2c92e);
      case 39 => IsCubeRoot(173, 5, 0x92722c85);
    }
  }

  lemma ConstantsFrom40(t: nat)
    requires 40 <= t < 44
    ensures CubeRootBits(Prime(t), K(t))
  {
    hide CubeRootBits;
    match t {
      case 40 => IsCubeRoot(179, 5, 0xa2bfe8a1);
      case 41 => IsCubeRoot(181, 5, 0xa81a664b);
      case 42 => IsCubeRoot(191, 5, 0xc24b8b70);
      case 43 => IsCubeRoot(193, 5, 0xc76c51a3);
    }
  }

  lemma ConstantsFrom44(t: nat)
    requires 44 <= t < 48
    ensures CubeRootBits(Prime(t), K(t))
  {
    hide CubeRootBits;
    match t {
      case 44 => IsCubeRoot(197, 5, 0xd192e819);
      case 45 => IsCubeRoot(199, 5, 0xd6990624);
      case 46 => IsCubeRoot(211, 5, 0xf40e3585);
      case 47 => IsCubeRoot(223, 6, 0x106aa070);
    }
  }

  lemma ConstantsFrom48(t: nat)
    requires 48 <= t < 52
    ensures CubeRootBits(Prime(t), K(t))
  {
    hide CubeRootBits;
    match t {
      case 48 => IsCubeRoot(227, 6, 0x19a4c116);
      case 49 => IsCubeRoot(229, 6, 0x1e376c08);
      case 50 => IsCubeRoot(233, 6, 0x2748774c);
      case 51 => IsCubeRoot(239, 6, 0x34b0bcb5);
    }
  }

  lemma ConstantsFrom52(t: nat)
    requires 52 <= t < 56
    ensures CubeRootBits(Prime(t), K(t))
  {
    hide CubeRootBits;
    match t {
      case 52 => IsCubeRoot(241, 6, 0x391c0cb3);
      case 53 => IsCubeRoot(251, 6, 0x4ed8aa4a);
      case 54 => IsCubeRoot(257, 6, 0x5b9cca4f);
      case 55 => IsCubeRoot(263, 6, 0x682e6ff3);
    }
  }

  lemma ConstantsFrom56(t: nat)
    requires 56 <= t < 60
    ensures CubeRootBits(Prime(t), K(t))
  {
    hide CubeRootBits;
    match t {
      case 56 => IsCubeRoot(269, 6, 0x748f82ee);
      case 57 => IsCubeRoot(271, 6, 0x78a5636f);
      case 58 => IsCubeRoot(277, 6, 0x84c87814);
      case 59 => IsCubeRoot(281, 6, 0x8cc70208);
    }
  }

  lemma ConstantsFrom60(t: nat)
    requires 60 <= t < 64
    ensures CubeRootBits(Prime(t), K(t))
  {
    hide CubeRootBits;
    match t {
      case 60 => IsCubeRoot(283, 6, 0x90befffa);
      case 61 => IsCubeRoot(293, 6, 0xa4506ceb);
      case 62 => IsCubeRoot(307, 6, 0xbef9a3f7);
      case 63 => IsCubeRoot(311, 6, 0xc67178f2);
    }
  }

  lemma IsSquareRoot(p: nat, a: nat, k: nat)
    requires k < 0x1_0000_0000 && SquareRoot(p, a, k)
    ensures SquareRootBits(p, k)
  {
  }

  function Nth(h: Hash<Word>, t: nat): Word
    requires t < 8
  {
    match t
    case 0 => h.a
    case 1 => h.b
    case 2 => h.c
    case 3 => h.d
    case 4 => h.e
    case 5 => h.f
    case 6 => h.g
    case _ => h.h
  }

  /** The eight words of the initial hash value. */
  lemma InitialHash(t: nat)
    requires t < 8
    ensures exists k :: SquareRootBits(Prime(t), k) && Nth(IV(), t) == BitsOf(k, 32)
  {
    hide SquareRootBits, BitsOf;
    var k: nat := 0;
    match t {
      case 0 =>
        k := 0x6a09e667;
        IsSquareRoot(2, 1, k);
      case 1 =>
        k := 0xbb67ae85;
        IsSquareRoot(3, 1, k);
      case 2 =>
        k := 0x3c6ef372;
        IsSquareRoot(5, 2, k);
      case 3 =>
        k := 0xa54ff53a;
        IsSquareRoot(7, 2, k);
      case 4 =>
        k := 0x510e527f;
        IsSquareRoot(11, 3, k);
      case 5 =>
        k := 0x9b05688c;
        IsSquareRoot(13, 3, k);
      case 6 =>
        k := 0x1f83d9ab;
        IsSquareRoot(17, 4, k);
      case 7 =>
        k := 0x5be0cd19;
        IsSquareRoot(19, 4, k);
    }
    assert SquareRootBits(Prime(t), k) && Nth(IV(), t) == BitsOf(k, 32);
  }
}
