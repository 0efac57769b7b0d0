/**
 * Bit strings, most significant bit first, as FIPS 180-4 section 2 describes words: shifts and
 * rotations move bits, and only sums pass through the numbers the strings stand for.
 */
module BitStrings {
  import opened Prelude
  import opened Sha256Spec

  type Word = w: seq<bool> | |w| == 32 witness seq(32, _ => false)

  const TWO32 := 0x1_0000_0000

  function Pow2(n: nat): nat { if n == 0 then 1 else 2 * Pow2(n - 1) }

  /** The n low-order bits of a number. */
  function BitsOf(x: nat, n: nat): (w: seq<bool>)
    ensures |w| == n
  {
    if n == 0 then [] else BitsOf(x / 2, n - 1) + [x % 2 == 1]
  }

  function Value(w: seq<bool>): (x: nat)
    ensures x < Pow2(|w|)
  {
    if w == [] then 0 else 2 * Value(w[..|w|-1]) + (if w[|w|-1] then 1 else 0)
  }

  function Off(n: nat): (w: seq<bool>)
    ensures |w| == n
  {
    seq(n, _ => false)
  }

  function And(x: Word, y: Word): Word { seq(32, i requires 0 <= i < 32 => x[i] && y[i]) }

  function Or(x: Word, y: Word): Word { seq(32, i requires 0 <= i < 32 => x[i] || y[i]) }

  function Xor(x: Word, y: Word): Word { seq(32, i requires 0 <= i < 32 => x[i] != y[i]) }

  function Not(x: Word): Word { seq(32, i requires 0 <= i < 32 => !x[i]) }

  function Shr(x: Word, n: nat): Word
    requires n <= 32
  {
    Off(n) + x[..32-n]
  }

  function Shl(x: Word, n: nat): Word
    requires n <= 32
  {
    x[n..] + Off(n)
  }

  /** The circular right shift: the n low-order bits move to the front. */
  function Rotr(x: Word, n: nat): Word
    requires n <= 32
  {
    x[32-n..] + x[..32-n]
  }

  /** Addition modulo 2^32. */
  function Add(x: Word, y: Word): Word { BitsOf(Wrap(Value(x) + Value(y)), 32) }

  function Wrap(n: nat): nat { n % TWO32 }

  lemma {:induction false} ValueOfBits(x: nat, n: nat)
    requires x < Pow2(n)
    ensures Value(BitsOf(x, n)) == x
  {
    if n > 0 { ValueOfBits(x / 2, n - 1); }
  }

  lemma AddValue(x: Word, y: Word)
    ensures Value(Add(x, y)) == Wrap(Value(x) + Value(y))
  {
    assert Pow2(8) == 256 && Pow2(16) == 0x1_0000 && Pow2(24) == 0x100_0000;
    ValueOfBits(Wrap(Value(x) + Value(y)), 32);
  }

  lemma SumOfFour(a: Word, b: Word, c: Word, d: Word)
    ensures Add(Add(Add(a, b), c), d) == BitsOf(Wrap(Value(a) + Value(b) + Value(c) + Value(d)), 32)
  {
    hide Value, BitsOf, Pow2, Add, Wrap;
    AddValue(a, b);
    AddValue(Add(a, b), c);
    SumsWrap(Value(a), Value(b), Value(c), Value(d));
    ThirdSum(Add(Add(a, b), c), d);
  }

  lemma ThirdSum(s: Word, d: Word)
    ensures Add(s, d) == BitsOf(Wrap(Value(s) + Value(d)), 32)
  {
  }

  lemma AddReverses(a: Word, b: Word, c: Word, d: Word)
    ensures Add(Add(Add(a, b), c), d) == Add(Add(Add(d, c), b), a)
  {
    hide Value, BitsOf, Pow2, Add, Wrap;
    SumOfFour(a, b, c, d);
    SumOfFour(d, c, b, a);
  }

  lemma SumsWrap(a: nat, b: nat, c: nat, d: nat)
    ensures Wrap(Wrap(Wrap(a + b) + c) + d) == Wrap(a + b + c + d)
  {
  }

  /** Four bytes, most significant first. */
  function BigEndianWord(b0: Byte, b1: Byte, b2: Byte, b3: Byte): Word {
    BitsOf(b0, 8) + BitsOf(b1, 8) + BitsOf(b2, 8) + BitsOf(b3, 8)
  }

  /** Byte i of a word, most significant first. */
  function ByteOf(w: Word, i: nat): Byte
    requires i < 4
  {
    assert Pow2(8) == 256;
    Value(w[8*i..8*i+8])
  }

  // ---------------------------------------------------------------- the tracer's expressions

  /** Rotation by two shifts whose results are joined. */
  function TracerRotr(value: Word, bits: nat): (r: Word)
    requires bits <= 32
    ensures r == Rotr(value, bits)
  {
    Or(Shr(value, bits), Shl(value, 32 - bits))
  }

  /** A byte promoted to a 32-bit integer. */
  function Promote(b: Byte): Word { Off(24) + BitsOf(b, 8) }

  /** Four bytes, each shifted to its place, joined. */
  function TracerLoad(b0: Byte, b1: Byte, b2: Byte, b3: Byte): (r: Word)
    ensures r == BigEndianWord(b0, b1, b2, b3)
  {
    Or(Or(Or(Shl(Promote(b0), 24), Shl(Promote(b1), 16)), Shl(Promote(b2), 8)), Promote(b3))
  }

  lemma {:induction false} LeadingZeros(n: nat, w: seq<bool>)
    ensures Value(Off(n) + w) == Value(w)
  {
    var s := Off(n) + w;
    if w != [] {
      LeadingZeros(n, w[..|w|-1]);
      assert s[..|s|-1] == Off(n) + w[..|w|-1];
    } else if n > 0 {
      LeadingZeros(n - 1, []);
      assert s[..|s|-1] == Off(n - 1) + [];
    }
  }

  /** Byte i, moved to the right end by a shift and cut out with a mask. */
  function TracerExtract(w: Word, i: nat): (b: Byte)
    requires i < 4
    ensures b == ByteOf(w, i)
  {
    var mask: Word := Off(24) + seq(8, _ => true);
    var low := And(Shr(w, 24 - i * 8), mask);
    assert low == Off(24) + w[8*i..8*i+8];
    LeadingZeros(24, w[8*i..8*i+8]);
    Value(low)
  }

  // ---------------------------------------------------------------- two sets of operations

  function HashOf(ns: seq<nat>): Hash<Word>
    requires |ns| == 8
  {
    Hash(BitsOf(ns[0], 32), BitsOf(ns[1], 32), BitsOf(ns[2], 32), BitsOf(ns[3], 32),
         BitsOf(ns[4], 32), BitsOf(ns[5], 32), BitsOf(ns[6], 32), BitsOf(ns[7], 32))
  }

  /** The initial hash value of section 5.3.3. */
  function IV(): Hash<Word> {
    HashOf([0x6a09e667, 0xbb67ae85, 0x3c6ef372, 0xa54ff53a, 0x510e527f, 0x9b05688c, 0x1f83d9ab, 0x5be0cd19])
  }

  /** The constants of section 4.2.2, in rows of eight. */
  function K(t: nat): nat
    requires t < 64
  {
    var row: seq<nat> := match t / 8
      case 0 => [0x428a2f98, 0x71374491, 0xb5c0fbcf, 0xe9b5dba5, 0x3956c25b, 0x59f111f1, 0x923f82a4, 0xab1c5ed5]
      case 1 => [0xd807aa98, 0x12835b01, 0x243185be, 0x550c7dc3, 0x72be5d74, 0x80deb1fe, 0x9bdc06a7, 0xc19bf174]
      case 2 => [0xe49b69c1, 0xefbe4786, 0x0fc19dc6, 0x240ca1cc, 0x2de92c6f, 0x4a7484aa, 0x5cb0a9dc, 0x76f988da]
      case 3 => [0x983e5152, 0xa831c66d, 0xb00327c8, 0xbf597fc7, 0xc6e00bf3, 0xd5a79147, 0x06ca6351, 0x14292967]
      case 4 => [0x27b70a85, 0x2e1b2138, 0x4d2c6dfc, 0x53380d13, 0x650a7354, 0x766a0abb, 0x81c2c92e, 0x92722c85]
      case 5 => [0xa2bfe8a1, 0xa81a664b, 0xc24b8b70, 0xc76c51a3, 0xd192e819, 0xd6990624, 0xf40e3585, 0x106aa070]
      case 6 => [0x19a4c116, 0x1e376c08, 0x2748774c, 0x34b0bcb5, 0x391c0cb3, 0x4ed8aa4a, 0x5b9cca4f, 0x682e6ff3]
      case _ => [0x748f82ee, 0x78a5636f, 0x84c87814, 0x8cc70208, 0x90befffa, 0xa4506ceb, 0xbef9a3f7, 0xc67178f2];
    row[t % 8]
  }

  function Constant(t: nat): Word { if t < 64 then BitsOf(K(t), 32) else Off(32) }

  function Shift(x: Word, n: nat): Word { if n <= 32 then Shr(x, n) else Off(32) }

  function Rotate(x: Word, n: nat): Word { if n <= 32 then Rotr(x, n) else x }

  function RotateAsTracer(x: Word, n: nat): Word { if n <= 32 then TracerRotr(x, n) else x }

  function Extract(w: Word, i: nat): Byte { if i < 4 then ByteOf(w, i) else 0 }

  function ExtractAsTracer(w: Word, i: nat): Byte { if i < 4 then TracerExtract(w, i) else 0 }

  /** The operations as the standard describes them. */
  function Standard(): WordOps<Word> {
    WordOps<Word>.WordOps(And, Xor, Not, Shift, Rotate, Add, BigEndianWord, Extract, Constant, IV())
  }

  /** The operations as the tracer computes them. */
  function Tracer(): WordOps<Word> {
    WordOps<Word>.WordOps(And, Xor, Not, Shift, RotateAsTracer, Add, TracerLoad, ExtractAsTracer, Constant, IV())
  }

  lemma TracerIsStandard()
    ensures SameOps(Tracer(), Standard()) && ReversesSums(Tracer())
  {
    hide Value, BitsOf, Pow2, Add, Wrap;
    forall a, b, c, d {
      AddReverses(a, b, c, d);
    }
  }
}
