/** What the word operations, functions and constants of SHA-256 compute, said on bits and by the
    number-theoretic definitions of FIPS 180-4. */
module Sha256Laws {
  import opened Sha256

  /** The bits of a word, most significant first. */
  function B(x: Word): (r: seq<bool>)
    ensures |r| == 32
  {
    Bits(x, 32)
  }

  // Section 2.2.2: the word operations, bit by bit.

  lemma {:induction false} AndBitsAt(x: nat, y: nat, width: nat, k: nat)
    requires k < width
    ensures Bits(AndBits(x, y, width), width)[k] == (Bits(x, width)[k] && Bits(y, width)[k])
  {
    if k < width - 1 { AndBitsAt(x / 2, y / 2, width - 1, k); }
  }

  lemma {:induction false} XorBitsAt(x: nat, y: nat, width: nat, k: nat)
    requires k < width
    ensures Bits(XorBits(x, y, width), width)[k] == (Bits(x, width)[k] != Bits(y, width)[k])
  {
    if k < width - 1 { XorBitsAt(x / 2, y / 2, width - 1, k); }
  }

  lemma {:induction false} ComplementAt(x: nat, width: nat, k: nat)
    requires k < width && x < Pow2(width)
    ensures Bits(Pow2(width) - 1 - x, width)[k] == !Bits(x, width)[k]
  {
    assert (Pow2(width) - 1 - x) / 2 == Pow2(width - 1) - 1 - x / 2;
    if k < width - 1 { ComplementAt(x / 2, width - 1, k); }
  }

  lemma AndAt(x: Word, y: Word, k: nat)
    requires k < 32
    ensures B(And(x, y))[k] == (B(x)[k] && B(y)[k])
  {
    AndBitsAt(x, y, 32, k);
  }

  lemma XorAt(x: Word, y: Word, k: nat)
    requires k < 32
    ensures B(Xor(x, y))[k] == (B(x)[k] != B(y)[k])
  {
    XorBitsAt(x, y, 32, k);
  }

  lemma NotAt(x: Word, k: nat)
    requires k < 32
    ensures B(Not(x))[k] == !B(x)[k]
  {
    WordWidth();
    ComplementAt(x, 32, k);
  }

  /** A shift to the right drops the last bits and puts zeros in front. */
  lemma {:induction false} ShiftedBits(x: Word, n: nat)
    requires n <= 32
    ensures B(Shr(x, n)) == ZeroBits(n) + B(x)[..32 - n]
  {
    if n > 0 {
      HalfBits(x);
      ShiftedBits(x / 2, n - 1);
      assert B(Shr(x, n)) == ZeroBits(n - 1) + B(x / 2)[..33 - n];
      assert B(x / 2)[..33 - n] == [false] + B(x)[..32 - n];
    }
  }

  lemma HighBit(bit: nat, low: nat)
    requires bit < 2 && low < 0x8000_0000
    ensures Bits(bit * 0x8000_0000 + low, 32) == [bit == 1] + Bits(low, 31)
  {
    HalfWordWidth();
    BitsJoin(bit, low, 1, 31);
    assert Bits(bit, 1) == Bits(bit / 2, 0) + [bit % 2 == 1];
  }

  lemma HalfWordWidth()
    ensures Pow2(31) == 0x8000_0000
  {
    WordWidth();
    assert Pow2(32) == 2 * Pow2(31);
  }

  lemma HalfBits(x: Word)
    ensures B(x / 2) == [false] + B(x)[..31]
    ensures B(x / 2 + x % 2 * 0x8000_0000) == [B(x)[31]] + B(x)[..31]
  {
    HighBit(0, x / 2);
    HighBit(x % 2, x / 2);
    assert B(x)[..31] == Bits(x / 2, 31);
  }

  /** A rotation to the right is the cyclic shift. */
  lemma {:induction false} RotatedBits(x: Word, n: nat)
    requires n <= 32
    ensures B(Rotr(x, n)) == B(x)[32 - n..] + B(x)[..32 - n]
    decreases n
  {
    if n > 0 {
      var y := x / 2 + x % 2 * 0x8000_0000;
      HalfBits(x);
      RotatedBits(y, n - 1);
      var b := B(x);
      hide B;
      assert B(y)[33 - n..] == b[32 - n..31];
      assert B(y)[..33 - n] == [b[31]] + b[..32 - n];
      assert b[32 - n..31] + ([b[31]] + b[..32 - n]) == b[32 - n..] + b[..32 - n];
    } else {
      assert B(x)[32..] == [];
    }
  }

  lemma RotrAt(x: Word, n: nat, k: nat)
    requires n <= 32 && k < 32
    ensures B(Rotr(x, n))[k] == B(x)[(k + 32 - n) % 32]
  {
    RotatedBits(x, n);
    hide *;
    TurnedAt(B(x), n, k);
  }

  lemma TurnedAt(b: seq<bool>, n: nat, k: nat)
    requires |b| == 32 && n <= 32 && k < 32
    ensures (b[32 - n..] + b[..32 - n])[k] == b[(k + 32 - n) % 32]
  {
  }

  lemma ShrAt(x: Word, n: nat, k: nat)
    requires n <= 32 && k < 32
    ensures B(Shr(x, n))[k] == (k >= n && B(x)[k - n])
  {
    ShiftedBits(x, n);
    hide B;
  }

  // Section 4.1.2: the functions.

  /** Choose: the bits of y where x has ones, the bits of z where it has zeros. */
  lemma ChAt(x: Word, y: Word, z: Word, k: nat)
    requires k < 32
    ensures B(Ch(x, y, z))[k] == if B(x)[k] then B(y)[k] else B(z)[k]
  {
    hide And, Xor, Not, B;
    XorAt(And(x, y), And(Not(x), z), k);
    AndAt(x, y, k);
    AndAt(Not(x), z, k);
    NotAt(x, k);
  }

  function Ones(x: bool, y: bool, z: bool): nat {
    (if x then 1 else 0) + (if y then 1 else 0) + (if z then 1 else 0)
  }

  /** Majority: the bit that at least two of the three have. */
  lemma MajAt(x: Word, y: Word, z: Word, k: nat)
    requires k < 32
    ensures B(Maj(x, y, z))[k] <==> Ones(B(x)[k], B(y)[k], B(z)[k]) >= 2
  {
    hide And, Xor, B;
    XorAt(Xor(And(x, y), And(x, z)), And(y, z), k);
    XorAt(And(x, y), And(x, z), k);
    AndAt(x, y, k);
    AndAt(x, z, k);
    AndAt(y, z, k);
  }

  /** An odd number of ones. */
  predicate Odd(x: bool, y: bool, z: bool) { Ones(x, y, z) % 2 == 1 }

  lemma XorsAt(x: Word, y: Word, z: Word, k: nat)
    requires k < 32
    ensures B(Xor(Xor(x, y), z))[k] <==> Odd(B(x)[k], B(y)[k], B(z)[k])
  {
    hide Xor, B;
    XorAt(Xor(x, y), z, k);
    XorAt(x, y, k);
  }

  lemma BigSigma0At(x: Word, k: nat)
    requires k < 32
    ensures B(BigSigma0(x))[k] <==> Odd(B(x)[(k + 30) % 32], B(x)[(k + 19) % 32], B(x)[(k + 10) % 32])
  {
    hide Rotr, Xor, B;
    XorsAt(Rotr(x, 2), Rotr(x, 13), Rotr(x, 22), k);
    RotrAt(x, 2, k);
    RotrAt(x, 13, k);
    RotrAt(x, 22, k);
  }

  lemma BigSigma1At(x: Word, k: nat)
    requires k < 32
    ensures B(BigSigma1(x))[k] <==> Odd(B(x)[(k + 26) % 32], B(x)[(k + 21) % 32], B(x)[(k + 7) % 32])
  {
    hide Rotr, Xor, B;
    XorsAt(Rotr(x, 6), Rotr(x, 11), Rotr(x, 25), k);
    RotrAt(x, 6, k);
    RotrAt(x, 11, k);
    RotrAt(x, 25, k);
  }

  lemma SmallSigma0At(x: Word, k: nat)
    requires k < 32
    ensures B(SmallSigma0(x))[k] <==> Odd(B(x)[(k + 25) % 32], B(x)[(k + 14) % 32], k >= 3 && B(x)[k - 3])
  {
    hide Rotr, Shr, Xor, B;
    XorsAt(Rotr(x, 7), Rotr(x, 18), Shr(x, 3), k);
    RotrAt(x, 7, k);
    RotrAt(x, 18, k);
    ShrAt(x, 3, k);
  }

  lemma SmallSigma1At(x: Word, k: nat)
    requires k < 32
    ensures B(SmallSigma1(x))[k] <==> Odd(B(x)[(k + 15) % 32], B(x)[(k + 13) % 32], k >= 10 && B(x)[k - 10])
  {
    hide Rotr, Shr, Xor, B;
    XorsAt(Rotr(x, 17), Rotr(x, 19), Shr(x, 10), k);
    RotrAt(x, 17, k);
    RotrAt(x, 19, k);
    ShrAt(x, 10, k);
  }
}
