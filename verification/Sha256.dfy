/** The SHA-256 of FIPS 180-4, stated the way the standard states it.
    Nothing here follows the streaming code; Sha256Stream refines this module. */
module Sha256 {
  import opened Bytes

  /** A 32-bit word. The word operations below are written on integers, bit by bit. */
  const WORD_LIMIT: nat := 0x1_0000_0000
  type Word = x: int | 0 <= x < WORD_LIMIT

  const INITIAL: seq<Word> :=
    [0x6a09e667, 0xbb67ae85, 0x3c6ef372, 0xa54ff53a, 0x510e527f, 0x9b05688c, 0x1f83d9ab, 0x5be0cd19]

  /** The constants of section 4.2.2, in rows of eight as the standard prints them. */
  const K0: seq<Word> :=
    [0x428a2f98, 0x71374491, 0xb5c0fbcf, 0xe9b5dba5, 0x3956c25b, 0x59f111f1, 0x923f82a4, 0xab1c5ed5]
  const K1: seq<Word> :=
    [0xd807aa98, 0x12835b01, 0x243185be, 0x550c7dc3, 0x72be5d74, 0x80deb1fe, 0x9bdc06a7, 0xc19bf174]
  const K2: seq<Word> :=
    [0xe49b69c1, 0xefbe4786, 0x0fc19dc6, 0x240ca1cc, 0x2de92c6f, 0x4a7484aa, 0x5cb0a9dc, 0x76f988da]
  const K3: seq<Word> :=
    [0x983e5152, 0xa831c66d, 0xb00327c8, 0xbf597fc7, 0xc6e00bf3, 0xd5a79147, 0x06ca6351, 0x14292967]
  const K4: seq<Word> :=
    [0x27b70a85, 0x2e1b2138, 0x4d2c6dfc, 0x53380d13, 0x650a7354, 0x766a0abb, 0x81c2c92e, 0x92722c85]
  const K5: seq<Word> :=
    [0xa2bfe8a1, 0xa81a664b, 0xc24b8b70, 0xc76c51a3, 0xd192e819, 0xd6990624, 0xf40e3585, 0x106aa070]
  const K6: seq<Word> :=
    [0x19a4c116, 0x1e376c08, 0x2748774c, 0x34b0bcb5, 0x391c0cb3, 0x4ed8aa4a, 0x5b9cca4f, 0x682e6ff3]
  const K7: seq<Word> :=
    [0x748f82ee, 0x78a5636f, 0x84c87814, 0x8cc70208, 0x90befffa, 0xa4506ceb, 0xbef9a3f7, 0xc67178f2]
  const K: seq<Word> := K0 + K1 + K2 + K3 + K4 + K5 + K6 + K7

  /** A 512-bit message block. */
  type Block = b: seq<Byte> | |b| == 64 witness seq(64, _ => 0)

  /** An intermediate hash value: eight words. */
  type Hash = h: seq<Word> | |h| == 8 witness seq(8, _ => 0)

  // Section 2.2.2: operations on words. Addition is modulo 2^32.

  function Pow2(n: nat): (r: nat)
    ensures r > 0
  {
    if n == 0 then 1 else 2 * Pow2(n - 1)
  }

  function Add(x: Word, y: Word): Word { (x + y) % WORD_LIMIT }

  function AndBits(x: nat, y: nat, width: nat): (r: nat)
    ensures r < Pow2(width)
  {
    if width == 0 then 0 else 2 * AndBits(x / 2, y / 2, width - 1) + if x % 2 == y % 2 == 1 then 1 else 0
  }

  function XorBits(x: nat, y: nat, width: nat): (r: nat)
    ensures r < Pow2(width)
  {
    if width == 0 then 0 else 2 * XorBits(x / 2, y / 2, width - 1) + if x % 2 == y % 2 then 0 else 1
  }

  lemma WordWidth()
    ensures Pow2(32) == WORD_LIMIT
  {
    assert Pow2(8) == 256;
    assert Pow2(16) == 0x1_0000;
    assert Pow2(24) == 0x100_0000;
  }

  function And(x: Word, y: Word): Word { WordWidth(); AndBits(x, y, 32) }
  function Xor(x: Word, y: Word): Word { WordWidth(); XorBits(x, y, 32) }
  function Not(x: Word): Word { WORD_LIMIT - 1 - x }
  function Shr(x: Word, n: nat): Word { if n == 0 then x else Shr(x / 2, n - 1) }
  function Rotr(x: Word, n: nat): Word
    decreases n
  {
    if n == 0 then x else Rotr(x / 2 + x % 2 * 0x8000_0000, n - 1)
  }

  // Section 4.1.2: the SHA-256 functions.

  function Ch(x: Word, y: Word, z: Word): Word { Xor(And(x, y), And(Not(x), z)) }
  function Maj(x: Word, y: Word, z: Word): Word { Xor(Xor(And(x, y), And(x, z)), And(y, z)) }
  function BigSigma0(x: Word): Word { Xor(Xor(Rotr(x, 2), Rotr(x, 13)), Rotr(x, 22)) }
  function BigSigma1(x: Word): Word { Xor(Xor(Rotr(x, 6), Rotr(x, 11)), Rotr(x, 25)) }
  function SmallSigma0(x: Word): Word { Xor(Xor(Rotr(x, 7), Rotr(x, 18)), Shr(x, 3)) }
  function SmallSigma1(x: Word): Word { Xor(Xor(Rotr(x, 17), Rotr(x, 19)), Shr(x, 10)) }

  // Section 5.2.1: a block is sixteen big-endian words.

  function WordAt(block: Block, t: nat): Word
    requires t < 16
  {
    var b0: int, b1: int, b2: int, b3: int := block[4 * t], block[4 * t + 1], block[4 * t + 2], block[4 * t + 3];
    b0 * 0x100_0000 + b1 * 0x1_0000 + b2 * 0x100 + b3
  }

  // Section 6.2.2, step 1: the message schedule, by recursion on its index.

  function NextWord(w2: Word, w7: Word, w15: Word, w16: Word): Word {
    Add(Add(Add(SmallSigma1(w2), w7), SmallSigma0(w15)), w16)
  }

  function W(block: Block, t: nat): Word
    requires t < 64
  {
    if t < 16 then WordAt(block, t)
    else NextWord(W(block, t - 2), W(block, t - 7), W(block, t - 15), W(block, t - 16))
  }

  // Steps 2 and 3: the working variables after t rounds.

  datatype Vars = Vars(a: Word, b: Word, c: Word, d: Word, e: Word, f: Word, g: Word, h: Word)

  function Round(v: Vars, k: Word, w: Word): Vars {
    var t1 := Add(Add(Add(Add(v.h, BigSigma1(v.e)), Ch(v.e, v.f, v.g)), k), w);
    var t2 := Add(BigSigma0(v.a), Maj(v.a, v.b, v.c));
    Vars(Add(t1, t2), v.a, v.b, v.c, Add(v.d, t1), v.e, v.f, v.g)
  }

  function Rounds(hash: Hash, block: Block, t: nat): Vars
    requires t <= 64
  {
    if t == 0 then Vars(hash[0], hash[1], hash[2], hash[3], hash[4], hash[5], hash[6], hash[7])
    else Round(Rounds(hash, block, t - 1), K[t - 1], W(block, t - 1))
  }

  // Step 4: the next intermediate hash value.

  function Added(hash: Hash, v: Vars): Hash {
    [Add(hash[0], v.a), Add(hash[1], v.b), Add(hash[2], v.c), Add(hash[3], v.d),
     Add(hash[4], v.e), Add(hash[5], v.f), Add(hash[6], v.g), Add(hash[7], v.h)]
  }

  function Compressed(hash: Hash, block: Block): Hash {
    Added(hash, Rounds(hash, block, 64))
  }

  /** The hash value after every whole block of the data, in order. */
  function HashBlocks(hash: Hash, data: seq<Byte>): Hash
    decreases |data|
  {
    if |data| < 64 then hash else HashBlocks(Compressed(hash, data[..64]), data[64..])
  }

  // Section 5.1.1, on whole bytes: a one bit, the fewest zero bits, and the bit length.

  function Zeros(n: nat): seq<Byte> { seq(n, _ => 0) }

  function PadZeros(length: nat): nat {
    var m := length % 64;
    if m <= 55 then 55 - m else 119 - m
  }

  function Padded(message: seq<Byte>): seq<Byte> {
    message + [0x80] + Zeros(PadZeros(|message|)) + BigEndian(8 * |message|, 8)
  }

  function WordBytes(w: Word): seq<Byte> { BigEndian(w, 4) }

  function HashBytes(hash: seq<Word>): seq<Byte> {
    if hash == [] then [] else WordBytes(hash[0]) + HashBytes(hash[1..])
  }

  /** The 32-byte digest of a message. */
  function Digest(message: seq<Byte>): seq<Byte> {
    HashBytes(HashBlocks(INITIAL, Padded(message)))
  }

  // The standard pads bit strings. The definitions below say so literally, and the
  // lemmas show that the byte padding above is that padding of the message's bits.

  function Bits(n: nat, width: nat): (r: seq<bool>)
    ensures |r| == width
  {
    if width == 0 then [] else Bits(n / 2, width - 1) + [n % 2 == 1]
  }

  function BitsOf(bytes: seq<Byte>): (r: seq<bool>)
    ensures |r| == 8 * |bytes|
  {
    if bytes == [] then [] else Bits(bytes[0], 8) + BitsOf(bytes[1..])
  }

  function ZeroBits(n: nat): (r: seq<bool>)
    ensures |r| == n
  {
    seq(n, _ => false)
  }

  predicate PadsTo448(length: nat, k: nat) { (length + 1 + k) % 512 == 448 }

  ghost predicate FewestZeroBits(length: nat, k: nat) {
    PadsTo448(length, k) && forall j: nat | j < k :: !PadsTo448(length, j)
  }

  ghost predicate IsBitPadding(message: seq<bool>, padded: seq<bool>) {
    exists k: nat ::
      && FewestZeroBits(|message|, k)
      && padded == message + [true] + ZeroBits(k) + Bits(|message|, 64)
  }

  lemma {:induction false} BitsOfAppend(a: seq<Byte>, b: seq<Byte>)
    ensures BitsOf(a + b) == BitsOf(a) + BitsOf(b)
  {
    if a == [] {
      assert a + b == b;
    } else {
      assert (a + b)[1..] == a[1..] + b;
      BitsOfAppend(a[1..], b);
    }
  }

  /** A number written as high and low parts has the bits of the parts, one after the other. */
  lemma {:induction false} BitsJoin(high: nat, low: nat, width: nat, k: nat)
    requires low < Pow2(k)
    ensures Bits(high * Pow2(k) + low, width + k) == Bits(high, width) + Bits(low, k)
    decreases k
  {
    var n := high * Pow2(k) + low;
    if k > 0 {
      var t := high * Pow2(k - 1);
      assert n == 2 * t + low;
      assert n / 2 == t + low / 2 && n % 2 == low % 2;
      BitsJoin(high, low / 2, width, k - 1);
      assert Bits(n, width + k) == Bits(n / 2, width + k - 1) + [n % 2 == 1];
      assert Bits(low, k) == Bits(low / 2, k - 1) + [low % 2 == 1];
    } else {
      assert Bits(low, k) == [];
    }
  }

  lemma {:induction false} BitsOfBigEndian(n: nat, width: nat)
    ensures BitsOf(BigEndian(n, width)) == Bits(n, 8 * width)
  {
    if width > 0 {
      BitsOfBigEndian(n / 256, width - 1);
      BitsOfAppend(BigEndian(n / 256, width - 1), [n % 256]);
      assert BitsOf([n % 256]) == Bits(n % 256, 8);
      assert Pow2(8) == 256;
      BitsJoin(n / 256, n % 256, 8 * width - 8, 8);
    }
  }

  lemma {:induction false} BitsOfZero(width: nat)
    ensures Bits(0, width) == ZeroBits(width)
  {
    if width > 0 {
      BitsOfZero(width - 1);
      assert Bits(0, width) == Bits(0, width - 1) + [false];
    }
  }

  /** The byte 0x80 is a one bit followed by seven zero bits. */
  lemma BitsOf0x80()
    ensures Bits(0x80, 8) == [true] + ZeroBits(7)
  {
    assert Pow2(7) == 0x80;
    BitsJoin(1, 0, 1, 7);
    assert Bits(1, 1) == Bits(0, 0) + [true];
    BitsOfZero(7);
  }

  lemma {:induction false} BitsOfZeros(n: nat)
    ensures BitsOf(Zeros(n)) == ZeroBits(8 * n)
  {
    if n > 0 {
      assert Zeros(n)[1..] == Zeros(n - 1);
      BitsOfZeros(n - 1);
      BitsOfZero(8);
    }
  }

  lemma PadZerosMeetsStandard(length: nat)
    ensures FewestZeroBits(8 * length, 8 * PadZeros(length) + 7)
    ensures (length + 1 + PadZeros(length) + 8) % 64 == 0
  {
    var q, m, z := length / 64, length % 64, PadZeros(length);
    var top := if m <= 55 then q else q + 1;
    assert length == 64 * q + m;
    Remainder(length + 1 + z + 8, 64, top + 1, 0);
    Remainder(8 * length + 1 + (8 * z + 7), 512, top, 448);
    forall j: nat | j < 8 * z + 7 ensures !PadsTo448(8 * length, j) {
      if 8 * m + 1 + j < 512 {
        Remainder(8 * length + 1 + j, 512, q, 8 * m + 1 + j);
      } else {
        Remainder(8 * length + 1 + j, 512, q + 1, 8 * m + 1 + j - 512);
      }
    }
  }

  lemma Remainder(n: nat, d: nat, q: nat, r: nat)
    requires r < d && n == d * q + r
    ensures n % d == r
  {
    var k := n / d;
    assert k < q ==> d * (k + 1) <= d * q;
    assert k > q ==> d * (q + 1) <= d * k;
  }

  lemma PaddedBits(message: seq<Byte>)
    ensures var bits := BitsOf(message);
      BitsOf(Padded(message)) == bits + [true] + ZeroBits(8 * PadZeros(|message|) + 7) + Bits(|bits|, 64)
  {
    var z, bits, length := PadZeros(|message|), BitsOf(message), Bits(8 * |message|, 64);
    calc {
      BitsOf(Padded(message));
      { BitsOfAppend(message + [0x80] + Zeros(z), BigEndian(8 * |message|, 8));
        BitsOfBigEndian(8 * |message|, 8); }
      BitsOf(message + [0x80] + Zeros(z)) + length;
      { BitsOfAppend(message + [0x80], Zeros(z)); BitsOfZeros(z); }
      BitsOf(message + [0x80]) + ZeroBits(8 * z) + length;
      { BitsOfAppend(message, [0x80]); assert BitsOf([0x80]) == Bits(0x80, 8); BitsOf0x80(); }
      bits + ([true] + ZeroBits(7)) + ZeroBits(8 * z) + length;
      { assert bits + ([true] + ZeroBits(7)) + ZeroBits(8 * z) == bits + [true] + (ZeroBits(7) + ZeroBits(8 * z)); }
      bits + [true] + (ZeroBits(7) + ZeroBits(8 * z)) + length;
      { assert ZeroBits(7) + ZeroBits(8 * z) == ZeroBits(8 * z + 7); }
      bits + [true] + ZeroBits(8 * z + 7) + length;
    }
  }

  /** Section 5.1.1: the padded bytes spell exactly the padded bit string. */
  lemma PaddedMeetsStandard(message: seq<Byte>)
    ensures IsBitPadding(BitsOf(message), BitsOf(Padded(message)))
    ensures |Padded(message)| % 64 == 0
  {
    PadZerosMeetsStandard(|message|);
    PaddedBits(message);
    assert FewestZeroBits(|BitsOf(message)|, 8 * PadZeros(|message|) + 7);
  }
}
