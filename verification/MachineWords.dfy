/** The integer words of the SHA-256 model are machine words: every operation on them is the
    corresponding operation on 32-bit vectors. The vector facts stand in lemmas of their own, and
    the inductions use them by name. */
module MachineWords {
  import opened Sha256

  function Half(b: bv32): bv32 { b >> 1 }

  function Bit(b: bv32): (n: nat)
    ensures n < 2
  {
    if b & 1 == 1 then 1 else 0
  }

  function Both(a: bv32, b: bv32): bv32 { a & b }
  function Unequal(a: bv32, b: bv32): bv32 { a ^ b }
  function Either(a: bv32, b: bv32): bv32 { a | b }

  /** The number that the low bits of a machine word spell. */
  function Value(b: bv32, width: nat): (n: nat)
    ensures n < Pow2(width)
  {
    if width == 0 then 0 else 2 * Value(Half(b), width - 1) + Bit(b)
  }

  /** The word of a machine word. */
  function V(b: bv32): Word { WordWidth(); Value(b, 32) }

  lemma VIs(b: bv32)
    ensures V(b) == Value(b, 32)
  {
  }

  lemma LowBit(b: bv32)
    ensures b & 1 == 0 || b & 1 == 1
  {
  }

  // Bit by bit: and, exclusive or, and the union of disjoint words.

  lemma AndHalves(a: bv32, b: bv32)
    ensures Half(Both(a, b)) == Both(Half(a), Half(b))
    ensures Bit(Both(a, b)) == if Bit(a) == Bit(b) == 1 then 1 else 0
  {
    assert (a & b) & 1 == (a & 1) & (b & 1);
    LowBit(a);
    LowBit(b);
  }

  lemma ValueStep(b: bv32, width: nat)
    ensures Value(b, width + 1) == 2 * Value(Half(b), width) + Bit(b)
  {
    hide Half, Bit, Pow2;
  }

  lemma AndBitsStep(x: nat, y: nat, p: nat, q: nat, width: nat)
    requires p < 2 && q < 2
    ensures AndBits(2 * x + p, 2 * y + q, width + 1) == 2 * AndBits(x, y, width) + if p == q == 1 then 1 else 0
  {
    assert (2 * x + p) / 2 == x && (2 * y + q) / 2 == y;
  }

  lemma XorBitsStep(x: nat, y: nat, p: nat, q: nat, width: nat)
    requires p < 2 && q < 2
    ensures XorBits(2 * x + p, 2 * y + q, width + 1) == 2 * XorBits(x, y, width) + if p == q then 0 else 1
  {
    assert (2 * x + p) / 2 == x && (2 * y + q) / 2 == y;
  }

  lemma AndValueStep(a: bv32, b: bv32, width: nat)
    requires AndBits(Value(Half(a), width), Value(Half(b), width), width) == Value(Both(Half(a), Half(b)), width)
    ensures AndBits(Value(a, width + 1), Value(b, width + 1), width + 1) == Value(Both(a, b), width + 1)
  {
    hide Half, Bit, Both, AndBits, Pow2, Value;
    ValueStep(a, width);
    ValueStep(b, width);
    ValueStep(Both(a, b), width);
    AndBitsStep(Value(Half(a), width), Value(Half(b), width), Bit(a), Bit(b), width);
    AndHalves(a, b);
  }

  lemma {:induction false} AndValue(a: bv32, b: bv32, width: nat)
    ensures AndBits(Value(a, width), Value(b, width), width) == Value(Both(a, b), width)
    decreases width
  {
    if width > 0 {
      AndValue(Half(a), Half(b), width - 1);
      AndValueStep(a, b, width - 1);
    }
    hide Half, Bit, Both, Pow2;
  }

  lemma XorHalves(a: bv32, b: bv32)
    ensures Half(Unequal(a, b)) == Unequal(Half(a), Half(b))
    ensures Bit(Unequal(a, b)) == if Bit(a) == Bit(b) then 0 else 1
  {
    assert (a ^ b) & 1 == (a & 1) ^ (b & 1);
    LowBit(a);
    LowBit(b);
  }

  lemma XorValueStep(a: bv32, b: bv32, width: nat)
    requires XorBits(Value(Half(a), width), Value(Half(b), width), width) == Value(Unequal(Half(a), Half(b)), width)
    ensures XorBits(Value(a, width + 1), Value(b, width + 1), width + 1) == Value(Unequal(a, b), width + 1)
  {
    hide Half, Bit, Unequal, XorBits, Pow2, Value;
    ValueStep(a, width);
    ValueStep(b, width);
    ValueStep(Unequal(a, b), width);
    XorBitsStep(Value(Half(a), width), Value(Half(b), width), Bit(a), Bit(b), width);
    XorHalves(a, b);
  }

  lemma {:induction false} XorValue(a: bv32, b: bv32, width: nat)
    ensures XorBits(Value(a, width), Value(b, width), width) == Value(Unequal(a, b), width)
    decreases width
  {
    if width > 0 {
      XorValue(Half(a), Half(b), width - 1);
      XorValueStep(a, b, width - 1);
    }
    hide Half, Bit, Unequal, Pow2;
  }

  predicate Disjoint(a: bv32, b: bv32) { a & b == 0 }

  lemma UnionHalves(a: bv32, b: bv32)
    requires Disjoint(a, b)
    ensures Half(Either(a, b)) == Either(Half(a), Half(b)) && Disjoint(Half(a), Half(b))
    ensures Bit(Either(a, b)) == Bit(a) + Bit(b)
  {
    assert (a | b) & 1 == (a & 1) | (b & 1) && (a & 1) & (b & 1) == 0;
    LowBit(a);
    LowBit(b);
  }

  lemma {:induction false} UnionValue(a: bv32, b: bv32, width: nat)
    requires Disjoint(a, b)
    ensures Value(Either(a, b), width) == Value(a, width) + Value(b, width)
    decreases width
  {
    hide Half, Bit, Either, Disjoint;
    if width > 0 {
      UnionHalves(a, b);
      UnionValue(Half(a), Half(b), width - 1);
    }
  }

  // Low bits under a mask: complement.

  predicate IsOdd(m: bv32) { m & 1 == 1 }

  predicate IsMask(m: bv32, width: nat) {
    if width == 0 then m == 0 else IsOdd(m) && IsMask(Half(m), width - 1)
  }

  lemma FourMoreBits(m: bv32, width: nat)
    requires m & 15 == 15 && IsMask(m >> 4, width)
    ensures IsMask(m, width + 4)
  {
    assert m >> 1 >> 1 >> 1 >> 1 == m >> 4;
    assert IsOdd(m) && IsOdd(m >> 1) && IsOdd(m >> 1 >> 1) && IsOdd(m >> 1 >> 1 >> 1);
    assert IsMask(m >> 1 >> 1 >> 1, width + 1);
    assert IsMask(m >> 1 >> 1, width + 2);
    assert IsMask(m >> 1, width + 3);
  }

  lemma Masks()
    ensures IsMask(0x7fff_ffff, 31) && IsMask(0xffff_ffff, 32)
  {
    assert IsMask(0, 0);
    assert IsMask(1, 1);
    assert IsMask(3, 2);
    assert IsMask(7, 3);
    FourMoreBits(0x7f, 3);
    FourMoreBits(0x7ff, 7);
    FourMoreBits(0x7fff, 11);
    FourMoreBits(0x7_ffff, 15);
    FourMoreBits(0x7f_ffff, 19);
    FourMoreBits(0x7ff_ffff, 23);
    FourMoreBits(0x7fff_ffff, 27);
    assert Half(0xffff_ffff) == 0x7fff_ffff;
  }

  predicate Complements(a: bv32, b: bv32, m: bv32) { (a ^ b) & m == m }

  lemma ComplementHalves(a: bv32, b: bv32, m: bv32)
    requires Complements(a, b, m) && IsOdd(m)
    ensures Complements(Half(a), Half(b), Half(m)) && Bit(a) + Bit(b) == 1
  {
    assert (a & 1) ^ (b & 1) == 1;
    LowBit(a);
    LowBit(b);
  }

  lemma {:induction false} ComplementValue(a: bv32, b: bv32, m: bv32, width: nat)
    requires IsMask(m, width) && Complements(a, b, m)
    ensures Value(a, width) + Value(b, width) == Pow2(width) - 1
    decreases width
  {
    hide Half, Bit, IsOdd, Complements;
    if width > 0 {
      ComplementHalves(a, b, m);
      ComplementValue(Half(a), Half(b), Half(m), width - 1);
    }
  }

  // Shifts and rotations.

  predicate Under(b: bv32, m: bv32) { b & !m == 0 }

  lemma UnderHalves(b: bv32, m: bv32)
    requires Under(b, m)
    ensures Under(Half(b), Half(m)) && (m == 0 ==> b == 0)
  {
  }

  lemma {:induction false} ZeroValue(width: nat)
    ensures Value(0, width) == 0
    decreases width
  {
    if width > 0 {
      assert Half(0) == 0 && Bit(0) == 0;
      ZeroValue(width - 1);
    }
  }

  lemma {:induction false} HighZero(b: bv32, m: bv32, width: nat)
    requires IsMask(m, width) && Under(b, m)
    ensures Value(b, width + 1) == Value(b, width)
    decreases width
  {
    hide Half, Bit, IsOdd, Under;
    UnderHalves(b, m);
    if width > 0 {
      HighZero(Half(b), Half(m), width - 1);
    } else {
      ZeroValue(1);
    }
  }

  lemma {:induction false} MaskedValue(b: bv32, m: bv32, width: nat)
    requires IsMask(m, width)
    ensures Value(Both(b, m), width) == Value(b, width)
    decreases width
  {
    if width == 0 { return; }
    OddBit(m);
    AndHalves(b, m);
    hide Half, Bit, Both, IsOdd, Pow2;
    MaskedValue(Half(b), Half(m), width - 1);
  }

  lemma OddBit(m: bv32)
    requires IsOdd(m)
    ensures Bit(m) == 1
  {
  }

  const TOP: bv32 := 0x8000_0000
  const REST: bv32 := 0x7fff_ffff

  lemma TopIsTopOrNone(b: bv32)
    ensures Both(b, TOP) == TOP || Both(b, TOP) == 0
  {
  }

  lemma SplitTop(b: bv32)
    ensures Disjoint(Both(b, REST), Both(b, TOP)) && Under(Both(b, REST), REST)
    ensures Either(Both(b, REST), Both(b, TOP)) == b
  {
  }

  lemma {:induction false} PowerValue(b: bv32, k: nat, width: nat)
    requires IsPower(b, k) && k < width
    ensures Value(b, width) == Pow2(k)
    decreases k
  {
    PowerHalves(b, k);
    hide Half, Bit;
    if k == 0 {
      ZeroValue(width - 1);
    } else {
      PowerValue(Half(b), k - 1, width - 1);
    }
  }

  predicate IsPower(b: bv32, k: nat)
  {
    if k == 0 then b == 1 else !IsOdd(b) && IsPower(Half(b), k - 1)
  }

  lemma PowerHalves(b: bv32, k: nat)
    requires IsPower(b, k)
    ensures if k == 0 then Half(b) == 0 && Bit(b) == 1 else Bit(b) == 0
  {
  }

  lemma FourMoreZeros(b: bv32, k: nat)
    requires b & 15 == 0 && IsPower(b >> 4, k)
    ensures IsPower(b, k + 4)
  {
    assert b >> 1 >> 1 >> 1 >> 1 == b >> 4;
    assert !IsOdd(b) && !IsOdd(b >> 1) && !IsOdd(b >> 1 >> 1) && !IsOdd(b >> 1 >> 1 >> 1);
    assert IsPower(b >> 1 >> 1 >> 1, k + 1);
    assert IsPower(b >> 1 >> 1, k + 2);
    assert IsPower(b >> 1, k + 3);
  }

  lemma TopValue()
    ensures Value(TOP, 32) == 0x8000_0000
  {
    assert IsPower(1, 0);
    assert IsPower(2, 1);
    assert IsPower(4, 2);
    assert IsPower(8, 3);
    FourMoreZeros(0x80, 3);
    FourMoreZeros(0x800, 7);
    FourMoreZeros(0x8000, 11);
    FourMoreZeros(0x8_0000, 15);
    FourMoreZeros(0x80_0000, 19);
    FourMoreZeros(0x800_0000, 23);
    FourMoreZeros(0x8000_0000, 27);
    PowerValue(TOP, 31, 32);
    WordWidth();
    assert Pow2(32) == 2 * Pow2(31);
  }

  /** A word is its highest bit and the other bits. */
  lemma TopAndRest(b: bv32)
    ensures Value(b, 32) == Value(b, 31) + Value(Both(b, TOP), 32)
  {
    Masks();
    SplitTop(b);
    MaskedValue(b, REST, 31);
    HighZero(Both(b, REST), REST, 31);
    UnionValue(Both(b, REST), Both(b, TOP), 32);
    hide *;
  }

  // The operations of the model on machine words.

  lemma AndIs(a: bv32, b: bv32)
    ensures V(Both(a, b)) == And(V(a), V(b))
  {
    AndValue(a, b, 32);
  }

  lemma XorIs(a: bv32, b: bv32)
    ensures V(Unequal(a, b)) == Xor(V(a), V(b))
  {
    XorValue(a, b, 32);
  }

  function Inverse(a: bv32): bv32 { !a }

  lemma NotComplements(a: bv32)
    ensures Complements(a, Inverse(a), 0xffff_ffff)
  {
  }

  lemma NotIs(a: bv32)
    ensures V(Inverse(a)) == Not(V(a))
  {
    NotComplements(a);
    Masks();
    ComplementValue(a, Inverse(a), 0xffff_ffff, 32);
    WordWidth();
    hide Value, Complements, IsMask;
  }

  lemma HalfUnderRest(b: bv32)
    ensures Under(Half(b), REST)
  {
  }

  lemma HalfIs(b: bv32)
    ensures V(b >> 1) == V(b) / 2 && V(b) % 2 == Bit(b)
  {
    Masks();
    HalfUnderRest(b);
    HighZero(Half(b), REST, 31);
    ValueStep(b, 31);
    hide Value, Bit, IsMask, Under;
  }

  function Rotated(b: bv32): bv32 { b.RotateRight(1) }
  function Halved(b: bv32): bv32 { b >> 1 }
  function HighOf(b: bv32): bv32 { if b & 1 == 1 then TOP else 0 }

  lemma RotatedOnce(b: bv32)
    ensures Rotated(b) == Either(Half(b), HighOf(b)) && Disjoint(Half(b), HighOf(b))
  {
  }

  lemma HighValue(b: bv32)
    ensures Value(HighOf(b), 32) == Bit(b) * 0x8000_0000
  {
    hide Value;
    HighIs(b);
    TopValue();
    ZeroValue(32);
    hide HighOf, Bit;
  }

  lemma HighIs(b: bv32)
    ensures if Bit(b) == 1 then HighOf(b) == TOP else HighOf(b) == 0
  {
  }

  lemma HalfWordIs(b: bv32)
    ensures V(Half(b)) == V(b) / 2 && V(b) % 2 == Bit(b)
  {
    hide V, Bit;
    HalfIs(b);
  }

  lemma RotatedIs(b: bv32)
    ensures V(Rotated(b)) == V(b) / 2 + V(b) % 2 * 0x8000_0000
  {
    hide V, Half, Either, Disjoint, Bit, HighOf, Rotated, Value;
    HalfWordIs(b);
    VIs(Half(b));
    VIs(Rotated(b));
    RotatedOnce(b);
    UnionValue(Half(b), HighOf(b), 32);
    HighValue(b);
  }

  // Addition: the sum is the exclusive or plus twice the conjunction, until nothing is carried.

  lemma TwiceBits(b: bv32)
    ensures (b << 1) >> 1 == b & 0x7fff_ffff && (b << 1) & 1 == 0
  {
  }

  function Twice(b: bv32): bv32 { b << 1 }

  lemma TwiceHalves(b: bv32)
    ensures Half(Twice(b)) == Both(b, REST) && Bit(Twice(b)) == 0
  {
    TwiceBits(b);
  }

  lemma TopIsNoneOrHalf(b: bv32)
    ensures Value(Both(b, TOP), 32) == 0 || Value(Both(b, TOP), 32) == 0x8000_0000
  {
    TopIsTopOrNone(b);
    hide Value, Both;
    TopValue();
    ZeroValue(32);
  }

  lemma TwiceIs(b: bv32)
    ensures V(Twice(b)) == 2 * V(b) % WORD_LIMIT
  {
    hide Value, Half, Both, Twice, Bit, IsMask, V;
    VIs(b);
    VIs(Twice(b));
    Masks();
    TwiceHalves(b);
    ValueStep(Twice(b), 31);
    MaskedValue(b, REST, 31);
    TopAndRest(b);
    TopIsNoneOrHalf(b);
    HalfWordValue(b);
    DoubleWraps(Value(b, 31), Value(Both(b, TOP), 32));
  }

  lemma HalfWordValue(b: bv32)
    ensures 2 * Value(b, 31) < WORD_LIMIT
  {
    WordWidth();
    assert Pow2(32) == 2 * Pow2(31);
  }

  lemma DoubleWraps(rest: nat, top: nat)
    requires 2 * rest < WORD_LIMIT && (top == 0 || top == 0x8000_0000)
    ensures 2 * (rest + top) % WORD_LIMIT == 2 * rest
  {
  }

  lemma {:induction false} XorPlusAnd(x: nat, y: nat, width: nat)
    requires x < Pow2(width) && y < Pow2(width)
    ensures XorBits(x, y, width) + 2 * AndBits(x, y, width) == x + y
    decreases width
  {
    if width > 0 { XorPlusAnd(x / 2, y / 2, width - 1); }
  }

  /** One carry keeps the sum of the numbers. */
  lemma CarryKeepsSum(a: bv32, b: bv32)
    ensures (V(Unequal(a, b)) + V(Twice(Both(a, b)))) % WORD_LIMIT == (V(a) + V(b)) % WORD_LIMIT
  {
    hide V, Unequal, Both, Twice, Xor, And;
    XorIs(a, b);
    AndIs(a, b);
    TwiceIs(Both(a, b));
    XorPlusAndWords(V(a), V(b));
    Wraps(Xor(V(a), V(b)), And(V(a), V(b)));
  }

  lemma XorPlusAndWords(x: Word, y: Word)
    ensures Xor(x, y) + 2 * And(x, y) == x + y
  {
    WordWidth();
    XorPlusAnd(x, y, 32);
  }

  lemma Wraps(x: nat, y: nat)
    ensures (x + 2 * y % WORD_LIMIT) % WORD_LIMIT == (x + 2 * y) % WORD_LIMIT
  {
  }

  function Sum(a: bv32, b: bv32): bv32 { a + b }

  lemma SumByUnion(a: bv32, b: bv32)
    ensures a + b == (a | b) + (a & b)
  {
  }

  lemma UnionBySum(a: bv32, b: bv32)
    ensures a | b == (a ^ b) + (a & b)
  {
  }

  lemma SumOfUnion(a: bv32, b: bv32)
    ensures Sum(a, b) == Sum(a | b, a & b)
  {
    SumByUnion(a, b);
  }

  lemma UnionIsSum(a: bv32, b: bv32)
    ensures a | b == Sum(a ^ b, a & b)
  {
    UnionBySum(a, b);
  }

  lemma SumIsPlus(a: bv32, b: bv32)
    ensures Sum(a, b) == a + b
  {
  }

  lemma PlusRegroups(x: bv32, c: bv32)
    ensures x + c + c == x + (c + c)
  {
  }

  lemma SumRegroups(x: bv32, c: bv32)
    ensures Sum(x + c, c) == Sum(x, c + c)
  {
    PlusRegroups(x, c);
  }

  lemma SumTwice(c: bv32)
    ensures c + c == Twice(c)
  {
  }

  lemma SumCarries(a: bv32, b: bv32)
    ensures Sum(a, b) == Sum(Unequal(a, b), Twice(Both(a, b)))
  {
    hide Sum, Twice;
    SumOfUnion(a, b);
    UnionIsSum(a, b);
    SumIsPlus(a ^ b, a & b);
    SumRegroups(a ^ b, a & b);
    SumTwice(a & b);
  }

  // How far the carries have moved up.

  function Longer(m: bv32): bv32 { (m << 1) | 1 }
  function LowMask(k: nat): bv32 { if k == 0 then 0 else Longer(LowMask(k - 1)) }
  predicate Free(b: bv32, m: bv32) { b & m == 0 }

  lemma CarriesMoveUp(a: bv32, b: bv32, m: bv32)
    requires Free(b, m)
    ensures Free(Twice(Both(a, b)), Longer(m))
  {
  }

  lemma FourTimesLonger(m: bv32)
    ensures Longer(Longer(Longer(Longer(m)))) == (m << 4) | 15
  {
  }

  lemma FourLonger(k: nat)
    ensures LowMask(k + 4) == Longer(Longer(Longer(Longer(LowMask(k)))))
  {
    hide Longer;
    assert LowMask(k + 2) == Longer(Longer(LowMask(k)));
  }

  lemma NextMask(k: nat, m: bv32)
    requires LowMask(k) == m
    ensures LowMask(k + 4) == (m << 4) | 15
  {
    hide LowMask, Longer;
    FourLonger(k);
    FourTimesLonger(m);
  }

  lemma FullMask()
    ensures LowMask(32) == 0xffff_ffff
  {
    assert LowMask(0) == 0;
    hide LowMask;
    NextMask(0, 0);
    NextMask(4, 0xf);
    NextMask(8, 0xff);
    NextMask(12, 0xfff);
    NextMask(16, 0xffff);
    NextMask(20, 0xf_ffff);
    NextMask(24, 0xff_ffff);
    NextMask(28, 0xfff_ffff);
  }

  lemma NothingLeft(a: bv32, b: bv32)
    requires Free(b, 0xffff_ffff)
    ensures b == 0 && Sum(a, b) == a
  {
  }

  lemma ZeroIs()
    ensures V(0) == 0
  {
    ZeroValue(32);
  }

  lemma {:induction false} SumIs(a: bv32, b: bv32, k: nat)
    requires k <= 32 && Free(b, LowMask(k))
    ensures V(Sum(a, b)) == Add(V(a), V(b))
    decreases 32 - k
  {
    hide V, Sum, Unequal, Twice, Both, Free, Longer;
    if k == 32 {
      FullMask();
      NothingLeft(a, b);
      ZeroIs();
    } else {
      SumCarries(a, b);
      CarriesMoveUp(a, b, LowMask(k));
      CarryKeepsSum(a, b);
      SumIs(Unequal(a, b), Twice(Both(a, b)), k + 1);
    }
  }

  lemma FreeOfNothing(b: bv32)
    ensures Free(b, LowMask(0))
  {
  }

  lemma AddIs(a: bv32, b: bv32)
    ensures V(Sum(a, b)) == Add(V(a), V(b))
  {
    hide V, Sum, Free, LowMask;
    FreeOfNothing(b);
    SumIs(a, b, 0);
  }
}
