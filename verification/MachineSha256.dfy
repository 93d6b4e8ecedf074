/** The rounds and the schedule of SHA-256 on machine words, with the operators of 32-bit vectors. */
module MachineSha256 {
  import opened Bytes
  import opened Sha256
  import opened MachineWords

  // Shifts and rotations by more than one place.

  function Halves(b: bv32, n: nat): bv32
    decreases n
  {
    if n == 0 then b else Halves(Half(b), n - 1)
  }

  function Turns(b: bv32, n: nat): bv32
    decreases n
  {
    if n == 0 then b else Turns(Rotated(b), n - 1)
  }

  lemma {:induction false} HalvesIs(b: bv32, n: nat)
    ensures V(Halves(b, n)) == Shr(V(b), n)
    decreases n
  {
    hide V, Bit, Half;
    if n > 0 {
      HalfWordIs(b);
      HalvesIs(Half(b), n - 1);
    }
  }

  lemma {:induction false} TurnsIs(b: bv32, n: nat)
    ensures V(Turns(b, n)) == Rotr(V(b), n)
    decreases n
  {
    hide V, Rotated;
    if n > 0 {
      RotatedIs(b);
      TurnsIs(Rotated(b), n - 1);
    }
  }

  function S2(b: bv32): bv32 { b >> 2 }
  function S3(b: bv32): bv32 { b >> 3 }
  function S5(b: bv32): bv32 { b >> 5 }
  function S10(b: bv32): bv32 { b >> 10 }

  lemma ShiftTwo(b: bv32)
    ensures Half(Half(b)) == S2(b)
  {
  }

  lemma ShiftThree(b: bv32)
    ensures Half(S2(b)) == S3(b)
  {
  }

  lemma ShiftFive(b: bv32)
    ensures S2(S3(b)) == S5(b)
  {
  }

  lemma ShiftTen(b: bv32)
    ensures S5(S5(b)) == S10(b)
  {
  }

  lemma FewHalves(b: bv32, n: nat)
    ensures Halves(b, n + 2) == Halves(S2(b), n) && Halves(b, n + 3) == Halves(S3(b), n)
    ensures Halves(b, 0) == b
  {
    hide Half, S2, S3;
    ShiftTwo(b);
    ShiftThree(b);
    assert Halves(b, n + 2) == Halves(Half(b), n + 1);
    assert Halves(b, n + 3) == Halves(Half(b), n + 2) == Halves(Half(Half(b)), n + 1);
  }

  lemma HalvesAre(b: bv32)
    ensures Halves(b, 3) == S3(b) && Halves(b, 10) == S10(b)
  {
    hide Half, S2, S3, S5, S10, Halves;
    FewHalves(b, 0);
    FewHalves(S3(b), 0);
    FewHalves(b, 7);
    FewHalves(S3(b), 5);
    ShiftFive(b);
    ShiftFive(S5(b));
    ShiftTen(b);
    FewHalves(S5(b), 2);
    FewHalves(S3(S5(b)), 0);
    FewHalves(S2(S3(S5(b))), 0);
  }

  function R2(b: bv32): bv32 { b.RotateRight(2) }
  function R3(b: bv32): bv32 { b.RotateRight(3) }
  function R4(b: bv32): bv32 { b.RotateRight(4) }
  function R6(b: bv32): bv32 { b.RotateRight(6) }
  function R7(b: bv32): bv32 { b.RotateRight(7) }
  function R8(b: bv32): bv32 { b.RotateRight(8) }
  function R11(b: bv32): bv32 { b.RotateRight(11) }
  function R13(b: bv32): bv32 { b.RotateRight(13) }
  function R16(b: bv32): bv32 { b.RotateRight(16) }
  function R17(b: bv32): bv32 { b.RotateRight(17) }
  function R18(b: bv32): bv32 { b.RotateRight(18) }
  function R19(b: bv32): bv32 { b.RotateRight(19) }
  function R22(b: bv32): bv32 { b.RotateRight(22) }
  function R25(b: bv32): bv32 { b.RotateRight(25) }

  lemma TurnTwo(b: bv32)
    ensures Rotated(Rotated(b)) == R2(b)
  {
  }

  lemma TurnThree(b: bv32)
    ensures Rotated(R2(b)) == R3(b)
  {
  }

  lemma TurnFour(b: bv32)
    ensures R2(R2(b)) == R4(b)
  {
  }

  lemma TurnEight(b: bv32)
    ensures R4(R4(b)) == R8(b)
  {
  }

  lemma TurnSixteen(b: bv32)
    ensures R8(R8(b)) == R16(b)
  {
  }

  lemma TurnSix(b: bv32)
    ensures R2(R4(b)) == R6(b)
  {
  }

  lemma TurnSeven(b: bv32)
    ensures R3(R4(b)) == R7(b)
  {
  }

  lemma TurnEleven(b: bv32)
    ensures R3(R8(b)) == R11(b)
  {
  }

  lemma TurnThirteen(b: bv32)
    ensures Rotated(R4(R8(b))) == R13(b)
  {
  }

  lemma TurnSeventeen(b: bv32)
    ensures Rotated(R16(b)) == R17(b)
  {
  }

  lemma TurnEighteen(b: bv32)
    ensures R2(R16(b)) == R18(b)
  {
  }

  lemma TurnNineteen(b: bv32)
    ensures R3(R16(b)) == R19(b)
  {
  }

  lemma TurnTwentyTwo(b: bv32)
    ensures R6(R16(b)) == R22(b)
  {
  }

  lemma TurnTwentyFive(b: bv32)
    ensures Rotated(R8(R16(b))) == R25(b)
  {
  }

  lemma FewTurns(b: bv32, n: nat)
    ensures Turns(b, n + 2) == Turns(R2(b), n) && Turns(b, 0) == b && Turns(b, 1) == Rotated(b)
    ensures Turns(b, 2) == R2(b) && Turns(b, 3) == R3(b)
  {
    hide Rotated, R2, R3, R4;
    TurnTwo(b);
    TurnThree(b);
    assert Turns(b, n + 2) == Turns(Rotated(b), n + 1);
    assert Turns(b, 3) == Turns(Rotated(b), 2) == Turns(Rotated(Rotated(b)), 1);
  }

  lemma FourTurns(b: bv32, n: nat)
    ensures Turns(b, n + 4) == Turns(R4(b), n)
  {
    hide Turns, Rotated, R2, R3, R4;
    TurnFour(b);
    FewTurns(b, n + 2);
    FewTurns(R2(b), n);
  }

  lemma EightTurns(b: bv32, n: nat)
    ensures Turns(b, n + 8) == Turns(R8(b), n)
  {
    hide Turns, R4, R8, R16;
    TurnEight(b);
    FourTurns(b, n + 4);
    FourTurns(R4(b), n);
  }

  lemma SixteenTurns(b: bv32, n: nat)
    ensures Turns(b, n + 16) == Turns(R16(b), n)
  {
    hide Turns, R4, R8, R16;
    TurnSixteen(b);
    EightTurns(b, n + 8);
    EightTurns(R8(b), n);
  }

  lemma SmallTurns(b: bv32)
    ensures Turns(b, 2) == R2(b) && Turns(b, 6) == R6(b) && Turns(b, 7) == R7(b)
    ensures Turns(b, 11) == R11(b) && Turns(b, 13) == R13(b)
  {
    hide Turns, Rotated, R2, R3, R4, R6, R7, R8, R11, R13;
    TurnSix(b);
    TurnSeven(b);
    TurnEleven(b);
    TurnThirteen(b);
    FewTurns(b, 0);
    FourTurns(b, 2);
    FourTurns(b, 3);
    FewTurns(R4(b), 0);
    EightTurns(b, 3);
    EightTurns(b, 5);
    FewTurns(R8(b), 0);
    FourTurns(R8(b), 1);
    FewTurns(R4(R8(b)), 0);
  }

  lemma LargeTurns(b: bv32)
    ensures Turns(b, 17) == R17(b) && Turns(b, 18) == R18(b) && Turns(b, 19) == R19(b)
    ensures Turns(b, 22) == R22(b) && Turns(b, 25) == R25(b)
  {
    hide Turns, Rotated, R2, R3, R6, R8, R16, R17, R18, R19, R22, R25;
    TurnSeventeen(b);
    TurnEighteen(b);
    TurnNineteen(b);
    TurnTwentyTwo(b);
    TurnTwentyFive(b);
    SixteenTurns(b, 1);
    SixteenTurns(b, 2);
    SixteenTurns(b, 3);
    SixteenTurns(b, 6);
    SixteenTurns(b, 9);
    FewTurns(R16(b), 0);
    SmallTurns(R16(b));
    EightTurns(R16(b), 1);
    FewTurns(R8(R16(b)), 0);
  }

  // The functions of section 4.1.2, the schedule and the rounds, with machine operators.

  function Xors(x: bv32, y: bv32, z: bv32): bv32 { Unequal(Unequal(x, y), z) }

  function MCh(x: bv32, y: bv32, z: bv32): bv32 { Unequal(Both(x, y), Both(Inverse(x), z)) }
  function MMaj(x: bv32, y: bv32, z: bv32): bv32 { Xors(Both(x, y), Both(x, z), Both(y, z)) }
  function MBig0(x: bv32): bv32 { Xors(R2(x), R13(x), R22(x)) }
  function MBig1(x: bv32): bv32 { Xors(R6(x), R11(x), R25(x)) }
  function MSmall0(x: bv32): bv32 { Xors(R7(x), R18(x), S3(x)) }
  function MSmall1(x: bv32): bv32 { Xors(R17(x), R19(x), S10(x)) }

  lemma ChIs(x: bv32, y: bv32, z: bv32)
    ensures V(MCh(x, y, z)) == Ch(V(x), V(y), V(z))
  {
    hide V, And, Xor, Not, Both, Unequal, Inverse;
    AndIs(x, y);
    NotIs(x);
    AndIs(Inverse(x), z);
    XorIs(Both(x, y), Both(Inverse(x), z));
  }

  lemma XorsAre(x: bv32, y: bv32, z: bv32)
    ensures V(Xors(x, y, z)) == Xor(Xor(V(x), V(y)), V(z))
  {
    hide V, Xor, Unequal;
    XorIs(x, y);
    XorIs(Unequal(x, y), z);
  }

  lemma MajIs(x: bv32, y: bv32, z: bv32)
    ensures V(MMaj(x, y, z)) == Maj(V(x), V(y), V(z))
  {
    hide V, And, Xor, Both, Xors;
    AndIs(x, y);
    AndIs(x, z);
    AndIs(y, z);
    XorsAre(Both(x, y), Both(x, z), Both(y, z));
  }

  lemma Big0Is(x: bv32)
    ensures V(MBig0(x)) == BigSigma0(V(x))
  {
    hide V, Xor, Rotr, R2, R13, R22, Turns, Xors;
    XorsAre(R2(x), R13(x), R22(x));
    SmallTurns(x);
    LargeTurns(x);
    TurnsIs(x, 2);
    TurnsIs(x, 13);
    TurnsIs(x, 22);
  }

  lemma Big1Is(x: bv32)
    ensures V(MBig1(x)) == BigSigma1(V(x))
  {
    hide V, Xor, Rotr, R6, R11, R25, Turns, Xors;
    XorsAre(R6(x), R11(x), R25(x));
    SmallTurns(x);
    LargeTurns(x);
    TurnsIs(x, 6);
    TurnsIs(x, 11);
    TurnsIs(x, 25);
  }

  lemma Small0Is(x: bv32)
    ensures V(MSmall0(x)) == SmallSigma0(V(x))
  {
    hide V, Xor, Rotr, Shr, R7, R18, S3, Turns, Halves, Xors;
    XorsAre(R7(x), R18(x), S3(x));
    SmallTurns(x);
    LargeTurns(x);
    HalvesAre(x);
    TurnsIs(x, 7);
    TurnsIs(x, 18);
    HalvesIs(x, 3);
  }

  lemma Small1Is(x: bv32)
    ensures V(MSmall1(x)) == SmallSigma1(V(x))
  {
    hide V, Xor, Rotr, Shr, R17, R19, S10, Turns, Halves, Xors;
    XorsAre(R17(x), R19(x), S10(x));
    LargeTurns(x);
    HalvesAre(x);
    TurnsIs(x, 17);
    TurnsIs(x, 19);
    HalvesIs(x, 10);
  }

  function MNext(w2: bv32, w7: bv32, w15: bv32, w16: bv32): bv32 {
    Sum(Sum(Sum(MSmall1(w2), w7), MSmall0(w15)), w16)
  }

  lemma NextIs(w2: bv32, w7: bv32, w15: bv32, w16: bv32)
    ensures V(MNext(w2, w7, w15, w16)) == NextWord(V(w2), V(w7), V(w15), V(w16))
  {
    hide V, Add, SmallSigma0, SmallSigma1, MSmall0, MSmall1, Sum;
    Small1Is(w2);
    Small0Is(w15);
    AddIs(MSmall1(w2), w7);
    AddIs(Sum(MSmall1(w2), w7), MSmall0(w15));
    AddIs(Sum(Sum(MSmall1(w2), w7), MSmall0(w15)), w16);
  }

  datatype MVars = MVars(a: bv32, b: bv32, c: bv32, d: bv32, e: bv32, f: bv32, g: bv32, h: bv32)

  function VarsOf(m: MVars): Vars { Vars(V(m.a), V(m.b), V(m.c), V(m.d), V(m.e), V(m.f), V(m.g), V(m.h)) }

  function First(m: MVars, k: bv32, w: bv32): bv32 {
    Sum(Sum(Sum(Sum(m.h, MBig1(m.e)), MCh(m.e, m.f, m.g)), k), w)
  }

  function Second(m: MVars): bv32 { Sum(MBig0(m.a), MMaj(m.a, m.b, m.c)) }

  function MRound(m: MVars, k: bv32, w: bv32): MVars {
    var t1, t2 := First(m, k, w), Second(m);
    MVars(Sum(t1, t2), m.a, m.b, m.c, Sum(m.d, t1), m.e, m.f, m.g)
  }

  lemma FirstIs(m: MVars, k: bv32, w: bv32)
    ensures V(First(m, k, w)) ==
      Add(Add(Add(Add(V(m.h), BigSigma1(V(m.e))), Ch(V(m.e), V(m.f), V(m.g))), V(k)), V(w))
  {
    hide V, Add, BigSigma1, Ch, MBig1, MCh, Sum;
    Big1Is(m.e);
    ChIs(m.e, m.f, m.g);
    var s1 := Sum(m.h, MBig1(m.e));
    var s2 := Sum(s1, MCh(m.e, m.f, m.g));
    AddIs(m.h, MBig1(m.e));
    AddIs(s1, MCh(m.e, m.f, m.g));
    AddIs(s2, k);
    AddIs(Sum(s2, k), w);
  }

  lemma SecondIs(m: MVars)
    ensures V(Second(m)) == Add(BigSigma0(V(m.a)), Maj(V(m.a), V(m.b), V(m.c)))
  {
    hide V, Add, BigSigma0, Maj, MBig0, MMaj, Sum;
    Big0Is(m.a);
    MajIs(m.a, m.b, m.c);
    AddIs(MBig0(m.a), MMaj(m.a, m.b, m.c));
  }

  /** A round of the model is a round on machine words. */
  lemma RoundIs(m: MVars, k: bv32, w: bv32)
    ensures VarsOf(MRound(m, k, w)) == Round(VarsOf(m), V(k), V(w))
  {
    hide V, Add, First, Second, BigSigma0, BigSigma1, Ch, Maj, Sum;
    FirstIs(m, k, w);
    SecondIs(m);
    AddIs(First(m, k, w), Second(m));
    AddIs(m.d, First(m, k, w));
  }

  /** The next word of the schedule, and the next round, on machine words. */
  lemma Extend(block: Block, t: nat, w2: bv32, w7: bv32, w15: bv32, w16: bv32, w: bv32)
    requires 16 <= t < 64 && W(block, t - 2) == V(w2) && W(block, t - 7) == V(w7)
    requires W(block, t - 15) == V(w15) && W(block, t - 16) == V(w16) && MNext(w2, w7, w15, w16) == w
    ensures W(block, t) == V(w)
  {
    hide V, MNext, NextWord;
    NextIs(w2, w7, w15, w16);
  }

  lemma Advance(block: Block, t: nat, m: MVars, k: bv32, w: bv32, a: bv32, e: bv32) returns (m': MVars)
    requires t < 64 && Rounds(INITIAL, block, t) == VarsOf(m) && K[t] == V(k) && W(block, t) == V(w)
    requires Sum(First(m, k, w), Second(m)) == a && Sum(m.d, First(m, k, w)) == e
    ensures m' == MVars(a, m.a, m.b, m.c, e, m.e, m.f, m.g)
    ensures Rounds(INITIAL, block, t + 1) == VarsOf(m')
  {
    hide V, First, Second, Sum, Round, VarsOf, W;
    RoundIs(m, k, w);
    m' := MRound(m, k, w);
  }

  // The number a machine word spells, by its hexadecimal digits.

  function Digit(b: bv32): nat {
    (if b & 8 == 8 then 8 else 0) + (if b & 4 == 4 then 4 else 0) +
    (if b & 2 == 2 then 2 else 0) + (if b & 1 == 1 then 1 else 0)
  }

  function S4(b: bv32): bv32 { b >> 4 }

  lemma DigitBits(b: bv32)
    ensures S4(b) == Half(Half(Half(Half(b))))
    ensures Digit(b) == 8 * Bit(Half(Half(Half(b)))) + 4 * Bit(Half(Half(b))) + 2 * Bit(Half(b)) + Bit(b)
  {
  }

  lemma DigitValue(b: bv32, width: nat)
    ensures Value(b, width + 4) == 16 * Value(S4(b), width) + Digit(b)
  {
    hide Half, Bit, S4, Digit, Value;
    DigitBits(b);
    ValueStep(b, width + 3);
    ValueStep(Half(b), width + 2);
    ValueStep(Half(Half(b)), width + 1);
    ValueStep(Half(Half(Half(b))), width);
  }

  function S8(b: bv32): bv32 { b >> 8 }
  function S12(b: bv32): bv32 { b >> 12 }
  function S16(b: bv32): bv32 { b >> 16 }
  function S20(b: bv32): bv32 { b >> 20 }
  function S24(b: bv32): bv32 { b >> 24 }
  function S28(b: bv32): bv32 { b >> 28 }

  lemma ShiftEight(b: bv32)
    ensures S4(S4(b)) == S8(b)
  {
  }

  lemma ShiftTwelve(b: bv32)
    ensures S4(S8(b)) == S12(b)
  {
  }

  lemma ShiftSixteen(b: bv32)
    ensures S4(S12(b)) == S16(b)
  {
  }

  lemma ShiftTwenty(b: bv32)
    ensures S4(S16(b)) == S20(b)
  {
  }

  lemma ShiftTwentyFour(b: bv32)
    ensures S4(S20(b)) == S24(b)
  {
  }

  lemma ShiftTwentyEight(b: bv32)
    ensures S4(S24(b)) == S28(b)
  {
  }

  lemma NoDigits(b: bv32)
    ensures Value(b, 0) == 0
  {
  }

  /** The number that the eight digits of a word spell. */
  function Spelled(b: bv32): nat {
    0x1000_0000 * Digit(b >> 28) + 0x100_0000 * Digit(b >> 24) + 0x10_0000 * Digit(b >> 20) +
    0x1_0000 * Digit(b >> 16) + 0x1000 * Digit(b >> 12) + 0x100 * Digit(b >> 8) + 0x10 * Digit(b >> 4) + Digit(b)
  }

  lemma SpelledByDigits(b: bv32)
    ensures Spelled(b) ==
      0x1000_0000 * Digit(S28(b)) + 0x100_0000 * Digit(S24(b)) + 0x10_0000 * Digit(S20(b)) +
      0x1_0000 * Digit(S16(b)) + 0x1000 * Digit(S12(b)) + 0x100 * Digit(S8(b)) + 0x10 * Digit(S4(b)) + Digit(b)
  {
    hide Digit;
  }

  lemma SpelledIs(b: bv32)
    ensures V(b) == Spelled(b)
  {
    hide *;
    VIs(b);
    SpelledByDigits(b);
    DigitValue(b, 28);
    DigitValue(S4(b), 24);
    ShiftEight(b);
    DigitValue(S8(b), 20);
    ShiftTwelve(b);
    DigitValue(S12(b), 16);
    ShiftSixteen(b);
    DigitValue(S16(b), 12);
    ShiftTwenty(b);
    DigitValue(S20(b), 8);
    ShiftTwentyFour(b);
    DigitValue(S24(b), 4);
    ShiftTwentyEight(b);
    DigitValue(S28(b), 0);
    NoDigits(S4(S28(b)));
  }
}
