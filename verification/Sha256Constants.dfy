/** The constants of SHA-256, pinned by what sections 4.2.2 and 5.3.3 of FIPS 180-4 say they are: the
    first 32 bits of the fractional parts of the cube and square roots of the first primes. */
module Sha256Constants {
  import opened Sha256

  // The primes, counted from zero.

  ghost predicate IsPrime(p: nat) { p >= 2 && forall d | 2 <= d < p :: p % d != 0 }

  ghost function PrimesBelow(p: nat): set<nat> { set n: nat | n < p && IsPrime(n) }

  ghost predicate IsNthPrime(t: nat, p: nat) { IsPrime(p) && |PrimesBelow(p)| == t }

  lemma NthPrimeIsUnique(t: nat, p: nat, p': nat)
    requires IsNthPrime(t, p) && IsNthPrime(t, p')
    ensures p == p'
  {
    if p < p' {
      FewerPrimesBelow(p, p');
    } else if p' < p {
      FewerPrimesBelow(p', p);
    }
  }

  lemma FewerPrimesBelow(p: nat, p': nat)
    requires p < p' && IsPrime(p)
    ensures |PrimesBelow(p)| < |PrimesBelow(p')|
  {
    hide IsPrime;
    Subset(PrimesBelow(p) + {p}, PrimesBelow(p'));
  }

  lemma {:induction false} Subset(a: set<nat>, b: set<nat>)
    requires a <= b
    ensures |a| <= |b|
  {
    if a != {} {
      var x :| x in a;
      Subset(a - {x}, b - {x});
    }
  }

  /** Below the square of nineteen, trial division by the primes up to seventeen finds every prime. */
  predicate Survives(n: nat) {
    && n >= 2 && (n <= 2 || n % 2 != 0) && (n <= 3 || n % 3 != 0) && (n <= 5 || n % 5 != 0) && (n <= 7 || n % 7 != 0)
    && (n <= 11 || n % 11 != 0) && (n <= 13 || n % 13 != 0) && (n <= 17 || n % 17 != 0)
  }

  predicate NoneSurvives(q: nat, p: nat)
    decreases p
  {
    p <= q + 1 || (!Survives(p - 1) && NoneSurvives(q, p - 1))
  }

  lemma Multiple(n: nat, d: nat, g: nat)
    requires n == d * g && d > 0
    ensures n % d == 0
  {
    Remainder(n, d, g, 0);
  }

  lemma SmallFactor(n: nat, f: nat, g: nat)
    requires n == f * g && 2 <= f <= 18 && f < n
    ensures !Survives(n)
  {
    if f in {2, 4, 6, 8, 10, 12, 14, 16, 18} {
      Multiple(n, 2, f / 2 * g);
    } else if f in {3, 9, 15} {
      Multiple(n, 3, f / 3 * g);
    } else {
      Multiple(n, f, g);
    }
  }

  lemma SievedPrime(n: nat)
    requires n < 361
    ensures IsPrime(n) <==> Survives(n)
  {
    if IsPrime(n) {
      assert Survives(n);
    } else if n >= 2 {
      hide Survives;
      var d :| 2 <= d < n && n % d == 0;
      Factor(n, d);
    }
  }

  lemma Product(d: nat, e: nat)
    requires d >= 19 && e >= 19
    ensures d * e >= 361
  {
    assert d * e >= 19 * e;
  }

  lemma Factor(n: nat, d: nat)
    requires 2 <= d < n < 361 && n % d == 0
    ensures !Survives(n)
  {
    hide Survives;
    var e := n / d;
    assert n == d * e;
    assert 2 <= e < n;
    if d <= 18 {
      SmallFactor(n, d, e);
    } else if e <= 18 {
      SmallFactor(n, e, d);
    } else {
      Product(d, e);
    }
  }

  lemma {:induction false} SievedGap(q: nat, p: nat)
    requires NoneSurvives(q, p) && p <= 361
    ensures forall n: nat | q < n < p :: !IsPrime(n)
    decreases p
  {
    hide IsPrime, Survives;
    if p > q + 1 {
      SievedPrime(p - 1);
      SievedGap(q, p - 1);
    }
  }

  lemma NextPrime(t: nat, q: nat, p: nat)
    requires t > 0 && IsNthPrime(t - 1, q) && q < p < 361 && Survives(p) && NoneSurvives(q, p)
    ensures IsNthPrime(t, p)
  {
    hide IsPrime, Survives;
    SievedPrime(p);
    SievedGap(q, p);
    assert PrimesBelow(p) == PrimesBelow(q) + {q};
  }

  lemma FirstPrimes()
    ensures IsNthPrime(0, 2) && IsNthPrime(1, 3) && IsNthPrime(2, 5) && IsNthPrime(3, 7)
    ensures IsNthPrime(4, 11) && IsNthPrime(5, 13) && IsNthPrime(6, 17) && IsNthPrime(7, 19)
  {
    assert PrimesBelow(2) == {};
    hide IsNthPrime;
    NextPrime(1, 2, 3);
    NextPrime(2, 3, 5);
    NextPrime(3, 5, 7);
    NextPrime(4, 7, 11);
    NextPrime(5, 11, 13);
    NextPrime(6, 13, 17);
    NextPrime(7, 17, 19);
  }

  // What the standard says of a word.

  predicate IsCubeRoot(n: nat, p: nat) {
    n * n * n <= p * 0x1_00000000_00000000_00000000 < (n + 1) * (n + 1) * (n + 1)
  }

  predicate IsSquareRoot(n: nat, p: nat) { n * n <= p * 0x1_00000000_00000000 < (n + 1) * (n + 1) }

  ghost predicate CubeRootOfPrime(t: nat, k: Word) {
    exists p: nat, n: nat :: IsNthPrime(t, p) && IsCubeRoot(n, p) && n % WORD_LIMIT == k
  }

  ghost predicate SquareRootOfPrime(t: nat, h: Word) {
    exists p: nat, n: nat :: IsNthPrime(t, p) && IsSquareRoot(n, p) && n % WORD_LIMIT == h
  }

  ghost predicate KeyIsCubeRoot(t: nat) { t < 64 ==> CubeRootOfPrime(t, K[t]) }

  predicate Constant(t: nat, n: Word) { t < 64 && K[t] == n }

  lemma Constants0()
    ensures Constant(0, 0x428a2f98) && Constant(1, 0x71374491) && Constant(2, 0xb5c0fbcf) && Constant(3, 0xe9b5dba5)
    ensures Constant(4, 0x3956c25b) && Constant(5, 0x59f111f1) && Constant(6, 0x923f82a4) && Constant(7, 0xab1c5ed5)
  {
  }

  lemma Constants1()
    ensures Constant(8, 0xd807aa98) && Constant(9, 0x12835b01) && Constant(10, 0x243185be) && Constant(11, 0x550c7dc3)
    ensures Constant(12, 0x72be5d74) && Constant(13, 0x80deb1fe) && Constant(14, 0x9bdc06a7) && Constant(15, 0xc19bf174)
  {
  }

  lemma Constants2()
    ensures Constant(16, 0xe49b69c1) && Constant(17, 0xefbe4786) && Constant(18, 0x0fc19dc6) && Constant(19, 0x240ca1cc)
    ensures Constant(20, 0x2de92c6f) && Constant(21, 0x4a7484aa) && Constant(22, 0x5cb0a9dc) && Constant(23, 0x76f988da)
  {
  }

  lemma Constants3()
    ensures Constant(24, 0x983e5152) && Constant(25, 0xa831c66d) && Constant(26, 0xb00327c8) && Constant(27, 0xbf597fc7)
    ensures Constant(28, 0xc6e00bf3) && Constant(29, 0xd5a79147) && Constant(30, 0x06ca6351) && Constant(31, 0x14292967)
  {
  }

  lemma Constants4()
    ensures Constant(32, 0x27b70a85) && Constant(33, 0x2e1b2138) && Constant(34, 0x4d2c6dfc) && Constant(35, 0x53380d13)
    ensures Constant(36, 0x650a7354) && Constant(37, 0x766a0abb) && Constant(38, 0x81c2c92e) && Constant(39, 0x92722c85)
  {
  }

  lemma Constants5()
    ensures Constant(40, 0xa2bfe8a1) && Constant(41, 0xa81a664b) && Constant(42, 0xc24b8b70) && Constant(43, 0xc76c51a3)
    ensures Constant(44, 0xd192e819) && Constant(45, 0xd6990624) && Constant(46, 0xf40e3585) && Constant(47, 0x106aa070)
  {
  }

  lemma Constants6()
    ensures Constant(48, 0x19a4c116) && Constant(49, 0x1e376c08) && Constant(50, 0x2748774c) && Constant(51, 0x34b0bcb5)
    ensures Constant(52, 0x391c0cb3) && Constant(53, 0x4ed8aa4a) && Constant(54, 0x5b9cca4f) && Constant(55, 0x682e6ff3)
  {
  }

  lemma Constants7()
    ensures Constant(56, 0x748f82ee) && Constant(57, 0x78a5636f) && Constant(58, 0x84c87814) && Constant(59, 0x8cc70208)
    ensures Constant(60, 0x90befffa) && Constant(61, 0xa4506ceb) && Constant(62, 0xbef9a3f7) && Constant(63, 0xc67178f2)
  {
  }

  /** The next prime p after the prime q, the cube root n of p, and its fractional part k. */
  lemma CubeRoot(t: nat, q: nat, p: nat, n: nat, k: Word)
    requires t > 0 && IsNthPrime(t - 1, q) && q < p < 361 && Survives(p) && NoneSurvives(q, p)
    requires IsCubeRoot(n, p) && n % WORD_LIMIT == k && Constant(t, k)
    ensures IsNthPrime(t, p) && KeyIsCubeRoot(t)
  {
    hide IsNthPrime, IsCubeRoot;
    NextPrime(t, q, p);
  }

  lemma FirstCubeRoot(n: nat, k: Word)
    requires IsNthPrime(0, 2) && IsCubeRoot(n, 2) && n % WORD_LIMIT == k && Constant(0, k)
    ensures KeyIsCubeRoot(0)
  {
    hide IsNthPrime, IsCubeRoot;
  }

  lemma CubeRoots0()
    ensures IsNthPrime(3, 7)
    ensures KeyIsCubeRoot(0) && KeyIsCubeRoot(1) && KeyIsCubeRoot(2) && KeyIsCubeRoot(3)
  {
    hide IsNthPrime, Constant, KeyIsCubeRoot;
    Constants0();
    FirstPrimes();
    FirstCubeRoot(0x1_428a2f98, 0x428a2f98);
    CubeRoot(1, 2, 3, 0x1_71374491, 0x71374491);
    CubeRoot(2, 3, 5, 0x1_b5c0fbcf, 0xb5c0fbcf);
    CubeRoot(3, 5, 7, 0x1_e9b5dba5, 0xe9b5dba5);
  }

  lemma CubeRoots1()
    ensures IsNthPrime(7, 19)
    ensures KeyIsCubeRoot(4) && KeyIsCubeRoot(5) && KeyIsCubeRoot(6) && KeyIsCubeRoot(7)
  {
    hide IsNthPrime, Constant, KeyIsCubeRoot;
    Constants0();
    CubeRoots0();
    CubeRoot(4, 7, 11, 0x2_3956c25b, 0x3956c25b);
    CubeRoot(5, 11, 13, 0x2_59f111f1, 0x59f111f1);
    CubeRoot(6, 13, 17, 0x2_923f82a4, 0x923f82a4);
    CubeRoot(7, 17, 19, 0x2_ab1c5ed5, 0xab1c5ed5);
  }

  lemma CubeRoots2()
    ensures IsNthPrime(11, 37)
    ensures KeyIsCubeRoot(8) && KeyIsCubeRoot(9) && KeyIsCubeRoot(10) && KeyIsCubeRoot(11)
  {
    hide IsNthPrime, Constant, KeyIsCubeRoot;
    Constants1();
    CubeRoots1();
    CubeRoot(8, 19, 23, 0x2_d807aa98, 0xd807aa98);
    CubeRoot(9, 23, 29, 0x3_12835b01, 0x12835b01);
    CubeRoot(10, 29, 31, 0x3_243185be, 0x243185be);
    CubeRoot(11, 31, 37, 0x3_550c7dc3, 0x550c7dc3);
  }

  lemma CubeRoots3()
    ensures IsNthPrime(15, 53)
    ensures KeyIsCubeRoot(12) && KeyIsCubeRoot(13) && KeyIsCubeRoot(14) && KeyIsCubeRoot(15)
  {
    hide IsNthPrime, Constant, KeyIsCubeRoot;
    Constants1();
    CubeRoots2();
    CubeRoot(12, 37, 41, 0x3_72be5d74, 0x72be5d74);
    CubeRoot(13, 41, 43, 0x3_80deb1fe, 0x80deb1fe);
    CubeRoot(14, 43, 47, 0x3_9bdc06a7, 0x9bdc06a7);
    CubeRoot(15, 47, 53, 0x3_c19bf174, 0xc19bf174);
  }

  lemma CubeRoots4()
    ensures IsNthPrime(19, 71)
    ensures KeyIsCubeRoot(16) && KeyIsCubeRoot(17) && KeyIsCubeRoot(18) && KeyIsCubeRoot(19)
  {
    hide IsNthPrime, Constant, KeyIsCubeRoot;
    Constants2();
    CubeRoots3();
    CubeRoot(16, 53, 59, 0x3_e49b69c1, 0xe49b69c1);
    CubeRoot(17, 59, 61, 0x3_efbe4786, 0xefbe4786);
    CubeRoot(18, 61, 67, 0x4_0fc19dc6, 0x0fc19dc6);
    CubeRoot(19, 67, 71, 0x4_240ca1cc, 0x240ca1cc);
  }

  lemma CubeRoots5()
    ensures IsNthPrime(23, 89)
    ensures KeyIsCubeRoot(20) && KeyIsCubeRoot(21) && KeyIsCubeRoot(22) && KeyIsCubeRoot(23)
  {
    hide IsNthPrime, Constant, KeyIsCubeRoot;
    Constants2();
    CubeRoots4();
    CubeRoot(20, 71, 73, 0x4_2de92c6f, 0x2de92c6f);
    CubeRoot(21, 73, 79, 0x4_4a7484aa, 0x4a7484aa);
    CubeRoot(22, 79, 83, 0x4_5cb0a9dc, 0x5cb0a9dc);
    CubeRoot(23, 83, 89, 0x4_76f988da, 0x76f988da);
  }

  lemma CubeRoots6()
    ensures IsNthPrime(27, 107)
    ensures KeyIsCubeRoot(24) && KeyIsCubeRoot(25) && KeyIsCubeRoot(26) && KeyIsCubeRoot(27)
  {
    hide IsNthPrime, Constant, KeyIsCubeRoot;
    Constants3();
    CubeRoots5();
    CubeRoot(24, 89, 97, 0x4_983e5152, 0x983e5152);
    CubeRoot(25, 97, 101, 0x4_a831c66d, 0xa831c66d);
    CubeRoot(26, 101, 103, 0x4_b00327c8, 0xb00327c8);
    CubeRoot(27, 103, 107, 0x4_bf597fc7, 0xbf597fc7);
  }

  lemma CubeRoots7()
    ensures IsNthPrime(31, 131)
    ensures KeyIsCubeRoot(28) && KeyIsCubeRoot(29) && KeyIsCubeRoot(30) && KeyIsCubeRoot(31)
  {
    hide IsNthPrime, Constant, KeyIsCubeRoot;
    Constants3();
    CubeRoots6();
    CubeRoot(28, 107, 109, 0x4_c6e00bf3, 0xc6e00bf3);
    CubeRoot(29, 109, 113, 0x4_d5a79147, 0xd5a79147);
    CubeRoot(30, 113, 127, 0x5_06ca6351, 0x06ca6351);
    CubeRoot(31, 127, 131, 0x5_14292967, 0x14292967);
  }

  lemma CubeRoots8()
    ensures IsNthPrime(35, 151)
    ensures KeyIsCubeRoot(32) && KeyIsCubeRoot(33) && KeyIsCubeRoot(34) && KeyIsCubeRoot(35)
  {
    hide IsNthPrime, Constant, KeyIsCubeRoot;
    Constants4();
    CubeRoots7();
    CubeRoot(32, 131, 137, 0x5_27b70a85, 0x27b70a85);
    CubeRoot(33, 137, 139, 0x5_2e1b2138, 0x2e1b2138);
    CubeRoot(34, 139, 149, 0x5_4d2c6dfc, 0x4d2c6dfc);
    CubeRoot(35, 149, 151, 0x5_53380d13, 0x53380d13);
  }

  lemma CubeRoots9()
    ensures IsNthPrime(39, 173)
    ensures KeyIsCubeRoot(36) && KeyIsCubeRoot(37) && KeyIsCubeRoot(38) && KeyIsCubeRoot(39)
  {
    hide IsNthPrime, Constant, KeyIsCubeRoot;
    Constants4();
    CubeRoots8();
    CubeRoot(36, 151, 157, 0x5_650a7354, 0x650a7354);
    CubeRoot(37, 157, 163, 0x5_766a0abb, 0x766a0abb);
    CubeRoot(38, 163, 167, 0x5_81c2c92e, 0x81c2c92e);
    CubeRoot(39, 167, 173, 0x5_92722c85, 0x92722c85);
  }

  lemma CubeRoots10()
    ensures IsNthPrime(43, 193)
    ensures KeyIsCubeRoot(40) && KeyIsCubeRoot(41) && KeyIsCubeRoot(42) && KeyIsCubeRoot(43)
  {
    hide IsNthPrime, Constant, KeyIsCubeRoot;
    Constants5();
    CubeRoots9();
    CubeRoot(40, 173, 179, 0x5_a2bfe8a1, 0xa2bfe8a1);
    CubeRoot(41, 179, 181, 0x5_a81a664b, 0xa81a664b);
    CubeRoot(42, 181, 191, 0x5_c24b8b70, 0xc24b8b70);
    CubeRoot(43, 191, 193, 0x5_c76c51a3, 0xc76c51a3);
  }

  lemma CubeRoots11()
    ensures IsNthPrime(47, 223)
    ensures KeyIsCubeRoot(44) && KeyIsCubeRoot(45) && KeyIsCubeRoot(46) && KeyIsCubeRoot(47)
  {
    hide IsNthPrime, Constant, KeyIsCubeRoot;
    Constants5();
    CubeRoots10();
    CubeRoot(44, 193, 197, 0x5_d192e819, 0xd192e819);
    CubeRoot(45, 197, 199, 0x5_d6990624, 0xd6990624);
    CubeRoot(46, 199, 211, 0x5_f40e3585, 0xf40e3585);
    CubeRoot(47, 211, 223, 0x6_106aa070, 0x106aa070);
  }

  lemma CubeRoots12()
    ensures IsNthPrime(51, 239)
    ensures KeyIsCubeRoot(48) && KeyIsCubeRoot(49) && KeyIsCubeRoot(50) && KeyIsCubeRoot(51)
  {
    hide IsNthPrime, Constant, KeyIsCubeRoot;
    Constants6();
    CubeRoots11();
    CubeRoot(48, 223, 227, 0x6_19a4c116, 0x19a4c116);
    CubeRoot(49, 227, 229, 0x6_1e376c08, 0x1e376c08);
    CubeRoot(50, 229, 233, 0x6_2748774c, 0x2748774c);
    CubeRoot(51, 233, 239, 0x6_34b0bcb5, 0x34b0bcb5);
  }

  lemma CubeRoots13()
    ensures IsNthPrime(55, 263)
    ensures KeyIsCubeRoot(52) && KeyIsCubeRoot(53) && KeyIsCubeRoot(54) && KeyIsCubeRoot(55)
  {
    hide IsNthPrime, Constant, KeyIsCubeRoot;
    Constants6();
    CubeRoots12();
    CubeRoot(52, 239, 241, 0x6_391c0cb3, 0x391c0cb3);
    CubeRoot(53, 241, 251, 0x6_4ed8aa4a, 0x4ed8aa4a);
    CubeRoot(54, 251, 257, 0x6_5b9cca4f, 0x5b9cca4f);
    CubeRoot(55, 257, 263, 0x6_682e6ff3, 0x682e6ff3);
  }

  lemma CubeRoots14()
    ensures IsNthPrime(59, 281)
    ensures KeyIsCubeRoot(56) && KeyIsCubeRoot(57) && KeyIsCubeRoot(58) && KeyIsCubeRoot(59)
  {
    hide IsNthPrime, Constant, KeyIsCubeRoot;
    Constants7();
    CubeRoots13();
    CubeRoot(56, 263, 269, 0x6_748f82ee, 0x748f82ee);
    CubeRoot(57, 269, 271, 0x6_78a5636f, 0x78a5636f);
    CubeRoot(58, 271, 277, 0x6_84c87814, 0x84c87814);
    CubeRoot(59, 277, 281, 0x6_8cc70208, 0x8cc70208);
  }

  lemma CubeRoots15()
    ensures IsNthPrime(63, 311)
    ensures KeyIsCubeRoot(60) && KeyIsCubeRoot(61) && KeyIsCubeRoot(62) && KeyIsCubeRoot(63)
  {
    hide IsNthPrime, Constant, KeyIsCubeRoot;
    Constants7();
    CubeRoots14();
    CubeRoot(60, 281, 283, 0x6_90befffa, 0x90befffa);
    CubeRoot(61, 283, 293, 0x6_a4506ceb, 0xa4506ceb);
    CubeRoot(62, 293, 307, 0x6_bef9a3f7, 0xbef9a3f7);
    CubeRoot(63, 307, 311, 0x6_c67178f2, 0xc67178f2);
  }

  /** Section 4.2.2: every round constant. */
  lemma RoundConstants(t: nat)
    requires t < 64
    ensures CubeRootOfPrime(t, K[t])
  {
    EveryKey(t);
  }

  lemma EveryKey(t: nat)
    requires t < 64
    ensures KeyIsCubeRoot(t)
  {
    hide KeyIsCubeRoot, IsNthPrime;
    CubeRoots0();
    CubeRoots1();
    CubeRoots2();
    CubeRoots3();
    CubeRoots4();
    CubeRoots5();
    CubeRoots6();
    CubeRoots7();
    CubeRoots8();
    CubeRoots9();
    CubeRoots10();
    CubeRoots11();
    CubeRoots12();
    CubeRoots13();
    CubeRoots14();
    CubeRoots15();
  }

  lemma SquareRoot(t: nat, p: nat, n: nat, h: Word)
    requires IsNthPrime(t, p) && IsSquareRoot(n, p) && n % WORD_LIMIT == h
    ensures SquareRootOfPrime(t, h)
  {
    hide IsNthPrime, IsSquareRoot;
  }

  /** Section 5.3.3: every word of the initial hash value. */
  lemma InitialHashValue(t: nat)
    requires t < 8
    ensures SquareRootOfPrime(t, INITIAL[t])
  {
    hide SquareRootOfPrime, IsNthPrime;
    FirstPrimes();
    SquareRoot(0, 2, 0x1_6a09e667, 0x6a09e667);
    SquareRoot(1, 3, 0x1_bb67ae85, 0xbb67ae85);
    SquareRoot(2, 5, 0x2_3c6ef372, 0x3c6ef372);
    SquareRoot(3, 7, 0x2_a54ff53a, 0xa54ff53a);
    SquareRoot(4, 11, 0x3_510e527f, 0x510e527f);
    SquareRoot(5, 13, 0x3_9b05688c, 0x9b05688c);
    SquareRoot(6, 17, 0x4_1f83d9ab, 0x1f83d9ab);
    SquareRoot(7, 19, 0x4_5be0cd19, 0x5be0cd19);
  }
}
