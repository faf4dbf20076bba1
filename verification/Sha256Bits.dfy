/**
 * The word functions of SHA-256 bit by bit, and where its constants come from. Together with the law that
 * words with the same bits are equal this fixes them without reference to how they are written.
 */
module Sha256Bits {
  import opened Words
  import opened WordBits
  import opened Sha256

  // ----- sections 4.1.2 of FIPS 180-4, bit by bit -------------------------------------------------------------------

  /** Bit `i` is taken from `f` where `e` has a one, and from `g` where it has a zero. */
  lemma ChooseBit(e: Word, f: Word, g: Word, i: nat)
    requires i < 32
    ensures Bit(Choose(e, f, g), i) <==> if Bit(e, i) then Bit(f, i) else Bit(g, i)
  {
    XorBit(And(e, f), And(Not(e), g), i);
    AndBit(e, f, i);
    AndBit(Not(e), g, i);
    NotBit(e, i);
  }

  /** Bit `i` is a one exactly when at least two of the three have a one there. */
  lemma MajorityBit(a: nat, b: nat, c: nat, i: nat)
    ensures Bit(Majority(a, b, c), i) <==>
            (Bit(a, i) && Bit(b, i)) || (Bit(a, i) && Bit(c, i)) || (Bit(b, i) && Bit(c, i))
  {
    XorBit(Xor(And(a, b), And(a, c)), And(b, c), i);
    XorBit(And(a, b), And(a, c), i);
    AndBit(a, b, i);
    AndBit(a, c, i);
    AndBit(b, c, i);
  }

  /** An odd number of the three. */
  predicate Odd3(a: bool, b: bool, c: bool) { (a != b) != c }

  lemma ThreeRotations(x: Word, l: nat, m: nat, n: nat, i: nat)
    requires 0 < l < 32 && 0 < m < 32 && 0 < n < 32 && i < 32
    ensures Bit(Xor(Xor(Rotr(x, Pow2(l)), Rotr(x, Pow2(m))), Rotr(x, Pow2(n))), i) <==>
            Odd3(Bit(x, (i + l) % 32), Bit(x, (i + m) % 32), Bit(x, (i + n) % 32))
  {
    XorBit(Xor(Rotr(x, Pow2(l)), Rotr(x, Pow2(m))), Rotr(x, Pow2(n)), i);
    XorBit(Rotr(x, Pow2(l)), Rotr(x, Pow2(m)), i);
    RotrBit(x, l, i);
    RotrBit(x, m, i);
    RotrBit(x, n, i);
  }

  lemma TwoAndShift(x: Word, l: nat, m: nat, n: nat, y: nat, i: nat)
    requires 0 < l < 32 && 0 < m < 32 && y == x / Pow2(n) && i < 32
    ensures Bit(Xor(Xor(Rotr(x, Pow2(l)), Rotr(x, Pow2(m))), y), i) <==>
            Odd3(Bit(x, (i + l) % 32), Bit(x, (i + m) % 32), Bit(x, i + n))
  {
    XorBit(Xor(Rotr(x, Pow2(l)), Rotr(x, Pow2(m))), y, i);
    XorBit(Rotr(x, Pow2(l)), Rotr(x, Pow2(m)), i);
    RotrBit(x, l, i);
    RotrBit(x, m, i);
    ShiftedBit(x, n, y, i);
  }

  lemma PowersUsed()
    ensures Pow2(2) == 4 && Pow2(3) == 8 && Pow2(6) == 0x40 && Pow2(7) == 0x80 && Pow2(10) == 0x400
    ensures Pow2(11) == 0x800 && Pow2(13) == 0x2000 && Pow2(17) == 0x2_0000 && Pow2(18) == 0x4_0000
    ensures Pow2(19) == 0x8_0000 && Pow2(22) == 0x40_0000 && Pow2(25) == 0x200_0000
  {
    assert Pow2(3) == 8;
    PowSum(3, 3);
    PowSum(6, 4);
    assert Pow2(4) == 16 && Pow2(7) == 0x80 && Pow2(11) == 0x800 && Pow2(12) == 0x1000;
    PowSum(11, 6);
    PowSum(11, 11);
    PowSum(12, 13);
    assert Pow2(18) == 0x4_0000;
  }

  /** The four functions of section 4.1.2; bits above the word count as zeros. */
  lemma SigmaBits(x: Word, i: nat)
    requires i < 32
    ensures Bit(BigSigma0(x), i) <==> Odd3(Bit(x, (i + 2) % 32), Bit(x, (i + 13) % 32), Bit(x, (i + 22) % 32))
    ensures Bit(BigSigma1(x), i) <==> Odd3(Bit(x, (i + 6) % 32), Bit(x, (i + 11) % 32), Bit(x, (i + 25) % 32))
    ensures Bit(SmallSigma0(x), i) <==> Odd3(Bit(x, (i + 7) % 32), Bit(x, (i + 18) % 32), Bit(x, i + 3))
    ensures Bit(SmallSigma1(x), i) <==> Odd3(Bit(x, (i + 17) % 32), Bit(x, (i + 19) % 32), Bit(x, i + 10))
  {
    PowersUsed();
    ThreeRotations(x, 2, 13, 22, i);
    ThreeRotations(x, 6, 11, 25, i);
    TwoAndShift(x, 7, 18, 3, x / 8, i);
    TwoAndShift(x, 17, 19, 10, x / 0x400, i);
  }

  // ----- section 4.2.2 and 5.3.3: the constants ---------------------------------------------------------------------

  predicate Divides(d: nat, n: nat)
    requires d > 0
  {
    n % d == 0
  }

  ghost predicate Prime(n: nat) { n >= 2 && forall d: nat :: 2 <= d < n ==> !Divides(d, n) }

  const PRIMES_0: seq<nat> := [2, 3, 5, 7, 11, 13, 17, 19, 23, 29, 31, 37, 41, 43, 47, 53]
  const PRIMES_1: seq<nat> := [59, 61, 67, 71, 73, 79, 83, 89, 97, 101, 103, 107, 109, 113, 127, 131]
  const PRIMES_2: seq<nat> := [137, 139, 149, 151, 157, 163, 167, 173, 179, 181, 191, 193, 197, 199, 211, 223]
  const PRIMES_3: seq<nat> := [227, 229, 233, 239, 241, 251, 257, 263, 269, 271, 277, 281, 283, 293, 307, 311]
  const PRIMES: seq<nat> := PRIMES_0 + PRIMES_1 + PRIMES_2 + PRIMES_3

  /** A divisor among the primes below 19, other than the number itself. */
  predicate SmallFactor(n: nat) {
    (n != 2 && n % 2 == 0) || (n != 3 && n % 3 == 0) || (n != 5 && n % 5 == 0) || (n != 7 && n % 7 == 0) ||
    (n != 11 && n % 11 == 0) || (n != 13 && n % 13 == 0) || (n != 17 && n % 17 == 0)
  }

  lemma MultipleAtLeast(n: nat, q: nat)
    requires q >= 2 && n >= 2 && n != q && n % q == 0
    ensures q < n && Divides(q, n)
  {
  }

  lemma SmallFactorDivides(n: nat)
    requires n >= 2 && SmallFactor(n)
    ensures !Prime(n)
  {
    if n != 2 && n % 2 == 0 { MultipleAtLeast(n, 2); }
    else if n != 3 && n % 3 == 0 { MultipleAtLeast(n, 3); }
    else if n != 5 && n % 5 == 0 { MultipleAtLeast(n, 5); }
    else if n != 7 && n % 7 == 0 { MultipleAtLeast(n, 7); }
    else if n != 11 && n % 11 == 0 { MultipleAtLeast(n, 11); }
    else if n != 13 && n % 13 == 0 { MultipleAtLeast(n, 13); }
    else { MultipleAtLeast(n, 17); }
  }

  lemma FactorOfProduct(e: nat, f: nat, q: nat, k: nat)
    requires q > 0 && e == q * k
    ensures e * f % q == 0
  {
    assert q * k * f == q * (k * f);
    MultipleMod(q, k * f);
  }

  lemma MultipleMod(q: nat, k: nat)
    requires q > 0
    ensures q * k % q == 0
  {
    QuotientIs(q * k, q, k, 0);
  }

  /** A factor below 19 has a prime factor in the list. */
  lemma SmallDivisor(n: nat, e: nat, f: nat)
    requires n == e * f && 2 <= e <= 18 && e < n
    ensures SmallFactor(n)
  {
    if e % 2 == 0 { FactorOfProduct(e, f, 2, e / 2); }
    else if e % 3 == 0 { FactorOfProduct(e, f, 3, e / 3); }
    else if e % 5 == 0 { FactorOfProduct(e, f, 5, e / 5); }
    else if e == 7 { FactorOfProduct(e, f, 7, 1); }
    else if e == 11 { FactorOfProduct(e, f, 11, 1); }
    else if e == 13 { FactorOfProduct(e, f, 13, 1); }
    else { FactorOfProduct(e, f, 17, 1); }
  }

  lemma OneIsSmall(n: nat, e: nat, f: nat)
    requires n == e * f && n < 361
    ensures e <= 18 || f <= 18
  {
    if e >= 19 && f >= 19 { Larger(e, 19, f); }
  }

  lemma HasSmallFactor(n: nat, d: nat)
    requires n < 361 && 2 <= d < n && Divides(d, n)
    ensures SmallFactor(n)
  {
    var f := Cofactor(n, d);
    OneIsSmall(n, d, f);
    if d <= 18 { SmallDivisor(n, d, f); } else { SmallDivisor(n, f, d); }
  }

  lemma AtMostOne(f: nat, d: nat)
    ensures f <= 1 ==> f * d <= d
  {
  }

  lemma Cofactor(n: nat, d: nat) returns (f: nat)
    requires 2 <= d < n && Divides(d, n)
    ensures n == d * f == f * d && 2 <= f < n
  {
    var low;
    f, low := DivMod(n, d);
    assert f * d + low == n && low == 0;
    AtMostOne(f, d);
    Larger(f, 2, d);
  }

  lemma NoDivisor(n: nat)
    requires 2 <= n < 361 && !SmallFactor(n)
    ensures Prime(n)
  {
    if d: nat :| 2 <= d < n && Divides(d, n) { HasSmallFactor(n, d); }
  }

  lemma PrimeIff(n: nat)
    requires 2 <= n < 361
    ensures Prime(n) <==> !SmallFactor(n)
  {
    if SmallFactor(n) {
      SmallFactorDivides(n);
    } else {
      NoDivisor(n);
    }
  }

  /** All numbers between have small factors. */
  predicate Composites(p: nat, q: nat)
    decreases q - p
  {
    p + 1 >= q || (SmallFactor(p + 1) && Composites(p + 1, q))
  }

  lemma {:induction false} CompositeBetween(p: nat, q: nat, n: nat)
    requires Composites(p, q) && p < n < q
    ensures SmallFactor(n)
    decreases q - p
  {
    if p + 1 < n { CompositeBetween(p + 1, q, n); }
  }

  /** Two primes with none between. */
  predicate Next(p: nat, q: nat) { p < q && !SmallFactor(p) && Composites(p, q) }

  lemma Steps0()
    ensures Next(2, 3) && Next(3, 5) && Next(5, 7) && Next(7, 11) && Next(11, 13) && Next(13, 17) && Next(17, 19)
    ensures Next(19, 23) && Next(23, 29)
  {
  }

  lemma Steps9()
    ensures Next(29, 31) && Next(31, 37) && Next(37, 41) && Next(41, 43) && Next(43, 47) && Next(47, 53)
    ensures Next(53, 59) && Next(59, 61) && Next(61, 67)
  {
  }

  lemma Steps18()
    ensures Next(67, 71) && Next(71, 73) && Next(73, 79) && Next(79, 83) && Next(83, 89) && Next(89, 97)
    ensures Next(97, 101) && Next(101, 103) && Next(103, 107)
  {
  }

  lemma Steps27()
    ensures Next(107, 109) && Next(109, 113) && Next(113, 127) && Next(127, 131) && Next(131, 137)
    ensures Next(137, 139) && Next(139, 149) && Next(149, 151) && Next(151, 157)
  {
  }

  lemma Steps36()
    ensures Next(157, 163) && Next(163, 167) && Next(167, 173) && Next(173, 179) && Next(179, 181)
    ensures Next(181, 191) && Next(191, 193) && Next(193, 197) && Next(197, 199)
  {
  }

  lemma Steps45()
    ensures Next(199, 211) && Next(211, 223) && Next(223, 227) && Next(227, 229) && Next(229, 233)
    ensures Next(233, 239) && Next(239, 241) && Next(241, 251) && Next(251, 257)
  {
  }

  lemma Steps54()
    ensures Next(257, 263) && Next(263, 269) && Next(269, 271) && Next(271, 277) && Next(277, 281)
    ensures Next(281, 283) && Next(283, 293) && Next(293, 307) && Next(307, 311)
  {
  }

  lemma Values0()
    ensures |PRIMES| == 64 && PRIMES[0] == 2
    ensures PRIMES[1] == 3 && PRIMES[2] == 5 && PRIMES[3] == 7 && PRIMES[4] == 11
    ensures PRIMES[5] == 13 && PRIMES[6] == 17 && PRIMES[7] == 19 && PRIMES[8] == 23 && PRIMES[9] == 29
  {
  }

  lemma Values9()
    ensures |PRIMES| == 64 && PRIMES[9] == 29
    ensures PRIMES[10] == 31 && PRIMES[11] == 37 && PRIMES[12] == 41 && PRIMES[13] == 43
    ensures PRIMES[14] == 47 && PRIMES[15] == 53 && PRIMES[16] == 59 && PRIMES[17] == 61 && PRIMES[18] == 67
  {
  }

  lemma Values18()
    ensures |PRIMES| == 64 && PRIMES[18] == 67
    ensures PRIMES[19] == 71 && PRIMES[20] == 73 && PRIMES[21] == 79 && PRIMES[22] == 83
    ensures PRIMES[23] == 89 && PRIMES[24] == 97 && PRIMES[25] == 101 && PRIMES[26] == 103 && PRIMES[27] == 107
  {
  }

  lemma Values27()
    ensures |PRIMES| == 64 && PRIMES[27] == 107
    ensures PRIMES[28] == 109 && PRIMES[29] == 113 && PRIMES[30] == 127 && PRIMES[31] == 131
    ensures PRIMES[32] == 137 && PRIMES[33] == 139 && PRIMES[34] == 149 && PRIMES[35] == 151 && PRIMES[36] == 157
  {
  }

  lemma Values36()
    ensures |PRIMES| == 64 && PRIMES[36] == 157
    ensures PRIMES[37] == 163 && PRIMES[38] == 167 && PRIMES[39] == 173 && PRIMES[40] == 179
    ensures PRIMES[41] == 181 && PRIMES[42] == 191 && PRIMES[43] == 193 && PRIMES[44] == 197 && PRIMES[45] == 199
  {
  }

  lemma Values45()
    ensures |PRIMES| == 64 && PRIMES[45] == 199
    ensures PRIMES[46] == 211 && PRIMES[47] == 223 && PRIMES[48] == 227 && PRIMES[49] == 229
    ensures PRIMES[50] == 233 && PRIMES[51] == 239 && PRIMES[52] == 241 && PRIMES[53] == 251 && PRIMES[54] == 257
  {
  }

  lemma Values54()
    ensures |PRIMES| == 64 && PRIMES[54] == 257
    ensures PRIMES[55] == 263 && PRIMES[56] == 269 && PRIMES[57] == 271 && PRIMES[58] == 277
    ensures PRIMES[59] == 281 && PRIMES[60] == 283 && PRIMES[61] == 293 && PRIMES[62] == 307 && PRIMES[63] == 311
  {
  }

  lemma AllSteps(i: nat)
    requires i + 1 < 64
    ensures |PRIMES| == 64 && Next(PRIMES[i], PRIMES[i + 1])
  {
    hide *;
    if i < 9 {
      Steps0();
      Values0();
      assert i == 0 || i == 1 || i == 2 || i == 3 || i == 4 || i == 5 || i == 6 || i == 7 || i == 8;
    } else if i < 18 {
      Steps9();
      Values9();
      assert i == 9 || i == 10 || i == 11 || i == 12 || i == 13 || i == 14 || i == 15 || i == 16 || i == 17;
    } else if i < 27 {
      Steps18();
      Values18();
      assert i == 18 || i == 19 || i == 20 || i == 21 || i == 22 || i == 23 || i == 24 || i == 25 || i == 26;
    } else if i < 36 {
      Steps27();
      Values27();
      assert i == 27 || i == 28 || i == 29 || i == 30 || i == 31 || i == 32 || i == 33 || i == 34 || i == 35;
    } else if i < 45 {
      Steps36();
      Values36();
      assert i == 36 || i == 37 || i == 38 || i == 39 || i == 40 || i == 41 || i == 42 || i == 43 || i == 44;
    } else if i < 54 {
      Steps45();
      Values45();
      assert i == 45 || i == 46 || i == 47 || i == 48 || i == 49 || i == 50 || i == 51 || i == 52 || i == 53;
    } else {
      Steps54();
      Values54();
      assert i == 54 || i == 55 || i == 56 || i == 57 || i == 58 || i == 59 || i == 60 || i == 61 || i == 62;
    }
  }

  lemma {:induction false} Locate(n: nat, k: nat) returns (i: nat)
    requires k < 64 && PRIMES[0] <= n <= PRIMES[k]
    ensures i <= k && PRIMES[i] <= n && (n != PRIMES[i] ==> i < k && n < PRIMES[i + 1])
  {
    if n == PRIMES[k] { return k; }
    if PRIMES[k - 1] <= n { return k - 1; }
    i := Locate(n, k - 1);
  }

  lemma {:induction false} PrimesIncrease(i: nat, j: nat)
    requires i < j < 64
    ensures PRIMES[i] < PRIMES[j]
  {
    AllSteps(j - 1);
    if i < j - 1 { PrimesIncrease(i, j - 1); }
  }

  lemma LastPrime()
    ensures |PRIMES| == 64 && PRIMES[0] == 2
    ensures PRIMES[63] == 311 && !SmallFactor(311)
  {
  }

  lemma PrimeAt(i: nat)
    requires i < 64
    ensures 2 <= PRIMES[i] <= 311 && !SmallFactor(PRIMES[i])
  {
    LastPrime();
    if i > 0 { PrimesIncrease(0, i); }
    if i < 63 {
      PrimesIncrease(i, 63);
      AllSteps(i);
    }
  }

  /** The list holds the first 64 primes: every prime up to 311 and nothing else, in order. */
  lemma FirstPrimes(n: nat)
    requires n <= 311
    ensures n in PRIMES <==> Prime(n)
  {
    LastPrime();
    if n in PRIMES {
      var i: nat :| i < 64 && PRIMES[i] == n;
      PrimeAt(i);
      PrimeIff(n);
    } else if n >= 2 {
      var i := Locate(n, 63);
      AllSteps(i);
      CompositeBetween(PRIMES[i], PRIMES[i + 1], n);
      PrimeIff(n);
    }
  }

  /** `c` is the first 32 bits of the fractional part of the cube root of `p`, behind its whole part `a`. */
  predicate CubeRoot(p: nat, a: nat, c: Word) {
    var r := a * WORD + c;
    r * r * r <= p * (WORD * WORD * WORD) < (r + 1) * (r + 1) * (r + 1)
  }

  predicate SquareRoot(p: nat, a: nat, c: Word) {
    var r := a * WORD + c;
    r * r <= p * (WORD * WORD) < (r + 1) * (r + 1)
  }

  /** The whole part of the cube root of the prime at `i`. */
  function RootPart(i: nat): nat {
    if i < 4 then 1 else if i < 9 then 2 else if i < 18 then 3 else if i < 30 then 4 else if i < 47 then 5 else 6
  }

  lemma Roots0()
    ensures CubeRoot(2, 1, 0x428a_2f98) && CubeRoot(3, 1, 0x7137_4491) && CubeRoot(5, 1, 0xb5c0_fbcf)
    ensures CubeRoot(7, 1, 0xe9b5_dba5) && CubeRoot(11, 2, 0x3956_c25b) && CubeRoot(13, 2, 0x59f1_11f1)
    ensures CubeRoot(17, 2, 0x923f_82a4) && CubeRoot(19, 2, 0xab1c_5ed5)
  {
  }

  lemma Roots8()
    ensures CubeRoot(23, 2, 0xd807_aa98) && CubeRoot(29, 3, 0x1283_5b01) && CubeRoot(31, 3, 0x2431_85be)
    ensures CubeRoot(37, 3, 0x550c_7dc3) && CubeRoot(41, 3, 0x72be_5d74) && CubeRoot(43, 3, 0x80de_b1fe)
    ensures CubeRoot(47, 3, 0x9bdc_06a7) && CubeRoot(53, 3, 0xc19b_f174)
  {
  }

  lemma Roots16()
    ensures CubeRoot(59, 3, 0xe49b_69c1) && CubeRoot(61, 3, 0xefbe_4786) && CubeRoot(67, 4, 0x0fc1_9dc6)
    ensures CubeRoot(71, 4, 0x240c_a1cc) && CubeRoot(73, 4, 0x2de9_2c6f) && CubeRoot(79, 4, 0x4a74_84aa)
    ensures CubeRoot(83, 4, 0x5cb0_a9dc) && CubeRoot(89, 4, 0x76f9_88da)
  {
  }

  lemma Roots24()
    ensures CubeRoot(97, 4, 0x983e_5152) && CubeRoot(101, 4, 0xa831_c66d) && CubeRoot(103, 4, 0xb003_27c8)
    ensures CubeRoot(107, 4, 0xbf59_7fc7) && CubeRoot(109, 4, 0xc6e0_0bf3) && CubeRoot(113, 4, 0xd5a7_9147)
    ensures CubeRoot(127, 5, 0x06ca_6351) && CubeRoot(131, 5, 0x1429_2967)
  {
  }

  lemma Roots32()
    ensures CubeRoot(137, 5, 0x27b7_0a85) && CubeRoot(139, 5, 0x2e1b_2138) && CubeRoot(149, 5, 0x4d2c_6dfc)
    ensures CubeRoot(151, 5, 0x5338_0d13) && CubeRoot(157, 5, 0x650a_7354) && CubeRoot(163, 5, 0x766a_0abb)
    ensures CubeRoot(167, 5, 0x81c2_c92e) && CubeRoot(173, 5, 0x9272_2c85)
  {
  }

  lemma Roots40()
    ensures CubeRoot(179, 5, 0xa2bf_e8a1) && CubeRoot(181, 5, 0xa81a_664b) && CubeRoot(191, 5, 0xc24b_8b70)
    ensures CubeRoot(193, 5, 0xc76c_51a3) && CubeRoot(197, 5, 0xd192_e819) && CubeRoot(199, 5, 0xd699_0624)
    ensures CubeRoot(211, 5, 0xf40e_3585) && CubeRoot(223, 6, 0x106a_a070)
  {
  }

  lemma Roots48()
    ensures CubeRoot(227, 6, 0x19a4_c116) && CubeRoot(229, 6, 0x1e37_6c08) && CubeRoot(233, 6, 0x2748_774c)
    ensures CubeRoot(239, 6, 0x34b0_bcb5) && CubeRoot(241, 6, 0x391c_0cb3) && CubeRoot(251, 6, 0x4ed8_aa4a)
    ensures CubeRoot(257, 6, 0x5b9c_ca4f) && CubeRoot(263, 6, 0x682e_6ff3)
  {
  }

  lemma Roots56()
    ensures CubeRoot(269, 6, 0x748f_82ee) && CubeRoot(271, 6, 0x78a5_636f) && CubeRoot(277, 6, 0x84c8_7814)
    ensures CubeRoot(281, 6, 0x8cc7_0208) && CubeRoot(283, 6, 0x90be_fffa) && CubeRoot(293, 6, 0xa450_6ceb)
    ensures CubeRoot(307, 6, 0xbef9_a3f7) && CubeRoot(311, 6, 0xc671_78f2)
  {
  }

  lemma Table0()
    ensures |K| == |PRIMES| == 64
    ensures PRIMES[0] == 2 && RootPart(0) == 1 && K[0] == 0x428a_2f98
    ensures PRIMES[1] == 3 && RootPart(1) == 1 && K[1] == 0x7137_4491
    ensures PRIMES[2] == 5 && RootPart(2) == 1 && K[2] == 0xb5c0_fbcf
    ensures PRIMES[3] == 7 && RootPart(3) == 1 && K[3] == 0xe9b5_dba5
    ensures PRIMES[4] == 11 && RootPart(4) == 2 && K[4] == 0x3956_c25b
    ensures PRIMES[5] == 13 && RootPart(5) == 2 && K[5] == 0x59f1_11f1
    ensures PRIMES[6] == 17 && RootPart(6) == 2 && K[6] == 0x923f_82a4
    ensures PRIMES[7] == 19 && RootPart(7) == 2 && K[7] == 0xab1c_5ed5
  {
  }

  lemma Table8()
    ensures |K| == |PRIMES| == 64
    ensures PRIMES[8] == 23 && RootPart(8) == 2 && K[8] == 0xd807_aa98
    ensures PRIMES[9] == 29 && RootPart(9) == 3 && K[9] == 0x1283_5b01
    ensures PRIMES[10] == 31 && RootPart(10) == 3 && K[10] == 0x2431_85be
    ensures PRIMES[11] == 37 && RootPart(11) == 3 && K[11] == 0x550c_7dc3
    ensures PRIMES[12] == 41 && RootPart(12) == 3 && K[12] == 0x72be_5d74
    ensures PRIMES[13] == 43 && RootPart(13) == 3 && K[13] == 0x80de_b1fe
    ensures PRIMES[14] == 47 && RootPart(14) == 3 && K[14] == 0x9bdc_06a7
    ensures PRIMES[15] == 53 && RootPart(15) == 3 && K[15] == 0xc19b_f174
  {
  }

  lemma Table16()
    ensures |K| == |PRIMES| == 64
    ensures PRIMES[16] == 59 && RootPart(16) == 3 && K[16] == 0xe49b_69c1
    ensures PRIMES[17] == 61 && RootPart(17) == 3 && K[17] == 0xefbe_4786
    ensures PRIMES[18] == 67 && RootPart(18) == 4 && K[18] == 0x0fc1_9dc6
    ensures PRIMES[19] == 71 && RootPart(19) == 4 && K[19] == 0x240c_a1cc
    ensures PRIMES[20] == 73 && RootPart(20) == 4 && K[20] == 0x2de9_2c6f
    ensures PRIMES[21] == 79 && RootPart(21) == 4 && K[21] == 0x4a74_84aa
    ensures PRIMES[22] == 83 && RootPart(22) == 4 && K[22] == 0x5cb0_a9dc
    ensures PRIMES[23] == 89 && RootPart(23) == 4 && K[23] == 0x76f9_88da
  {
  }

  lemma Table24()
    ensures |K| == |PRIMES| == 64
    ensures PRIMES[24] == 97 && RootPart(24) == 4 && K[24] == 0x983e_5152
    ensures PRIMES[25] == 101 && RootPart(25) == 4 && K[25] == 0xa831_c66d
    ensures PRIMES[26] == 103 && RootPart(26) == 4 && K[26] == 0xb003_27c8
    ensures PRIMES[27] == 107 && RootPart(27) == 4 && K[27] == 0xbf59_7fc7
    ensures PRIMES[28] == 109 && RootPart(28) == 4 && K[28] == 0xc6e0_0bf3
    ensures PRIMES[29] == 113 && RootPart(29) == 4 && K[29] == 0xd5a7_9147
    ensures PRIMES[30] == 127 && RootPart(30) == 5 && K[30] == 0x06ca_6351
    ensures PRIMES[31] == 131 && RootPart(31) == 5 && K[31] == 0x1429_2967
  {
  }

  lemma Table32()
    ensures |K| == |PRIMES| == 64
    ensures PRIMES[32] == 137 && RootPart(32) == 5 && K[32] == 0x27b7_0a85
    ensures PRIMES[33] == 139 && RootPart(33) == 5 && K[33] == 0x2e1b_2138
    ensures PRIMES[34] == 149 && RootPart(34) == 5 && K[34] == 0x4d2c_6dfc
    ensures PRIMES[35] == 151 && RootPart(35) == 5 && K[35] == 0x5338_0d13
    ensures PRIMES[36] == 157 && RootPart(36) == 5 && K[36] == 0x650a_7354
    ensures PRIMES[37] == 163 && RootPart(37) == 5 && K[37] == 0x766a_0abb
    ensures PRIMES[38] == 167 && RootPart(38) == 5 && K[38] == 0x81c2_c92e
    ensures PRIMES[39] == 173 && RootPart(39) == 5 && K[39] == 0x9272_2c85
  {
  }

  lemma Table40()
    ensures |K| == |PRIMES| == 64
    ensures PRIMES[40] == 179 && RootPart(40) == 5 && K[40] == 0xa2bf_e8a1
    ensures PRIMES[41] == 181 && RootPart(41) == 5 && K[41] == 0xa81a_664b
    ensures PRIMES[42] == 191 && RootPart(42) == 5 && K[42] == 0xc24b_8b70
    ensures PRIMES[43] == 193 && RootPart(43) == 5 && K[43] == 0xc76c_51a3
    ensures PRIMES[44] == 197 && RootPart(44) == 5 && K[44] == 0xd192_e819
    ensures PRIMES[45] == 199 && RootPart(45) == 5 && K[45] == 0xd699_0624
    ensures PRIMES[46] == 211 && RootPart(46) == 5 && K[46] == 0xf40e_3585
    ensures PRIMES[47] == 223 && RootPart(47) == 6 && K[47] == 0x106a_a070
  {
  }

  lemma Table48()
    ensures |K| == |PRIMES| == 64
    ensures PRIMES[48] == 227 && RootPart(48) == 6 && K[48] == 0x19a4_c116
    ensures PRIMES[49] == 229 && RootPart(49) == 6 && K[49] == 0x1e37_6c08
    ensures PRIMES[50] == 233 && RootPart(50) == 6 && K[50] == 0x2748_774c
    ensures PRIMES[51] == 239 && RootPart(51) == 6 && K[51] == 0x34b0_bcb5
    ensures PRIMES[52] == 241 && RootPart(52) == 6 && K[52] == 0x391c_0cb3
    ensures PRIMES[53] == 251 && RootPart(53) == 6 && K[53] == 0x4ed8_aa4a
    ensures PRIMES[54] == 257 && RootPart(54) == 6 && K[54] == 0x5b9c_ca4f
    ensures PRIMES[55] == 263 && RootPart(55) == 6 && K[55] == 0x682e_6ff3
  {
  }

  lemma Table56()
    ensures |K| == |PRIMES| == 64
    ensures PRIMES[56] == 269 && RootPart(56) == 6 && K[56] == 0x748f_82ee
    ensures PRIMES[57] == 271 && RootPart(57) == 6 && K[57] == 0x78a5_636f
    ensures PRIMES[58] == 277 && RootPart(58) == 6 && K[58] == 0x84c8_7814
    ensures PRIMES[59] == 281 && RootPart(59) == 6 && K[59] == 0x8cc7_0208
    ensures PRIMES[60] == 283 && RootPart(60) == 6 && K[60] == 0x90be_fffa
    ensures PRIMES[61] == 293 && RootPart(61) == 6 && K[61] == 0xa450_6ceb
    ensures PRIMES[62] == 307 && RootPart(62) == 6 && K[62] == 0xbef9_a3f7
    ensures PRIMES[63] == 311 && RootPart(63) == 6 && K[63] == 0xc671_78f2
  {
  }

  /** The constants of the rounds come from the cube roots of the first 64 primes, */
  lemma RoundConstants(i: nat)
    requires i < 64
    ensures |K| == |PRIMES| == 64 && CubeRoot(PRIMES[i], RootPart(i), K[i])
  {
    hide *;
    if i < 8 {
      Roots0();
      Table0();
      assert i == 0 || i == 1 || i == 2 || i == 3 || i == 4 || i == 5 || i == 6 || i == 7;
    } else if i < 16 {
      Roots8();
      Table8();
      assert i == 8 || i == 9 || i == 10 || i == 11 || i == 12 || i == 13 || i == 14 || i == 15;
    } else if i < 24 {
      Roots16();
      Table16();
      assert i == 16 || i == 17 || i == 18 || i == 19 || i == 20 || i == 21 || i == 22 || i == 23;
    } else if i < 32 {
      Roots24();
      Table24();
      assert i == 24 || i == 25 || i == 26 || i == 27 || i == 28 || i == 29 || i == 30 || i == 31;
    } else if i < 40 {
      Roots32();
      Table32();
      assert i == 32 || i == 33 || i == 34 || i == 35 || i == 36 || i == 37 || i == 38 || i == 39;
    } else if i < 48 {
      Roots40();
      Table40();
      assert i == 40 || i == 41 || i == 42 || i == 43 || i == 44 || i == 45 || i == 46 || i == 47;
    } else if i < 56 {
      Roots48();
      Table48();
      assert i == 48 || i == 49 || i == 50 || i == 51 || i == 52 || i == 53 || i == 54 || i == 55;
    } else {
      Roots56();
      Table56();
      assert i == 56 || i == 57 || i == 58 || i == 59 || i == 60 || i == 61 || i == 62 || i == 63;
    }
  }

  lemma SquareRoots()
    ensures SquareRoot(2, 1, 0x6a09_e667) && SquareRoot(3, 1, 0xbb67_ae85) && SquareRoot(5, 2, 0x3c6e_f372)
    ensures SquareRoot(7, 2, 0xa54f_f53a) && SquareRoot(11, 3, 0x510e_527f) && SquareRoot(13, 3, 0x9b05_688c)
    ensures SquareRoot(17, 4, 0x1f83_d9ab) && SquareRoot(19, 4, 0x5be0_cd19)
  {
  }

  /** and the initial value from the square roots of the first eight. */
  lemma InitialConstants(i: nat)
    requires i < 8
    ensures |INITIAL| == 8 && SquareRoot(PRIMES[i], if i < 2 then 1 else if i < 4 then 2 else if i < 6 then 3 else 4,
                                         INITIAL[i])
  {
    SquareRoots();
    assert i == 0 || i == 1 || i == 2 || i == 3 || i == 4 || i == 5 || i == 6 || i == 7;
  }
}
