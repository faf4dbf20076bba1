/**
 * The 256 literals of the generated CRC candidate are the table that its generator describes.
 */
module EdgeCrcTable {
  import opened Words
  import opened EdgeCrc

  // ----- bytes ----------------------------------------------------------------------------------------------------

  function Num(x: bv8): (n: nat)
    ensures n < 256
  {
    x as nat
  }

  lemma Half(x: bv8)
    ensures Num(x >> 1) == Num(x) / 2 && Num(x & 1) == Num(x) % 2
  {
  }

  lemma LowBit(a: bv8)
    ensures (Num(a & 1) == 0 <==> a & 1 == 0) && (Num(a & 1) == 1 <==> a & 1 == 1)
  {
  }

  lemma HalvesOfXor(a: bv8, b: bv8)
    ensures (a ^ b) >> 1 == (a >> 1) ^ (b >> 1) && (a ^ b) & 1 == (a & 1) ^ (b & 1)
  {
  }

  lemma Parity(a: bv8, b: bv8)
    ensures Num(a ^ b) % 2 == if Num(a) % 2 == Num(b) % 2 then 0 else 1
  {
    Half(a);
    Half(b);
    Half(a ^ b);
    HalvesOfXor(a, b);
    LowBit(a);
    LowBit(b);
    LowBit(a ^ b);
  }

  lemma XorFromHalves(a: nat, b: nat, c: nat)
    requires c / 2 == Xor(a / 2, b / 2) && c % 2 == if a % 2 == b % 2 then 0 else 1
    ensures Xor(a, b) == c
  {
    XorStep(a, b);
    Halves(Xor(a, b), c);
  }

  lemma HalfOfXor(a: bv8, b: bv8)
    ensures Num(a ^ b) / 2 == Num((a >> 1) ^ (b >> 1))
  {
    Half(a ^ b);
    HalvesOfXor(a, b);
  }

  lemma ZeroXor(b: bv8)
    ensures Num(0) == 0 && Num(0 ^ b) == Num(b)
  {
  }

  lemma ZeroOf(a: bv8)
    requires Num(a) == 0
    ensures a == 0
  {
  }

  /** Exclusive or of bytes, as numbers. */
  lemma {:induction false} XorBytes(a: bv8, b: bv8)
    ensures Xor(Num(a), Num(b)) == Num(a ^ b)
    decreases Num(a)
  {
    if Num(a) == 0 {
      ZeroOf(a);
      ZeroXor(b);
      XorCommutes(0, Num(b));
    } else {
      hide *;
      Half(a);
      Half(b);
      XorBytes(a >> 1, b >> 1);
      HalfOfXor(a, b);
      Parity(a, b);
      XorFromHalves(Num(a), Num(b), Num(a ^ b));
    }
  }

  lemma HighBit(x: bv8)
    ensures Num((x >> 1) | 128) == Num(x >> 1) + 128
  {
  }

  /** Shifting a byte to the right, with the low bit of the byte above coming in. */
  function Shifted(x: bv8, above: bv8): bv8 { (x >> 1) | ((above & 1) << 7) }

  /** The same on numbers. */
  function Mixed(x: Byte, above: Byte): (n: Byte) { x / 2 + 128 * (above % 2) }

  lemma ShiftedNum(x: bv8, above: bv8)
    ensures Num(Shifted(x, above)) == Mixed(Num(x), Num(above))
  {
    Half(x);
    Half(above);
    LowBit(above);
    HighBit(x);
    if above & 1 == 0 {
      assert Shifted(x, above) == x >> 1;
    } else {
      assert above & 1 == 1;
      assert Shifted(x, above) == (x >> 1) | 128;
    }
  }

  lemma HalfNum(x: bv8)
    ensures Num(x >> 1) == Mixed(Num(x), 0)
  {
    Half(x);
  }

  // ----- words ----------------------------------------------------------------------------------------------------

  function ByteAt(x: bv32, k: bv5): bv8 { ((x >> k) & 0xff) as bv8 }

  function Exor(a: bv32, b: bv32): bv32 { a ^ b }

  function HalfWord(x: bv32): bv32 { x >> 1 }

  predicate Odd(x: bv32) { x & 1 == 1 }

  /** The number that a word stands for, from its four bytes. */
  function Value(x: bv32): (n: nat)
    ensures n < WORD
  {
    FromBytes(Num(ByteAt(x, 24)), Num(ByteAt(x, 16)), Num(ByteAt(x, 8)), Num(ByteAt(x, 0)))
  }

  function FromBytes(a: Byte, b: Byte, c: Byte, d: Byte): (n: nat)
    ensures n < WORD
  {
    256 * (256 * (256 * a + b) + c) + d
  }

  lemma RawXor(a: bv32, b: bv32, k: bv5)
    ensures ByteAt(a ^ b, k) == ByteAt(a, k) ^ ByteAt(b, k)
  {
  }

  lemma ExorIs(a: bv32, b: bv32)
    ensures Exor(a, b) == a ^ b
  {
  }

  lemma BytesXor(a: bv32, b: bv32, k: bv5)
    ensures ByteAt(Exor(a, b), k) == ByteAt(a, k) ^ ByteAt(b, k)
  {
    hide *;
    RawXor(a, b, k);
    ExorIs(a, b);
  }

  lemma BytesHalf(x: bv32)
    ensures ByteAt(HalfWord(x), 24) == ByteAt(x, 24) >> 1
    ensures ByteAt(HalfWord(x), 16) == Shifted(ByteAt(x, 16), ByteAt(x, 24))
    ensures ByteAt(HalfWord(x), 8) == Shifted(ByteAt(x, 8), ByteAt(x, 16))
    ensures ByteAt(HalfWord(x), 0) == Shifted(ByteAt(x, 0), ByteAt(x, 8))
  {
  }

  lemma LowOf(a: nat, b: Byte)
    ensures Xor(256 * a, b) == 256 * a + b
  {
    EightBits(a);
    XorHigh(a, 0, b, 8);
  }

  lemma ByteXor(b: Byte, d: Byte)
    ensures Xor(b, d) < 256
  {
    EightBits(0);
    XorBelow(b, d, 8);
  }

  lemma HighXor(a: nat, c: nat)
    ensures Xor(256 * a, 256 * c) == 256 * Xor(a, c)
  {
    EightBits(a);
    EightBits(c);
    EightBits(Xor(a, c));
    hide *;
    XorShl(a, c, 8);
  }

  lemma XorLow(a: nat, c: nat, b: Byte, d: Byte)
    ensures Xor(b, d) < 256 && Xor(256 * a + b, 256 * c + d) == 256 * Xor(a, c) + Xor(b, d)
  {
    hide *;
    ByteXor(b, d);
    LowOf(a, b);
    LowOf(c, d);
    LowOf(Xor(a, c), Xor(b, d));
    HighXor(a, c);
    XorRegroup(256 * a, b, 256 * c, d);
  }

  lemma Doubled(a: nat, c: nat)
    ensures Xor(2 * a, 2 * c) == 2 * Xor(a, c)
  {
    XorFromHalves(2 * a, 2 * c, 2 * Xor(a, c));
  }

  lemma {:induction false} XorShl(a: nat, c: nat, k: nat)
    ensures Xor(Shl(a, k), Shl(c, k)) == Shl(Xor(a, c), k)
  {
    if k > 0 {
      XorShl(a, c, k - 1);
      Doubled(Shl(a, k - 1), Shl(c, k - 1));
    }
  }

  lemma ByteOfXor(a: bv32, b: bv32, k: bv5)
    ensures Xor(Num(ByteAt(a, k)), Num(ByteAt(b, k))) == Num(ByteAt(Exor(a, b), k))
  {
    BytesXor(a, b, k);
    XorBytes(ByteAt(a, k), ByteAt(b, k));
  }

  lemma XorOfBytes(a: Byte, b: Byte, c: Byte, d: Byte, e: Byte, f: Byte, g: Byte, h: Byte)
    ensures Xor(a, e) < 256 && Xor(b, f) < 256 && Xor(c, g) < 256 && Xor(d, h) < 256
    ensures Xor(256 * (256 * (256 * a + b) + c) + d, 256 * (256 * (256 * e + f) + g) + h) ==
            256 * (256 * (256 * Xor(a, e) + Xor(b, f)) + Xor(c, g)) + Xor(d, h)
  {
    hide *;
    ByteXor(a, e);
    XorLow(a, e, b, f);
    XorLow(256 * a + b, 256 * e + f, c, g);
    XorLow(256 * (256 * a + b) + c, 256 * (256 * e + f) + g, d, h);
  }

  lemma XorFromBytes(a: Byte, b: Byte, c: Byte, d: Byte, e: Byte, f: Byte, g: Byte, h: Byte)
    ensures Xor(a, e) < 256 && Xor(b, f) < 256 && Xor(c, g) < 256 && Xor(d, h) < 256
    ensures Xor(FromBytes(a, b, c, d), FromBytes(e, f, g, h)) ==
            FromBytes(Xor(a, e), Xor(b, f), Xor(c, g), Xor(d, h))
  {
    hide *;
    XorOfBytes(a, b, c, d, e, f, g, h);
    FromBytesIs(a, b, c, d);
    FromBytesIs(e, f, g, h);
    FromBytesIs(Xor(a, e), Xor(b, f), Xor(c, g), Xor(d, h));
  }

  lemma FromBytesIs(a: Byte, b: Byte, c: Byte, d: Byte)
    ensures FromBytes(a, b, c, d) == 256 * (256 * (256 * a + b) + c) + d
  {
  }

  lemma ValueIs(x: bv32)
    ensures Value(x) ==
            FromBytes(Num(ByteAt(x, 24)), Num(ByteAt(x, 16)), Num(ByteAt(x, 8)), Num(ByteAt(x, 0)))
  {
  }

  /** Exclusive or of words, as numbers. */
  lemma XorWords(a: bv32, b: bv32)
    ensures Xor(Value(a), Value(b)) == Value(Exor(a, b))
  {
    hide *;
    ValueIs(a);
    ValueIs(b);
    ValueIs(Exor(a, b));
    ByteOfXor(a, b, 24);
    ByteOfXor(a, b, 16);
    ByteOfXor(a, b, 8);
    ByteOfXor(a, b, 0);
    XorFromBytes(Num(ByteAt(a, 24)), Num(ByteAt(a, 16)), Num(ByteAt(a, 8)), Num(ByteAt(a, 0)),
                 Num(ByteAt(b, 24)), Num(ByteAt(b, 16)), Num(ByteAt(b, 8)), Num(ByteAt(b, 0)));
  }

  lemma HalfOfBytes(a: Byte, b: Byte, c: Byte, d: Byte)
    ensures FromBytes(a, b, c, d) % 2 == d % 2
    ensures FromBytes(a, b, c, d) / 2 == FromBytes(Mixed(a, 0), Mixed(b, a), Mixed(c, b), Mixed(d, c))
  {
  }

  /** Shifting a word, as a number. */
  lemma ShiftWord(x: bv32)
    ensures Value(HalfWord(x)) == Value(x) / 2 && Value(x) % 2 == Num(ByteAt(x, 0)) % 2
  {
    hide *;
    ValueIs(x);
    ValueIs(HalfWord(x));
    TopByte(x);
    ByteBelow(x, 16, 24);
    ByteBelow(x, 8, 16);
    ByteBelow(x, 0, 8);
    HalfOfBytes(Num(ByteAt(x, 24)), Num(ByteAt(x, 16)), Num(ByteAt(x, 8)), Num(ByteAt(x, 0)));
  }

  lemma TopByte(x: bv32)
    ensures Num(ByteAt(HalfWord(x), 24)) == Mixed(Num(ByteAt(x, 24)), 0)
  {
    BytesHalf(x);
    HalfNum(ByteAt(x, 24));
  }

  lemma ByteBelow(x: bv32, k: bv5, above: bv5)
    requires (k == 16 && above == 24) || (k == 8 && above == 16) || (k == 0 && above == 8)
    ensures Num(ByteAt(HalfWord(x), k)) == Mixed(Num(ByteAt(x, k)), Num(ByteAt(x, above)))
  {
    ByteShifted(x, k, above);
    hide *;
    ShiftedNum(ByteAt(x, k), ByteAt(x, above));
  }

  lemma ByteShifted(x: bv32, k: bv5, above: bv5)
    requires (k == 16 && above == 24) || (k == 8 && above == 16) || (k == 0 && above == 8)
    ensures ByteAt(HalfWord(x), k) == Shifted(ByteAt(x, k), ByteAt(x, above))
  {
    BytesHalf(x);
  }

  // ----- the literals ---------------------------------------------------------------------------------------------

  const POLY: bv32 := 0xedb8_8320

  lemma PolyValue()
    ensures Value(POLY) == POLYNOMIAL
  {
    assert ByteAt(POLY, 24) == 0xed && ByteAt(POLY, 16) == 0xb8 && ByteAt(POLY, 8) == 0x83 && ByteAt(POLY, 0) == 0x20;
    ValueIs(POLY);
  }

  lemma ZeroValue()
    ensures Value(0) == 0
  {
    assert ByteAt(0, 24) == 0 && ByteAt(0, 16) == 0 && ByteAt(0, 8) == 0 && ByteAt(0, 0) == 0;
    ValueIs(0);
  }

  lemma LowBitOfWord(x: bv32)
    ensures Num(ByteAt(x, 0)) % 2 == if Odd(x) then 1 else 0
  {
    Half(ByteAt(x, 0));
    LowBit(ByteAt(x, 0));
    assert ByteAt(x, 0) & 1 == 1 <==> x & 1 == 1;
    assert ByteAt(x, 0) & 1 == 0 <==> x & 1 == 0;
  }

  /** One shift-xor step on a word. */
  function Step(x: bv32): bv32 { if Odd(x) then Exor(HalfWord(x), POLY) else HalfWord(x) }

  lemma BitStepOf(n: nat)
    ensures BitStep(n) == if n % 2 == 1 then Xor(n / 2, POLYNOMIAL) else n / 2
  {
    XorCommutes(n / 2, 0);
  }

  lemma StepOf(x: bv32)
    ensures Step(x) == if Odd(x) then Exor(HalfWord(x), POLY) else HalfWord(x)
  {
  }

  lemma StepValue(x: bv32)
    ensures Value(Step(x)) == BitStep(Value(x))
  {
    hide *;
    ShiftWord(x);
    LowBitOfWord(x);
    PolyValue();
    StepOf(x);
    BitStepOf(Value(x));
    XorWords(HalfWord(x), POLY);
  }

  // ----- the table of the C file, 16 entries a row ----------------------------------------------------------------

  const ROW_0: seq<bv32> := [
    0x0000_0000, 0x7707_3096, 0xee0e_612c, 0x9909_51ba, 0x076d_c419, 0x706a_f48f, 0xe963_a535, 0x9e64_95a3,
    0x0edb_8832, 0x79dc_b8a4, 0xe0d5_e91e, 0x97d2_d988, 0x09b6_4c2b, 0x7eb1_7cbd, 0xe7b8_2d07, 0x90bf_1d91
  ]
  const ROW_1: seq<bv32> := [
    0x1db7_1064, 0x6ab0_20f2, 0xf3b9_7148, 0x84be_41de, 0x1ada_d47d, 0x6ddd_e4eb, 0xf4d4_b551, 0x83d3_85c7,
    0x136c_9856, 0x646b_a8c0, 0xfd62_f97a, 0x8a65_c9ec, 0x1401_5c4f, 0x6306_6cd9, 0xfa0f_3d63, 0x8d08_0df5
  ]
  const ROW_2: seq<bv32> := [
    0x3b6e_20c8, 0x4c69_105e, 0xd560_41e4, 0xa267_7172, 0x3c03_e4d1, 0x4b04_d447, 0xd20d_85fd, 0xa50a_b56b,
    0x35b5_a8fa, 0x42b2_986c, 0xdbbb_c9d6, 0xacbc_f940, 0x32d8_6ce3, 0x45df_5c75, 0xdcd6_0dcf, 0xabd1_3d59
  ]
  const ROW_3: seq<bv32> := [
    0x26d9_30ac, 0x51de_003a, 0xc8d7_5180, 0xbfd0_6116, 0x21b4_f4b5, 0x56b3_c423, 0xcfba_9599, 0xb8bd_a50f,
    0x2802_b89e, 0x5f05_8808, 0xc60c_d9b2, 0xb10b_e924, 0x2f6f_7c87, 0x5868_4c11, 0xc161_1dab, 0xb666_2d3d
  ]
  const ROW_4: seq<bv32> := [
    0x76dc_4190, 0x01db_7106, 0x98d2_20bc, 0xefd5_102a, 0x71b1_8589, 0x06b6_b51f, 0x9fbf_e4a5, 0xe8b8_d433,
    0x7807_c9a2, 0x0f00_f934, 0x9609_a88e, 0xe10e_9818, 0x7f6a_0dbb, 0x086d_3d2d, 0x9164_6c97, 0xe663_5c01
  ]
  const ROW_5: seq<bv32> := [
    0x6b6b_51f4, 0x1c6c_6162, 0x8565_30d8, 0xf262_004e, 0x6c06_95ed, 0x1b01_a57b, 0x8208_f4c1, 0xf50f_c457,
    0x65b0_d9c6, 0x12b7_e950, 0x8bbe_b8ea, 0xfcb9_887c, 0x62dd_1ddf, 0x15da_2d49, 0x8cd3_7cf3, 0xfbd4_4c65
  ]
  const ROW_6: seq<bv32> := [
    0x4db2_6158, 0x3ab5_51ce, 0xa3bc_0074, 0xd4bb_30e2, 0x4adf_a541, 0x3dd8_95d7, 0xa4d1_c46d, 0xd3d6_f4fb,
    0x4369_e96a, 0x346e_d9fc, 0xad67_8846, 0xda60_b8d0, 0x4404_2d73, 0x3303_1de5, 0xaa0a_4c5f, 0xdd0d_7cc9
  ]
  const ROW_7: seq<bv32> := [
    0x5005_713c, 0x2702_41aa, 0xbe0b_1010, 0xc90c_2086, 0x5768_b525, 0x206f_85b3, 0xb966_d409, 0xce61_e49f,
    0x5ede_f90e, 0x29d9_c998, 0xb0d0_9822, 0xc7d7_a8b4, 0x59b3_3d17, 0x2eb4_0d81, 0xb7bd_5c3b, 0xc0ba_6cad
  ]
  const ROW_8: seq<bv32> := [
    0xedb8_8320, 0x9abf_b3b6, 0x03b6_e20c, 0x74b1_d29a, 0xead5_4739, 0x9dd2_77af, 0x04db_2615, 0x73dc_1683,
    0xe363_0b12, 0x9464_3b84, 0x0d6d_6a3e, 0x7a6a_5aa8, 0xe40e_cf0b, 0x9309_ff9d, 0x0a00_ae27, 0x7d07_9eb1
  ]
  const ROW_9: seq<bv32> := [
    0xf00f_9344, 0x8708_a3d2, 0x1e01_f268, 0x6906_c2fe, 0xf762_575d, 0x8065_67cb, 0x196c_3671, 0x6e6b_06e7,
    0xfed4_1b76, 0x89d3_2be0, 0x10da_7a5a, 0x67dd_4acc, 0xf9b9_df6f, 0x8ebe_eff9, 0x17b7_be43, 0x60b0_8ed5
  ]
  const ROW_A: seq<bv32> := [
    0xd6d6_a3e8, 0xa1d1_937e, 0x38d8_c2c4, 0x4fdf_f252, 0xd1bb_67f1, 0xa6bc_5767, 0x3fb5_06dd, 0x48b2_364b,
    0xd80d_2bda, 0xaf0a_1b4c, 0x3603_4af6, 0x4104_7a60, 0xdf60_efc3, 0xa867_df55, 0x316e_8eef, 0x4669_be79
  ]
  const ROW_B: seq<bv32> := [
    0xcb61_b38c, 0xbc66_831a, 0x256f_d2a0, 0x5268_e236, 0xcc0c_7795, 0xbb0b_4703, 0x2202_16b9, 0x5505_262f,
    0xc5ba_3bbe, 0xb2bd_0b28, 0x2bb4_5a92, 0x5cb3_6a04, 0xc2d7_ffa7, 0xb5d0_cf31, 0x2cd9_9e8b, 0x5bde_ae1d
  ]
  const ROW_C: seq<bv32> := [
    0x9b64_c2b0, 0xec63_f226, 0x756a_a39c, 0x026d_930a, 0x9c09_06a9, 0xeb0e_363f, 0x7207_6785, 0x0500_5713,
    0x95bf_4a82, 0xe2b8_7a14, 0x7bb1_2bae, 0x0cb6_1b38, 0x92d2_8e9b, 0xe5d5_be0d, 0x7cdc_efb7, 0x0bdb_df21
  ]
  const ROW_D: seq<bv32> := [
    0x86d3_d2d4, 0xf1d4_e242, 0x68dd_b3f8, 0x1fda_836e, 0x81be_16cd, 0xf6b9_265b, 0x6fb0_77e1, 0x18b7_4777,
    0x8808_5ae6, 0xff0f_6a70, 0x6606_3bca, 0x1101_0b5c, 0x8f65_9eff, 0xf862_ae69, 0x616b_ffd3, 0x166c_cf45
  ]
  const ROW_E: seq<bv32> := [
    0xa00a_e278, 0xd70d_d2ee, 0x4e04_8354, 0x3903_b3c2, 0xa767_2661, 0xd060_16f7, 0x4969_474d, 0x3e6e_77db,
    0xaed1_6a4a, 0xd9d6_5adc, 0x40df_0b66, 0x37d8_3bf0, 0xa9bc_ae53, 0xdebb_9ec5, 0x47b2_cf7f, 0x30b5_ffe9
  ]
  const ROW_F: seq<bv32> := [
    0xbdbd_f21c, 0xcaba_c28a, 0x53b3_9330, 0x24b4_a3a6, 0xbad0_3605, 0xcdd7_0693, 0x54de_5729, 0x23d9_67bf,
    0xb366_7a2e, 0xc461_4ab8, 0x5d68_1b02, 0x2a6f_2b94, 0xb40b_be37, 0xc30c_8ea1, 0x5a05_df1b, 0x2d02_ef8d
  ]

  function Row(k: nat): (row: seq<bv32>)
    requires k < 16
    ensures |row| == 16
  {
    if k < 8 then
      if k < 4 then if k < 2 then if k == 0 then ROW_0 else ROW_1 else if k == 2 then ROW_2 else ROW_3
      else if k < 6 then if k == 4 then ROW_4 else ROW_5 else if k == 6 then ROW_6 else ROW_7
    else
      if k < 12 then if k < 10 then if k == 8 then ROW_8 else ROW_9 else if k == 10 then ROW_A else ROW_B
      else if k < 14 then if k == 12 then ROW_C else ROW_D else if k == 14 then ROW_E else ROW_F
  }

  /** The entries of a row are its first one, exclusive or the entries of row 0. */
  ghost predicate Combines(row: seq<bv32>, from: nat, to: nat)
    requires from <= to <= 16
  {
    |row| == 16 && forall j :: from <= j < to ==> row[j] == Exor(row[0], ROW_0[j])
  }

  lemma Row0()
    ensures Combines(ROW_0, 0, 8) && Combines(ROW_0, 8, 16)
  {
  }

  lemma Row1()
    ensures Combines(ROW_1, 0, 8) && Combines(ROW_1, 8, 16)
  {
  }

  lemma Row2()
    ensures Combines(ROW_2, 0, 8) && Combines(ROW_2, 8, 16)
  {
  }

  lemma Row3()
    ensures Combines(ROW_3, 0, 8) && Combines(ROW_3, 8, 16)
  {
  }

  lemma Row4()
    ensures Combines(ROW_4, 0, 8) && Combines(ROW_4, 8, 16)
  {
  }

  lemma Row5()
    ensures Combines(ROW_5, 0, 8) && Combines(ROW_5, 8, 16)
  {
  }

  lemma Row6()
    ensures Combines(ROW_6, 0, 8) && Combines(ROW_6, 8, 16)
  {
  }

  lemma Row7()
    ensures Combines(ROW_7, 0, 8) && Combines(ROW_7, 8, 16)
  {
  }

  lemma Row8()
    ensures Combines(ROW_8, 0, 8) && Combines(ROW_8, 8, 16)
  {
  }

  lemma Row9()
    ensures Combines(ROW_9, 0, 8) && Combines(ROW_9, 8, 16)
  {
  }

  lemma RowA()
    ensures Combines(ROW_A, 0, 8) && Combines(ROW_A, 8, 16)
  {
  }

  lemma RowB()
    ensures Combines(ROW_B, 0, 8) && Combines(ROW_B, 8, 16)
  {
  }

  lemma RowC()
    ensures Combines(ROW_C, 0, 8) && Combines(ROW_C, 8, 16)
  {
  }

  lemma RowD()
    ensures Combines(ROW_D, 0, 8) && Combines(ROW_D, 8, 16)
  {
  }

  lemma RowE()
    ensures Combines(ROW_E, 0, 8) && Combines(ROW_E, 8, 16)
  {
  }

  lemma RowF()
    ensures Combines(ROW_F, 0, 8) && Combines(ROW_F, 8, 16)
  {
  }

  // ----- every entry ----------------------------------------------------------------------------------------------

  /** The word is the entry of the generator's table for `i`. */
  predicate IsEntry(x: bv32, i: nat) { Value(x) == BitSteps(i, 8) }

  lemma EntryXor(x: bv32, y: bv32, i: nat, j: nat)
    requires IsEntry(x, i) && IsEntry(y, j)
    ensures IsEntry(Exor(x, y), Xor(i, j))
  {
    XorWords(x, y);
    StepsLinear(i, j, 8);
  }

  lemma EntryIs(x: bv32, i: nat)
    ensures IsEntry(x, i) <==> Value(x) == BitSteps(i, 8)
  {
  }

  lemma ZeroEntry()
    ensures IsEntry(0, 0)
  {
    hide *;
    EntryIs(0, 0);
    ZeroValue();
    HighBitsShift(0, 8);
    ZeroShift(8);
  }

  lemma {:induction false} ZeroShift(k: nat)
    ensures Shl(0, k) == 0
  {
    if k > 0 { ZeroShift(k - 1); }
  }

  /** Taking a step leads from the entry of an even number to that of its half. */
  lemma HalfEntry(x: bv32, m: nat)
    requires IsEntry(x, 2 * m)
    ensures IsEntry(Step(x), m)
  {
    StepValue(x);
    StepsFirst(2 * m, 9);
    XorCommutes(m, 0);
    assert BitStep(2 * m) == m;
    assert BitSteps(2 * m, 9) == BitStep(BitSteps(2 * m, 8));
  }

  lemma TopEntry()
    ensures IsEntry(POLY, 128)
  {
    PolyValue();
    HighBitsShift(1, 7);
    assert Shl(1, 3) == 8;
    assert Shl(1, 5) == 4 * Shl(1, 3);
    assert Shl(1, 7) == 4 * Shl(1, 5);
    assert BitStep(1) == POLYNOMIAL;
    assert BitSteps(128, 8) == BitStep(BitSteps(128, 7));
  }

  lemma PowerLiterals()
    ensures |ROW_8| == |ROW_4| == |ROW_2| == |ROW_1| == |ROW_0| == 16
    ensures ROW_8[0] == POLY && Step(ROW_8[0]) == ROW_4[0] && Step(ROW_4[0]) == ROW_2[0] && Step(ROW_2[0]) == ROW_1[0]
    ensures Step(ROW_1[0]) == ROW_0[8] && Step(ROW_0[8]) == ROW_0[4] && Step(ROW_0[4]) == ROW_0[2]
    ensures Step(ROW_0[2]) == ROW_0[1]
  {
  }

  lemma Powers()
    ensures IsEntry(ROW_8[0], 128) && IsEntry(ROW_4[0], 64) && IsEntry(ROW_2[0], 32) && IsEntry(ROW_1[0], 16)
    ensures IsEntry(ROW_0[8], 8) && IsEntry(ROW_0[4], 4) && IsEntry(ROW_0[2], 2) && IsEntry(ROW_0[1], 1)
  {
    PowerLiterals();
    hide *;
    TopEntry();
    HalfEntry(ROW_8[0], 64);
    HalfEntry(ROW_4[0], 32);
    HalfEntry(ROW_2[0], 16);
    HalfEntry(ROW_1[0], 8);
    HalfEntry(ROW_0[8], 4);
    HalfEntry(ROW_0[4], 2);
    HalfEntry(ROW_0[2], 1);
  }

  // ----- rows and columns -----------------------------------------------------------------------------------------

  lemma {:induction false} ShlOne(m: nat)
    ensures Shl(1, m) == Pow2(m)
  {
    if m > 0 { ShlOne(m - 1); }
  }

  lemma AddPower(e: bv32, x: bv32, m: nat, r: nat)
    requires IsEntry(e, Pow2(m)) && IsEntry(x, r) && r < Pow2(m)
    ensures IsEntry(Exor(e, x), Pow2(m) + r)
  {
    XorHigh(1, 0, r, m);
    ShlOne(m);
    hide *;
    EntryXor(e, x, Pow2(m), r);
  }

  lemma SmallPowers()
    ensures Pow2(1) == 2 && Pow2(2) == 4 && Pow2(3) == 8 && Pow2(5) == 32 && Pow2(6) == 64 && Pow2(7) == 128
  {
    assert Pow2(3) == 8 && Pow2(5) == 32;
  }

  lemma RowLiterals()
    ensures |ROW_0| == 16 && ROW_0[0] == 0
    ensures forall r :: 0 <= r < 2 ==> ROW_0[2 + r] == Exor(ROW_0[2], ROW_0[r])
    ensures forall r :: 0 <= r < 4 ==> ROW_0[4 + r] == Exor(ROW_0[4], ROW_0[r])
    ensures forall r :: 0 <= r < 8 ==> ROW_0[8 + r] == Exor(ROW_0[8], ROW_0[r])
  {
  }

  lemma {:induction false} RowEntry(j: nat)
    requires j < 16
    ensures |ROW_0| == 16 && IsEntry(ROW_0[j], j)
  {
    RowLiterals();
    Powers();
    SmallPowers();
    hide *;
    if j == 0 {
      ZeroEntry();
    } else if 8 <= j {
      RowEntry(j - 8);
      assert ROW_0[8 + (j - 8)] == ROW_0[j];
      AddPower(ROW_0[8], ROW_0[j - 8], 3, j - 8);
    } else if 4 <= j {
      RowEntry(j - 4);
      assert ROW_0[4 + (j - 4)] == ROW_0[j];
      AddPower(ROW_0[4], ROW_0[j - 4], 2, j - 4);
    } else if 2 <= j {
      RowEntry(j - 2);
      assert ROW_0[2 + (j - 2)] == ROW_0[j];
      AddPower(ROW_0[2], ROW_0[j - 2], 1, j - 2);
    }
  }

  /** The first entry of a row. */
  function Head(k: nat): bv32
    requires k < 16
  {
    Row(k)[0]
  }

  lemma HeadLiterals()
    ensures Head(0) == 0 && Head(1) == ROW_1[0] && Head(2) == ROW_2[0] && Head(4) == ROW_4[0] && Head(8) == ROW_8[0]
    ensures Head(3) == Exor(ROW_2[0], Head(1)) && Head(5) == Exor(ROW_4[0], Head(1))
    ensures Head(6) == Exor(ROW_4[0], Head(2)) && Head(7) == Exor(ROW_4[0], Head(3))
    ensures Head(9) == Exor(ROW_8[0], Head(1)) && Head(10) == Exor(ROW_8[0], Head(2))
    ensures Head(11) == Exor(ROW_8[0], Head(3)) && Head(12) == Exor(ROW_8[0], Head(4))
    ensures Head(13) == Exor(ROW_8[0], Head(5)) && Head(14) == Exor(ROW_8[0], Head(6))
    ensures Head(15) == Exor(ROW_8[0], Head(7))
  {
  }

  lemma HeadsBelow4()
    ensures IsEntry(Head(1), 16) && IsEntry(Head(2), 32) && IsEntry(Head(3), 48)
  {
    Powers();
    PowerLiterals();
    SmallPowers();
    hide *;
    HeadLiterals();
    AddPower(ROW_2[0], Head(1), 5, 16);
  }

  lemma HeadsFrom4()
    ensures IsEntry(Head(4), 64) && IsEntry(Head(5), 80)
    ensures IsEntry(Head(6), 96) && IsEntry(Head(7), 112)
  {
    Powers();
    PowerLiterals();
    SmallPowers();
    hide *;
    HeadLiterals();
    HeadsBelow4();
    AddPower(ROW_4[0], Head(1), 6, 16);
    AddPower(ROW_4[0], Head(2), 6, 32);
    AddPower(ROW_4[0], Head(3), 6, 48);
  }

  lemma HeadsFrom8()
    ensures IsEntry(Head(8), 128) && IsEntry(Head(9), 144) && IsEntry(Head(10), 160) && IsEntry(Head(11), 176)
    ensures IsEntry(Head(12), 192) && IsEntry(Head(13), 208) && IsEntry(Head(14), 224) && IsEntry(Head(15), 240)
  {
    Powers();
    PowerLiterals();
    SmallPowers();
    hide *;
    HeadLiterals();
    HeadsBelow4();
    HeadsFrom4();
    AddPower(ROW_8[0], Head(1), 7, 16);
    AddPower(ROW_8[0], Head(2), 7, 32);
    AddPower(ROW_8[0], Head(3), 7, 48);
    AddPower(ROW_8[0], Head(4), 7, 64);
    AddPower(ROW_8[0], Head(5), 7, 80);
    AddPower(ROW_8[0], Head(6), 7, 96);
    AddPower(ROW_8[0], Head(7), 7, 112);
  }

  lemma HeadEntry(k: nat)
    requires k < 16
    ensures IsEntry(Head(k), 16 * k)
  {
    hide *;
    if k == 0 {
      HeadLiterals();
      ZeroEntry();
    } else if k < 4 {
      HeadsBelow4();
    } else if k < 8 {
      HeadsFrom4();
    } else {
      HeadsFrom8();
    }
  }

  lemma RowCombines(k: nat)
    requires k < 16
    ensures Combines(Row(k), 0, 16)
  {
    if k < 4 {
      Row0(); Row1(); Row2(); Row3();
    } else if k < 8 {
      Row4(); Row5(); Row6(); Row7();
    } else if k < 12 {
      Row8(); Row9(); RowA(); RowB();
    } else {
      RowC(); RowD(); RowE(); RowF();
    }
  }

  lemma EntryParts(k: nat, j: nat)
    requires k < 16 && j < 16
    ensures |Row(k)| == |ROW_0| == 16 && Row(k)[j] == Exor(Head(k), ROW_0[j])
  {
    RowCombines(k);
  }

  lemma XorNibbles(k: nat, j: nat)
    requires j < 16
    ensures Xor(16 * k, j) == 16 * k + j
  {
    assert Shl(k, 1) == 2 * k;
    assert Shl(k, 3) == 4 * Shl(k, 1);
    assert Shl(k, 4) == 2 * Shl(k, 3);
    assert Pow2(3) == 8;
    XorHigh(k, 0, j, 4);
  }

  lemma Entry(k: nat, j: nat)
    requires k < 16 && j < 16
    ensures |Row(k)| == 16 && IsEntry(Row(k)[j], 16 * k + j)
  {
    hide *;
    EntryParts(k, j);
    HeadEntry(k);
    RowEntry(j);
    XorNibbles(k, j);
    EntryXor(Head(k), ROW_0[j], 16 * k, j);
  }

  /** The literals as numbers. */
  function Literals(): (table: seq<nat>)
    ensures |table| == 256
  {
    seq(256, i requires 0 <= i < 256 => Value(Row(i / 16)[i % 16]))
  }

  lemma OneLiteral(i: nat)
    requires i < 256
    ensures Value(Row(i / 16)[i % 16]) == BitSteps(i, 8)
  {
    var k, j := i / 16, i % 16;
    assert 16 * k + j == i;
    hide *;
    Entry(k, j);
    EntryIs(Row(k)[j], i);
  }

  /** The literals of the C file are what the generator yields. */
  lemma LiteralsAreTable()
    ensures IsCrcTable(Literals())
  {
    forall i | 0 <= i < 256 ensures Literals()[i] == BitSteps(i, 8) { OneLiteral(i); }
  }

  /** The generated candidate with its own table. */
  method Crc32Generated(data: seq<Byte>) returns (crc: nat)
    ensures crc == Crc32(data)
  {
    LiteralsAreTable();
    crc := Crc32Table(Literals(), data);
  }
}
