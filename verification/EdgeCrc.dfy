/**
 * The CRC-32 of EdgeStream frames: bit by bit in the reference, through a 256-entry table in the
 * generated candidate.  Both are the CRC of section 8 of RFC 1952.  Unsigned 32-bit words are
 * naturals below 2^32: `>> 1` is `/ 2`, `& 0xff` is `% 256`, and `^` is `Xor`.
 */
module EdgeCrc {

  import opened Words

  const POLYNOMIAL := 0xedb8_8320

  // ----- the bitwise CRC ----------------------------------------------------------------------------

  /** One shift-xor step: the polynomial is masked by the low bit. */
  function BitStep(c: nat): nat { Xor(c / 2, if c % 2 == 1 then POLYNOMIAL else 0) }

  function BitSteps(c: nat, n: nat): nat {
    if n == 0 then c else BitStep(BitSteps(c, n - 1))
  }

  /** The register after the bytes of `data`, before the final complement. */
  function Register(data: seq<Byte>): nat {
    if data == [] then WORD - 1
    else BitSteps(Xor(Register(data[..|data| - 1]), data[|data| - 1]), 8)
  }

  lemma StepBelow(c: nat)
    requires c < WORD
    ensures BitStep(c) < WORD
  {
    EightBits(0);
    XorBelow(c / 2, if c % 2 == 1 then POLYNOMIAL else 0, 32);
  }

  lemma {:induction false} StepsBelow(c: nat, n: nat)
    requires c < WORD
    ensures BitSteps(c, n) < WORD
  {
    if n > 0 {
      StepsBelow(c, n - 1);
      StepBelow(BitSteps(c, n - 1));
    }
  }

  /** The register is always a 32-bit word. */
  lemma {:induction false} RegisterBelow(data: seq<Byte>)
    ensures Register(data) < WORD
  {
    if data != [] {
      var prefix, b := data[..|data| - 1], data[|data| - 1];
      RegisterBelow(prefix);
      EightBits(0);
      XorBelow(Register(prefix), b, 32);
      StepsBelow(Xor(Register(prefix), b), 8);
    }
  }

  function Crc32(data: seq<Byte>): (crc: nat)
    ensures crc < WORD
  {
    RegisterBelow(data);
    WORD - 1 - Register(data)
  }

  method Crc32Slow(data: seq<Byte>) returns (crc: nat)
    ensures crc == Crc32(data)
  {
    crc := WORD - 1;
    for i := 0 to |data|
      invariant crc == Register(data[..i])
    {
      assert data[..i + 1][..i] == data[..i];
      crc := Xor(crc, data[i]);
      ghost var start := crc;
      for bit := 0 to 8
        invariant crc == BitSteps(start, bit)
      {
        crc := Xor(crc / 2, if crc % 2 == 1 then POLYNOMIAL else 0);
      }
    }
    assert data[..|data|] == data;
    RegisterBelow(data);
    crc := WORD - 1 - crc;
  }

  // ----- the table ----------------------------------------------------------------------------------

  ghost predicate IsCrcTable(table: seq<nat>) {
    |table| == 256 && forall i :: 0 <= i < 256 ==> table[i] == BitSteps(i, 8)
  }

  /** The generator of the table. */
  method CrcTable() returns (values: seq<nat>)
    ensures IsCrcTable(values)
  {
    values := [];
    for b := 0 to 256
      invariant |values| == b && forall i :: 0 <= i < b ==> values[i] == BitSteps(i, 8)
    {
      var crc := b;
      for k := 0 to 8
        invariant crc == BitSteps(b, k)
      {
        crc := Xor(crc / 2, if crc % 2 == 1 then POLYNOMIAL else 0);
      }
      values := values + [crc];
    }
  }

  lemma StepLinear(a: nat, b: nat)
    ensures BitStep(Xor(a, b)) == Xor(BitStep(a), BitStep(b))
  {
    var pa, pb := if a % 2 == 1 then POLYNOMIAL else 0, if b % 2 == 1 then POLYNOMIAL else 0;
    XorStep(a, b);
    XorSelf(POLYNOMIAL);
    XorCommutes(pa, pb);
    XorRegroup(a / 2, b / 2, pa, pb);
  }

  lemma {:induction false} StepsLinear(a: nat, b: nat, n: nat)
    ensures BitSteps(Xor(a, b), n) == Xor(BitSteps(a, n), BitSteps(b, n))
  {
    if n > 0 {
      StepsLinear(a, b, n - 1);
      StepLinear(BitSteps(a, n - 1), BitSteps(b, n - 1));
    }
  }

  /** Bytes above the low k bits are only shifted. */
  lemma {:induction false} HighBitsShift(h: nat, k: nat)
    ensures BitSteps(Shl(h, k), k) == h
  {
    if k > 0 {
      ShiftOnce(h, k);
      StepsFirst(Shl(h, k), k);
      HighBitsShift(h, k - 1);
    }
  }

  lemma ShiftOnce(h: nat, k: nat)
    requires k > 0
    ensures BitStep(Shl(h, k)) == Shl(h, k - 1)
  {
    XorCommutes(Shl(h, k) / 2, 0);
  }

  /** The first of n steps can be taken out in front. */
  lemma {:induction false} StepsFirst(c: nat, n: nat)
    requires n > 0
    ensures BitSteps(c, n) == BitSteps(BitStep(c), n - 1)
  {
    if n > 1 { StepsFirst(c, n - 1); }
  }

  lemma LowByte(h: nat, low: nat)
    requires low < 256
    ensures (256 * h + low) % 256 == low && (256 * h + low) / 256 == h
  {
  }

  /** A byte only touches the low byte of the register. */
  lemma XorByte(c: nat, b: Byte)
    ensures Xor(c, b) == Shl(c / 256, 8) + Xor(c % 256, b)
    ensures Xor(c % 256, b) < 256 && Xor(c, b) % 256 == Xor(c % 256, b)
  {
    var h, low := c / 256, c % 256;
    EightBits(h);
    assert c == Shl(h, 8) + low;
    hide *;
    XorHigh(h, low, b, 8);
    XorBelow(low, b, 8);
    LowByte(h, Xor(low, b));
  }

  /** One table lookup equals eight shift-xor steps, for every register and byte. */
  lemma TableStep(table: seq<nat>, c: nat, b: Byte)
    requires IsCrcTable(table)
    ensures Xor(table[Xor(c, b) % 256], c / 256) == BitSteps(Xor(c, b), 8)
  {
    var h, low := c / 256, Xor(c % 256, b);
    XorByte(c, b);
    EightBits(h);
    XorHigh(h, 0, low, 8);
    assert Xor(Shl(h, 8), low) == Xor(c, b);
    StepsLinear(Shl(h, 8), low, 8);
    HighBitsShift(h, 8);
    XorCommutes(h, BitSteps(low, 8));
  }

  /** The generated candidate computes the same CRC for every byte sequence. */
  method Crc32Table(table: seq<nat>, data: seq<Byte>) returns (crc: nat)
    requires IsCrcTable(table)
    ensures crc == Crc32(data)
  {
    crc := WORD - 1;
    for i := 0 to |data|
      invariant crc == Register(data[..i])
    {
      assert data[..i + 1][..i] == data[..i];
      TableStep(table, crc, data[i]);
      crc := Xor(table[Xor(crc, data[i]) % 256], crc / 256);
    }
    assert data[..|data|] == data;
    RegisterBelow(data);
    crc := WORD - 1 - crc;
  }
}
