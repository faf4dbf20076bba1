/**
 * Unsigned machine words as naturals below 2^32: `>> k` is division by 2^k, addition is modulo
 * 2^32, and the bitwise operators work bit by bit.
 */
module Words {

  type Byte = b: int | 0 <= b < 256

  const WORD := 0x1_0000_0000

  // ----- exclusive or -----------------------------------------------------------------------------

  function Xor(a: nat, b: nat): nat
    decreases a + b
  {
    if a == 0 then b
    else if b == 0 then a
    else 2 * Xor(a / 2, b / 2) + if a % 2 == b % 2 then 0 else 1
  }

  lemma {:induction false} XorStep(a: nat, b: nat)
    ensures Xor(a, b) / 2 == Xor(a / 2, b / 2)
    ensures Xor(a, b) % 2 == if a % 2 == b % 2 then 0 else 1
  {
  }

  lemma {:induction false} XorCommutes(a: nat, b: nat)
    ensures Xor(a, b) == Xor(b, a)
    decreases a + b
  {
    if a > 0 && b > 0 { XorCommutes(a / 2, b / 2); }
  }

  lemma {:induction false} XorAssociates(a: nat, b: nat, c: nat)
    ensures Xor(Xor(a, b), c) == Xor(a, Xor(b, c))
    decreases a + b + c
  {
    if a > 0 && b > 0 && c > 0 {
      XorAssociates(a / 2, b / 2, c / 2);
      XorStep(a, b);
      XorStep(b, c);
      XorStep(Xor(a, b), c);
      XorStep(a, Xor(b, c));
      Halves(Xor(Xor(a, b), c), Xor(a, Xor(b, c)));
    }
  }

  lemma Halves(x: nat, y: nat)
    requires x / 2 == y / 2 && x % 2 == y % 2
    ensures x == y
  {
  }

  lemma {:induction false} XorSelf(a: nat)
    ensures Xor(a, a) == 0
  {
    if a > 0 { XorSelf(a / 2); }
  }

  /** (a ^ b) ^ (c ^ d) regrouped. */
  lemma XorRegroup(a: nat, b: nat, c: nat, d: nat)
    ensures Xor(Xor(a, b), Xor(c, d)) == Xor(Xor(a, c), Xor(b, d))
  {
    XorAssociates(a, b, Xor(c, d));
    XorAssociates(b, c, d);
    XorCommutes(b, c);
    XorAssociates(c, b, d);
    XorAssociates(a, c, Xor(b, d));
  }

  function Pow2(k: nat): (p: nat)
    ensures p > 0
  {
    if k == 0 then 1 else 2 * Pow2(k - 1)
  }

  /** Exclusive or stays within the word. */
  lemma {:induction false} XorBelow(a: nat, b: nat, k: nat)
    requires a < Pow2(k) && b < Pow2(k)
    ensures Xor(a, b) < Pow2(k)
    decreases k
  {
    if a > 0 && b > 0 { XorBelow(a / 2, b / 2, k - 1); }
  }

  /** Shift left by k bits. */
  function Shl(h: nat, k: nat): nat { if k == 0 then h else 2 * Shl(h, k - 1) }

  /** The bits above k pass through when the second operand is below 2^k. */
  lemma {:induction false} XorHigh(h: nat, low: nat, b: nat, k: nat)
    requires low < Pow2(k) && b < Pow2(k)
    ensures Xor(Shl(h, k) + low, b) == Shl(h, k) + Xor(low, b)
    decreases k
  {
    if k == 0 {
      XorCommutes(h, 0);
    } else {
      XorHigh(h, low / 2, b / 2, k - 1);
      assert (Shl(h, k) + low) / 2 == Shl(h, k - 1) + low / 2;
      XorStep(Shl(h, k) + low, b);
      XorStep(low, b);
      Halves(Xor(Shl(h, k) + low, b), Shl(h, k) + Xor(low, b));
    }
  }

  lemma EightBits(h: nat)
    ensures Shl(h, 8) == 256 * h && Pow2(8) == 256 && Pow2(32) == WORD
  {
    assert Shl(h, 1) == 2 * h;
    assert Shl(h, 2) == 2 * Shl(h, 1);
    assert Shl(h, 4) == 4 * Shl(h, 2);
    assert Shl(h, 6) == 4 * Shl(h, 4);
    assert Shl(h, 8) == 4 * Shl(h, 6);
    PowSum(4, 4);
    PowSum(8, 8);
    PowSum(16, 16);
    assert Pow2(2) == 4;
    assert Pow2(4) == 4 * Pow2(2);
  }

  lemma {:induction false} PowSum(a: nat, b: nat)
    ensures Pow2(a + b) == Pow2(a) * Pow2(b)
  {
    if a > 0 {
      PowSum(a - 1, b);
      Twice(Pow2(a - 1), Pow2(b));
    }
  }

  lemma Twice(x: nat, y: nat)
    ensures 2 * (x * y) == (2 * x) * y
  {
  }

  // ----- the other operators of a 32-bit word ---------------------------------------------------------

  function And(a: nat, b: nat): nat
    decreases a + b
  {
    if a == 0 || b == 0 then 0 else 2 * And(a / 2, b / 2) + (a % 2) * (b % 2)
  }

  function Not(a: nat): nat
    requires a < WORD
  {
    WORD - 1 - a
  }

  function Add(a: nat, b: nat): (r: nat)
    ensures r < WORD
  {
    (a + b) % WORD
  }

  /** Rotation of a word to the right; `m` is 2 to the number of places. */
  function Rotr(x: nat, m: nat): nat
    requires m > 0
  {
    x / m + x % m * (WORD / m)
  }

  /** The four bytes of a word, most significant first. */
  function BigEndian(v: nat): seq<Byte>
    requires v < WORD
  {
    [v / 0x100_0000, v / 0x1_0000 % 256, v / 256 % 256, v % 256]
  }

  function FromBig(b: seq<Byte>): (v: nat)
    requires |b| == 4
    ensures v < WORD
  {
    b[0] as int * 0x100_0000 + b[1] as int * 0x1_0000 + b[2] as int * 256 + b[3] as int
  }
}
