/** What the operators on words do, bit by bit. Bit `i` of a number is its digit of weight 2^i. */
module WordBits {
  import opened Words

  predicate Bit(x: nat, i: nat) { x / Pow2(i) % 2 == 1 }

  lemma HalfBit(x: nat, i: nat)
    requires i > 0
    ensures Bit(x, i) <==> Bit(x / 2, i - 1)
  {
    DivTwice(x, Pow2(i - 1));
  }

  lemma DivTwice(x: nat, p: nat)
    requires p > 0
    ensures x / (2 * p) == x / 2 / p
  {
    var q, r := x / (2 * p), x % (2 * p);
    assert x == 2 * p * q + r && 0 <= r < 2 * p;
    assert 2 * p * q == 2 * (p * q);
    assert x / 2 == p * q + r / 2 && 0 <= r / 2 < p;
    QuotientIs(x / 2, p, q, r / 2);
  }

  lemma QuotientIs(x: nat, p: nat, q: nat, r: nat)
    requires p > 0 && x == p * q + r && r < p
    ensures x / p == q && x % p == r
  {
    var q1, r1 := x / p, x % p;
    assert x == p * q1 + r1;
    if q1 < q { Larger(p, q1 + 1, q); }
    if q < q1 { Larger(p, q + 1, q1); }
  }

  lemma Larger(p: nat, a: nat, b: nat)
    requires a <= b
    ensures p * a <= p * b
  {
  }

  lemma BitZero(i: nat)
    ensures !Bit(0, i)
  {
  }

  lemma {:induction false} XorBit(a: nat, b: nat, i: nat)
    ensures Bit(Xor(a, b), i) <==> Bit(a, i) != Bit(b, i)
    decreases i
  {
    XorStep(a, b);
    if i > 0 {
      HalfBit(a, i);
      HalfBit(b, i);
      HalfBit(Xor(a, b), i);
      XorBit(a / 2, b / 2, i - 1);
    }
  }

  lemma AndStep(a: nat, b: nat)
    ensures And(a, b) / 2 == And(a / 2, b / 2)
    ensures And(a, b) % 2 == 1 <==> a % 2 == 1 && b % 2 == 1
  {
    assert (a % 2) * (b % 2) == if a % 2 == 1 && b % 2 == 1 then 1 else 0;
  }

  lemma {:induction false} AndBit(a: nat, b: nat, i: nat)
    ensures Bit(And(a, b), i) <==> Bit(a, i) && Bit(b, i)
    decreases i
  {
    AndStep(a, b);
    if i > 0 {
      HalfBit(a, i);
      HalfBit(b, i);
      HalfBit(And(a, b), i);
      AndBit(a / 2, b / 2, i - 1);
    }
  }

  /** The bits of the complement below `n`. */
  lemma {:induction false} ComplementBit(a: nat, n: nat, i: nat)
    requires i < n && a < Pow2(n)
    ensures Bit(Pow2(n) - 1 - a, i) <==> !Bit(a, i)
    decreases n
  {
    var p := Pow2(n - 1);
    assert Pow2(n) == 2 * p;
    var c: nat := Pow2(n) - 1 - a;
    assert c / 2 == p - 1 - a / 2 && c % 2 == 1 - a % 2;
    if i > 0 {
      HalfBit(a, i);
      HalfBit(c, i);
      ComplementBit(a / 2, n - 1, i - 1);
    }
  }

  lemma NotBit(a: nat, i: nat)
    requires a < WORD && i < 32
    ensures Bit(Not(a), i) <==> !Bit(a, i)
  {
    EightBits(0);
    ComplementBit(a, 32, i);
  }

  lemma {:induction false} ShiftedBit(x: nat, n: nat, y: nat, i: nat)
    requires y == x / Pow2(n)
    ensures Bit(y, i) <==> Bit(x, i + n)
    decreases n
  {
    if n > 0 {
      DivTwice(x, Pow2(n - 1));
      HalfBit(x, i + n);
      ShiftedBit(x / 2, n - 1, y, i);
    }
  }

  /** A number put in front of `n` bits. */
  function Join(h: nat, low: nat, n: nat): nat { h * Pow2(n) + low }

  lemma JoinBit(h: nat, low: nat, n: nat, i: nat)
    requires low < Pow2(n)
    ensures Bit(Join(h, low, n), i) <==> if i < n then Bit(low, i) else Bit(h, i - n)
  {
    JoinedBit(h, low, n, i);
  }

  /** The bits of a number above its last `n`, behind which another number has been put. */
  lemma {:induction false} JoinedBit(h: nat, low: nat, n: nat, i: nat)
    requires low < Pow2(n)
    ensures Bit(h * Pow2(n) + low, i) <==> if i < n then Bit(low, i) else Bit(h, i - n)
    decreases n
  {
    if n == 0 {
    } else {
      var p := Pow2(n - 1);
      var x := h * Pow2(n) + low;
      assert h * (2 * p) == 2 * (h * p);
      assert x / 2 == h * p + low / 2 && x % 2 == low % 2;
      if i > 0 {
        HalfBit(x, i);
        HalfBit(low, i);
        JoinedBit(h, low / 2, n - 1, i - 1);
      }
    }
  }

  lemma {:induction false} HighBitsZero(x: nat, n: nat, i: nat)
    requires x < Pow2(n) && n <= i
    ensures !Bit(x, i)
    decreases n
  {
    if n == 0 {
      BitZero(i);
    } else {
      HalfBit(x, i);
      HighBitsZero(x / 2, n - 1, i - 1);
    }
  }

  /** Numbers below 2^n are equal when their bits below `n` are. */
  lemma {:induction false} SameBits(x: nat, y: nat, n: nat)
    requires x < Pow2(n) && y < Pow2(n) && forall i: nat :: i < n ==> (Bit(x, i) <==> Bit(y, i))
    ensures x == y
  {
    if n > 0 {
      assert Bit(x, 0) <==> Bit(y, 0);
      forall i: nat | i < n - 1 ensures Bit(x / 2, i) <==> Bit(y / 2, i) {
        HalfBit(x, i + 1);
        HalfBit(y, i + 1);
      }
      SameBits(x / 2, y / 2, n - 1);
    }
  }

  lemma WordSplit(n: nat)
    requires n <= 32
    ensures WORD == Pow2(n) * Pow2(32 - n) && WORD / Pow2(n) == Pow2(32 - n)
  {
    PowSum(n, 32 - n);
    EightBits(0);
    QuotientIs(WORD, Pow2(n), Pow2(32 - n), 0);
  }

  lemma DivMod(x: nat, m: nat) returns (high: nat, low: nat)
    requires m > 0
    ensures high == x / m && low == x % m && x == high * m + low && low < m
  {
    NotNegative(x, m);
    high, low := x / m, x % m;
  }

  lemma NotNegative(x: nat, m: nat)
    requires m > 0
    ensures x / m >= 0
  {
    var q := x / m;
    assert x == m * q + x % m;
    Negative(m, q);
  }

  lemma Negative(m: nat, q: int)
    ensures q < 0 ==> m * q + m <= 0
  {
  }

  lemma RotrIs(x: nat, m: nat, k: nat, high: nat, low: nat)
    requires m > 0 && k == WORD / m && high == x / m && low == x % m
    ensures Rotr(x, m) == low * k + high
  {
  }

  lemma JoinIs(h: nat, low: nat, n: nat)
    ensures Join(h, low, n) == h * Pow2(n) + low
  {
  }

  /** The two parts of a word that a rotation exchanges. */
  lemma RotrSplit(x: nat, n: nat) returns (high: nat, low: nat)
    requires x < WORD && 0 < n < 32
    ensures high == x / Pow2(n) < Pow2(32 - n) && low < Pow2(n) && x == Join(high, low, n)
    ensures Rotr(x, Pow2(n)) == Join(low, high, 32 - n)
  {
    var m := Pow2(n);
    hide *;
    high, low := DivMod(x, m);
    WordSplit(n);
    QuotientBelow(x, m, Pow2(32 - n));
    RotrIs(x, m, Pow2(32 - n), high, low);
    JoinIs(high, low, n);
    JoinIs(low, high, 32 - n);
  }

  lemma RotrBitAt(x: nat, n: nat, i: nat, j: nat)
    requires x < WORD && 0 < n < 32 && i < 32 && j == if i + n < 32 then i + n else i + n - 32
    ensures Bit(Rotr(x, Pow2(n)), i) <==> Bit(x, j)
  {
    var high, low := RotrSplit(x, n);
    hide *;
    JoinBit(low, high, 32 - n, i);
    if i + n < 32 {
      ShiftedBit(x, n, high, i);
    } else {
      JoinBit(high, low, n, j);
    }
  }

  /** Rotating to the right by `n` moves bit `i + n` to bit `i`, around the end of the word. */
  lemma RotrBit(x: nat, n: nat, i: nat)
    requires x < WORD && 0 < n < 32 && i < 32
    ensures Bit(Rotr(x, Pow2(n)), i) <==> Bit(x, (i + n) % 32)
  {
    hide *;
    RotrBitAt(x, n, i, if i + n < 32 then i + n else i + n - 32);
    Around32(i, n);
  }

  lemma Around32(i: nat, n: nat)
    requires i < 32 && n < 32
    ensures (i + n) % 32 == if i + n < 32 then i + n else i + n - 32
  {
  }

  lemma QuotientBelow(x: nat, m: nat, p: nat)
    requires m > 0 && x < m * p
    ensures x / m < p
  {
    if x / m >= p { Larger(m, p, x / m); }
  }
}
