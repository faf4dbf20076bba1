/**
 * The compression of SHA-256 a second time, as two sequences of words in which every word depends on the
 * ones before it, without working variables that move along; and the padding and the byte order by what
 * they mean.
 */
module Sha256Reference {
  import opened Words
  import opened WordBits
  import opened Sha256

  // ----- the rounds ---------------------------------------------------------------------------------------------

  lemma Sum3(a: nat, b: nat, c: nat)
    ensures Add(Add(a, b), c) == (a + b + c) % WORD
  {
  }

  lemma Sum4(a: nat, b: nat, c: nat, d: nat)
    ensures Add(Add(Add(a, b), c), d) == (a + b + c + d) % WORD
  {
    Sum3(a, b, c);
    Sum3(a + b, c, d);
  }

  lemma Sum5(a: nat, b: nat, c: nat, d: nat, e: nat)
    ensures Add(Add(Add(Add(a, b), c), d), e) == (a + b + c + d + e) % WORD
  {
    Sum4(a, b, c, d);
    Sum3(a + b + c, d, e);
  }

  lemma SumOfSums(x: nat, y: nat, z: nat)
    ensures Add(x % WORD, y % WORD) == (x + y) % WORD && Add(z, x % WORD) == (z + x) % WORD
  {
    var a, b := x / WORD, y / WORD;
    assert x + y == (x % WORD + y % WORD) + WORD * (a + b);
    assert z + x == (z + x % WORD) + WORD * a;
  }

  /** What the new words of a round share. */
  function Common(e: seq<Word>, k: Word, w: Word): nat
    requires |e| >= 4
  {
    var n := |e|;
    e[n - 4] + BigSigma1(e[n - 1]) + Choose(e[n - 1], e[n - 2], e[n - 3]) + k + w
  }

  function NextE(a: seq<Word>, e: seq<Word>, k: Word, w: Word): Word
    requires |a| >= 4 && |e| >= 4
  {
    (a[|a| - 4] + Common(e, k, w)) % WORD
  }

  function NextA(a: seq<Word>, e: seq<Word>, k: Word, w: Word): Word
    requires |a| >= 4 && |e| >= 4
  {
    var n := |a|;
    (Common(e, k, w) + (BigSigma0(a[n - 1]) + Majority(a[n - 1], a[n - 2], a[n - 3]))) % WORD
  }

  /** The two sequences after some rounds, oldest words first. */
  datatype Words2 = Words2(a: seq<Word>, e: seq<Word>)

  function Sequences(h: State, w: seq<Word>): (s: Words2)
    requires |w| <= |K|
    ensures |s.a| == |s.e| == 4 + |w|
  {
    if w == [] then Words2([h[3], h[2], h[1], h[0]], [h[7], h[6], h[5], h[4]])
    else
      var t := |w| - 1;
      var s := Sequences(h, w[..t]);
      Words2(s.a + [NextA(s.a, s.e, K[t], w[t])], s.e + [NextE(s.a, s.e, K[t], w[t])])
  }

  /** The last four words of both, newest first. */
  function Newest(s: Words2): State
    requires |s.a| >= 4 && |s.e| >= 4
  {
    var n, m := |s.a|, |s.e|;
    [s.a[n - 1], s.a[n - 2], s.a[n - 3], s.a[n - 4], s.e[m - 1], s.e[m - 2], s.e[m - 3], s.e[m - 4]]
  }

  lemma RoundSums(v: State, k: Word, w: Word, x: nat, y: nat)
    requires x == v[7] + BigSigma1(v[4]) + Choose(v[4], v[5], v[6]) + k + w
    requires y == BigSigma0(v[0]) + Majority(v[0], v[1], v[2])
    ensures Round(v, k, w) == [(x + y) % WORD, v[0], v[1], v[2], (v[3] + x) % WORD, v[4], v[5], v[6]]
  {
    RoundParts(v, k, w);
    Sum5(v[7], BigSigma1(v[4]), Choose(v[4], v[5], v[6]), k, w);
    AddIs(BigSigma0(v[0]), Majority(v[0], v[1], v[2]));
    hide *;
    SumOfSums(x, y, v[3]);
  }

  lemma AddIs(a: nat, b: nat)
    ensures Add(a, b) == (a + b) % WORD
  {
  }

  lemma RoundParts(v: State, k: Word, w: Word)
    ensures var t1 := Add(Add(Add(Add(v[7], BigSigma1(v[4])), Choose(v[4], v[5], v[6])), k), w);
            var t2 := Add(BigSigma0(v[0]), Majority(v[0], v[1], v[2]));
            Round(v, k, w) == [Add(t1, t2), v[0], v[1], v[2], Add(v[3], t1), v[4], v[5], v[6]]
  {
  }

  lemma RoundIs(s: Words2, k: Word, w: Word)
    requires |s.a| >= 4 && |s.e| >= 4
    ensures Round(Newest(s), k, w) ==
            Newest(Words2(s.a + [NextA(s.a, s.e, k, w)], s.e + [NextE(s.a, s.e, k, w)]))
  {
    hide *;
    var v, n, m := Newest(s), |s.a|, |s.e|;
    var x := Common(s.e, k, w);
    var y := BigSigma0(s.a[n - 1]) + Majority(s.a[n - 1], s.a[n - 2], s.a[n - 3]);
    CommonIs(s.e, k, w);
    NextIs(s.a, s.e, k, w);
    NewestPushed(s, NextA(s.a, s.e, k, w), NextE(s.a, s.e, k, w));
    RoundSums(v, k, w, x, y);
  }

  lemma CommonIs(e: seq<Word>, k: Word, w: Word)
    requires |e| >= 4
    ensures var n := |e|;
            Common(e, k, w) == e[n - 4] + BigSigma1(e[n - 1]) + Choose(e[n - 1], e[n - 2], e[n - 3]) + k + w
  {
  }

  lemma NextIs(a: seq<Word>, e: seq<Word>, k: Word, w: Word)
    requires |a| >= 4 && |e| >= 4
    ensures var n, x := |a|, Common(e, k, w);
            NextA(a, e, k, w) == (x + (BigSigma0(a[n - 1]) + Majority(a[n - 1], a[n - 2], a[n - 3]))) % WORD &&
            NextE(a, e, k, w) == (a[n - 4] + x) % WORD
  {
  }

  lemma NewestPushed(s: Words2, x: Word, y: Word)
    requires |s.a| >= 4 && |s.e| >= 4
    ensures var n, m, v := |s.a|, |s.e|, Newest(s);
            v[0] == s.a[n - 1] && v[1] == s.a[n - 2] && v[2] == s.a[n - 3] && v[3] == s.a[n - 4] &&
            v[4] == s.e[m - 1] && v[5] == s.e[m - 2] && v[6] == s.e[m - 3] && v[7] == s.e[m - 4]
    ensures var v := Newest(s);
            Newest(Words2(s.a + [x], s.e + [y])) == [x, v[0], v[1], v[2], y, v[4], v[5], v[6]]
  {
  }

  /** The working variables are the newest words. */
  lemma {:induction false} RoundsAre(h: State, w: seq<Word>)
    requires |w| <= |K|
    ensures Rounds(h, w) == Newest(Sequences(h, w))
  {
    if w != [] {
      var t := |w| - 1;
      RoundsAre(h, w[..t]);
      RoundIs(Sequences(h, w[..t]), K[t], w[t]);
    }
  }

  /** A block adds the newest words of 64 rounds to the hash value. */
  lemma CompressAdds(h: State, block: seq<Byte>, i: nat)
    requires |block| == 64 && i < 4
    ensures var s := Sequences(h, Schedule(block, []));
            |s.a| == |s.e| == 68 && |Compress(h, block)| == 8 &&
            Compress(h, block)[i] == (h[i] + s.a[67 - i]) % WORD &&
            Compress(h, block)[4 + i] == (h[4 + i] + s.e[67 - i]) % WORD
  {
    hide *;
    var w := Schedule(block, []);
    SixtyFour();
    CompressSum(h, block, w, i);
    CompressSum(h, block, w, 4 + i);
    RoundsAre(h, w);
    NewestAt(Sequences(h, w), i);
  }

  lemma SixtyFour()
    ensures |K| == 64
  {
  }

  lemma CompressSum(h: State, block: seq<Byte>, w: seq<Word>, i: nat)
    requires |block| == 64 && w == Schedule(block, []) && i < 8
    ensures |w| == |K| && Compress(h, block)[i] == (h[i] + Rounds(h, w)[i]) % WORD
  {
  }

  lemma NewestAt(s: Words2, i: nat)
    requires |s.a| == |s.e| == 68 && i < 4
    ensures Newest(s)[i] == s.a[67 - i] && Newest(s)[4 + i] == s.e[67 - i]
  {
  }

  // ----- the message schedule ---------------------------------------------------------------------------------

  lemma {:induction false} ScheduleKeeps(block: seq<Byte>, w: seq<Word>)
    requires |block| == 64 && |w| <= |K|
    ensures w <= Schedule(block, w)
    ensures forall t: nat :: |w| <= t < |K| ==>
              |Schedule(block, w)| == |K| && Schedule(block, w)[t] == NextWord(block, Schedule(block, w)[..t])
    decreases |K| - |w|
  {
    if |w| < |K| {
      var next := w + [NextWord(block, w)];
      ScheduleKeeps(block, next);
      assert Schedule(block, w) == Schedule(block, next);
      assert Schedule(block, w)[..|w|] == w;
      assert Schedule(block, w)[|w|] == next[|w|];
    }
  }

  lemma LaterWord(block: seq<Byte>, w: seq<Word>, t: nat)
    requires |block| == 64 && 16 <= t < |w| && w[t] == NextWord(block, w[..t])
    ensures w[t] == (w[t - 16] + SmallSigma0(w[t - 15]) + w[t - 7] + SmallSigma1(w[t - 2])) % WORD
  {
    Sum4(w[t - 16], SmallSigma0(w[t - 15]), w[t - 7], SmallSigma1(w[t - 2]));
  }

  lemma FirstWord(block: seq<Byte>, w: seq<Word>, t: nat)
    requires |block| == 64 && t < 16 && t < |w| && w[t] == NextWord(block, w[..t])
    ensures w[t] == Number(block[4 * t..4 * t + 4])
  {
    FromBigNumber(block[4 * t..4 * t + 4]);
  }

  /** The first 16 words are the block; every later word is a sum of four earlier ones. */
  lemma ScheduleWord(block: seq<Byte>, t: nat)
    requires |block| == 64 && t < 64
    ensures var w := Schedule(block, []);
            |w| == 64 &&
            if t < 16 then w[t] == Number(block[4 * t..4 * t + 4])
            else w[t] == (w[t - 16] + SmallSigma0(w[t - 15]) + w[t - 7] + SmallSigma1(w[t - 2])) % WORD
  {
    assert |K| == 64;
    ScheduleKeeps(block, []);
    hide *;
    var w := Schedule(block, []);
    if t < 16 { FirstWord(block, w, t); } else { LaterWord(block, w, t); }
  }

  // ----- bytes ------------------------------------------------------------------------------------------------

  /** The number that bytes stand for, most significant first. */
  function Number(b: seq<Byte>): nat {
    if b == [] then 0 else 256 * Number(b[..|b| - 1]) + b[|b| - 1]
  }

  lemma NumberSnoc(b: seq<Byte>, x: Byte)
    ensures Number(b + [x]) == 256 * Number(b) + x as int
  {
    assert (b + [x])[..|b|] == b;
  }

  lemma NumberOf4(a: Byte, b: Byte, c: Byte, d: Byte)
    ensures Number([a, b, c, d]) == 256 * (256 * (256 * (a as int) + b as int) + c as int) + d as int
  {
    assert [] + [a] == [a] && [a] + [b] == [a, b] && [a, b] + [c] == [a, b, c] && [a, b, c] + [d] == [a, b, c, d];
    NumberSnoc([], a);
    NumberSnoc([a], b);
    NumberSnoc([a, b], c);
    NumberSnoc([a, b, c], d);
  }

  lemma FromBigNumber(b: seq<Byte>)
    requires |b| == 4
    ensures FromBig(b) == Number(b)
  {
    assert b == [b[0], b[1], b[2], b[3]];
    NumberOf4(b[0], b[1], b[2], b[3]);
  }

  lemma BigEndianNumber(v: Word)
    ensures |BigEndian(v)| == 4 && Number(BigEndian(v)) == v
  {
    FourDigits(v);
    hide *;
    NumberOf4(v / 0x100_0000, v / 0x1_0000 % 256, v / 256 % 256, v % 256);
  }

  lemma FourDigits(v: Word)
    ensures var a, b, c, d := v / 0x100_0000, v / 0x1_0000 % 256, v / 256 % 256, v % 256;
            a < 256 && BigEndian(v) == [a, b, c, d] && 256 * (256 * (256 * a + b) + c) + d == v
  {
  }

  /** Word `i` of a hash value is the number in bytes 4 i to 4 i + 3 of the digest. */
  lemma {:induction false} DigestWord(h: seq<Word>, i: nat)
    requires i < |h|
    ensures |WordsToBytes(h)| == 4 * |h| && Number(WordsToBytes(h)[4 * i..4 * i + 4]) == h[i]
  {
    var n := |h| - 1;
    WordsToBytesLength(h);
    WordsToBytesLength(h[..n]);
    var front, last := WordsToBytes(h[..n]), BigEndian(h[n]);
    BigEndianNumber(h[n]);
    if i < n {
      DigestWord(h[..n], i);
      assert (front + last)[4 * i..4 * i + 4] == front[4 * i..4 * i + 4];
    } else {
      assert (front + last)[4 * i..4 * i + 4] == last;
    }
  }

  // ----- the padding ------------------------------------------------------------------------------------------

  lemma DivPowers(n: nat, a: nat, b: nat)
    ensures n / Pow2(a + b) == n / Pow2(a) / Pow2(b)
    decreases a
  {
    if a > 0 {
      DivTwice(n, Pow2(a + b - 1));
      DivTwice(n, Pow2(a - 1));
      DivPowers(n / 2, a - 1, b);
    }
  }

  lemma ModJoin(m: nat, p: nat)
    requires p > 0
    ensures 256 * (m / 256 % p) + m % 256 == m % (256 * p)
  {
    var q, r := m / 256 / p, m / 256 % p;
    assert m / 256 == p * q + r;
    assert m == 256 * (m / 256) + m % 256;
    assert 256 * (p * q) == 256 * p * q;
    QuotientIs(m, 256 * p, q, 256 * r + m % 256);
  }

  lemma LengthDigit(n: nat, k: nat, m: nat)
    requires 0 < k <= 8 && m == n / Pow2(8 * (8 - k))
    ensures m % 256 < 256 && Length(n)[..k] == Length(n)[..k - 1] + [m % 256]
    ensures m / 256 == n / Pow2(8 * (8 - (k - 1)))
  {
    EightBits(0);
    DivPowers(n, 8 * (8 - k), 8);
    assert 8 * (8 - k) + 8 == 8 * (8 - (k - 1));
    assert Length(n)[k - 1] == m % 256;
  }

  lemma MorePowers(k: nat)
    requires k > 0
    ensures Pow2(8 * k) == 256 * Pow2(8 * (k - 1))
  {
    EightBits(0);
    PowSum(8, 8 * (k - 1));
  }

  lemma {:induction false} LengthPrefix(n: nat, k: nat, m: nat)
    requires k <= 8 && m == n / Pow2(8 * (8 - k))
    ensures Number(Length(n)[..k]) == m % Pow2(8 * k)
    decreases k
  {
    if k > 0 {
      hide *;
      LengthDigit(n, k, m);
      LengthPrefix(n, k - 1, m / 256);
      NumberSnoc(Length(n)[..k - 1], m % 256);
      MorePowers(k);
      ModJoin(m, Pow2(8 * (k - 1)));
    }
  }

  /** The last eight bytes hold the number of bits, modulo 2^64. */
  lemma LengthNumber(n: nat)
    ensures Number(Length(n)) == n % Pow2(64)
  {
    assert Length(n)[..8] == Length(n);
    LengthPrefix(n, 8, n);
  }

  lemma PiecesOf(m: seq<Byte>, zeros: nat, length: seq<Byte>)
    requires |length| == 8
    ensures var b := m + [0x80] + ZeroBytes(zeros) + length;
            |b| == |m| + 9 + zeros && b[..|m|] == m && b[|m|] == 0x80 && b[|b| - 8..] == length &&
            forall i :: |m| < i < |b| - 8 ==> b[i] == 0
  {
  }

  /** Section 5.1.1 of FIPS 180-4 by what it asks for. */
  lemma PadMeans(m: seq<Byte>)
    ensures var b := Pad(m);
            |b| % 64 == 0 && |m| + 9 <= |b| < |m| + 73 && b[..|m|] == m && b[|m|] == 0x80 &&
            (forall i :: |m| < i < |b| - 8 ==> b[i] == 0) && Number(b[|b| - 8..]) == 8 * |m| % Pow2(64)
  {
    PadIs(m);
    ZerosFill(|m|);
    hide *;
    PiecesOf(m, Zeros(|m|), Length(8 * |m|));
    LengthNumber(8 * |m|);
  }

  lemma PadIs(m: seq<Byte>)
    ensures Pad(m) == m + [0x80] + ZeroBytes(Zeros(|m|)) + Length(8 * |m|)
  {
  }
}
