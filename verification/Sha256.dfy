/**
 * SHA-256 as RAVEL computes it, byte by byte over any number of update calls, against the one-shot
 * definition of FIPS 180-4: padding as in its section 5.1.1, compression as in its section 6.2.2.
 */
module Sha256 {
  import opened Words

  type Word = w: nat | w < WORD

  const K_0: seq<Word> := [
    0x428a_2f98, 0x7137_4491, 0xb5c0_fbcf, 0xe9b5_dba5, 0x3956_c25b, 0x59f1_11f1, 0x923f_82a4, 0xab1c_5ed5,
    0xd807_aa98, 0x1283_5b01, 0x2431_85be, 0x550c_7dc3, 0x72be_5d74, 0x80de_b1fe, 0x9bdc_06a7, 0xc19b_f174
  ]
  const K_1: seq<Word> := [
    0xe49b_69c1, 0xefbe_4786, 0x0fc1_9dc6, 0x240c_a1cc, 0x2de9_2c6f, 0x4a74_84aa, 0x5cb0_a9dc, 0x76f9_88da,
    0x983e_5152, 0xa831_c66d, 0xb003_27c8, 0xbf59_7fc7, 0xc6e0_0bf3, 0xd5a7_9147, 0x06ca_6351, 0x1429_2967
  ]
  const K_2: seq<Word> := [
    0x27b7_0a85, 0x2e1b_2138, 0x4d2c_6dfc, 0x5338_0d13, 0x650a_7354, 0x766a_0abb, 0x81c2_c92e, 0x9272_2c85,
    0xa2bf_e8a1, 0xa81a_664b, 0xc24b_8b70, 0xc76c_51a3, 0xd192_e819, 0xd699_0624, 0xf40e_3585, 0x106a_a070
  ]
  const K_3: seq<Word> := [
    0x19a4_c116, 0x1e37_6c08, 0x2748_774c, 0x34b0_bcb5, 0x391c_0cb3, 0x4ed8_aa4a, 0x5b9c_ca4f, 0x682e_6ff3,
    0x748f_82ee, 0x78a5_636f, 0x84c8_7814, 0x8cc7_0208, 0x90be_fffa, 0xa450_6ceb, 0xbef9_a3f7, 0xc671_78f2
  ]

  /** The constants of the 64 rounds. */
  const K: seq<Word> := K_0 + K_1 + K_2 + K_3

  const INITIAL: seq<Word> := [
    0x6a09_e667, 0xbb67_ae85, 0x3c6e_f372, 0xa54f_f53a, 0x510e_527f, 0x9b05_688c, 0x1f83_d9ab, 0x5be0_cd19
  ]

  /** A hash value: eight words. */
  type State = h: seq<Word> | |h| == 8 witness INITIAL

  // ----- the compression function, section 6.2.2 of FIPS 180-4 ------------------------------------------

  function SmallSigma0(x: nat): nat { Xor(Xor(Rotr(x, 0x80), Rotr(x, 0x4_0000)), x / 8) }
  function SmallSigma1(x: nat): nat { Xor(Xor(Rotr(x, 0x2_0000), Rotr(x, 0x8_0000)), x / 0x400) }
  function BigSigma0(x: nat): nat { Xor(Xor(Rotr(x, 4), Rotr(x, 0x2000)), Rotr(x, 0x40_0000)) }
  function BigSigma1(x: nat): nat { Xor(Xor(Rotr(x, 0x40), Rotr(x, 0x800)), Rotr(x, 0x200_0000)) }

  function Choose(e: Word, f: Word, g: Word): nat { Xor(And(e, f), And(Not(e), g)) }

  function Majority(a: nat, b: nat, c: nat): nat { Xor(Xor(And(a, b), And(a, c)), And(b, c)) }

  /** The next word of a message schedule that has the words `w` so far. */
  function NextWord(block: seq<Byte>, w: seq<Word>): Word
    requires |block| == 64
  {
    var t := |w|;
    if t < 16 then FromBig(block[4 * t..4 * t + 4])
    else Add(Add(Add(w[t - 16], SmallSigma0(w[t - 15])), w[t - 7]), SmallSigma1(w[t - 2]))
  }

  /** The schedule that continues the words `w`. */
  function Schedule(block: seq<Byte>, w: seq<Word>): (r: seq<Word>)
    requires |block| == 64 && |w| <= |K|
    ensures |r| == |K|
    decreases |K| - |w|
  {
    if |w| == |K| then w else Schedule(block, w + [NextWord(block, w)])
  }

  /** One round on the eight working variables a to h. */
  function Round(v: State, k: Word, w: Word): State {
    var t1 := Add(Add(Add(Add(v[7], BigSigma1(v[4])), Choose(v[4], v[5], v[6])), k), w);
    var t2 := Add(BigSigma0(v[0]), Majority(v[0], v[1], v[2]));
    [Add(t1, t2), v[0], v[1], v[2], Add(v[3], t1), v[4], v[5], v[6]]
  }

  /** One round for each word of `w`. */
  function Rounds(h: State, w: seq<Word>): State
    requires |w| <= |K|
  {
    if w == [] then h
    else
      var t := |w| - 1;
      Round(Rounds(h, w[..t]), K[t], w[t])
  }

  function Compress(h: State, block: seq<Byte>): State
    requires |block| == 64
  {
    seq(8, i requires 0 <= i < 8 => Add(h[i], Rounds(h, Schedule(block, []))[i]))
  }

  // ----- the one-shot definition -------------------------------------------------------------------------

  /** Zero bytes between the marker bit and the length: the least number that fills whole blocks. */
  function Zeros(n: nat): (k: nat)
    ensures k < 64
  {
    if n % 64 <= 55 then 55 - n % 64 else 119 - n % 64
  }

  lemma ZerosFill(n: nat)
    ensures (n + 1 + Zeros(n) + 8) % 64 == 0
  {
  }

  /** Eight bytes, most significant first: the value modulo 2^64. */
  function Length(bits: nat): (b: seq<Byte>)
    ensures |b| == 8
  {
    seq(8, i requires 0 <= i < 8 => bits / Pow2(8 * (7 - i)) % 256)
  }

  function ZeroBytes(n: nat): (b: seq<Byte>)
    ensures |b| == n
  {
    seq(n, _ => 0)
  }

  /** Section 5.1.1 of FIPS 180-4, for messages of whole bytes. */
  function Pad(message: seq<Byte>): (b: seq<Byte>)
    ensures Whole(b)
  {
    var b := message + [0x80] + ZeroBytes(Zeros(|message|)) + Length(8 * |message|);
    ZerosFill(|message|);
    WholeIsMultiple(b);
    b
  }

  /** The bytes make up blocks of 64. */
  ghost predicate Whole(bytes: seq<Byte>) {
    bytes == [] || (|bytes| >= 64 && Whole(bytes[..|bytes| - 64]))
  }

  lemma {:induction false} WholeIsMultiple(bytes: seq<Byte>)
    ensures Whole(bytes) <==> |bytes| % 64 == 0
  {
    if |bytes| >= 64 { WholeIsMultiple(bytes[..|bytes| - 64]); }
  }

  /** Compresses whole blocks in order. */
  ghost function Fold(bytes: seq<Byte>): State
    requires Whole(bytes)
  {
    if bytes == [] then INITIAL else Compress(Fold(bytes[..|bytes| - 64]), bytes[|bytes| - 64..])
  }

  function WordsToBytes(h: seq<Word>): seq<Byte> {
    if h == [] then [] else WordsToBytes(h[..|h| - 1]) + BigEndian(h[|h| - 1])
  }

  ghost function Digest(message: seq<Byte>): (d: seq<Byte>)
  {
    WordsToBytes(Fold(Pad(message)))
  }

  lemma {:induction false} WordsToBytesLength(h: seq<Word>)
    ensures |WordsToBytes(h)| == 4 * |h|
  {
    if h != [] { WordsToBytesLength(h[..|h| - 1]); }
  }

  lemma DigestLength(message: seq<Byte>)
    ensures |Digest(message)| == 32
  {
    WordsToBytesLength(Fold(Pad(message)));
  }

  /** `h` is the hash value after the whole blocks `bytes`. */
  ghost predicate Absorbed(h: State, bytes: seq<Byte>) {
    Whole(bytes) && h == Fold(bytes)
  }

  lemma AbsorbBlock(h: State, bytes: seq<Byte>, block: seq<Byte>)
    requires Absorbed(h, bytes) && |block| == 64
    ensures Absorbed(Compress(h, block), bytes + block)
  {
    assert (bytes + block)[..|bytes + block| - 64] == bytes;
    assert (bytes + block)[|bytes + block| - 64..] == block;
  }

  lemma ZerosPast(bytes: seq<Byte>, part: seq<Byte>)
    requires Whole(bytes) && |part| < 64
    ensures Zeros(|bytes + part|) == if |part| <= 55 then 55 - |part| else 119 - |part|
  {
    WholeIsMultiple(bytes);
    Remainder(|bytes| / 64, |part|);
  }

  lemma Remainder(q: nat, n: nat)
    requires n < 64
    ensures (64 * q + n) % 64 == n
  {
  }

  lemma Attach(a: seq<Byte>, b: seq<Byte>, c: seq<Byte>, d: seq<Byte>, e: seq<Byte>)
    ensures (a + b) + c + d + e == a + (b + c + d + e)
  {
  }

  lemma Regroup(a: seq<Byte>, b: seq<Byte>, c: seq<Byte>, d: seq<Byte>, e: seq<Byte>)
    ensures a + (b + (c + d) + e) == a + (b + c) + (d + e)
  {
  }

  /** The marker, the zeros and the length fit in the block of the last bytes. */
  lemma PadOneBlock(bytes: seq<Byte>, part: seq<Byte>)
    requires Whole(bytes) && |part| <= 55
    ensures Pad(bytes + part) ==
            bytes + (part + [0x80] + ZeroBytes(55 - |part|) + Length(8 * |bytes + part|))
  {
    ZerosPast(bytes, part);
    Attach(bytes, part, [0x80], ZeroBytes(55 - |part|), Length(8 * |bytes + part|));
  }

  /** They do not fit: the length goes into a block of its own. */
  lemma PadTwoBlocks(bytes: seq<Byte>, part: seq<Byte>)
    requires Whole(bytes) && 56 <= |part| < 64
    ensures Pad(bytes + part) ==
            bytes + (part + [0x80] + ZeroBytes(63 - |part|)) + (ZeroBytes(56) + Length(8 * |bytes + part|))
  {
    ZerosPast(bytes, part);
    assert ZeroBytes(119 - |part|) == ZeroBytes(63 - |part|) + ZeroBytes(56);
    Attach(bytes, part, [0x80], ZeroBytes(63 - |part|) + ZeroBytes(56), Length(8 * |bytes + part|));
    Regroup(bytes, part + [0x80], ZeroBytes(63 - |part|), ZeroBytes(56), Length(8 * |bytes + part|));
  }

  // ----- the running hash --------------------------------------------------------------------------------

  /** The message schedule of one block. */
  method Expand(block: seq<Byte>) returns (w: seq<Word>)
    requires |block| == 64
    ensures w == Schedule(block, [])
  {
    w := [];
    for t := 0 to |K|
      invariant |w| == t && Schedule(block, w) == Schedule(block, [])
    {
      if t < 16 {
        w := w + [FromBig(block[4 * t..4 * t + 4])];
      } else {
        w := w + [Add(Add(Add(w[t - 16], SmallSigma0(w[t - 15])), w[t - 7]), SmallSigma1(w[t - 2]))];
      }
    }
  }

  /** Compresses one block with the rolling variables of the program. */
  method Transform(h: State, block: seq<Byte>) returns (r: State)
    requires |block| == 64
    ensures r == Compress(h, block)
  {
    var w := Expand(block);
    var a, b, c, d := h[0], h[1], h[2], h[3];
    var e, f, g, last := h[4], h[5], h[6], h[7];
    for t := 0 to |K|
      invariant [a, b, c, d, e, f, g, last] == Rounds(h, w[..t])
    {
      RoundsNext(h, w, t);
      var t1 := Add(Add(Add(Add(last, BigSigma1(e)), Choose(e, f, g)), K[t]), w[t]);
      var t2 := Add(BigSigma0(a), Majority(a, b, c));
      last, g, f, e := g, f, e, Add(d, t1);
      d, c, b, a := c, b, a, Add(t1, t2);
    }
    assert w[..|K|] == w;
    CompressIs(h, block, [a, b, c, d, e, f, g, last]);
    r := [Add(h[0], a), Add(h[1], b), Add(h[2], c), Add(h[3], d),
          Add(h[4], e), Add(h[5], f), Add(h[6], g), Add(h[7], last)];
  }

  lemma RoundsNext(h: State, w: seq<Word>, t: nat)
    requires t < |w| <= |K|
    ensures Rounds(h, w[..t + 1]) == Round(Rounds(h, w[..t]), K[t], w[t])
  {
    assert w[..t + 1][..t] == w[..t];
  }

  lemma CompressIs(h: State, block: seq<Byte>, v: State)
    requires |block| == 64 && v == Rounds(h, Schedule(block, []))
    ensures Compress(h, block) == [Add(h[0], v[0]), Add(h[1], v[1]), Add(h[2], v[2]), Add(h[3], v[3]),
                                   Add(h[4], v[4]), Add(h[5], v[5]), Add(h[6], v[6]), Add(h[7], v[7])]
  {
  }

  class Hash {
    var h: State
    var bits: nat
    const block: array<Byte>
    var used: nat
    /** The whole blocks compressed so far. */
    ghost var done: seq<Byte>

    ghost predicate Valid()
      reads this, block
    {
      block.Length == 64 && used < 64 && Absorbed(h, done) && bits == 8 * |done|
    }

    /** Every byte given to `Update` so far. */
    ghost function Message(): seq<Byte>
      reads this, block
      requires used <= block.Length
    {
      done + block[..used]
    }

    constructor ()
      ensures Valid() && Message() == [] && fresh(block)
    {
      block := new Byte[64](_ => 0);
      h, bits, used, done := INITIAL, 0, 0, [];
    }

    /** However the message is split over updates, the hash depends on the whole alone. */
    method Update(data: seq<Byte>)
      requires Valid()
      modifies this, block
      ensures Valid() && Message() == old(Message()) + data
    {
      for i := 0 to |data|
        invariant Valid() && Message() == old(Message()) + data[..i]
      {
        assert data[..i + 1] == data[..i] + [data[i]];
        Put(data[i]);
      }
      assert data[..|data|] == data;
    }

    method Put(b: Byte)
      requires Valid()
      modifies this, block
      ensures Valid() && Message() == old(Message()) + [b]
    {
      Place(b);
      if used == 64 {
        FlushBlock();
        bits := bits + 512;
      }
    }

    /** Stores one byte in the block. */
    method Place(b: Byte)
      requires block.Length == 64 && used < 64
      modifies this`used, block
      ensures used == old(used) + 1 && block[..used] == old(block[..used]) + [b]
    {
      block[used] := b;
      used := used + 1;
    }

    /** Compresses the block and starts the next one. */
    method FlushBlock()
      requires block.Length == 64 && Absorbed(h, done)
      modifies this`h, this`used, this`done
      ensures used == 0 && Absorbed(h, done) && done == old(done) + block[..]
    {
      hide Compress, Absorbed;
      AbsorbBlock(h, done, block[..]);
      h := Transform(h, block[..]);
      done := done + block[..];
      used := 0;
    }

    /** Appends `n` zero bytes that fit in the block. */
    method Clear(n: nat)
      requires block.Length == 64 && used + n <= 64
      modifies this`used, block
      ensures used == old(used) + n && block[..used] == old(block[..used]) + ZeroBytes(n)
    {
      for i := 0 to n
        invariant used == old(used) + i && block[..used] == old(block[..used]) + ZeroBytes(i)
      {
        Place(0);
      }
    }

    /** Writes the bit count into the last eight bytes, lowest byte last. */
    method StoreLength()
      requires block.Length == 64
      modifies block
      ensures block[..56] == old(block[..56]) && block[56..] == Length(bits)
    {
      for i := 0 to 8
        invariant block[..56] == old(block[..56])
        invariant block[64 - i..] == Length(bits)[8 - i..]
      {
        block[63 - i] := bits / Pow2(8 * i) % 256;
        assert block[63 - i] == Length(bits)[7 - i];
      }
    }

    /** Completes a block that has no room for the length and starts another one. */
    method Spill()
      requires block.Length == 64 && 56 < used <= 64 && Absorbed(h, done)
      modifies this`h, this`used, this`done, block
      ensures Absorbed(h, done) && used == 56 && block[..56] == ZeroBytes(56)
      ensures done == old(done) + (old(block[..used]) + ZeroBytes(64 - old(used)))
    {
      Clear(64 - used);
      assert block[..] == block[..used];
      FlushBlock();
      Clear(56);
      assert [] + ZeroBytes(56) == ZeroBytes(56);
    }

    /** The marker bit and the zeros, up to the length. */
    method Fill(ghost message: seq<Byte>)
      requires Valid() && message == Message()
      modifies this, block
      ensures Absorbed(h, done) && bits == 8 * |message|
      ensures done + (block[..56] + Length(bits)) == Pad(message)
    {
      ghost var part := block[..used];
      bits := bits + used * 8;
      assert message == done + part && bits == 8 * |message|;
      Place(0x80);
      assert h == old(h) && done == old(done);
      if used > 56 {
        PadTwoBlocks(done, part);
        Spill();
      } else {
        PadOneBlock(done, part);
        Clear(56 - used);
        assert h == old(h) && done == old(done);
      }
    }

    /** Stores the length behind the padded block and compresses it. */
    method LastBlock()
      requires block.Length == 64 && Absorbed(h, done)
      modifies this`h, this`used, this`done, block
      ensures Absorbed(h, done) && done == old(done) + (old(block[..56]) + Length(bits))
    {
      StoreLength();
      assert block[..] == block[..56] + block[56..];
      FlushBlock();
    }

    method Final() returns (out: seq<Byte>)
      requires Valid()
      modifies this, block
      ensures out == Digest(old(Message()))
    {
      Fill(Message());
      LastBlock();
      out := WordsToBytes(h);
    }
  }

  /** The whole message at once. */
  method HashBytes(data: seq<Byte>) returns (out: seq<Byte>)
    ensures out == Digest(data)
  {
    var s := new Hash();
    s.Update(data);
    assert [] + data == data;
    out := s.Final();
  }
}
