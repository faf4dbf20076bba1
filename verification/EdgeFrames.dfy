/**
 * The frames of EdgeStream, byte by byte: where each field lies, what is taken and what is dropped, and that the
 * CRC gives away any change within four neighbouring bytes.
 */
module EdgeFrames {
  import opened Words
  import opened EdgeCrc
  import EdgeCrcTable
  import opened EdgeTelemetry
  import opened EdgeParser

  // ----- one step cannot be confused ----------------------------------------------------------------------------

  lemma XorCancels(a: nat, b: nat, x: nat)
    ensures Xor(a, x) == Xor(b, x) <==> a == b
  {
    XorAssociates(a, x, x);
    XorAssociates(b, x, x);
    XorSelf(x);
    XorCommutes(a, 0);
    XorCommutes(b, 0);
  }

  lemma HalfBelow()
    ensures Pow2(31) == 0x8000_0000 && 2 * Pow2(31) == WORD
  {
    EightBits(0);
    assert Pow2(32) == 2 * Pow2(31);
  }

  /** The polynomial has its top bit set, so that a step shows the bit it dropped. */
  lemma StepInjective(c: nat, d: nat)
    requires c < WORD && d < WORD && BitStep(c) == BitStep(d)
    ensures c == d
  {
    HalfBelow();
    XorCommutes(c / 2, 0);
    XorCommutes(d / 2, 0);
    if c % 2 == d % 2 {
      XorCancels(c / 2, d / 2, POLYNOMIAL);
    } else if c % 2 == 1 {
      TopBitShows(c / 2, d / 2);
    } else {
      TopBitShows(d / 2, c / 2);
    }
  }

  lemma TopBitShows(x: nat, y: nat)
    requires x < Pow2(31) && y < Pow2(31)
    ensures Xor(x, POLYNOMIAL) != y
  {
    HalfBelow();
    XorBelow(x, y, 31);
    if Xor(x, POLYNOMIAL) == y {
      XorCommutes(x, POLYNOMIAL);
      XorAssociates(POLYNOMIAL, x, x);
      XorSelf(x);
      XorCommutes(POLYNOMIAL, 0);
      XorCommutes(x, y);
    }
  }

  lemma {:induction false} StepsInjective(c: nat, d: nat, n: nat)
    requires c < WORD && d < WORD && BitSteps(c, n) == BitSteps(d, n)
    ensures c == d
  {
    if n > 0 {
      StepsBelow(c, n - 1);
      StepsBelow(d, n - 1);
      StepInjective(BitSteps(c, n - 1), BitSteps(d, n - 1));
      StepsInjective(c, d, n - 1);
    }
  }

  lemma {:induction false} StepsAdd(c: nat, m: nat, n: nat)
    ensures BitSteps(BitSteps(c, m), n) == BitSteps(c, m + n)
  {
    if n > 0 { StepsAdd(c, m, n - 1); }
  }

  // ----- bytes through the register -----------------------------------------------------------------------------

  /** The register after more bytes. */
  function Feed(c: nat, data: seq<Byte>): nat {
    if data == [] then c else BitSteps(Xor(Feed(c, data[..|data| - 1]), data[|data| - 1]), 8)
  }

  lemma {:induction false} RegisterFeeds(a: seq<Byte>, b: seq<Byte>)
    ensures Register(a + b) == Feed(Register(a), b)
  {
    if b == [] {
      assert a + b == a;
    } else {
      var n := |b| - 1;
      RegisterFeeds(a, b[..n]);
      assert (a + b)[..|a + b| - 1] == a + b[..n];
    }
  }

  lemma {:induction false} FeedBelow(c: nat, data: seq<Byte>)
    requires c < WORD
    ensures Feed(c, data) < WORD
  {
    if data != [] {
      var n := |data| - 1;
      FeedBelow(c, data[..n]);
      EightBits(0);
      XorBelow(Feed(c, data[..n]), data[n], 32);
      StepsBelow(Xor(Feed(c, data[..n]), data[n]), 8);
    }
  }

  /** The same bytes keep different registers different. */
  lemma {:induction false} FeedInjective(c: nat, d: nat, data: seq<Byte>)
    requires c < WORD && d < WORD && Feed(c, data) == Feed(d, data)
    ensures c == d
  {
    if data != [] {
      var n := |data| - 1;
      var c1, d1 := Feed(c, data[..n]), Feed(d, data[..n]);
      FeedBelow(c, data[..n]);
      FeedBelow(d, data[..n]);
      EightBits(0);
      XorBelow(c1, data[n], 32);
      XorBelow(d1, data[n], 32);
      StepsInjective(Xor(c1, data[n]), Xor(d1, data[n]), 8);
      XorCancels(c1, d1, data[n]);
      FeedInjective(c, d, data[..n]);
    }
  }

  /** Bytes as a number, the first one lowest. */
  function Little(a: seq<Byte>): nat {
    if a == [] then 0 else Little(a[..|a| - 1]) + Shl(a[|a| - 1], 8 * (|a| - 1))
  }

  lemma {:induction false} ShlIs(x: nat, k: nat)
    ensures Shl(x, k) == x * Pow2(k)
  {
    if k > 0 { ShlIs(x, k - 1); }
  }

  lemma {:induction false} LittleBelow(a: seq<Byte>)
    ensures Little(a) < Pow2(8 * |a|)
  {
    if a != [] {
      var n := |a| - 1;
      LittleBelow(a[..n]);
      TopByteBelow(Little(a[..n]), a[n], 8 * n);
    }
  }

  lemma Next(m: nat, p: nat)
    ensures (m + 1) * p == m * p + p
  {
  }

  lemma {:induction false} Times(x: nat, y: nat, p: nat)
    requires x < y
    ensures x * p + p <= y * p
  {
    Next(y - 1, p);
    if x < y - 1 { Times(x, y - 1, p); }
  }

  lemma TopByteBelow(low: nat, x: Byte, k: nat)
    requires low < Pow2(k)
    ensures low + Shl(x, k) < Pow2(k + 8)
  {
    hide *;
    ShlIs(x, k);
    PowSum(k, 8);
    EightBits(0);
    Times(x, 256, Pow2(k));
  }

  lemma TopByteUnique(a: nat, x: nat, b: nat, y: nat, k: nat)
    requires a < Pow2(k) && b < Pow2(k) && a + Shl(x, k) == b + Shl(y, k)
    ensures a == b && x == y
  {
    hide *;
    ShlIs(x, k);
    ShlIs(y, k);
    if x < y { Times(x, y, Pow2(k)); }
    if y < x { Times(y, x, Pow2(k)); }
  }

  lemma {:induction false} LittleInjective(a: seq<Byte>, b: seq<Byte>)
    requires |a| == |b| && Little(a) == Little(b)
    ensures a == b
  {
    if a != [] {
      var n := |a| - 1;
      LittleBelow(a[..n]);
      LittleBelow(b[..n]);
      TopByteUnique(Little(a[..n]), a[n], Little(b[..n]), b[n], 8 * n);
      LittleInjective(a[..n], b[..n]);
      assert a == a[..n] + [a[n]] && b == b[..n] + [b[n]];
    }
  }

  /** A byte joins the number above the bytes before it. */
  lemma Joins(low: nat, x: Byte, k: nat)
    requires low < Pow2(k)
    ensures Xor(BitSteps(low, k), x) == BitSteps(low + Shl(x, k), k)
  {
    hide *;
    HighBitsShift(x, k);
    StepsLinear(low, Shl(x, k), k);
    XorHigh(x, 0, low, k);
    NoXor(low);
    XorCommutes(low, Shl(x, k));
  }

  /** Bytes fed to the register are their number, stepped. */
  lemma {:induction false} FeedZero(data: seq<Byte>)
    ensures Feed(0, data) == BitSteps(Little(data), 8 * |data|)
  {
    if data != [] {
      var n := |data| - 1;
      FeedZero(data[..n]);
      LittleBelow(data[..n]);
      Joins(Little(data[..n]), data[n], 8 * n);
      StepsAdd(Little(data), 8 * n, 8);
    }
  }

  lemma {:induction false} FeedLinear(c: nat, data: seq<Byte>)
    ensures Feed(c, data) == Xor(BitSteps(c, 8 * |data|), Feed(0, data))
  {
    hide Xor, BitSteps;
    if data == [] {
      NoSteps(c);
    } else {
      var n := |data| - 1;
      FeedLinear(c, data[..n]);
      var s, z := BitSteps(c, 8 * n), Feed(0, data[..n]);
      XorAssociates(s, z, data[n]);
      StepsLinear(s, Xor(z, data[n]), 8);
      StepsAdd(c, 8 * n, 8);
    }
  }

  lemma NoSteps(c: nat)
    ensures Xor(BitSteps(c, 0), 0) == c
  {
    XorCommutes(c, 0);
  }

  lemma {:induction false} PowGrows(m: nat, n: nat)
    requires m <= n
    ensures Pow2(m) <= Pow2(n)
  {
    if m < n { PowGrows(m, n - 1); }
  }

  /** At most four bytes can be told from the register they leave. */
  lemma FeedTells(c: nat, a: seq<Byte>, b: seq<Byte>)
    requires |a| == |b| <= 4 && Feed(c, a) == Feed(c, b)
    ensures a == b
  {
    var s := BitSteps(c, 8 * |a|);
    FeedLinear(c, a);
    FeedLinear(c, b);
    XorCommutes(s, Feed(0, a));
    XorCommutes(s, Feed(0, b));
    XorCancels(Feed(0, a), Feed(0, b), s);
    FeedZero(a);
    FeedZero(b);
    LittleBelow(a);
    LittleBelow(b);
    PowGrows(8 * |a|, 32);
    EightBits(0);
    StepsInjective(Little(a), Little(b), 8 * |a|);
    LittleInjective(a, b);
  }

  /** The CRC gives away any change within four neighbouring bytes, whatever stands around them. */
  lemma ChangeDetected(before: seq<Byte>, a: seq<Byte>, b: seq<Byte>, behind: seq<Byte>)
    requires |a| == |b| <= 4
    ensures Crc32(before + a + behind) == Crc32(before + b + behind) <==> a == b
  {
    if Crc32(before + a + behind) == Crc32(before + b + behind) {
      var c := Register(before);
      RegisterFeeds(before, a);
      RegisterFeeds(before, b);
      RegisterFeeds(before + a, behind);
      RegisterFeeds(before + b, behind);
      RegisterBelow(before);
      FeedBelow(c, a);
      FeedBelow(c, b);
      FeedInjective(Feed(c, a), Feed(c, b), behind);
      FeedTells(c, a, b);
    }
  }

  // ----- known values -------------------------------------------------------------------------------------------

  lemma Words32()
    ensures EdgeCrcTable.Value(0x2d02_ef8d) == 0x2d02_ef8d && EdgeCrcTable.Value(0x00ff_ffff) == 0x00ff_ffff
    ensures EdgeCrcTable.Value(0x2dfd_1072) == 0x2dfd_1072
    ensures EdgeCrcTable.Exor(0x00ff_ffff, 0x2d02_ef8d) == 0x2dfd_1072
  {
  }

  lemma LastEntry()
    ensures BitSteps(255, 8) == 0x2d02_ef8d
  {
    Words32();
    EdgeCrcTable.OneLiteral(255);
    assert EdgeCrcTable.Row(15)[15] == 0x2d02_ef8d;
  }

  /** The CRC of nothing, and of one zero byte. */
  lemma CrcKnown()
    ensures Crc32([]) == 0 && Crc32([0]) == 0xd202_ef8d
  {
    assert [0][..0] == [];
    assert Register([]) == 0xffff_ffff;
    OnesStepped();
  }

  lemma OnesStepped()
    ensures BitSteps(Xor(0xffff_ffff, 0), 8) == 0x2dfd_1072
  {
    hide *;
    var h := 0x00ff_ffff;
    XorCommutes(0xffff_ffff, 0);
    EightBits(h);
    XorHigh(h, 0, 255, 8);
    NoXor(255);
    NoXor(0xffff_ffff);
    StepsLinear(Shl(h, 8), 255, 8);
    HighBitsShift(h, 8);
    LastEntry();
    Words32();
    EdgeCrcTable.XorWords(0x00ff_ffff, 0x2d02_ef8d);
  }

  lemma NoXor(x: nat)
    ensures Xor(0, x) == x
  {
  }

  // ----- the bytes of a frame -----------------------------------------------------------------------------------

  function Number2(b: seq<Byte>, i: nat): nat
    requires i + 2 <= |b|
  {
    b[i] as int + 256 * b[i + 1] as int
  }

  function Number4(b: seq<Byte>, i: nat): nat
    requires i + 4 <= |b|
  {
    b[i] as int + 256 * b[i + 1] as int + 65536 * b[i + 2] as int + 16777216 * b[i + 3] as int
  }

  lemma LittleNumbers(b: seq<Byte>, i: nat)
    ensures i + 2 <= |b| ==> FromLittle(b[i..i + 2]) == Number2(b, i)
    ensures i + 4 <= |b| ==> FromLittle(b[i..i + 4]) == Number4(b, i)
    ensures i + 8 <= |b| ==> FromLittle(b[i..i + 8]) == Number4(b, i) + 4294967296 * Number4(b, i + 4)
  {
    if i + 2 <= |b| { Two(b[i..i + 2]); }
    if i + 4 <= |b| { Four(b[i..i + 4]); }
    if i + 8 <= |b| { Eight(b[i..i + 8]); }
  }

  lemma Two(b: seq<Byte>)
    requires |b| == 2
    ensures FromLittle(b) == Number2(b, 0)
  {
    assert b[1..][0] == b[1] && b[1..][1..] == [];
    assert FromLittle(b[1..]) == b[1];
  }

  lemma Four(b: seq<Byte>)
    requires |b| == 4
    ensures FromLittle(b) == Number4(b, 0)
  {
    Two(b[2..]);
    assert b[1..][0] == b[1] && b[1..][1..] == b[2..];
  }

  lemma Eight(b: seq<Byte>)
    requires |b| == 8
    ensures FromLittle(b) == Number4(b, 0) + 4294967296 * Number4(b, 4)
  {
    Four(b[4..]);
    assert b[3..][0] == b[3] && b[3..][1..] == b[4..];
    assert FromLittle(b[3..]) == b[3] + 256 * FromLittle(b[4..]);
    assert b[2..][0] == b[2] && b[2..][1..] == b[3..];
    assert FromLittle(b[2..]) == b[2] + 256 * FromLittle(b[3..]);
    assert b[1..][0] == b[1] && b[1..][1..] == b[2..];
  }

  /** What stands in front is taken, dropped or waits, by the bytes. */
  lemma LookSays(b: seq<Byte>)
    ensures Look(b) ==
            if |b| < 2 then Wait
            else if !(b[0] == 0xe5 && b[1] == 0x47) then Drop(1, "junk")
            else if |b| < 6 then Wait
            else if !(b[4] == 32 && b[5] == 0) then Drop(1, "length")
            else if |b| < 32 then Wait
            else if b[2] < 1 || b[2] > 2 then Drop(32, "version")
            else if Number4(b, 28) == Crc32(b[..28]) then Take
            else Drop(32, "checksum")
  {
    if |b| >= 6 { LittleNumbers(b, 4); }
    if |b| >= 32 { LittleNumbers(b, 28); }
  }

  /** The fields of a frame; the reading is a signed 32-bit number. */
  lemma DecodeSays(b: seq<Byte>)
    requires |b| == 32
    ensures var f, reading := Decode(b), Number4(b, 24);
            f.version == b[2] && f.flags == b[3] && f.device == Number4(b, 6) && f.sequence == Number4(b, 10) &&
            f.timestamp == Number4(b, 14) + 4294967296 * Number4(b, 18) && f.metric == Number2(b, 22) &&
            f.value == if reading < 2147483648 then reading else reading - 4294967296
  {
    LittleNumbers(b, 6);
    LittleNumbers(b, 10);
    LittleNumbers(b, 14);
    LittleNumbers(b, 22);
    LittleNumbers(b, 24);
  }

  /** A frame with other bytes in four neighbouring places is never taken in its stead. */
  lemma CorruptRefused(a: seq<Byte>, b: seq<Byte>, i: nat)
    requires |a| == |b| == 32 && (i <= 24 || i == 28) && Look(a).Take? && a != b
    requires a[..i] == b[..i] && a[i + 4..] == b[i + 4..]
    ensures !Look(b).Take?
  {
    hide Crc32, Look;
    LookSays(a);
    LookSays(b);
    if i == 28 {
      assert a[..28] == b[..28];
      SameNumber(a, b);
    } else {
      OtherCrc(a, b, i);
    }
  }

  /** The last four bytes tell the number they spell. */
  lemma SameNumber(a: seq<Byte>, b: seq<Byte>)
    requires |a| == |b| == 32 && a[..28] == b[..28]
    ensures Number4(a, 28) == Number4(b, 28) <==> a == b
  {
    var x, y := a[28..], b[28..];
    assert a == a[..28] + x && b == b[..28] + y;
    if Number4(a, 28) == Number4(b, 28) { assert x == [x[0], x[1], x[2], x[3]] && y == [y[0], y[1], y[2], y[3]]; }
  }

  lemma OtherCrc(a: seq<Byte>, b: seq<Byte>, i: nat)
    requires |a| == |b| == 32 && i <= 24 && a != b && a[..i] == b[..i] && a[i + 4..] == b[i + 4..]
    ensures Crc32(a[..28]) != Crc32(b[..28]) && Number4(a, 28) == Number4(b, 28)
  {
    hide Crc32;
    Cut(a, i);
    Cut(b, i);
    ChangeDetected(a[..i], a[i..i + 4], b[i..i + 4], a[i + 4..][..24 - i]);
  }

  lemma Cut(a: seq<Byte>, i: nat)
    requires |a| == 32 && i <= 24
    ensures a == a[..i] + a[i..i + 4] + a[i + 4..]
    ensures a[..28] == a[..i] + a[i..i + 4] + a[i + 4..][..24 - i]
    ensures Number4(a, 28) == Number4(a[i + 4..], 24 - i)
  {
  }
}
