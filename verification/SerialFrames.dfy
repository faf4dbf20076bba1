/**
 * The dSense capture tool's serial framing: A5 5A, type, length, payload, exclusive-or checksum.
 * The decoder consumes a mutable buffer to which bytes are appended as they arrive.
 */
module SerialFrames {
  import opened Prelude
  import opened Words
  import opened WordBits

  datatype Frame = Frame(kind: Byte, payload: seq<Byte>)

  const SYNC0: Byte := 0xA5
  const SYNC1: Byte := 0x5A

  /** Exclusive or of two bytes is a byte. */
  function XorByte(a: Byte, b: Byte): Byte {
    EightBits(0);
    XorBelow(a, b, 8);
    Xor(a, b)
  }

  function Checksum(kind: Byte, length: Byte, payload: seq<Byte>): Byte {
    if payload == [] then XorByte(kind, length)
    else XorByte(Checksum(kind, length, payload[..|payload| - 1]), payload[|payload| - 1])
  }

  method ChecksumOf(kind: Byte, length: Byte, payload: seq<Byte>) returns (checksum: Byte)
    ensures checksum == Checksum(kind, length, payload)
  {
    checksum := XorByte(kind, length);
    for i := 0 to |payload|
      invariant checksum == Checksum(kind, length, payload[..i])
    {
      assert payload[..i + 1][..i] == payload[..i];
      checksum := XorByte(checksum, payload[i]);
    }
    assert payload[..|payload|] == payload;
  }

  // ----- the encoder -------------------------------------------------------------------------------------

  predicate Short(f: Frame) { |f.payload| <= 255 }

  function Encoded(f: Frame): (b: seq<Byte>)
    requires Short(f)
    ensures |b| == 5 + |f.payload|
  {
    [SYNC0, SYNC1, f.kind, |f.payload|] + f.payload + [Checksum(f.kind, |f.payload|, f.payload)]
  }

  /** Raises for a payload whose length does not fit its byte. */
  method FrameBytes(f: Frame) returns (b: Option<seq<Byte>>)
    ensures b == if Short(f) then Some(Encoded(f)) else None
  {
    if |f.payload| > 255 { return None; }
    var checksum := ChecksumOf(f.kind, |f.payload|, f.payload);
    var head := [SYNC0, SYNC1] + [f.kind, |f.payload|];
    assert head == [SYNC0, SYNC1, f.kind, |f.payload|];
    b := Some(head + f.payload + [checksum]);
  }

  // ----- what a buffer decodes to ---------------------------------------------------------------------------

  predicate PairAt(b: seq<Byte>, p: nat) { p + 1 < |b| && b[p] == SYNC0 && b[p + 1] == SYNC1 }

  ghost predicate NoPair(b: seq<Byte>) { forall p: nat :: !PairAt(b, p) }

  /** Position of the first sync pair, or the length of the buffer. */
  function Find(b: seq<Byte>): (p: nat)
    ensures p <= |b|
    ensures p < |b| ==> PairAt(b, p)
    ensures p == |b| ==> NoPair(b)
    ensures forall q: nat :: q < p ==> !PairAt(b, q)
  {
    FindFrom(b, 0)
  }

  function FindFrom(b: seq<Byte>, from: nat): (p: nat)
    requires from <= |b| && forall q: nat :: q < from ==> !PairAt(b, q)
    ensures from <= p <= |b|
    ensures p < |b| ==> PairAt(b, p)
    ensures forall q: nat :: q < p ==> !PairAt(b, q)
    decreases |b| - from
  {
    if from == |b| || PairAt(b, from) then from else FindFrom(b, from + 1)
  }

  /** Without a pair only the last byte can still begin one. */
  function Tail(b: seq<Byte>): seq<Byte> { if |b| > 1 then b[|b| - 1..] else b }

  /** A whole frame at the start of the buffer, whatever its checksum. */
  predicate Whole(b: seq<Byte>) { |b| >= 5 && |b| >= 5 + b[3] as int }

  function Candidate(b: seq<Byte>): Frame
    requires Whole(b)
  {
    Frame(b[2], b[4..4 + b[3]])
  }

  predicate Sound(b: seq<Byte>)
    requires Whole(b)
  {
    b[4 + b[3] as int] == Checksum(b[2], b[3], b[4..4 + b[3]])
  }

  datatype Decoding = Decoding(frames: seq<Frame>, rest: seq<Byte>)

  function Decode(b: seq<Byte>): Decoding
    decreases |b|, 2
  {
    DecodeFrom(b, Find(b))
  }

  /** Decoding when the first sync pair is known. */
  function DecodeFrom(b: seq<Byte>, p: nat): Decoding
    requires p <= |b|
    decreases |b|, 1
  {
    if p == |b| then Decoding([], Tail(b)) else DecodeAt(b[p..])
  }

  /** Decoding at a sync pair. */
  function DecodeAt(c: seq<Byte>): Decoding
    decreases |c|, 0
  {
    if !Whole(c) then Decoding([], c)
    else
      var d := Decode(c[5 + c[3] as int..]);
      if Sound(c) then d.(frames := [Candidate(c)] + d.frames) else d
  }

  // ----- how bytes arrive does not matter ---------------------------------------------------------------------

  lemma FindIs(b: seq<Byte>, p: nat)
    requires p <= |b| && (p < |b| ==> PairAt(b, p)) && forall q: nat :: q < p ==> !PairAt(b, q)
    ensures Find(b) == p
  {
    assert Find(b) <= |b|;
  }

  lemma PairShift(b: seq<Byte>, k: nat, q: nat)
    requires k <= |b| && k <= q
    ensures PairAt(b, q) <==> PairAt(b[k..], q - k)
  {
  }

  lemma FindShift(b: seq<Byte>, k: nat)
    requires k <= |b| && forall q: nat :: q < k ==> !PairAt(b, q)
    ensures Find(b) == k + Find(b[k..])
  {
    var c := b[k..];
    var p := Find(c);
    forall q: nat | q < k + p ensures !PairAt(b, q) {
      if k <= q { PairShift(b, k, q); }
    }
    PairShift(b, k, k + p);
    FindIs(b, k + p);
  }

  lemma DropDrop(b: seq<Byte>, k: nat, p: nat)
    requires k + p <= |b|
    ensures b[k..][p..] == b[k + p..]
  {
  }

  lemma TailShift(b: seq<Byte>, k: nat)
    requires k < |b|
    ensures Tail(b[k..]) == Tail(b)
  {
  }

  lemma DecodeIs(b: seq<Byte>, p: nat)
    requires p == Find(b)
    ensures Decode(b) == DecodeFrom(b, p)
  {
  }

  lemma DecodeShift(b: seq<Byte>, k: nat, p: nat)
    requires k < |b| && k + p <= |b|
    ensures DecodeFrom(b, k + p) == DecodeFrom(b[k..], p)
  {
    DropDrop(b, k, p);
    TailShift(b, k);
  }

  lemma DecodeAcross(b: seq<Byte>, k: nat, c: seq<Byte>, p: nat, q: nat)
    requires k < |b| && c == b[k..] && p == Find(b) && q == Find(c) && p == k + q
    ensures Decode(b) == Decode(c)
  {
    hide *;
    DecodeShift(b, k, q);
    DecodeIs(b, p);
    DecodeIs(c, q);
  }

  /** Bytes in front of the first pair change nothing, as long as something follows them. */
  lemma SkipJunk(b: seq<Byte>, k: nat)
    requires k < |b| && forall q: nat :: q < k ==> !PairAt(b, q)
    ensures Decode(b) == Decode(b[k..])
  {
    FindShift(b, k);
    DecodeAcross(b, k, b[k..], Find(b), Find(b[k..]));
  }

  lemma AtPair(b: seq<Byte>)
    requires PairAt(b, 0)
    ensures Decode(b) == DecodeAt(b)
  {
    FindIs(b, 0);
    assert b[0..] == b;
    assert DecodeFrom(b, 0) == DecodeAt(b);
  }

  /** One step at the start of a frame. */
  lemma DecodeFrame(b: seq<Byte>)
    requires PairAt(b, 0) && Whole(b)
    ensures var d := Decode(b[5 + b[3] as int..]);
            Decode(b) == if Sound(b) then d.(frames := [Candidate(b)] + d.frames) else d
  {
    AtPair(b);
  }

  lemma JoinOne(f: Frame, d: Decoding)
    ensures Joined(Decoding([f], []), d) == d.(frames := [f] + d.frames)
    ensures Joined(Decoding([], []), d) == d
  {
    assert [] + d.frames == d.frames;
  }

  lemma JoinNone(rest: seq<Byte>, e: Decoding)
    ensures Joined(Decoding([], rest), e) == e
  {
    assert [] + e.frames == e.frames;
  }

  lemma JoinFront(f: Frame, d: Decoding, e: Decoding)
    ensures Joined(d.(frames := [f] + d.frames), e) == Joined(d, e).(frames := [f] + Joined(d, e).frames)
  {
    assert [f] + d.frames + e.frames == [f] + (d.frames + e.frames);
  }

  function Joined(d: Decoding, e: Decoding): Decoding { Decoding(d.frames + e.frames, e.rest) }

  /** More bytes behind a frame do not touch it. */
  lemma FrameThenMore(c: seq<Byte>, b: seq<Byte>)
    requires PairAt(c, 0) && Whole(c)
    ensures var more := Decode(c[5 + c[3] as int..] + b);
            Decode(c + b) == if Sound(c) then more.(frames := [Candidate(c)] + more.frames) else more
  {
    var n := 5 + c[3] as int;
    assert (c + b)[n..] == c[n..] + b && (c + b)[4..4 + c[3]] == c[4..4 + c[3]];
    DecodeFrame(c + b);
  }

  /** Decoding what has arrived and then the retained bytes with the next ones is decoding it all. */
  lemma {:induction false} ArrivalIndependent(a: seq<Byte>, b: seq<Byte>)
    ensures Decode(a + b) == Joined(Decode(a), Decode(Decode(a).rest + b))
    decreases |a|, 1
  {
    var p := Find(a);
    if p == |a| {
      NoFrameYet(a, b);
      JoinNone(Tail(a), Decode(Tail(a) + b));
    } else {
      ToFirstFrame(a, b, p);
      ArrivalAtFrame(a[p..], b);
    }
  }

  lemma ToFirstFrame(a: seq<Byte>, b: seq<Byte>, p: nat)
    requires p == Find(a) < |a|
    ensures Decode(a) == Decode(a[p..]) && Decode(a + b) == Decode(a[p..] + b)
  {
    SkipJunk(a, p);
    StillBefore(a, b, p);
    SkipTo(a + b, p, a[p..] + b);
  }

  lemma StillBefore(a: seq<Byte>, b: seq<Byte>, p: nat)
    requires p < |a| && PairAt(a, p) && forall q: nat :: q < p ==> !PairAt(a, q)
    ensures forall q: nat :: q < p ==> !PairAt(a + b, q)
    ensures (a + b)[p..] == a[p..] + b
  {
    forall q: nat | q < p ensures !PairAt(a + b, q) { PairKept(a, b, q); }
  }

  lemma SkipTo(b: seq<Byte>, k: nat, c: seq<Byte>)
    requires k < |b| && b[k..] == c && forall q: nat :: q < k ==> !PairAt(b, q)
    ensures Decode(b) == Decode(c)
  {
    SkipJunk(b, k);
  }

  lemma PairKept(a: seq<Byte>, b: seq<Byte>, q: nat)
    requires q + 1 < |a|
    ensures PairAt(a + b, q) <==> PairAt(a, q)
  {
  }

  lemma {:induction false} ArrivalAtFrame(c: seq<Byte>, b: seq<Byte>)
    requires PairAt(c, 0)
    ensures Decode(c + b) == Joined(Decode(c), Decode(Decode(c).rest + b))
    decreases |c|, 0
  {
    if Whole(c) {
      var rest := c[5 + c[3] as int..];
      DecodeFrame(c);
      FrameThenMore(c, b);
      ArrivalIndependent(rest, b);
      JoinFront(Candidate(c), Decode(rest), Decode(Decode(rest).rest + b));
    } else {
      AtPair(c);
    }
  }

  lemma NoFrameYet(a: seq<Byte>, b: seq<Byte>)
    requires NoPair(a)
    ensures Decode(a).frames == [] && Decode(a).rest == Tail(a)
    ensures Decode(a + b) == Decode(Tail(a) + b)
  {
    FindIs(a, |a|);
    if |a| > 1 {
      var k := |a| - 1;
      forall q: nat | q < k ensures !PairAt(a + b, q) {
        assert PairAt(a + b, q) ==> PairAt(a, q);
      }
      SkipJunk(a + b, k);
      assert (a + b)[k..] == Tail(a) + b;
    }
  }

  function Concat(chunks: seq<seq<Byte>>): seq<Byte> {
    if chunks == [] then [] else Concat(chunks[..|chunks| - 1]) + chunks[|chunks| - 1]
  }

  // ----- encoded frames come out again -------------------------------------------------------------------------

  /** Noise in front of a frame. */
  datatype Item = Item(junk: seq<Byte>, frame: Frame)

  ghost predicate Clean(item: Item) { NoPair(item.junk) && Short(item.frame) }

  ghost predicate AllClean(items: seq<Item>) { forall i :: 0 <= i < |items| ==> Clean(items[i]) }

  ghost function Sent(items: seq<Item>): seq<Byte>
    requires AllClean(items)
    decreases |items|
  {
    if items == [] then [] else items[0].junk + (Encoded(items[0].frame) + Sent(items[1..]))
  }

  function FramesOf(items: seq<Item>): seq<Frame>
    decreases |items|
  {
    if items == [] then [] else [items[0].frame] + FramesOf(items[1..])
  }

  lemma EncodedWhole(f: Frame, more: seq<Byte>)
    requires Short(f)
    ensures var c := Encoded(f) + more;
            PairAt(c, 0) && Whole(c) && Sound(c) && Candidate(c) == f && c[5 + c[3] as int..] == more
  {
    var c := Encoded(f) + more;
    assert c[4..4 + c[3]] == f.payload;
  }

  lemma FrameComesOut(item: Item, more: seq<Byte>)
    requires Clean(item)
    ensures Decode(item.junk + (Encoded(item.frame) + more)) ==
            Decoding([item.frame] + Decode(more).frames, Decode(more).rest)
  {
    var c := Encoded(item.frame) + more;
    EncodedWhole(item.frame, more);
    JunkBefore(item.junk, c);
    DecodeFrame(c);
  }

  lemma JunkBefore(junk: seq<Byte>, c: seq<Byte>)
    requires NoPair(junk) && PairAt(c, 0)
    ensures Decode(junk + c) == Decode(c)
  {
    var b, k := junk + c, |junk|;
    forall q: nat | q < k ensures !PairAt(b, q) {
      assert q + 1 < k ==> PairAt(b, q) == PairAt(junk, q);
    }
    SkipJunk(b, k);
    assert b[k..] == c;
  }

  lemma Regroup(a: seq<Byte>, b: seq<Byte>, c: seq<Byte>, d: seq<Byte>)
    ensures a + (b + c) + d == a + (b + (c + d))
  {
  }

  /** Whatever noise without a sync pair surrounds them, exactly the frames sent come out, in order. */
  lemma {:induction false} FramesComeOut(items: seq<Item>, tail: seq<Byte>)
    requires AllClean(items) && NoPair(tail)
    ensures Decode(Sent(items) + tail) == Decoding(FramesOf(items), Tail(tail))
    decreases |items|
  {
    if items == [] {
      assert Sent(items) + tail == tail;
      NoFrameYet(tail, []);
    } else {
      var rest := items[1..];
      var more := Sent(rest) + tail;
      FramesComeOut(rest, tail);
      assert Clean(items[0]);
      FrameComesOut(items[0], more);
      Regroup(items[0].junk, Encoded(items[0].frame), Sent(rest), tail);
      assert Sent(items) + tail == items[0].junk + (Encoded(items[0].frame) + more);
    }
  }

  /** With nothing behind the last frame the buffer ends empty. */
  lemma BufferEndsEmpty(items: seq<Item>)
    requires AllClean(items)
    ensures Decode(Sent(items)) == Decoding(FramesOf(items), [])
  {
    assert Sent(items) + [] == Sent(items);
    FramesComeOut(items, []);
  }

  // ----- errors are detected ------------------------------------------------------------------------------------

  /** The frame byte by byte. */
  lemma Layout(f: Frame)
    requires Short(f)
    ensures var b := Encoded(f);
            b[0] == 0xA5 && b[1] == 0x5A && b[2] == f.kind && b[3] as int == |f.payload| &&
            b[4..4 + |f.payload|] == f.payload && |b| == 5 + |f.payload|
  {
  }

  /** An odd number of the bytes have bit `i` set. */
  function OddAt(b: seq<Byte>, i: nat): bool {
    b != [] && (OddAt(b[..|b| - 1], i) != Bit(b[|b| - 1], i))
  }

  /** Each bit of the checksum is the parity of that bit over type, length and payload. */
  lemma {:induction false} ChecksumBit(kind: Byte, length: Byte, payload: seq<Byte>, i: nat)
    ensures Bit(Checksum(kind, length, payload), i) <==> OddAt([kind, length] + payload, i)
  {
    hide *;
    ChecksumIs(kind, length, payload);
    if payload == [] {
      XorBit(kind, length, i);
      OddPair(kind, length, payload, i);
    } else {
      var n := |payload| - 1;
      ChecksumBit(kind, length, payload[..n], i);
      XorBit(Checksum(kind, length, payload[..n]), payload[n], i);
      OddSnoc([kind, length] + payload[..n], payload[n], i);
      Behind([kind, length], payload);
    }
  }

  lemma ChecksumIs(kind: Byte, length: Byte, payload: seq<Byte>)
    ensures payload == [] ==> Checksum(kind, length, payload) == Xor(kind, length)
    ensures payload != [] ==>
              var n := |payload| - 1;
              Checksum(kind, length, payload) == Xor(Checksum(kind, length, payload[..n]), payload[n])
  {
  }

  lemma Behind<T>(head: seq<T>, payload: seq<T>)
    requires payload != []
    ensures var n := |payload| - 1; head + payload == head + payload[..n] + [payload[n]]
  {
  }

  lemma OddPair(kind: Byte, length: Byte, payload: seq<Byte>, i: nat)
    requires payload == []
    ensures OddAt([kind, length] + payload, i) <==> Bit(kind, i) != Bit(length, i)
  {
    OddSnoc([], kind, i);
    OddSnoc([kind], length, i);
    assert [] + [kind] == [kind] && [kind] + [length] == [kind, length] + payload;
  }

  lemma OddSnoc(b: seq<Byte>, x: Byte, i: nat)
    ensures OddAt(b + [x], i) <==> OddAt(b, i) != Bit(x, i)
    ensures !OddAt([], i)
  {
    hide Bit;
    assert (b + [x])[..|b|] == b;
  }

  lemma XorByteCancels(a: Byte, x: Byte, y: Byte)
    requires x != y
    ensures XorByte(a, x) != XorByte(a, y) && XorByte(x, a) != XorByte(y, a)
  {
    XorCancels(a, x);
    XorCancels(a, y);
    XorCommutes(a, x);
    XorCommutes(a, y);
  }

  lemma XorCancels(a: nat, x: nat)
    ensures Xor(a, Xor(a, x)) == x
  {
    XorAssociates(a, a, x);
    XorSelf(a);
  }

  /** A changed payload byte changes the checksum. */
  lemma {:induction false} ChecksumDetects(kind: Byte, length: Byte, payload: seq<Byte>, i: nat, x: Byte)
    requires i < |payload| && x != payload[i]
    ensures Checksum(kind, length, payload[i := x]) != Checksum(kind, length, payload)
  {
    var n := |payload| - 1;
    var changed := payload[i := x];
    if i == n {
      assert changed[..n] == payload[..n];
      XorByteCancels(Checksum(kind, length, payload[..n]), x, payload[n]);
    } else {
      assert changed[..n] == payload[..n][i := x];
      ChecksumDetects(kind, length, payload[..n], i, x);
      XorByteCancels(payload[n], Checksum(kind, length, changed[..n]), Checksum(kind, length, payload[..n]));
    }
  }

  /** So does a changed type byte. */
  lemma {:induction false} KindDetected(kind: Byte, other: Byte, length: Byte, payload: seq<Byte>)
    requires kind != other
    ensures Checksum(kind, length, payload) != Checksum(other, length, payload)
  {
    if payload == [] {
      XorByteCancels(length, kind, other);
    } else {
      var n := |payload| - 1;
      KindDetected(kind, other, length, payload[..n]);
      XorByteCancels(payload[n], Checksum(kind, length, payload[..n]), Checksum(other, length, payload[..n]));
    }
  }

  /** A frame in which one byte of type, payload or checksum has changed does not come out. */
  lemma CorruptDropped(f: Frame, p: nat, x: Byte, more: seq<Byte>)
    requires Short(f) && (p == 2 || 4 <= p < |Encoded(f)|) && x != Encoded(f)[p]
    ensures Decode(Encoded(f)[p := x] + more) == Decode(more)
  {
    var b := Encoded(f)[p := x];
    var n := |f.payload|;
    Layout(f);
    assert b[4 + n] == if p == 4 + n then x else Checksum(f.kind, n, f.payload);
    var payload := (b + more)[4..4 + n];
    assert payload == if 4 <= p < 4 + n then f.payload[p - 4 := x] else f.payload;
    if p == 2 {
      KindDetected(f.kind, x, n, f.payload);
    } else if p < 4 + n {
      ChecksumDetects(f.kind, n, f.payload, p - 4, x);
    }
    assert (b + more)[5 + n..] == more;
    assert PairAt(b + more, 0) && Whole(b + more) && !Sound(b + more);
    DecodeFrame(b + more);
  }

  lemma JoinMore(frames: seq<Frame>, more: seq<Frame>, d: Decoding)
    ensures Joined(Decoding(frames, []), Joined(Decoding(more, []), d)) == Joined(Decoding(frames + more, []), d)
  {
    assert frames + (more + d.frames) == frames + more + d.frames;
  }

  // ----- the decoder ------------------------------------------------------------------------------------------

  class Receiver {
    var buffer: seq<Byte>

    constructor ()
      ensures buffer == []
    {
      buffer := [];
    }

    /** Removes the frame at the start of the buffer; it is dropped when its checksum is wrong. */
    method TakeFrame() returns (frames: seq<Frame>)
      requires PairAt(buffer, 0) && Whole(buffer)
      modifies this
      ensures |buffer| < |old(buffer)|
      ensures Decode(old(buffer)) == Joined(Decoding(frames, []), Decode(buffer))
    {
      ghost var before := buffer;
      DecodeFrame(before);
      var kind, length := buffer[2], buffer[3];
      var payload, checksum := buffer[4..4 + length], buffer[4 + length as int];
      var expected := ChecksumOf(kind, length, payload);
      buffer := buffer[5 + length as int..];
      frames := if checksum == expected then [Frame(kind, payload)] else [];
      ghost var d := Decode(buffer);
      JoinOne(Frame(kind, payload), d);
      assert Decode(before) == if checksum == expected then d.(frames := [Candidate(before)] + d.frames) else d;
    }

    /** Consumes complete frames and keeps the incomplete tail. */
    method ParseFrames() returns (frames: seq<Frame>)
      modifies this
      ensures Decode(old(buffer)) == Decoding(frames, buffer)
    {
      frames := [];
      ghost var goal := Decode(buffer);
      while true
        invariant goal == Joined(Decoding(frames, []), Decode(buffer))
        decreases |buffer|
      {
        var position := Find(buffer);
        if position == |buffer| {
          if |buffer| > 1 { buffer := buffer[|buffer| - 1..]; }
          return;
        }
        SkipJunk(buffer, position);
        if position > 0 { buffer := buffer[position..]; }
        AtPair(buffer);
        if |buffer| < 5 || |buffer| < 5 + buffer[3] as int { return; }
        var more := TakeFrame();
        JoinMore(frames, more, Decode(buffer));
        frames := frames + more;
      }
    }

    /** However a stream is cut into chunks, the frames and the retained bytes are those of the stream. */
    method Capture(chunks: seq<seq<Byte>>) returns (frames: seq<Frame>)
      requires buffer == []
      modifies this
      ensures Decode(Concat(chunks)) == Decoding(frames, buffer)
    {
      frames := [];
      NoFrameYet([], []);
      for i := 0 to |chunks|
        invariant Decode(Concat(chunks[..i])) == Decoding(frames, buffer)
      {
        assert chunks[..i + 1][..i] == chunks[..i];
        ArrivalIndependent(Concat(chunks[..i]), chunks[i]);
        buffer := buffer + chunks[i];
        var more := ParseFrames();
        frames := frames + more;
      }
      assert chunks[..|chunks|] == chunks;
    }
  }
}
