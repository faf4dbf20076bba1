/**
 * The resynchronising frame parser of EdgeStream: why the way a stream is cut into chunks does not
 * matter, and why encoded frames always come out again.
 */
module EdgeParser {
  import opened Words
  import opened EdgeCrc
  import opened EdgeTelemetry
  import opened EdgeTrace

  const FRAME_SIZE := 32
  const MAX_BUFFER := 4096

  // ----- little-endian numbers ---------------------------------------------------------------------

  function FromLittle(bytes: seq<Byte>): nat {
    if bytes == [] then 0 else bytes[0] + 256 * FromLittle(bytes[1..])
  }

  function ToLittle(v: nat, n: nat): (bytes: seq<Byte>)
    ensures |bytes| == n
  {
    if n == 0 then [] else [v % 256] + ToLittle(v / 256, n - 1)
  }

  /** The largest value of n bytes, plus one. */
  function Limit(n: nat): nat { if n == 0 then 1 else 256 * Limit(n - 1) }

  lemma {:induction false} LittleRoundTrip(v: nat, n: nat)
    requires v < Limit(n)
    ensures FromLittle(ToLittle(v, n)) == v
  {
    if n > 0 {
      LittleRoundTrip(v / 256, n - 1);
      assert ToLittle(v, n)[1..] == ToLittle(v / 256, n - 1);
    }
  }

  lemma Limits()
    ensures Limit(1) == 256 && Limit(2) == 65536 && Limit(4) == WORD && Limit(8) == WORD * WORD
  {
    assert Limit(3) == 256 * Limit(2);
    assert Limit(5) == 256 * Limit(4);
    assert Limit(6) == 256 * Limit(5);
    assert Limit(7) == 256 * Limit(6);
  }

  // ----- one decision of the parser ------------------------------------------------------------------

  datatype Verdict = Wait | Drop(count: nat, reason: string) | Take

  /** What the parser does with the bytes it holds. */
  function Look(buf: seq<Byte>): (v: Verdict)
    ensures v.Drop? ==> 0 < v.count <= |buf|
    ensures v.Take? ==> FRAME_SIZE <= |buf|
  {
    if |buf| < 2 then Wait
    else if buf[0] != 0xe5 || buf[1] != 0x47 then Drop(1, "junk")
    else if |buf| < 6 then Wait
    else if FromLittle(buf[4..6]) != FRAME_SIZE then Drop(1, "length")
    else if |buf| < FRAME_SIZE then Wait
    else if buf[2] != 1 && buf[2] != 2 then Drop(FRAME_SIZE, "version")
    else if FromLittle(buf[28..32]) != Crc32(buf[..28]) then Drop(FRAME_SIZE, "checksum")
    else Take
  }

  function Decode(frame: seq<Byte>): Frame
    requires |frame| == FRAME_SIZE
  {
    Frame(frame[2], frame[3], FromLittle(frame[6..10]), FromLittle(frame[10..14]), FromLittle(frame[14..22]),
          FromLittle(frame[22..24]), Signed(FromLittle(frame[24..28])))
  }

  /** Consumes frames and junk until more bytes are needed; returns what is left. */
  function Parse(core: Core, buf: seq<Byte>): (r: (Core, seq<Byte>))
    requires CoreOk(core)
    ensures CoreOk(r.0) && Look(r.1) == Wait && |r.1| <= |buf|
    decreases |buf|
  {
    match Look(buf)
    case Wait => (core, buf)
    case Drop(count, reason) => Parse(Rejected(core, reason), buf[count..])
    case Take =>
      AcceptOk(core, Decode(buf[..FRAME_SIZE]));
      Parse(Accept(core, Decode(buf[..FRAME_SIZE])), buf[FRAME_SIZE..])
  }

  /** One decided step of the parser. */
  lemma ParseStep(core: Core, buf: seq<Byte>, verdict: Verdict)
    requires CoreOk(core) && verdict == Look(buf) && verdict != Wait
    ensures verdict.Drop? ==>
              CoreOk(Rejected(core, verdict.reason)) && verdict.count <= |buf| &&
              Parse(core, buf) == Parse(Rejected(core, verdict.reason), buf[verdict.count..])
    ensures verdict.Take? ==>
              |buf| >= FRAME_SIZE && CoreOk(Accept(core, Decode(buf[..FRAME_SIZE]))) &&
              Parse(core, buf) == Parse(Accept(core, Decode(buf[..FRAME_SIZE])), buf[FRAME_SIZE..])
  {
    if verdict.Take? { AcceptOk(core, Decode(buf[..FRAME_SIZE])); }
  }

  // ----- chunks --------------------------------------------------------------------------------------

  /** A decision, once taken, does not depend on the bytes that follow. */
  lemma LookStable(buf: seq<Byte>, more: seq<Byte>)
    requires Look(buf) != Wait
    ensures Look(buf + more) == Look(buf)
  {
    var all := buf + more;
    assert all[0] == buf[0] && all[1] == buf[1];
    if |buf| >= 6 {
      assert all[4..6] == buf[4..6];
      if |buf| >= FRAME_SIZE { assert all[28..32] == buf[28..32] && all[..28] == buf[..28]; }
    }
  }

  /** At most 31 bytes wait for more. */
  lemma WaitIsShort(buf: seq<Byte>)
    requires Look(buf) == Wait
    ensures |buf| < FRAME_SIZE
  {
  }

  /** Parsing in two steps is parsing at once. */
  lemma {:induction false} ParseConcat(core: Core, a: seq<Byte>, b: seq<Byte>)
    requires CoreOk(core)
    ensures Parse(core, a + b) == Parse(Parse(core, a).0, Parse(core, a).1 + b)
    decreases |a|
  {
    if Look(a) != Wait {
      LookStable(a, b);
      match Look(a)
      case Drop(count, reason) =>
        assert (a + b)[count..] == a[count..] + b;
        ParseConcat(Rejected(core, reason), a[count..], b);
      case Take =>
        var f := Decode(a[..FRAME_SIZE]);
        assert (a + b)[FRAME_SIZE..] == a[FRAME_SIZE..] + b && (a + b)[..FRAME_SIZE] == a[..FRAME_SIZE];
        AcceptOk(core, f);
        ParseConcat(Accept(core, f), a[FRAME_SIZE..], b);
    }
  }

  function Concat(chunks: seq<seq<Byte>>): seq<Byte> {
    if chunks == [] then [] else Concat(chunks[..|chunks| - 1]) + chunks[|chunks| - 1]
  }

  /** One call of the processor: an oversized chunk is rejected and the buffer is dropped. */
  function Deliver(core: Core, buffered: seq<Byte>, data: seq<Byte>): (r: (Core, seq<Byte>))
    requires CoreOk(core) && |buffered| <= MAX_BUFFER
    ensures CoreOk(r.0) && |r.1| <= MAX_BUFFER
  {
    if |data| > MAX_BUFFER - |buffered| then (Rejected(core, "parser_buffer"), [])
    else Parse(core, buffered + data)
  }

  function DeliverAll(core: Core, buffered: seq<Byte>, chunks: seq<seq<Byte>>): (r: (Core, seq<Byte>))
    requires CoreOk(core) && |buffered| <= MAX_BUFFER
    ensures CoreOk(r.0) && |r.1| <= MAX_BUFFER
  {
    if chunks == [] then (core, buffered)
    else
      var (c, rest) := DeliverAll(core, buffered, chunks[..|chunks| - 1]);
      Deliver(c, rest, chunks[|chunks| - 1])
  }

  predicate SmallChunks(chunks: seq<seq<Byte>>) {
    forall i :: 0 <= i < |chunks| ==> |chunks[i]| <= MAX_BUFFER - (FRAME_SIZE - 1)
  }

  /** Chunks of at most 4096 - 31 bytes behave like one unbounded parse of the whole stream. */
  lemma {:induction false} ChunksDoNotMatter(core: Core, chunks: seq<seq<Byte>>)
    requires CoreOk(core) && SmallChunks(chunks)
    ensures DeliverAll(core, [], chunks) == Parse(core, Concat(chunks))
    ensures |DeliverAll(core, [], chunks).1| < FRAME_SIZE
  {
    if chunks == [] {
      assert Parse(core, []) == (core, []);
    } else {
      var prefix, last := chunks[..|chunks| - 1], chunks[|chunks| - 1];
      ChunksDoNotMatter(core, prefix);
      ParseConcat(core, Concat(prefix), last);
    }
    WaitIsShort(Parse(core, Concat(chunks)).1);
  }

  /** The start of a frame, one byte short: the most that can wait. */
  const LONGEST: seq<Byte> := [0xe5, 0x47, 1, 0, 32, 0] + seq(25, _ => 0)

  /** The bound on the chunk size is exact. */
  lemma ChunkBoundExact(n: nat)
    ensures (forall buffered: seq<Byte> :: Look(buffered) == Wait ==> n <= MAX_BUFFER - |buffered|) <==>
            n <= MAX_BUFFER - (FRAME_SIZE - 1)
  {
    var waiting := LONGEST;
    assert |waiting| == 31 && waiting[4..6] == [32, 0];
    assert FromLittle([0]) == 0 && [32, 0][1..] == [0];
    assert FromLittle([32, 0]) == 32;
    assert Look(waiting) == Wait;
    forall buffered: seq<Byte> | Look(buffered) == Wait ensures |buffered| <= FRAME_SIZE - 1 {
      WaitIsShort(buffered);
    }
  }

  // ----- encoded frames --------------------------------------------------------------------------------

  /** Field ranges the encoder accepts, with one of the two known versions. */
  predicate Encodable(f: Frame) {
    (f.version == 1 || f.version == 2) && f.flags < 256 && f.device < WORD && f.sequence < WORD &&
    f.timestamp < WORD * WORD && f.metric < 65536 && -0x8000_0000 <= f.value < 0x8000_0000
  }

  function Address(f: Frame): (bytes: seq<Byte>)
    requires Encodable(f)
    ensures |bytes| == 14
  {
    [0xe5, 0x47, f.version, f.flags] + ToLittle(FRAME_SIZE, 2) + ToLittle(f.device, 4) + ToLittle(f.sequence, 4)
  }

  function Reading(f: Frame): (bytes: seq<Byte>)
    requires Encodable(f)
    ensures |bytes| == 14
  {
    ToLittle(f.timestamp, 8) + ToLittle(f.metric, 2) + ToLittle(f.value % WORD, 4)
  }

  function Prefix(f: Frame): (bytes: seq<Byte>)
    requires Encodable(f)
    ensures |bytes| == 28
  {
    Address(f) + Reading(f)
  }

  function Encode(f: Frame): (bytes: seq<Byte>)
    requires Encodable(f)
    ensures |bytes| == FRAME_SIZE
  {
    Prefix(f) + ToLittle(Crc32(Prefix(f)), 4)
  }

  lemma AddressFields(f: Frame)
    requires Encodable(f)
    ensures var b := Address(f);
            b[0] == 0xe5 && b[1] == 0x47 && b[2] == f.version && b[3] == f.flags &&
            b[4..6] == ToLittle(FRAME_SIZE, 2) && b[6..10] == ToLittle(f.device, 4) &&
            b[10..14] == ToLittle(f.sequence, 4)
  {
  }

  lemma ReadingFields(f: Frame)
    requires Encodable(f)
    ensures var b := Reading(f);
            b[0..8] == ToLittle(f.timestamp, 8) && b[8..10] == ToLittle(f.metric, 2) &&
            b[10..14] == ToLittle(f.value % WORD, 4)
  {
  }

  /** A slice of a concatenation that lies in one part. */
  lemma SliceLeft(a: seq<Byte>, b: seq<Byte>, i: nat, j: nat)
    requires i <= j <= |a|
    ensures (a + b)[i..j] == a[i..j]
  {
  }

  lemma SliceRight(a: seq<Byte>, b: seq<Byte>, i: nat, j: nat)
    requires i <= j <= |b|
    ensures (a + b)[|a| + i..|a| + j] == b[i..j]
  {
  }

  /** Where the fields of an encoded frame lie. */
  lemma EncodedFields(f: Frame)
    requires Encodable(f)
    ensures var b := Encode(f);
            b[0] == 0xe5 && b[1] == 0x47 && b[2] == f.version && b[3] == f.flags &&
            b[4..6] == ToLittle(FRAME_SIZE, 2) && b[6..10] == ToLittle(f.device, 4) &&
            b[10..14] == ToLittle(f.sequence, 4) && b[14..22] == ToLittle(f.timestamp, 8) &&
            b[22..24] == ToLittle(f.metric, 2) && b[24..28] == ToLittle(f.value % WORD, 4) &&
            b[..28] == Prefix(f) && b[28..32] == ToLittle(Crc32(Prefix(f)), 4)
  {
    var address, reading, crc := Address(f), Reading(f), ToLittle(Crc32(Prefix(f)), 4);
    AddressFields(f);
    ReadingFields(f);
    SliceRight(Prefix(f), crc, 0, 4);
    SliceLeft(Prefix(f), crc, 0, 28);
    assert Encode(f) == address + (reading + crc);
    SliceLeft(address, reading + crc, 4, 6);
    SliceLeft(address, reading + crc, 6, 10);
    SliceLeft(address, reading + crc, 10, 14);
    SliceRight(address, reading + crc, 0, 8);
    SliceRight(address, reading + crc, 8, 10);
    SliceRight(address, reading + crc, 10, 14);
    SliceLeft(reading, crc, 0, 8);
    SliceLeft(reading, crc, 8, 10);
    SliceLeft(reading, crc, 10, 14);
  }

  /** Every encoded frame is taken, and decodes to itself. */
  lemma EncodedTaken(f: Frame)
    requires Encodable(f)
    ensures Look(Encode(f)) == Take && Decode(Encode(f)) == f
  {
    EncodedFields(f);
    Limits();
    LittleRoundTrip(FRAME_SIZE, 2);
    LittleRoundTrip(f.device, 4);
    LittleRoundTrip(f.sequence, 4);
    LittleRoundTrip(f.timestamp, 8);
    LittleRoundTrip(f.metric, 2);
    LittleRoundTrip(f.value % WORD, 4);
    LittleRoundTrip(Crc32(Prefix(f)), 4);
    assert Signed(f.value % WORD) == f.value;
  }

  function EncodeAll(frames: seq<Frame>): seq<Byte>
    requires forall i :: 0 <= i < |frames| ==> Encodable(frames[i])
  {
    if frames == [] then [] else Encode(frames[0]) + EncodeAll(frames[1..])
  }

  function AcceptAll(core: Core, frames: seq<Frame>): (c: Core)
    requires CoreOk(core)
    ensures CoreOk(c)
    decreases |frames|
  {
    if frames == [] then core
    else
      AcceptOk(core, frames[0]);
      AcceptAll(Accept(core, frames[0]), frames[1..])
  }

  /** Encoded frames in front of any bytes are accepted one by one, in order. */
  lemma {:induction false} EncodedThen(core: Core, frames: seq<Frame>, rest: seq<Byte>)
    requires CoreOk(core) && forall i :: 0 <= i < |frames| ==> Encodable(frames[i])
    ensures Parse(core, EncodeAll(frames) + rest) == Parse(AcceptAll(core, frames), rest)
    decreases |frames|
  {
    if frames == [] {
      assert EncodeAll(frames) + rest == rest;
    } else {
      var others := EncodeAll(frames[1..]);
      assert EncodeAll(frames) + rest == Encode(frames[0]) + (others + rest);
      OneFrame(core, frames[0], others + rest);
      EncodedThen(Accept(core, frames[0]), frames[1..], rest);
    }
  }

  /** A stream of encoded frames yields exactly those frames, in order, and nothing is left over. */
  lemma EncodedStream(core: Core, frames: seq<Frame>)
    requires CoreOk(core) && forall i :: 0 <= i < |frames| ==> Encodable(frames[i])
    ensures Parse(core, EncodeAll(frames)) == (AcceptAll(core, frames), [])
  {
    EncodedThen(core, frames, []);
    assert EncodeAll(frames) + [] == EncodeAll(frames);
    assert Look([]) == Wait;
  }

  lemma OneFrame(core: Core, f: Frame, rest: seq<Byte>)
    requires CoreOk(core) && Encodable(f)
    ensures CoreOk(Accept(core, f))
    ensures Parse(core, Encode(f) + rest) == Parse(Accept(core, f), rest)
  {
    EncodedTaken(f);
    AcceptOk(core, f);
    LookStable(Encode(f), rest);
    assert (Encode(f) + rest)[..FRAME_SIZE] == Encode(f) && (Encode(f) + rest)[FRAME_SIZE..] == rest;
  }

  // ----- whole runs --------------------------------------------------------------------------------------

  /** Any bytes extend a legal trace to a legal trace. */
  lemma {:induction false} ParseKeepsTrace(core: Core, buf: seq<Byte>)
    requires TraceOk(core)
    ensures TraceOk(Parse(core, buf).0)
    decreases |buf|
  {
    match Look(buf)
    case Wait =>
    case Drop(count, reason) =>
      RejectKeeps(core, reason);
      ParseKeepsTrace(Rejected(core, reason), buf[count..]);
    case Take =>
      var f := Decode(buf[..FRAME_SIZE]);
      AcceptKeeps(core, f);
      ParseKeepsTrace(Accept(core, f), buf[FRAME_SIZE..]);
  }

  /** Whatever is delivered, in whatever chunks, the output is legal for every device. */
  lemma {:induction false} RunLegal(chunks: seq<seq<Byte>>)
    ensures TraceOk(DeliverAll(START, [], chunks).0)
  {
    if chunks == [] {
      StartOk();
    } else {
      var n := |chunks| - 1;
      RunLegal(chunks[..n]);
      var (c, rest) := DeliverAll(START, [], chunks[..n]);
      if |chunks[n]| > MAX_BUFFER - |rest| {
        RejectKeeps(c, "parser_buffer");
      } else {
        ParseKeepsTrace(c, rest + chunks[n]);
      }
    }
  }
}
