/**
 * The EdgeStream processor as the program keeps it: a bounded byte buffer, 64 device slots, and a
 * ring of eight words per metric.  Every method is tied to the simple data of `EdgeTelemetry`.
 */
module EdgeProcessor {
  import opened Prelude
  import opened Words
  import opened EdgeCrc
  import opened EdgeTelemetry
  import opened EdgeTrace
  import opened EdgeParser

  // ----- rings -----------------------------------------------------------------------------------

  datatype Metric = Metric(values: seq<nat>, count: nat, next: nat, high: bool)

  const NO_METRIC := Metric([0, 0, 0, 0, 0, 0, 0, 0], 0, 0, false)
  const NO_METRICS: seq<Metric> := [NO_METRIC, NO_METRIC, NO_METRIC, NO_METRIC]

  predicate MetricOk(m: Metric) {
    |m.values| == WINDOW && m.count <= WINDOW && m.next < WINDOW && (m.count < WINDOW ==> m.next == m.count) &&
    forall i :: 0 <= i < WINDOW ==> m.values[i] < WORD
  }

  function SignedAll(words: seq<int>): (r: seq<int>)
    ensures |r| == |words| && forall i :: 0 <= i < |r| ==> r[i] == Signed(words[i])
  {
    seq(|words|, i requires 0 <= i < |words| => Signed(words[i]))
  }

  /** The words of a ring, oldest first. */
  function Kept(m: Metric): seq<int>
    requires MetricOk(m)
  {
    if m.count < WINDOW then m.values[..m.count] else m.values[m.next..] + m.values[..m.next]
  }

  function Ring(m: Metric): (r: seq<int>)
    requires MetricOk(m)
    ensures |r| == m.count
  {
    SignedAll(Kept(m))
  }

  function Push(m: Metric, word: nat): Metric
    requires MetricOk(m)
  {
    Metric(m.values[m.next := word], if m.count < WINDOW then m.count + 1 else m.count, (m.next + 1) % WINDOW, m.high)
  }

  lemma PushOk(m: Metric, word: nat)
    requires MetricOk(m) && word < WORD
    ensures MetricOk(Push(m, word))
  {
  }

  lemma PushPartial(m: Metric, word: nat)
    requires MetricOk(m) && word < WORD && m.count < WINDOW
    ensures MetricOk(Push(m, word)) && Kept(Push(m, word)) == Kept(m) + [word]
  {
    PushOk(m, word);
    Overwrite(m.values, m.count, word);
    var p := Push(m, word);
    assert p.count == m.count + 1;
    if p.count == WINDOW {
      assert p.next == 0;
      assert p.values[0..] + p.values[..0] == p.values[..p.count];
    }
  }

  lemma PushFull(m: Metric, word: nat)
    requires MetricOk(m) && word < WORD && m.count == WINDOW
    ensures MetricOk(Push(m, word)) && Kept(Push(m, word)) == m.values[m.next + 1..] + m.values[..m.next] + [word]
  {
    PushOk(m, word);
    var p, n := Push(m, word), m.next;
    Overwrite(m.values, n, word);
    if n + 1 < WINDOW {
      assert p.next == n + 1;
      assert m.values[n + 1..] + (m.values[..n] + [word]) == m.values[n + 1..] + m.values[..n] + [word];
    } else {
      assert p.next == 0 && m.values[n + 1..] == [];
      assert p.values[0..] + p.values[..0] == p.values[..n + 1] + p.values[n + 1..];
    }
  }

  lemma Overwrite(values: seq<nat>, n: nat, word: nat)
    requires n < |values|
    ensures var v := values[n := word]; v[n + 1..] == values[n + 1..] && v[..n + 1] == values[..n] + [word]
  {
  }

  /** Writing over the oldest slot keeps the last eight words. */
  lemma PushKept(m: Metric, word: nat)
    requires MetricOk(m) && word < WORD
    ensures MetricOk(Push(m, word)) && Kept(Push(m, word)) == LastEight(Kept(m) + [word])
  {
    if m.count < WINDOW {
      PushPartial(m, word);
    } else {
      PushFull(m, word);
      OldestLeaves(m.values, m.next, word);
    }
  }

  lemma OldestLeaves(values: seq<nat>, next: nat, word: nat)
    requires next < |values|
    ensures (values[next..] + values[..next] + [word])[1..] == values[next + 1..] + values[..next] + [word]
  {
  }

  lemma PushKeepsLastEight(m: Metric, word: nat)
    requires MetricOk(m) && word < WORD
    ensures MetricOk(Push(m, word))
    ensures Ring(Push(m, word)) == LastEight(Ring(m) + [Signed(word)])
  {
    PushKept(m, word);
    SignedLastEight(Kept(m) + [word]);
    assert SignedAll(Kept(m) + [word]) == SignedAll(Kept(m)) + [Signed(word)];
  }

  lemma SignedLastEight(words: seq<int>)
    ensures SignedAll(LastEight(words)) == LastEight(SignedAll(words))
  {
  }

  lemma {:induction false} SumConcat(a: seq<int>, b: seq<int>)
    ensures Sum(a + b) == Sum(a) + Sum(b)
  {
    if b == [] {
      assert a + b == a;
    } else {
      SumConcat(a, b[..|b| - 1]);
      assert (a + b)[..|a + b| - 1] == a + b[..|b| - 1];
    }
  }

  lemma TwoRuns(m: Metric)
    requires MetricOk(m) && m.count == WINDOW
    ensures var older, newer := SignedAll(m.values[m.next..]), SignedAll(m.values[..m.next]);
            SignedAll(m.values[..m.count]) == newer + older && Ring(m) == older + newer
  {
  }

  /** Summing the slots in storage order gives the sum of the window. */
  lemma SumInAnyRotation(m: Metric)
    requires MetricOk(m)
    ensures Sum(SignedAll(m.values[..m.count])) == Sum(Ring(m)) && |Ring(m)| == m.count
  {
    if m.count == WINDOW {
      var older, newer := SignedAll(m.values[m.next..]), SignedAll(m.values[..m.next]);
      TwoRuns(m);
      SumConcat(newer, older);
      SumConcat(older, newer);
    }
  }

  method WindowAverage(m: Metric) returns (average: int)
    requires MetricOk(m) && m.count > 0
    ensures Ring(m) != [] && average == Average(Ring(m))
  {
    var sum := 0;
    for i := 0 to m.count
      invariant sum == Sum(SignedAll(m.values[..i]))
    {
      assert SignedAll(m.values[..i + 1])[..i] == SignedAll(m.values[..i]);
      sum := sum + Signed(m.values[i]);
    }
    SumInAnyRotation(m);
    average := TruncDiv(sum, m.count);
  }

  // ----- slots -----------------------------------------------------------------------------------

  datatype Device = Device(used: bool, seqValid: bool, silence: bool, id: nat, lastSeq: nat, lastTimestamp: nat,
                           metrics: seq<Metric>)

  const UNUSED := Device(false, false, false, 0, 0, 0, NO_METRICS)

  predicate SlotOk(d: Device) {
    |d.metrics| == MAX_METRICS && forall i :: 0 <= i < MAX_METRICS ==> MetricOk(d.metrics[i])
  }

  function Windows(metrics: seq<Metric>): (r: seq<seq<int>>)
    requires forall i :: 0 <= i < |metrics| ==> MetricOk(metrics[i])
    ensures |r| == |metrics| && forall i :: 0 <= i < |r| ==> r[i] == Ring(metrics[i])
  {
    seq(|metrics|, i requires 0 <= i < |metrics| => Ring(metrics[i]))
  }

  function Alarms(metrics: seq<Metric>): (r: seq<bool>)
    ensures |r| == |metrics| && forall i :: 0 <= i < |r| ==> r[i] == metrics[i].high
  {
    seq(|metrics|, i requires 0 <= i < |metrics| => metrics[i].high)
  }

  function TrackerOf(d: Device): Tracker
    requires SlotOk(d)
  {
    Tracker(d.id, d.silence, d.lastSeq, d.lastTimestamp, Windows(d.metrics), Alarms(d.metrics))
  }

  /** Used slots come first; slot i stands for tracker i. */
  ghost predicate SlotMatches(d: Device, trackers: seq<Tracker>, i: nat) {
    d.used == (i < |trackers|) && (d.used ==> SlotOk(d) && TrackerOf(d) == trackers[i])
  }

  ghost predicate Matches(devices: seq<Device>, trackers: seq<Tracker>) {
    |devices| == MAX_DEVICES && |trackers| <= MAX_DEVICES &&
    forall i :: 0 <= i < MAX_DEVICES ==> SlotMatches(devices[i], trackers, i)
  }

  /** Every used slot but `except` knows its last sequence. */
  predicate SequencedBut(devices: seq<Device>, used: nat, except: int)
    requires used <= |devices|
  {
    forall i :: 0 <= i < used && i != except ==> devices[i].seqValid
  }

  lemma MatchesUpdate(devices: seq<Device>, trackers: seq<Tracker>, slot: nat, d: Device)
    requires Matches(devices, trackers) && slot < |trackers| && d.used && SlotOk(d)
    ensures Matches(devices[slot := d], trackers[slot := TrackerOf(d)])
  {
    var after, trackers' := devices[slot := d], trackers[slot := TrackerOf(d)];
    forall i | 0 <= i < MAX_DEVICES ensures SlotMatches(after[i], trackers', i) {
      assert SlotMatches(devices[i], trackers, i);
    }
  }

  lemma SequencedUpdate(devices: seq<Device>, used: nat, slot: nat, d: Device)
    requires slot < used <= |devices| && d.seqValid && SequencedBut(devices, used, slot)
    ensures SequencedBut(devices[slot := d], used, -1)
  {
    var after := devices[slot := d];
    forall i | 0 <= i < used ensures after[i].seqValid { assert i != slot ==> after[i] == devices[i]; }
  }

  lemma MatchesAppend(devices: seq<Device>, trackers: seq<Tracker>, id: nat)
    requires Matches(devices, trackers) && |trackers| < MAX_DEVICES
    ensures Matches(devices[|trackers| := UNUSED.(used := true, id := id)], trackers + [Fresh(id)])
  {
    var slot := |trackers|;
    var after, trackers' := devices[slot := UNUSED.(used := true, id := id)], trackers + [Fresh(id)];
    assert Ring(NO_METRIC) == [];
    assert Windows(NO_METRICS) == NO_WINDOWS && Alarms(NO_METRICS) == NO_ALARMS;
    forall i | 0 <= i < MAX_DEVICES ensures SlotMatches(after[i], trackers', i) {
      assert SlotMatches(devices[i], trackers, i);
    }
  }

  /** One value pushed into one metric of one slot. */
  lemma PushedTracker(d: Device, m: nat, word: nat, high: bool)
    requires SlotOk(d) && m < MAX_METRICS && word < WORD
    ensures var d1 := d.(metrics := d.metrics[m := Push(d.metrics[m], word).(high := high)]);
            SlotOk(d1) &&
            TrackerOf(d1).windows ==
              TrackerOf(d).windows[m := LastEight(TrackerOf(d).windows[m] + [Signed(word)])] &&
            TrackerOf(d1).high == TrackerOf(d).high[m := high]
  {
    PushKeepsLastEight(d.metrics[m], word);
    var p := Push(d.metrics[m], word).(high := high);
    assert MetricOk(p) && Kept(p) == Kept(Push(d.metrics[m], word));
  }

  class Processor {
    const buffer: array<Byte>
    var buffered: nat
    const devices: array<Device>
    var accepted: nat
    var rejected: nat
    /** The simple data this object stands for, with everything printed so far. */
    ghost var core: Core

    /** Everything but the sequence of slot `except`, which a call is about to set. */
    ghost predicate ValidBut(except: int)
      reads this, devices
    {
      buffer.Length == MAX_BUFFER && buffered <= MAX_BUFFER && devices.Length == MAX_DEVICES &&
      Matches(devices[..], core.trackers) && CoreOk(core) &&
      core.accepted == accepted && core.rejected == rejected &&
      SequencedBut(devices[..], |core.trackers|, except)
    }

    ghost predicate Valid()
      reads this, devices
    {
      ValidBut(-1)
    }

    ghost function Buffered(): seq<Byte>
      reads this, buffer
      requires buffered <= buffer.Length
    {
      buffer[..buffered]
    }

    constructor ()
      ensures Valid() && core == START && Buffered() == [] && fresh(buffer) && fresh(devices)
    {
      buffer := new Byte[MAX_BUFFER](_ => 0);
      devices := new Device[MAX_DEVICES](_ => UNUSED);
      buffered, accepted, rejected := 0, 0, 0;
      core := START;
    }

    method EmitReject(reason: string)
      requires Valid()
      modifies this`rejected, this`core
      ensures Valid() && core == Rejected(old(core), reason) && Buffered() == old(Buffered())
    {
      rejected := rejected + 1;
      core := Rejected(core, reason);
    }

    /** The slot of a device, a new one if there is room, or -1. */
    method FindDevice(id: nat) returns (slot: int)
      requires Valid()
      modifies devices, this`core
      ensures -1 <= slot < |core.trackers| && ValidBut(slot)
      ensures match IndexOf(old(core).trackers, id)
              case Some(i) => slot == i && core == old(core) && Valid()
              case None =>
                if |old(core).trackers| == MAX_DEVICES
                then slot == -1 && core == Emit(old(core), ResourceLimit(id))
                else slot == |old(core).trackers| && !devices[slot].seqValid &&
                     core == old(core).(trackers := old(core).trackers + [Fresh(id)])
    {
      slot := -1;
      var free := -1;
      ghost var used := |core.trackers|;
      for i := 0 to MAX_DEVICES
        invariant forall k :: 0 <= k < i && k < used ==> core.trackers[k].id != id
        invariant free == if used < i then used else -1
      {
        assert SlotMatches(devices[i], core.trackers, i);
        if devices[i].used && devices[i].id == id {
          IndexUnique(core.trackers, i);
          return i;
        }
        if !devices[i].used && free == -1 { free := i; }
      }
      if free == -1 {
        core := Emit(core, ResourceLimit(id));
        return;
      }
      MatchesAppend(devices[..], core.trackers, id);
      ghost var before := devices[..];
      devices[free] := UNUSED.(used := true, id := id);
      assert devices[..] == before[free := devices[free]];
      slot := free;
      core := core.(trackers := core.trackers + [Fresh(id)]);
    }

    /** Writes a slot whose sequence is known. */
    method SetSlot(slot: nat, d: Device)
      requires ValidBut(slot) && slot < |core.trackers| && d.used && SlotOk(d) && d.id == core.trackers[slot].id
      requires d.seqValid
      modifies devices, this`core
      ensures Valid() && core == old(core).(trackers := old(core).trackers[slot := TrackerOf(d)])
    {
      MatchesUpdate(devices[..], core.trackers, slot, d);
      SequencedUpdate(devices[..], |core.trackers|, slot, d);
      ghost var before := devices[..];
      devices[slot] := d;
      assert devices[..] == before[slot := d];
      core := core.(trackers := core.trackers[slot := TrackerOf(d)]);
    }

    method EmitSilence(watermark: nat)
      requires Valid()
      modifies devices, this`core
      ensures Valid() && core == SilenceUpTo(old(core), watermark, |old(core).trackers|)
    {
      ghost var start := core;
      for i := 0 to MAX_DEVICES
        invariant Valid() && |core.trackers| == |start.trackers|
        invariant core == SilenceUpTo(start, watermark, if i < |start.trackers| then i else |start.trackers|)
      {
        assert SlotMatches(devices[i], core.trackers, i);
        if devices[i].used { SilenceSlot(i, watermark, start); }
      }
    }

    method SilenceSlot(slot: nat, watermark: nat, ghost start: Core)
      requires Valid() && slot < |core.trackers| == |start.trackers| && core == SilenceUpTo(start, watermark, slot)
      modifies devices, this`core
      ensures Valid() && core == SilenceUpTo(start, watermark, slot + 1)
    {
      SilenceNext(start, core, watermark, slot);
      var d := devices[slot];
      assert SlotMatches(d, core.trackers, slot) && d.seqValid;
      if d.lastTimestamp == 0 { return; }
      var silent := watermark > d.lastTimestamp && watermark - d.lastTimestamp > SILENCE_MS;
      if silent && !d.silence {
        SetSlot(slot, d.(silence := true));
        core := Emit(core, SilenceActive(d.id, watermark));
      }
    }

    /** The frame passed the sequence check of its slot. */
    method AcceptInto(slot: nat, f: Frame)
      requires ValidBut(slot) && slot < |core.trackers| && f.metric < MAX_METRICS && core.trackers[slot].id == f.device
      modifies devices, this`accepted, this`core
      ensures Valid() && core == AcceptedBy(old(core), slot, f)
    {
      SlotStands(slot);
      hide *;
      var d, records := UpdateDevice(devices[slot], f, accepted + 1);
      UpdatedCore(core, slot, f, TrackerOf(d), records);
      StoreAccepted(slot, d, records);
    }

    /** The slot of a tracker that is in use. */
    lemma SlotStands(slot: nat)
      requires ValidBut(slot) && slot < |core.trackers|
      ensures slot < devices.Length && SlotOk(devices[slot]) && devices[slot].used
      ensures TrackerOf(devices[slot]) == core.trackers[slot] && devices[slot].id == core.trackers[slot].id
      ensures TrackerOk(core.trackers[slot]) && accepted == core.accepted
    {
      assert SlotMatches(devices[slot], core.trackers, slot);
    }

    method StoreAccepted(slot: nat, d: Device, ghost records: seq<Record>)
      requires ValidBut(slot) && slot < |core.trackers| && d.used && SlotOk(d) && d.id == core.trackers[slot].id
      requires d.seqValid
      modifies devices, this`accepted, this`core
      ensures Valid()
      ensures core == Core(old(core).trackers[slot := TrackerOf(d)], old(core).accepted + 1, old(core).rejected,
                           old(core).out + records)
    {
      SetSlot(slot, d);
      accepted := accepted + 1;
      core := core.(accepted := core.accepted + 1, out := core.out + records);
    }

    /** A restart forgets the sequence and the windows of its slot. */
    method RestartSlot(slot: nat)
      requires ValidBut(slot) && slot < |core.trackers|
      modifies devices, this`core
      ensures ValidBut(slot) && !devices[slot].seqValid && core == Restart(old(core), slot)
    {
      assert SlotMatches(devices[slot], core.trackers, slot);
      var d := devices[slot].(seqValid := false, metrics := NO_METRICS);
      assert Ring(NO_METRIC) == [];
      assert Windows(NO_METRICS) == NO_WINDOWS && Alarms(NO_METRICS) == NO_ALARMS;
      MatchesUpdate(devices[..], core.trackers, slot, d);
      ghost var before := devices[..];
      devices[slot] := d;
      assert devices[..] == before[slot := d];
      core := Restart(core, slot);
    }

    /** Handles one frame whose checksum and version are good. */
    method AcceptFrame(frame: seq<Byte>)
      requires Valid() && |frame| == FRAME_SIZE
      modifies devices, this`accepted, this`rejected, this`core
      ensures Valid() && core == Accept(old(core), Decode(frame))
    {
      var f := Decode(frame);
      if f.metric == WATERMARK {
        EmitSilence(f.timestamp);
        return;
      }
      if f.metric >= MAX_METRICS {
        EmitReject("metric");
        return;
      }
      var slot := FindDevice(f.device);
      if slot < 0 { return; }
      SlotFrame(slot, f);
    }

    /** The sequence checks, and acceptance, for the slot of the frame's device. */
    method SlotFrame(slot: nat, f: Frame)
      requires ValidBut(slot) && slot < |core.trackers| && f.metric < MAX_METRICS && core.trackers[slot].id == f.device
      modifies devices, this`accepted, this`core
      ensures Valid()
      ensures core == if old(devices[slot].seqValid) then OnTracked(old(core), slot, f)
                      else AcceptedBy(if IsRestart(f) then Restart(old(core), slot) else old(core), slot, f)
    {
      assert SlotMatches(devices[slot], core.trackers, slot);
      if IsRestart(f) { RestartSlot(slot); }
      var d := devices[slot];
      if d.seqValid {
        if f.sequence == d.lastSeq {
          core := Emit(core, Duplicate(f.device, f.sequence));
          return;
        }
        var rollover := d.lastSeq >= 0xffff_fff0 && f.sequence <= 0x0f;
        if !rollover && f.sequence < d.lastSeq {
          core := Emit(core, Late(f.device, f.sequence, d.lastSeq));
          return;
        }
      }
      AcceptInto(slot, f);
    }

    /**
     * Appends the bytes to the buffer and consumes every frame and every piece of junk that can be
     * decided; a chunk that does not fit is rejected together with what was waiting.
     */
    method ProcessBytes(data: seq<Byte>) returns (status: int)
      requires Valid()
      modifies this, buffer, devices
      ensures Valid() && (core, Buffered()) == Deliver(old(core), old(Buffered()), data)
      ensures status == if |data| > MAX_BUFFER - |old(Buffered())| then -1 else 0
    {
      if |data| > MAX_BUFFER - buffered {
        EmitReject("parser_buffer");
        buffered := 0;
        return -1;
      }
      ghost var whole := Buffered() + data;
      Append(data);
      var offset := Consume(whole);
      DropFront(offset);
      return 0;
    }

    method Append(data: seq<Byte>)
      requires Valid() && |data| <= MAX_BUFFER - buffered
      modifies this`buffered, buffer
      ensures Valid() && Buffered() == old(Buffered()) + data
    {
      forall i | 0 <= i < |data| { buffer[buffered + i] := data[i]; }
      buffered := buffered + |data|;
    }

    /** Moves the bytes that still wait to the front. */
    method DropFront(offset: nat)
      requires Valid() && offset <= buffered
      modifies this`buffered, buffer
      ensures Valid() && Buffered() == old(Buffered())[offset..]
    {
      forall i | 0 <= i < buffered - offset { buffer[i] := buffer[offset + i]; }
      buffered := buffered - offset;
    }

    /** The tests of the parser loop at one position, in the order of the program. */
    method Inspect(offset: nat) returns (verdict: Verdict)
      requires Valid() && offset <= buffered
      ensures verdict == Look(Buffered()[offset..])
    {
      ghost var rest := Buffered()[offset..];
      assert forall i :: 0 <= i < |rest| ==> rest[i] == buffer[offset + i];
      var waiting := buffered - offset;
      if waiting < 2 { return Wait; }
      if buffer[offset] != 0xe5 || buffer[offset + 1] != 0x47 { return Drop(1, "junk"); }
      if waiting < 6 { return Wait; }
      TwoBytes(rest[4..6]);
      if buffer[offset + 4] as int + 256 * buffer[offset + 5] as int != FRAME_SIZE { return Drop(1, "length"); }
      if waiting < FRAME_SIZE { return Wait; }
      if buffer[offset + 2] != 1 && buffer[offset + 2] != 2 { return Drop(FRAME_SIZE, "version"); }
      assert buffer[offset..offset + 28] == rest[..28] && buffer[offset + 28..offset + 32] == rest[28..32];
      var expected := FromLittle(buffer[offset + 28..offset + 32]);
      var actual := Crc32Slow(buffer[offset..offset + 28]);
      return if expected != actual then Drop(FRAME_SIZE, "checksum") else Take;
    }

    /** The parser loop; returns how many bytes are done with. */
    method Consume(ghost whole: seq<Byte>) returns (offset: nat)
      requires Valid() && whole == Buffered()
      modifies devices, this`accepted, this`rejected, this`core
      ensures Valid() && offset <= buffered && Buffered() == whole
      ensures (core, whole[offset..]) == Parse(old(core), whole)
    {
      offset := 0;
      var verdict := Inspect(offset);
      while verdict != Wait
        invariant Valid() && offset <= buffered && Buffered() == whole
        invariant verdict == Look(whole[offset..])
        invariant Parse(core, whole[offset..]) == Parse(old(core), whole)
        decreases buffered - offset
      {
        offset := Advance(offset, verdict, whole);
        verdict := Inspect(offset);
      }
    }

    lemma CoreIsOk()
      requires Valid()
      ensures CoreOk(core) && |Buffered()| == buffered
    {
    }

    /** A decided frame. */
    method TakeFrame(offset: nat, ghost whole: seq<Byte>)
      requires Valid() && offset + FRAME_SIZE <= buffered && Buffered() == whole
      modifies devices, this`accepted, this`rejected, this`core
      ensures Valid() && Buffered() == whole
      ensures core == Accept(old(core), Decode(whole[offset..offset + FRAME_SIZE]))
    {
      var frame := buffer[offset..offset + FRAME_SIZE];
      SliceOfPrefix(buffer[..], buffered, offset, offset + FRAME_SIZE);
      assert frame == whole[offset..offset + FRAME_SIZE];
      AcceptFrame(frame);
    }

    /** One decided step: a reject, or an accepted frame. */
    method Advance(offset: nat, verdict: Verdict, ghost whole: seq<Byte>) returns (offset': nat)
      requires Valid() && offset <= buffered && Buffered() == whole
      requires verdict == Look(whole[offset..]) && verdict != Wait
      modifies devices, this`accepted, this`rejected, this`core
      ensures Valid() && offset < offset' <= buffered && Buffered() == whole
      ensures Parse(core, whole[offset'..]) == Parse(old(core), whole[offset..])
    {
      assert FRAME_SIZE > 0;
      hide *;
      CoreIsOk();
      ParseStep(core, whole[offset..], verdict);
      if verdict.Drop? {
        Suffix(whole, offset, verdict.count);
        EmitReject(verdict.reason);
        return offset + verdict.count;
      }
      Suffix(whole, offset, FRAME_SIZE);
      TakeFrame(offset, whole);
      return offset + FRAME_SIZE;
    }

    /** End of input: bytes still waiting are a truncated frame. */
    method Finish() returns (status: int)
      requires Valid()
      modifies this
      ensures Valid() && Buffered() == []
      ensures if old(Buffered()) == [] then status == 0 && core == old(core)
              else status == 1 && core == Rejected(old(core), "truncated")
    {
      if buffered != 0 {
        EmitReject("truncated");
        buffered := 0;
        return 1;
      }
      return 0;
    }
  }

  lemma UpdatedCore(core: Core, i: nat, f: Frame, t: Tracker, records: seq<Record>)
    requires i < |core.trackers| && TrackerOk(core.trackers[i]) && f.metric < MAX_METRICS
    requires (t, records) == Update(core.trackers[i], f, core.accepted + 1)
    ensures AcceptedBy(core, i, f) ==
            Core(core.trackers[i := t], core.accepted + 1, core.rejected, core.out + records)
  {
  }

  lemma SliceOfPrefix(s: seq<Byte>, n: nat, i: nat, j: nat)
    requires i <= j <= n <= |s|
    ensures s[..n][i..j] == s[i..j]
  {
  }

  lemma Suffix(whole: seq<Byte>, offset: nat, count: nat)
    requires offset + count <= |whole|
    ensures whole[offset..][count..] == whole[offset + count..]
    ensures whole[offset..][..count] == whole[offset..offset + count]
  {
  }

  /** The field updates of one accepted frame and the records they print. */
  method UpdateDevice(device: Device, f: Frame, total: nat) returns (d: Device, ghost records: seq<Record>)
    requires SlotOk(device) && device.id == f.device && f.metric < MAX_METRICS
    ensures SlotOk(d) && d.used == device.used && d.id == device.id && d.seqValid
    ensures (TrackerOf(d), records) == Update(TrackerOf(device), f, total)
  {
    d, records := device, [];
    if d.silence {
      d := d.(silence := false);
      records := [SilenceClear(f.device)];
    }
    ghost var cleared := records;
    d := d.(seqValid := true, lastSeq := f.sequence, lastTimestamp := f.timestamp);
    var word := Normalized(f) % WORD;
    var metric := d.metrics[f.metric];
    PushOk(metric, word);
    PushKeepsLastEight(metric, word);
    metric := Push(metric, word);
    ghost var window := Ring(metric);
    var average := WindowAverage(metric);
    records := records + [Accepted(f.device, f.sequence, f.timestamp, f.metric, Normalized(f), average, total)];
    ghost var alarms: seq<Record> := [];
    if average > HIGH && !metric.high {
      metric := metric.(high := true);
      alarms := [HighActive(f.device, f.metric, average)];
    } else if average <= CLEAR && metric.high {
      metric := metric.(high := false);
      alarms := [HighClear(f.device, f.metric, average)];
    }
    records := records + alarms;
    PushedTracker(device, f.metric, word, metric.high);
    d := d.(metrics := d.metrics[f.metric := metric]);
    assert window == LastEight(TrackerOf(device).windows[f.metric] + [Stored(Normalized(f))]);
    assert (metric.high, alarms) == HighStep(TrackerOf(device).high[f.metric], f.device, f.metric, average);
  }

  lemma TwoBytes(b: seq<Byte>)
    requires |b| == 2
    ensures FromLittle(b) == b[0] as int + 256 * b[1] as int
  {
    assert FromLittle(b[1..]) == b[1] as int + 256 * FromLittle(b[1..][1..]);
  }

  lemma SilenceNext(start: Core, c: Core, watermark: nat, n: nat)
    requires n < |start.trackers| && c == SilenceUpTo(start, watermark, n)
    ensures n < |c.trackers|
    ensures var t := c.trackers[n];
            SilenceUpTo(start, watermark, n + 1) ==
              if GoesSilent(t, watermark)
              then Emit(c.(trackers := c.trackers[n := t.(silence := true)]), SilenceActive(t.id, watermark))
              else c
  {
  }
}
