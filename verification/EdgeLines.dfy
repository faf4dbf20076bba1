/**
 * Whole runs of EdgeStream, told by their lines: the output is a function of the bytes and the lines printed
 * before, and every alarm comes at once, when it is due and only then.
 */
module EdgeLines {
  import opened Words
  import opened EdgeCrc
  import opened EdgeTelemetry
  import opened EdgeParser
  import opened EdgeTrace
  import opened EdgeHistory

  // ----- the lines of a run -------------------------------------------------------------------------------------

  /** The lines after parsing some bytes, and the bytes that wait. */
  function Lines(out: seq<Record>, buf: seq<Byte>): (seq<Record>, seq<Byte>)
    decreases |buf|
  {
    match Look(buf)
    case Wait => (out, buf)
    case Drop(count, reason) => Lines(out + [Reject(reason, Rejections(out) + 1)], buf[count..])
    case Take => Lines(out + Answer(out, Decode(buf[..32])), buf[32..])
  }

  /** The lines after any pieces; a piece that does not fit is rejected with the bytes that waited. */
  function RunLines(pieces: seq<seq<Byte>>): (seq<Record>, seq<Byte>) {
    if pieces == [] then ([], [])
    else
      var n := |pieces| - 1;
      var (out, rest) := RunLines(pieces[..n]);
      if |rest| + |pieces[n]| > 4096 then (out + [Reject("parser_buffer", Rejections(out) + 1)], [])
      else Lines(out, rest + pieces[n])
  }

  lemma {:induction false} ParseLines(core: Core, buf: seq<Byte>)
    requires Knows(core)
    ensures var (c, rest) := Parse(core, buf); Knows(c) && (c.out, rest) == Lines(core.out, buf)
    decreases |buf|
  {
    hide Answer, Look, Knows, Accept;
    KnowsTrackers(core);
    match Look(buf)
    case Wait =>
    case Drop(count, reason) =>
      RejectKnows(core, reason);
      ParseLines(Rejected(core, reason), buf[count..]);
    case Take =>
      var f := Decode(buf[..FRAME_SIZE]);
      AcceptAnswers(core, f);
      ParseLines(Accept(core, f), buf[FRAME_SIZE..]);
  }

  lemma StartKnows()
    ensures Knows(START)
  {
  }

  /** Every run prints the lines that its own history asks for. */
  lemma {:induction false} RunPrints(pieces: seq<seq<Byte>>)
    ensures var (c, rest) := DeliverAll(START, [], pieces); Knows(c) && (c.out, rest) == RunLines(pieces)
  {
    hide Knows, Parse, Lines;
    StartKnows();
    if pieces != [] {
      var n := |pieces| - 1;
      RunPrints(pieces[..n]);
      var (c, rest) := DeliverAll(START, [], pieces[..n]);
      RejectKnows(c, "parser_buffer");
      ParseLines(c, rest + pieces[n]);
    }
  }

  // ----- alarms at once -----------------------------------------------------------------------------------------

  /** The average of this accepted frame, and whether its metric was high before. */
  predicate WasHigh(out: seq<Record>, i: nat)
    requires i < |out| && out[i].Accepted? && out[i].metric < 4
  {
    StoryOf(out[..i], out[i].device).high[out[i].metric]
  }

  /** The line after an accepted frame, if its average crosses a threshold. */
  predicate Followed(out: seq<Record>, i: nat)
    requires i < |out| && out[i].Accepted?
  {
    var r := out[i];
    r.metric < 4 &&
    (r.average > 50000 && !WasHigh(out, i) ==>
      i + 1 < |out| && out[i + 1] == HighActive(r.device, r.metric, r.average)) &&
    (r.average <= 45000 && WasHigh(out, i) ==>
      i + 1 < |out| && out[i + 1] == HighClear(r.device, r.metric, r.average))
  }

  /** An alarm line comes from the frame accepted just before it. */
  predicate Founded(out: seq<Record>, i: nat)
    requires i < |out| && (out[i].HighActive? || out[i].HighClear?)
  {
    i > 0 && out[i - 1].Accepted? && out[i - 1].metric < 4 &&
    out[i].device == out[i - 1].device && out[i].metric == out[i - 1].metric && out[i].average == out[i - 1].average &&
    if out[i].HighActive? then out[i].average > 50000 && !WasHigh(out, i - 1)
    else out[i].average <= 45000 && WasHigh(out, i - 1)
  }

  ghost predicate AtOnce(out: seq<Record>) {
    (forall i :: 0 <= i < |out| && out[i].Accepted? ==> Followed(out, i)) &&
    forall i :: 0 <= i < |out| && (out[i].HighActive? || out[i].HighClear?) ==> Founded(out, i)
  }

  lemma FollowedLonger(out: seq<Record>, more: seq<Record>, i: nat)
    requires i < |out| && out[i].Accepted? && Followed(out, i)
    ensures Followed(out + more, i)
  {
    assert (out + more)[..i] == out[..i];
  }

  lemma FoundedLonger(out: seq<Record>, more: seq<Record>, i: nat)
    requires i < |out| && (out[i].HighActive? || out[i].HighClear?) && Founded(out, i)
    ensures Founded(out + more, i)
  {
    assert (out + more)[..i - 1] == out[..i - 1];
  }

  lemma PlainAtOnce(out: seq<Record>, r: Record)
    requires AtOnce(out) && !r.Accepted? && !r.HighActive? && !r.HighClear?
    ensures AtOnce(out + [r])
  {
    hide Followed, Founded;
    forall i | 0 <= i < |out| && out[i].Accepted? ensures Followed(out + [r], i) { FollowedLonger(out, [r], i); }
    forall i | 0 <= i < |out| && (out[i].HighActive? || out[i].HighClear?) ensures Founded(out + [r], i) {
      FoundedLonger(out, [r], i);
    }
  }

  lemma {:induction false} PlainsAtOnce(out: seq<Record>, more: seq<Record>)
    requires AtOnce(out)
    requires forall i :: 0 <= i < |more| ==> !more[i].Accepted? && !more[i].HighActive? && !more[i].HighClear?
    ensures AtOnce(out + more)
    decreases |more|
  {
    if more == [] {
      assert out + [] == out;
    } else {
      var n := |more| - 1;
      PlainsAtOnce(out, more[..n]);
      PlainAtOnce(out + more[..n], more[n]);
      assert out + more == out + more[..n] + [more[n]];
    }
  }

  /** The alarm line that an accepted frame calls for. */
  function Due(r: Record, on: bool): (lines: seq<Record>)
    requires r.Accepted?
    ensures |lines| <= 1 && (lines != [] ==> lines[0].HighActive? || lines[0].HighClear?)
  {
    if r.average > 50000 && !on then [HighActive(r.device, r.metric, r.average)]
    else if r.average <= 45000 && on then [HighClear(r.device, r.metric, r.average)] else []
  }

  lemma EventAtOnce(out: seq<Record>, r: Record, alarms: seq<Record>)
    requires AtOnce(out) && r.Accepted? && r.metric < 4
    requires alarms == Due(r, StoryOf(out, r.device).high[r.metric])
    ensures AtOnce(out + [r] + alarms)
  {
    hide Followed, Founded, StoryOf, WasHigh, Due;
    var n, out1 := |out|, out + [r] + alarms;
    assert out1 == out + ([r] + alarms);
    EventWas(out, r, alarms);
    Parts(out, r, alarms);
    EventCase(out1, n, StoryOf(out, r.device).high[r.metric], alarms);
    forall i | 0 <= i < |out1| && out1[i].Accepted? ensures Followed(out1, i) {
      if i < n { FollowedLonger(out, [r] + alarms, i); }
    }
    forall i | 0 <= i < |out1| && (out1[i].HighActive? || out1[i].HighClear?) ensures Founded(out1, i) {
      if i < n { FoundedLonger(out, [r] + alarms, i); }
    }
  }

  lemma EventWas(out: seq<Record>, r: Record, alarms: seq<Record>)
    requires r.Accepted? && r.metric < 4
    ensures var out1 := out + [r] + alarms;
            out1[|out|] == r && (WasHigh(out1, |out|) <==> StoryOf(out, r.device).high[r.metric])
  {
    hide StoryOf;
    assert (out + [r] + alarms)[..|out|] == out;
  }

  lemma Parts<T>(out: seq<T>, r: T, more: seq<T>)
    ensures var all, n := out + [r] + more, |out|;
            |all| == n + 1 + |more| && all[n] == r && (more != [] ==> all[n + 1] == more[0])
  {
  }

  lemma EventCase(out: seq<Record>, n: nat, on: bool, alarms: seq<Record>)
    requires n < |out| && out[n].Accepted? && out[n].metric < 4 && (WasHigh(out, n) <==> on)
    requires |out| == n + 1 + |alarms| && (alarms != [] ==> out[n + 1] == alarms[0])
    requires alarms == Due(out[n], on)
    ensures Followed(out, n) && (alarms != [] ==> Founded(out, n + 1))
  {
    hide WasHigh;
  }

  lemma ReportAtOnce(out: seq<Record>, s: Story, f: Frame)
    requires AtOnce(out) && |s.values| == |s.high| == 4 && f.metric < 4 && s.high == StoryOf(out, f.device).high
    ensures AtOnce(out + Report(out, s, f))
  {
    hide AtOnce, StoryOf, AverageWith, Acceptances;
    var average := AverageWith(s, f);
    var cleared := if s.silent then [SilenceClear(f.device)] else [];
    PlainsAtOnce(out, cleared);
    if s.silent { NeutralSnoc(out, SilenceClear(f.device)); } else { assert out + cleared == out; }
    var r := Accepted(f.device, f.sequence, f.timestamp, f.metric, Value(f), average, Acceptances(out) + 1);
    var alarms := Due(r, s.high[f.metric]);
    EventAtOnce(out + cleared, r, alarms);
    assert out + Report(out, s, f) == out + cleared + [r] + alarms;
  }

  lemma {:induction false} OnlySilences(out: seq<Record>, devices: seq<nat>, watermark: nat)
    ensures forall i :: 0 <= i < |Silences(out, devices, watermark)| ==>
              Silences(out, devices, watermark)[i].SilenceActive?
  {
    if devices != [] {
      var n := |devices| - 1;
      OnlySilences(out, devices[..n], watermark);
      var before := Silences(out, devices[..n], watermark);
      assert forall i :: 0 <= i < |before| ==> Silences(out, devices, watermark)[i] == before[i];
    }
  }

  lemma AnswerAtOnce(out: seq<Record>, f: Frame)
    requires AtOnce(out)
    ensures AtOnce(out + Answer(out, f))
  {
    hide AtOnce, StoryOf, Report, Silences, Heard, Rejections, Overdue;
    var s := StoryOf(out, f.device);
    if f.metric == 0xffff {
      OnlySilences(out, Heard(out), f.timestamp);
      PlainsAtOnce(out, Silences(out, Heard(out), f.timestamp));
    } else if f.metric < 4 {
      ReportAtOnce(out, s, f);
      RestartAtOnce(out, f);
      PlainsAtOnce(out, [ResourceLimit(f.device)]);
      PlainsAtOnce(out, [Duplicate(f.device, f.sequence)]);
      PlainsAtOnce(out, [Late(f.device, f.sequence, s.sequence)]);
    } else {
      PlainsAtOnce(out, [Reject("metric", Rejections(out) + 1)]);
    }
  }

  lemma RestartAtOnce(out: seq<Record>, f: Frame)
    requires AtOnce(out) && f.metric < 4
    ensures var s := StoryOf(out, f.device).(values := [[], [], [], []], high := [false, false, false, false]);
            AtOnce(out + ([Restarted(f.device)] + Report(out, s, f)))
  {
    hide AtOnce, Report;
    var s := StoryOf(out, f.device).(values := [[], [], [], []], high := [false, false, false, false]);
    var out1 := out + [Restarted(f.device)];
    PlainAtOnce(out, Restarted(f.device));
    Snoc(out, Restarted(f.device));
    ReportAtOnce(out1, s, f);
    SameReport(out, out1, s, f);
    assert out1 + Report(out, s, f) == out + ([Restarted(f.device)] + Report(out, s, f));
  }

  lemma {:induction false} LinesAtOnce(out: seq<Record>, buf: seq<Byte>)
    requires AtOnce(out)
    ensures AtOnce(Lines(out, buf).0)
    decreases |buf|
  {
    hide AtOnce, Answer, Look;
    match Look(buf)
    case Wait =>
    case Drop(count, reason) =>
      PlainAtOnce(out, Reject(reason, Rejections(out) + 1));
      LinesAtOnce(out + [Reject(reason, Rejections(out) + 1)], buf[count..]);
    case Take =>
      AnswerAtOnce(out, Decode(buf[..32]));
      LinesAtOnce(out + Answer(out, Decode(buf[..32])), buf[32..]);
  }

  /**
   * In every run: a frame whose average exceeds 50000 while its metric was not high is followed at once by the
   * high alarm, one whose average is at most 45000 while it was high by the all-clear, and no other line raises
   * or clears an alarm.
   */
  lemma {:induction false} RunAlarms(pieces: seq<seq<Byte>>)
    ensures AtOnce(RunLines(pieces).0)
  {
    hide AtOnce, Lines;
    NothingAtOnce();
    if pieces != [] {
      var n := |pieces| - 1;
      RunAlarms(pieces[..n]);
      var (out, rest) := RunLines(pieces[..n]);
      PlainAtOnce(out, Reject("parser_buffer", Rejections(out) + 1));
      LinesAtOnce(out, rest + pieces[n]);
    }
  }

  lemma NothingAtOnce()
    ensures AtOnce([])
  {
  }

  /** After any run the alarms that the lines raised and cleared are those that the averages ask for. */
  lemma RunAlarmStates(pieces: seq<seq<Byte>>, device: nat)
    ensures var out := DeliverAll(START, [], pieces).0.out;
            device in Heard(out) ==>
              Watch(out, device).high == StoryOf(out, device).high &&
              Watch(out, device).silent == StoryOf(out, device).silent
  {
    hide Tells, Watch, StoryOf, Heard;
    RunPrints(pieces);
    RunLegal(pieces);
    var c := DeliverAll(START, [], pieces).0;
    if device in Heard(c.out) {
      var i :| 0 <= i < |c.trackers| && IdsOf(c.trackers)[i] == device;
      KnowsOne(c, i);
      IndexUnique(c.trackers, i);
      assert DeviceOk(c, device);
      AlarmsAgree(Watch(c.out, device), StoryOf(c.out, device), c.trackers[i]);
    }
  }

  lemma AlarmsAgree(v: View, s: Story, t: Tracker)
    requires Agrees(v, t) && Tells(s, t)
    ensures v.high == s.high && v.silent == s.silent
  {
  }

  /** After an accepted frame its metric is high exactly above 50000, or above 45000 if it was high before. */
  lemma HighAfter(out: seq<Record>, r: Record)
    requires r.Accepted? && r.metric < 4
    ensures var was, now := StoryOf(out, r.device).high[r.metric], StoryOf(out + [r], r.device).high[r.metric];
            now <==> r.average > 50000 || (was && r.average > 45000)
  {
    Snoc(out, r);
  }

  // ----- silence ------------------------------------------------------------------------------------------------

  /** A watermark prints the silence alarm of exactly the overdue devices. */
  lemma {:induction false} SilencesExactly(out: seq<Record>, devices: seq<nat>, watermark: nat)
    ensures forall r :: r in Silences(out, devices, watermark) <==>
              r.SilenceActive? && r.watermark == watermark && r.device in devices &&
              var s := StoryOf(out, r.device);
              s.timestamp != 0 && !s.silent && watermark - s.timestamp > 60000
  {
    hide StoryOf;
    if devices != [] {
      var n := |devices| - 1;
      SilencesExactly(out, devices[..n], watermark);
      assert devices == devices[..n] + [devices[n]];
    }
  }

  /** The device comes among those. */
  ghost predicate Place(devices: seq<nat>, a: nat, r: Record) {
    a < |devices| && r.SilenceActive? && devices[a] == r.device
  }

  /** The lines come in the order of the devices, each at most once. */
  lemma {:induction false} SilencesInOrder(out: seq<Record>, devices: seq<nat>, watermark: nat, i: nat, j: nat)
    requires i < j < |Silences(out, devices, watermark)|
    ensures var lines := Silences(out, devices, watermark);
            exists a, b :: a < b && Place(devices, a, lines[i]) && Place(devices, b, lines[j])
  {
    hide Overdue;
    var n, lines := |devices| - 1, Silences(out, devices, watermark);
    var before := Silences(out, devices[..n], watermark);
    if j < |before| {
      SilencesInOrder(out, devices[..n], watermark, i, j);
      var a, b :| a < b && Place(devices[..n], a, before[i]) && Place(devices[..n], b, before[j]);
      assert Place(devices, a, lines[i]) && Place(devices, b, lines[j]);
    } else {
      SilencePlace(out, devices[..n], watermark, i);
      var a :| Place(devices[..n], a, before[i]);
      assert Place(devices, a, lines[i]) && Place(devices, n, lines[j]);
    }
  }

  lemma {:induction false} SilencePlace(out: seq<Record>, devices: seq<nat>, watermark: nat, i: nat)
    requires i < |Silences(out, devices, watermark)|
    ensures exists a :: Place(devices, a, Silences(out, devices, watermark)[i])
  {
    hide Overdue;
    var n, lines := |devices| - 1, Silences(out, devices, watermark);
    var before := Silences(out, devices[..n], watermark);
    if i < |before| {
      SilencePlace(out, devices[..n], watermark, i);
      var a :| Place(devices[..n], a, before[i]);
      assert Place(devices, a, lines[i]);
    } else {
      assert Place(devices, n, lines[i]);
    }
  }
}
