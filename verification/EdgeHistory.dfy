/**
 * What EdgeStream prints for the next frame, read off the lines printed before it: no state, only the history.
 * Every run prints exactly these lines.
 */
module EdgeHistory {
  import opened Prelude
  import opened Words
  import opened EdgeCrc
  import opened EdgeTelemetry
  import opened EdgeParser

  // ----- reading the history ------------------------------------------------------------------------------------

  /** The devices that had a frame accepted, in the order of their first one. */
  function Heard(out: seq<Record>): seq<nat> {
    if out == [] then []
    else
      var before := Heard(out[..|out| - 1]);
      match out[|out| - 1]
      case Accepted(d, _, _, _, _, _, _) => if d in before then before else before + [d]
      case _ => before
  }

  /** What the lines about a device say: its last frame, whether it is silent, and per metric the values since
      its last restart and whether the average is high. */
  datatype Story = Story(sequence: nat, timestamp: nat, silent: bool, values: seq<seq<int>>, high: seq<bool>)

  const UNTOLD := Story(0, 0, false, [[], [], [], []], [false, false, false, false])

  function StoryOf(out: seq<Record>, device: nat): (s: Story)
    ensures |s.values| == |s.high| == 4
  {
    if out == [] then UNTOLD else Continue(StoryOf(out[..|out| - 1], device), out[|out| - 1], device)
  }

  /** The low 32 bits of a number, signed. */
  function Low32(x: int): int {
    var low := x % 0x1_0000_0000;
    if low >= 0x8000_0000 then low - 0x1_0000_0000 else low
  }

  function Continue(s: Story, r: Record, device: nat): (s1: Story)
    requires |s.values| == |s.high| == 4
    ensures |s1.values| == |s1.high| == 4
  {
    match r
    case Accepted(d, sequence, timestamp, m, value, average, _) =>
      if d != device || m >= 4 then s
      else Story(sequence, timestamp, false, s.values[m := s.values[m] + [Low32(value)]],
                 s.high[m := average > 50000 || (s.high[m] && average > 45000)])
    case SilenceActive(d, _) => if d == device then s.(silent := true) else s
    case Restarted(d) =>
      if d == device then s.(values := [[], [], [], []], high := [false, false, false, false]) else s
    case _ => s
  }

  function Acceptances(out: seq<Record>): nat {
    if out == [] then 0 else Acceptances(out[..|out| - 1]) + if out[|out| - 1].Accepted? then 1 else 0
  }

  function Rejections(out: seq<Record>): nat {
    if out == [] then 0 else Rejections(out[..|out| - 1]) + if out[|out| - 1].Reject? then 1 else 0
  }

  // ----- the answer to a frame ----------------------------------------------------------------------------------

  function Total(values: seq<int>): int { if values == [] then 0 else values[0] + Total(values[1..]) }

  /** The mean of at least one value, cut off towards zero. */
  function Mean(values: seq<int>): int
    requires values != []
  {
    var total, n := Total(values), |values|;
    if total >= 0 then total / n else -(-total / n)
  }

  function Recent(values: seq<int>): seq<int> { values[if |values| > 8 then |values| - 8 else 0..] }

  function Value(f: Frame): int { if f.version == 2 then f.value * 10 else f.value }

  /** The average of the metric once the value of the frame is in. */
  function AverageWith(s: Story, f: Frame): int
    requires |s.values| == 4 && f.metric < 4
  {
    Mean(Recent(s.values[f.metric] + [Low32(Value(f))]))
  }

  /** The lines about an accepted frame, under what was told of its device. */
  function Report(out: seq<Record>, s: Story, f: Frame): seq<Record>
    requires |s.values| == |s.high| == 4 && f.metric < 4
  {
    var average := AverageWith(s, f);
    (if s.silent then [SilenceClear(f.device)] else []) +
    [Accepted(f.device, f.sequence, f.timestamp, f.metric, Value(f), average, Acceptances(out) + 1)] +
    if average > 50000 && !s.high[f.metric] then [HighActive(f.device, f.metric, average)]
    else if average <= 45000 && s.high[f.metric] then [HighClear(f.device, f.metric, average)]
    else []
  }

  /** The devices whose silence is due: last heard more than a minute before, and not silent yet. */
  predicate Overdue(out: seq<Record>, device: nat, watermark: nat) {
    var s := StoryOf(out, device);
    s.timestamp != 0 && watermark > s.timestamp + 60000 && !s.silent
  }

  function Silences(out: seq<Record>, devices: seq<nat>, watermark: nat): seq<Record> {
    if devices == [] then []
    else
      var n := |devices| - 1;
      Silences(out, devices[..n], watermark) +
      if Overdue(out, devices[n], watermark) then [SilenceActive(devices[n], watermark)] else []
  }

  function Answer(out: seq<Record>, f: Frame): seq<Record> {
    var s := StoryOf(out, f.device);
    var restarted := s.(values := [[], [], [], []], high := [false, false, false, false]);
    if f.metric == 0xffff then Silences(out, Heard(out), f.timestamp)
    else if f.metric >= 4 then [Reject("metric", Rejections(out) + 1)]
    else if f.device !in Heard(out) && |Heard(out)| >= 64 then [ResourceLimit(f.device)]
    else if f.flags % 2 == 1 then [Restarted(f.device)] + Report(out, restarted, f)
    else if f.device !in Heard(out) then Report(out, s, f)
    else if f.sequence == s.sequence then [Duplicate(f.device, f.sequence)]
    else if f.sequence < s.sequence && !(s.sequence >= 4294967280 && f.sequence <= 15) then
      [Late(f.device, f.sequence, s.sequence)]
    else Report(out, s, f)
  }

  // ----- the processor knows the history ------------------------------------------------------------------------

  predicate Tells(s: Story, t: Tracker) {
    TrackerOk(t) && |s.values| == |s.high| == 4 &&
    t.lastSeq == s.sequence && t.lastTimestamp == s.timestamp && t.silence == s.silent && t.high == s.high &&
    forall m :: 0 <= m < 4 ==> t.windows[m] == Recent(s.values[m])
  }

  function IdsOf(trackers: seq<Tracker>): (ids: seq<nat>)
    ensures |ids| == |trackers| && forall i :: 0 <= i < |ids| ==> ids[i] == trackers[i].id
  {
    seq(|trackers|, i requires 0 <= i < |trackers| => trackers[i].id)
  }

  /** The devices are told as `trackers`, and no line was about any other. */
  ghost predicate Summary(out: seq<Record>, trackers: seq<Tracker>) {
    Heard(out) == IdsOf(trackers) &&
    (forall i :: 0 <= i < |trackers| ==> Tells(StoryOf(out, trackers[i].id), trackers[i])) &&
    forall d: nat :: d !in IdsOf(trackers) ==> StoryOf(out, d) == UNTOLD
  }

  ghost predicate Knows(core: Core) {
    CoreOk(core) && Summary(core.out, core.trackers) &&
    core.accepted == Acceptances(core.out) && core.rejected == Rejections(core.out)
  }

  lemma Snoc(out: seq<Record>, r: Record)
    ensures forall d: nat :: StoryOf(out + [r], d) == Continue(StoryOf(out, d), r, d)
    ensures Heard(out + [r]) == if r.Accepted? && r.device !in Heard(out) then Heard(out) + [r.device] else Heard(out)
    ensures Acceptances(out + [r]) == Acceptances(out) + if r.Accepted? then 1 else 0
    ensures Rejections(out + [r]) == Rejections(out) + if r.Reject? then 1 else 0
  {
    assert (out + [r])[..|out|] == out;
  }

  /** Lines that tell nothing about any device. */
  predicate Neutral(r: Record) {
    r.Reject? || r.ResourceLimit? || r.Duplicate? || r.Late? || r.SilenceClear? || r.HighActive? || r.HighClear?
  }

  lemma NeutralSnoc(out: seq<Record>, r: Record)
    requires Neutral(r)
    ensures forall d: nat :: StoryOf(out + [r], d) == StoryOf(out, d)
    ensures Heard(out + [r]) == Heard(out) && Acceptances(out + [r]) == Acceptances(out)
    ensures Rejections(out + [r]) == Rejections(out) + if r.Reject? then 1 else 0
  {
    Snoc(out, r);
  }

  lemma NeutralKnows(core: Core, c: Core, r: Record)
    requires Knows(core) && Neutral(r) && c.trackers == core.trackers && c.accepted == core.accepted
    requires c.out == core.out + [r] && c.rejected == core.rejected + if r.Reject? then 1 else 0
    ensures Knows(c)
  {
    NeutralSnoc(core.out, r);
  }

  // ----- numbers ------------------------------------------------------------------------------------------------

  lemma {:induction false} TotalSnoc(values: seq<int>, x: int)
    ensures Total(values + [x]) == Total(values) + x
  {
    if values != [] {
      assert (values + [x])[1..] == values[1..] + [x];
      TotalSnoc(values[1..], x);
    }
  }

  lemma {:induction false} TotalIsSum(values: seq<int>)
    ensures Total(values) == Sum(values)
  {
    if values != [] {
      var n := |values| - 1;
      TotalIsSum(values[..n]);
      TotalSnoc(values[..n], values[n]);
      assert values[..n] + [values[n]] == values;
    }
  }

  lemma RecentSnoc(values: seq<int>, x: int)
    ensures LastEight(Recent(values) + [x]) == Recent(values + [x])
  {
  }

  lemma MeanIsAverage(window: seq<int>)
    requires window != []
    ensures Mean(window) == Average(window)
  {
    TotalIsSum(window);
  }

  lemma LowIsStored(x: int)
    ensures Low32(x) == Stored(x)
  {
  }

  /** The value and the average of an accepted frame. */
  lemma Readings(s: Story, t: Tracker, f: Frame)
    requires Tells(s, t) && f.metric < 4
    ensures Normalized(f) == if f.version == 2 then f.value * 10 else f.value
    ensures var window := LastEight(t.windows[f.metric] + [Stored(Normalized(f))]);
            var values := s.values[f.metric] + [Low32(Normalized(f))];
            window == Recent(values) && window != [] && Average(window) == AverageWith(s, f)
  {
    LowIsStored(Normalized(f));
    RecentSnoc(s.values[f.metric], Stored(Normalized(f)));
    MeanIsAverage(LastEight(t.windows[f.metric] + [Stored(Normalized(f))]));
  }

  // ----- an accepted frame --------------------------------------------------------------------------------------

  function Told(s: Story, f: Frame): (s1: Story)
    requires |s.values| == |s.high| == 4 && f.metric < 4
  {
    var average := AverageWith(s, f);
    Story(f.sequence, f.timestamp, false, s.values[f.metric := s.values[f.metric] + [Low32(Value(f))]],
          s.high[f.metric := average > 50000 || (s.high[f.metric] && average > 45000)])
  }

  /** What the lines of a report change in the history. */
  lemma Reported(out: seq<Record>, f: Frame)
    requires f.metric < 4
    ensures var s := StoryOf(out, f.device);
            var out1 := out + Report(out, s, f);
            StoryOf(out1, f.device) == Told(s, f) &&
            (forall d: nat :: d != f.device ==> StoryOf(out1, d) == StoryOf(out, d)) &&
            Heard(out1) == (if f.device in Heard(out) then Heard(out) else Heard(out) + [f.device]) &&
            Acceptances(out1) == Acceptances(out) + 1 && Rejections(out1) == Rejections(out)
  {
    hide StoryOf, Heard, Acceptances, Rejections, AverageWith, Low32;
    var s := StoryOf(out, f.device);
    var value, average := Value(f), AverageWith(s, f);
    var cleared := out + if s.silent then [SilenceClear(f.device)] else [];
    if s.silent { NeutralSnoc(out, SilenceClear(f.device)); } else { assert cleared == out; }
    var event := Accepted(f.device, f.sequence, f.timestamp, f.metric, value, average, Acceptances(out) + 1);
    Snoc(cleared, event);
    var out2 := cleared + [event];
    var alarms := if average > 50000 && !s.high[f.metric] then [HighActive(f.device, f.metric, average)]
                  else if average <= 45000 && s.high[f.metric] then [HighClear(f.device, f.metric, average)] else [];
    if alarms != [] {
      NeutralSnoc(out2, alarms[0]);
      assert alarms == [alarms[0]];
    } else {
      assert out2 + alarms == out2;
    }
    assert out + Report(out, s, f) == out2 + alarms;
  }

  /** The processor prints the report, and its tracker follows. */
  lemma AcceptedReports(core: Core, i: nat, f: Frame)
    requires i < |core.trackers| && f.metric < 4 && core.trackers[i].id == f.device
    requires Tells(StoryOf(core.out, f.device), core.trackers[i]) && core.accepted == Acceptances(core.out)
    ensures var c := AcceptedBy(core, i, f);
            c.out == core.out + Report(core.out, StoryOf(core.out, f.device), f) &&
            c.trackers == core.trackers[i := c.trackers[i]] && c.trackers[i].id == f.device &&
            Tells(Told(StoryOf(core.out, f.device), f), c.trackers[i]) &&
            c.accepted == core.accepted + 1 && c.rejected == core.rejected
  {
    hide StoryOf, Mean, Average, Recent, Low32, Stored, LastEight, Acceptances;
    var s, t := StoryOf(core.out, f.device), core.trackers[i];
    Readings(s, t, f);
    UpdateOk(t, f, core.accepted + 1);
  }

  lemma AcceptedKnows(core: Core, i: nat, f: Frame)
    requires Knows(core) && i < |core.trackers| && f.metric < 4 && core.trackers[i].id == f.device
    ensures var c := AcceptedBy(core, i, f);
            Knows(c) && c.out == core.out + Report(core.out, StoryOf(core.out, f.device), f)
  {
    hide Report, StoryOf, Told, Tells, Heard, Acceptances, Rejections, AcceptedBy;
    KnowsOne(core, i);
    Reported(core.out, f);
    AcceptedReports(core, i, f);
    AcceptedOk(core, i, f);
    OneTold(core, AcceptedBy(core, i, f), i, f.device);
  }

  lemma KnowsOne(core: Core, i: nat)
    requires Knows(core) && i < |core.trackers|
    ensures Tells(StoryOf(core.out, core.trackers[i].id), core.trackers[i]) && TrackerOk(core.trackers[i])
    ensures core.trackers[i].id in Heard(core.out) && core.accepted == Acceptances(core.out)
  {
    assert IdsOf(core.trackers)[i] == core.trackers[i].id;
  }

  /** A step that touches one device and tells of it. */
  lemma OneTold(core: Core, c: Core, i: nat, device: nat)
    requires Knows(core) && CoreOk(c) && i < |core.trackers| == |c.trackers| && core.trackers[i].id == device
    requires c.trackers == core.trackers[i := c.trackers[i]] && c.trackers[i].id == device
    requires Tells(StoryOf(c.out, device), c.trackers[i])
    requires forall d: nat :: d != device ==> StoryOf(c.out, d) == StoryOf(core.out, d)
    requires Heard(c.out) == Heard(core.out)
    requires c.accepted == Acceptances(c.out) && c.rejected == Rejections(c.out)
    ensures Knows(c)
  {
    hide StoryOf, Tells, Heard, Acceptances, Rejections;
    assert IdsOf(c.trackers) == IdsOf(core.trackers);
    forall k | 0 <= k < |c.trackers| ensures Tells(StoryOf(c.out, c.trackers[k].id), c.trackers[k]) {
      if k != i { assert Tells(StoryOf(core.out, core.trackers[k].id), core.trackers[k]); }
    }
    assert IdsOf(core.trackers)[i] == device;
  }

  /** A restart forgets values and alarms. */
  lemma RestartTells(out: seq<Record>, t: Tracker)
    requires Tells(StoryOf(out, t.id), t)
    ensures var s := StoryOf(out, t.id).(values := [[], [], [], []], high := [false, false, false, false]);
            StoryOf(out + [Restarted(t.id)], t.id) == s && Tells(s, t.(windows := NO_WINDOWS, high := NO_ALARMS))
  {
    Snoc(out, Restarted(t.id));
  }

  lemma RestartKnows(core: Core, i: nat)
    requires Knows(core) && i < |core.trackers|
    ensures var t := core.trackers[i];
            var c := Restart(core, i);
            Knows(c) && i < |c.trackers| && c.out == core.out + [Restarted(t.id)] && c.trackers[i].id == t.id &&
            StoryOf(c.out, t.id) ==
            StoryOf(core.out, t.id).(values := [[], [], [], []], high := [false, false, false, false])
  {
    hide StoryOf, Tells, Heard, Acceptances, Rejections;
    var t := core.trackers[i];
    KnowsOne(core, i);
    Snoc(core.out, Restarted(t.id));
    RestartTells(core.out, t);
    RestartOk(core, i);
    OneTold(core, Restart(core, i), i, t.id);
  }

  // ----- a frame of a device not heard before -------------------------------------------------------------------

  lemma NewTold(core: Core, c: Core, t: Tracker)
    requires Knows(core) && CoreOk(c) && t.id !in Heard(core.out) && c.trackers == core.trackers + [t]
    requires Tells(StoryOf(c.out, t.id), t)
    requires forall d: nat :: d != t.id ==> StoryOf(c.out, d) == StoryOf(core.out, d)
    requires Heard(c.out) == Heard(core.out) + [t.id]
    requires c.accepted == Acceptances(c.out) && c.rejected == Rejections(c.out)
    ensures Knows(c)
  {
    hide StoryOf, Tells, Heard, Acceptances, Rejections;
    var n := |core.trackers|;
    assert IdsOf(c.trackers) == IdsOf(core.trackers) + [t.id];
    forall k | 0 <= k < |c.trackers| ensures Tells(StoryOf(c.out, c.trackers[k].id), c.trackers[k]) {
      if k < n {
        assert IdsOf(core.trackers)[k] == core.trackers[k].id;
        assert Tells(StoryOf(core.out, core.trackers[k].id), core.trackers[k]);
      }
    }
  }

  lemma FreshTells(device: nat)
    ensures Tells(UNTOLD, Fresh(device))
  {
  }

  /** A restart of a device not heard before changes nothing. */
  lemma RestartNew(core: Core, i: nat)
    requires i < |core.trackers| && core.trackers[i] == Fresh(core.trackers[i].id)
    requires StoryOf(core.out, core.trackers[i].id) == UNTOLD
    ensures var d := core.trackers[i].id;
            var c := Restart(core, i);
            c == core.(out := core.out + [Restarted(d)]) && Heard(c.out) == Heard(core.out) &&
            (forall k: nat :: StoryOf(c.out, k) == StoryOf(core.out, k)) &&
            Acceptances(c.out) == Acceptances(core.out) && Rejections(c.out) == Rejections(core.out)
  {
    Snoc(core.out, Restarted(core.trackers[i].id));
    assert core.trackers[i := core.trackers[i]] == core.trackers;
  }

  lemma NewAccepted(core: Core, c: Core, f: Frame)
    requires Knows(core) && f.metric < 4 && |core.trackers| < 64 && f.device !in Heard(core.out)
    requires c.trackers == core.trackers + [Fresh(f.device)]
    requires c.accepted == core.accepted && c.rejected == core.rejected
    requires Heard(c.out) == Heard(core.out) && forall k: nat :: StoryOf(c.out, k) == StoryOf(core.out, k)
    requires Acceptances(c.out) == Acceptances(core.out) && Rejections(c.out) == Rejections(core.out)
    ensures var c1 := AcceptedBy(c, |core.trackers|, f);
            Knows(c1) && c1.out == c.out + Report(c.out, UNTOLD, f)
  {
    hide Report, StoryOf, Told, Tells, Heard, Acceptances, Rejections, AcceptedBy;
    FreshTells(f.device);
    Unheard(core, f.device);
    NewOk(core, c, f.device);
    var i := |core.trackers|;
    Reported(c.out, f);
    AcceptedReports(c, i, f);
    AcceptedOk(c, i, f);
    var c1 := AcceptedBy(c, i, f);
    NewTold(core, c1, c1.trackers[i]);
  }

  lemma Unheard(core: Core, device: nat)
    requires Knows(core) && device !in Heard(core.out)
    ensures StoryOf(core.out, device) == UNTOLD
    ensures forall k :: 0 <= k < |core.trackers| ==> core.trackers[k].id != device
  {
    forall k | 0 <= k < |core.trackers| ensures core.trackers[k].id != device {
      assert IdsOf(core.trackers)[k] == core.trackers[k].id;
    }
  }

  lemma NewOk(core: Core, c: Core, device: nat)
    requires CoreOk(core) && |core.trackers| < 64 && c.trackers == core.trackers + [Fresh(device)]
    requires forall k :: 0 <= k < |core.trackers| ==> core.trackers[k].id != device
    ensures CoreOk(c) && TrackerOk(c.trackers[|core.trackers|])
  {
  }

  lemma OnNewAnswers(core: Core, f: Frame)
    requires Knows(core) && f.metric < 4 && |core.trackers| < 64 && f.device !in Heard(core.out)
    ensures Knows(OnNew(core, f)) && OnNew(core, f).out == core.out + Answer(core.out, f)
  {
    hide Report, StoryOf, Told, Tells, Heard, Acceptances, Rejections, AcceptedBy, CoreOk, Summary;
    var c := core.(trackers := core.trackers + [Fresh(f.device)]);
    var i := |core.trackers|;
    Unheard(core, f.device);
    HeardAll(core);
    if IsRestart(f) {
      RestartNew(c, i);
      var c1 := Restart(c, i);
      NewAccepted(core, c1, f);
      SameReport(core.out, c1.out, UNTOLD, f);
      assert c1.out + Report(c1.out, UNTOLD, f) == core.out + ([Restarted(f.device)] + Report(core.out, UNTOLD, f));
    } else {
      NewAccepted(core, c, f);
    }
  }

  lemma HeardAll(core: Core)
    requires Knows(core)
    ensures |Heard(core.out)| == |core.trackers|
  {
  }

  lemma SameReport(a: seq<Record>, b: seq<Record>, s: Story, f: Frame)
    requires |s.values| == |s.high| == 4 && f.metric < 4 && Acceptances(a) == Acceptances(b)
    ensures Report(a, s, f) == Report(b, s, f)
  {
  }

  lemma OnTrackedAnswers(core: Core, i: nat, f: Frame)
    requires Knows(core) && i < |core.trackers| && core.trackers[i].id == f.device && f.metric < 4
    ensures Knows(OnTracked(core, i, f)) && OnTracked(core, i, f).out == core.out + Answer(core.out, f)
  {
    hide Report, StoryOf, Told, Heard, Acceptances, Rejections, AcceptedBy, CoreOk, Summary, Restart, Knows;
    KnowsOne(core, i);
    var s := StoryOf(core.out, f.device);
    if IsRestart(f) {
      var c := Restart(core, i);
      RestartKnows(core, i);
      AcceptedKnows(c, i, f);
      RestartCounts(core.out, f.device);
      SameReport(core.out, c.out, StoryOf(c.out, f.device), f);
      var report := Report(c.out, StoryOf(c.out, f.device), f);
      assert core.out + [Restarted(f.device)] + report == core.out + ([Restarted(f.device)] + report);
    } else if f.sequence == s.sequence {
      AddsNeutral(core, Duplicate(f.device, f.sequence));
    } else if !Rollover(s.sequence, f.sequence) && f.sequence < s.sequence {
      AddsNeutral(core, Late(f.device, f.sequence, s.sequence));
    } else {
      AcceptedKnows(core, i, f);
    }
  }

  lemma RestartCounts(out: seq<Record>, device: nat)
    ensures Acceptances(out + [Restarted(device)]) == Acceptances(out)
  {
    Snoc(out, Restarted(device));
  }

  lemma AddsNeutral(core: Core, r: Record)
    requires Knows(core) && Neutral(r) && !r.Reject?
    ensures Knows(Emit(core, r))
  {
    NeutralKnows(core, Emit(core, r), r);
  }

  lemma RejectKnows(core: Core, reason: string)
    requires Knows(core)
    ensures Knows(Rejected(core, reason))
    ensures Rejected(core, reason).out == core.out + [Reject(reason, Rejections(core.out) + 1)]
  {
    NeutralKnows(core, Rejected(core, reason), Reject(reason, core.rejected + 1));
  }

  // ----- a watermark --------------------------------------------------------------------------------------------

  /** A story with the silences raised for the first devices. */
  function Quieted(out: seq<Record>, devices: seq<nat>, watermark: nat, d: nat): Story {
    var s := StoryOf(out, d);
    s.(silent := s.silent || (d in devices && Overdue(out, d, watermark)))
  }

  /** What the silence lines change in the history. */
  lemma {:induction false} SilencesTell(out: seq<Record>, devices: seq<nat>, watermark: nat)
    ensures var out1 := out + Silences(out, devices, watermark);
            (forall d: nat :: StoryOf(out1, d) == Quieted(out, devices, watermark, d)) &&
            Heard(out1) == Heard(out) && Acceptances(out1) == Acceptances(out) && Rejections(out1) == Rejections(out)
  {
    hide StoryOf, Heard, Acceptances, Rejections, Overdue;
    if devices == [] {
      assert out + [] == out;
    } else {
      var n := |devices| - 1;
      SilencesTell(out, devices[..n], watermark);
      var before := out + Silences(out, devices[..n], watermark);
      assert devices == devices[..n] + [devices[n]];
      if Overdue(out, devices[n], watermark) {
        Snoc(before, SilenceActive(devices[n], watermark));
        assert out + Silences(out, devices, watermark) == before + [SilenceActive(devices[n], watermark)];
      } else {
        assert out + Silences(out, devices, watermark) == before;
      }
    }
  }

  lemma SilentIff(out: seq<Record>, t: Tracker, watermark: nat)
    requires Tells(StoryOf(out, t.id), t)
    ensures GoesSilent(t, watermark) <==> Overdue(out, t.id, watermark)
  {
  }

  /** The loop over the trackers prints them, and silences the trackers. */
  lemma {:induction false} SilenceLoop(core: Core, watermark: nat, n: nat)
    requires Knows(core) && n <= |core.trackers|
    ensures var c := SilenceUpTo(core, watermark, n);
            c.out == core.out + Silences(core.out, IdsOf(core.trackers)[..n], watermark) &&
            c.accepted == core.accepted && c.rejected == core.rejected &&
            forall i :: 0 <= i < n ==>
              var t := core.trackers[i];
              c.trackers[i] == t.(silence := t.silence || Overdue(core.out, t.id, watermark))
  {
    hide StoryOf, Heard, Acceptances, Rejections, CoreOk, Overdue, GoesSilent, Tells, Knows;
    if n > 0 {
      SilenceLoop(core, watermark, n - 1);
      var ids := IdsOf(core.trackers);
      assert ids[..n][..n - 1] == ids[..n - 1];
      KnowsOne(core, n - 1);
      SilentIff(core.out, core.trackers[n - 1], watermark);
    } else {
      assert core.out + [] == core.out;
    }
  }

  lemma WatermarkAnswers(core: Core, watermark: nat)
    requires Knows(core)
    ensures var c := SilenceUpTo(core, watermark, |core.trackers|);
            Knows(c) && c.out == core.out + Silences(core.out, Heard(core.out), watermark)
  {
    hide StoryOf, Heard, Acceptances, Rejections, CoreOk, Overdue, SilenceUpTo, Tells;
    var n, ids := |core.trackers|, IdsOf(core.trackers);
    var c := SilenceUpTo(core, watermark, n);
    SilenceLoop(core, watermark, n);
    assert ids[..n] == ids;
    SilencesTell(core.out, ids, watermark);
    SilenceOk(core, watermark, n);
    assert IdsOf(c.trackers) == ids;
    forall i | 0 <= i < n ensures Tells(StoryOf(c.out, c.trackers[i].id), c.trackers[i]) {
      assert ids[i] in ids;
      KnowsOne(core, i);
      QuietedTells(core.out, ids, watermark, core.trackers[i]);
    }
  }

  lemma QuietedTells(out: seq<Record>, devices: seq<nat>, watermark: nat, t: Tracker)
    requires Tells(StoryOf(out, t.id), t) && t.id in devices
    ensures Tells(Quieted(out, devices, watermark, t.id),
                  t.(silence := t.silence || Overdue(out, t.id, watermark)))
  {
  }

  // ----- every frame, every run ---------------------------------------------------------------------------------

  /** What is printed for a frame is the answer to it. */
  lemma AcceptAnswers(core: Core, f: Frame)
    requires Knows(core)
    ensures Knows(Accept(core, f)) && Accept(core, f).out == core.out + Answer(core.out, f)
  {
    hide Report, StoryOf, Heard, Acceptances, Rejections, SilenceUpTo, OnNew, OnTracked, CoreOk, Summary;
    KnowsTrackers(core);
    HeardAll(core);
    if f.metric == WATERMARK {
      WatermarkAnswers(core, f.timestamp);
    } else if f.metric >= MAX_METRICS {
      RejectKnows(core, "metric");
    } else {
      match IndexOf(core.trackers, f.device)
      case Some(i) =>
        KnowsOne(core, i);
        OnTrackedAnswers(core, i, f);
      case None =>
        NotHeard(core, f.device);
        if |core.trackers| == MAX_DEVICES {
          AddsNeutral(core, ResourceLimit(f.device));
        } else {
          OnNewAnswers(core, f);
        }
    }
  }

  lemma KnowsTrackers(core: Core)
    requires Knows(core)
    ensures CoreOk(core) && |core.trackers| <= 64
    ensures forall i :: 0 <= i < |core.trackers| ==> TrackerOk(core.trackers[i])
  {
  }

  lemma NotHeard(core: Core, device: nat)
    requires Knows(core) && forall k :: 0 <= k < |core.trackers| ==> core.trackers[k].id != device
    ensures device !in Heard(core.out)
  {
  }
}
