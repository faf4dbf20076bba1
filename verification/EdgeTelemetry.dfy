/**
 * What EdgeStream does with an accepted frame, on simple data: a list of at most 64 tracked
 * devices, each with the last eight values of every metric.  `EdgeProcessor` does the same with
 * slots and ring buffers.
 */
module EdgeTelemetry {
  import opened Prelude
  import opened Words
  import opened EdgeCrc

  const MAX_DEVICES := 64
  const MAX_METRICS := 4
  const WINDOW := 8
  const SILENCE_MS := 60000
  const WATERMARK := 0xffff
  const HIGH := 50000
  const CLEAR := 45000

  /** A decoded frame; `value` is the signed 32-bit reading. */
  datatype Frame = Frame(version: nat, flags: nat, device: nat, sequence: nat, timestamp: nat, metric: nat, value: int)

  /** One line of output.  `Restarted` marks a restart in the trace; the program prints nothing there. */
  datatype Record =
    | Reject(reason: string, rejected: nat)
    | ResourceLimit(device: nat)
    | Duplicate(device: nat, sequence: nat)
    | Late(device: nat, sequence: nat, last: nat)
    | SilenceActive(device: nat, watermark: nat)
    | SilenceClear(device: nat)
    | Accepted(device: nat, sequence: nat, timestamp: nat, metric: nat, value: int, average: int, accepted: nat)
    | HighActive(device: nat, metric: nat, average: int)
    | HighClear(device: nat, metric: nat, average: int)
    | Restarted(device: nat)

  datatype Tracker = Tracker(id: nat, silence: bool, lastSeq: nat, lastTimestamp: nat,
                             windows: seq<seq<int>>, high: seq<bool>)

  datatype Core = Core(trackers: seq<Tracker>, accepted: nat, rejected: nat, out: seq<Record>)

  const START := Core([], 0, 0, [])

  const NO_WINDOWS: seq<seq<int>> := [[], [], [], []]
  const NO_ALARMS: seq<bool> := [false, false, false, false]

  // ----- numbers -----------------------------------------------------------------------------------

  /** A 32-bit word read as a signed number. */
  function Signed(word: int): int { if word < 0x8000_0000 then word else word - WORD }

  function Normalized(f: Frame): int { if f.version == 2 then 10 * f.value else f.value }

  /** What a window keeps of a normalised value: its low 32 bits, signed. */
  function Stored(value: int): int { Signed(value % WORD) }

  function Sum(values: seq<int>): int {
    if values == [] then 0 else Sum(values[..|values| - 1]) + values[|values| - 1]
  }

  function Average(window: seq<int>): int
    requires window != []
  {
    TruncDiv(Sum(window), |window|)
  }

  function LastEight(values: seq<int>): seq<int> {
    if |values| <= WINDOW then values else values[|values| - WINDOW..]
  }

  // ----- devices -----------------------------------------------------------------------------------

  function IndexOf(trackers: seq<Tracker>, id: nat): (i: Option<nat>)
    ensures i.Some? ==> i.value < |trackers| && trackers[i.value].id == id
    ensures i.None? ==> forall k :: 0 <= k < |trackers| ==> trackers[k].id != id
  {
    if trackers == [] then None
    else
      var earlier := IndexOf(trackers[..|trackers| - 1], id);
      if earlier.Some? then earlier
      else if trackers[|trackers| - 1].id == id then Some(|trackers| - 1) else None
  }

  function Fresh(id: nat): Tracker { Tracker(id, false, 0, 0, NO_WINDOWS, NO_ALARMS) }

  predicate Rollover(last: nat, sequence: nat) { last >= 0xffff_fff0 && sequence <= 0x0f }

  predicate IsRestart(f: Frame) { f.flags % 2 == 1 }

  // ----- accepting a frame ---------------------------------------------------------------------------

  function Emit(core: Core, r: Record): Core { core.(out := core.out + [r]) }

  function Rejected(core: Core, reason: string): Core {
    Emit(core.(rejected := core.rejected + 1), Reject(reason, core.rejected + 1))
  }

  predicate GoesSilent(t: Tracker, watermark: nat) {
    t.lastTimestamp != 0 && watermark > t.lastTimestamp && watermark - t.lastTimestamp > SILENCE_MS && !t.silence
  }

  /** Raises the silence alarm of the first `n` devices where it is due. */
  function SilenceUpTo(core: Core, watermark: nat, n: nat): (c: Core)
    requires n <= |core.trackers|
    ensures |c.trackers| == |core.trackers|
    ensures forall i :: n <= i < |core.trackers| ==> c.trackers[i] == core.trackers[i]
  {
    if n == 0 then core
    else
      var c := SilenceUpTo(core, watermark, n - 1);
      var t := c.trackers[n - 1];
      if GoesSilent(t, watermark)
      then Emit(c.(trackers := c.trackers[n - 1 := t.(silence := true)]), SilenceActive(t.id, watermark))
      else c
  }

  /** The high alarm of one metric, with hysteresis between the two thresholds. */
  function HighStep(on: bool, device: nat, metric: nat, average: int): (bool, seq<Record>) {
    if average > HIGH && !on then (true, [HighActive(device, metric, average)])
    else if average <= CLEAR && on then (false, [HighClear(device, metric, average)])
    else (on, [])
  }

  predicate TrackerOk(t: Tracker) {
    |t.windows| == MAX_METRICS && |t.high| == MAX_METRICS &&
    forall k :: 0 <= k < MAX_METRICS ==> |t.windows[k]| <= WINDOW
  }

  /** What an accepted frame does to its device, and the records it prints. */
  function Update(t: Tracker, f: Frame, total: nat): (Tracker, seq<Record>)
    requires TrackerOk(t) && f.metric < MAX_METRICS
  {
    var window := LastEight(t.windows[f.metric] + [Stored(Normalized(f))]);
    var average := Average(window);
    var (on, alarms) := HighStep(t.high[f.metric], t.id, f.metric, average);
    var t1 := Tracker(t.id, false, f.sequence, f.timestamp, t.windows[f.metric := window], t.high[f.metric := on]);
    var event := Accepted(t.id, f.sequence, f.timestamp, f.metric, Normalized(f), average, total);
    (t1, (if t.silence then [SilenceClear(t.id)] else []) + [event] + alarms)
  }

  /** The frame passes the sequence check: update the device and report. */
  function AcceptedBy(core: Core, i: nat, f: Frame): Core
    requires i < |core.trackers| && TrackerOk(core.trackers[i]) && f.metric < MAX_METRICS
  {
    var (t1, records) := Update(core.trackers[i], f, core.accepted + 1);
    Core(core.trackers[i := t1], core.accepted + 1, core.rejected, core.out + records)
  }

  function Restart(core: Core, i: nat): Core
    requires i < |core.trackers|
  {
    var t := core.trackers[i];
    Emit(core.(trackers := core.trackers[i := t.(windows := NO_WINDOWS, high := NO_ALARMS)]), Restarted(t.id))
  }

  /** A device already tracked: restart, duplicate, late, or accepted. */
  function OnTracked(core: Core, i: nat, f: Frame): Core
    requires i < |core.trackers| && TrackerOk(core.trackers[i]) && f.metric < MAX_METRICS
  {
    var last := core.trackers[i].lastSeq;
    if IsRestart(f) then AcceptedBy(Restart(core, i), i, f)
    else if f.sequence == last then Emit(core, Duplicate(f.device, f.sequence))
    else if !Rollover(last, f.sequence) && f.sequence < last then Emit(core, Late(f.device, f.sequence, last))
    else AcceptedBy(core, i, f)
  }

  /** A device seen for the first time: its sequence is not checked. */
  function OnNew(core: Core, f: Frame): Core
    requires f.metric < MAX_METRICS
  {
    var c := core.(trackers := core.trackers + [Fresh(f.device)]);
    var i := |core.trackers|;
    AcceptedBy(if IsRestart(f) then Restart(c, i) else c, i, f)
  }

  ghost predicate CoreOk(core: Core) {
    |core.trackers| <= MAX_DEVICES && (forall i :: 0 <= i < |core.trackers| ==> TrackerOk(core.trackers[i])) &&
    forall i, j :: 0 <= i < j < |core.trackers| ==> core.trackers[i].id != core.trackers[j].id
  }

  function Accept(core: Core, f: Frame): Core
    requires forall i :: 0 <= i < |core.trackers| ==> TrackerOk(core.trackers[i])
  {
    if f.metric == WATERMARK then SilenceUpTo(core, f.timestamp, |core.trackers|)
    else if f.metric >= MAX_METRICS then Rejected(core, "metric")
    else
      match IndexOf(core.trackers, f.device)
      case Some(i) => OnTracked(core, i, f)
      case None =>
        if |core.trackers| == MAX_DEVICES then Emit(core, ResourceLimit(f.device)) else OnNew(core, f)
  }

  lemma {:induction false} SilenceOk(core: Core, watermark: nat, n: nat)
    requires CoreOk(core) && n <= |core.trackers|
    ensures CoreOk(SilenceUpTo(core, watermark, n))
    ensures forall i :: 0 <= i < |core.trackers| ==>
              SilenceUpTo(core, watermark, n).trackers[i].id == core.trackers[i].id
  {
    if n > 0 { SilenceOk(core, watermark, n - 1); }
  }

  lemma UpdateOk(t: Tracker, f: Frame, total: nat)
    requires TrackerOk(t) && f.metric < MAX_METRICS
    ensures TrackerOk(Update(t, f, total).0) && Update(t, f, total).0.id == t.id
  {
  }

  lemma AcceptedOk(core: Core, i: nat, f: Frame)
    requires CoreOk(core) && i < |core.trackers| && f.metric < MAX_METRICS
    ensures CoreOk(AcceptedBy(core, i, f)) && |AcceptedBy(core, i, f).trackers| == |core.trackers|
  {
    UpdateOk(core.trackers[i], f, core.accepted + 1);
    OneReplaced(core, AcceptedBy(core, i, f), i);
  }

  lemma OneReplaced(core: Core, c: Core, i: nat)
    requires CoreOk(core) && i < |core.trackers| == |c.trackers| && c.trackers == core.trackers[i := c.trackers[i]]
    requires TrackerOk(c.trackers[i]) && c.trackers[i].id == core.trackers[i].id
    ensures CoreOk(c)
  {
  }

  lemma RestartOk(core: Core, i: nat)
    requires CoreOk(core) && i < |core.trackers|
    ensures CoreOk(Restart(core, i)) && |Restart(core, i).trackers| == |core.trackers|
  {
    OneReplaced(core, Restart(core, i), i);
  }

  lemma OnTrackedOk(core: Core, i: nat, f: Frame)
    requires CoreOk(core) && i < |core.trackers| && f.metric < MAX_METRICS
    ensures CoreOk(OnTracked(core, i, f)) && |OnTracked(core, i, f).trackers| == |core.trackers|
  {
    RestartOk(core, i);
    AcceptedOk(Restart(core, i), i, f);
    AcceptedOk(core, i, f);
  }

  lemma OnNewOk(core: Core, f: Frame)
    requires CoreOk(core) && |core.trackers| < MAX_DEVICES && f.metric < MAX_METRICS
    requires forall k :: 0 <= k < |core.trackers| ==> core.trackers[k].id != f.device
    ensures CoreOk(OnNew(core, f)) && |OnNew(core, f).trackers| == |core.trackers| + 1
  {
    var c := core.(trackers := core.trackers + [Fresh(f.device)]);
    var i := |core.trackers|;
    RestartOk(c, i);
    AcceptedOk(Restart(c, i), i, f);
    AcceptedOk(c, i, f);
  }

  /** Ids stay distinct, at most 64 devices are tracked, and windows hold at most eight values. */
  lemma AcceptOk(core: Core, f: Frame)
    requires CoreOk(core)
    ensures CoreOk(Accept(core, f))
    ensures |core.trackers| <= |Accept(core, f).trackers|
  {
    if f.metric == WATERMARK {
      SilenceOk(core, f.timestamp, |core.trackers|);
    } else if f.metric < MAX_METRICS {
      match IndexOf(core.trackers, f.device)
      case Some(i) => OnTrackedOk(core, i, f);
      case None => if |core.trackers| < MAX_DEVICES { OnNewOk(core, f); }
    }
  }
}
