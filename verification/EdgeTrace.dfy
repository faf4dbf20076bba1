/**
 * What the output of EdgeStream can look like, whatever the input: a monitor reads the records of
 * one device in order, and every run satisfies it.
 */
module EdgeTrace {
  import opened Prelude
  import opened EdgeTelemetry

  /**
   * State of the monitor: last accepted sequence and accepted values since the last restart, the
   * two kinds of alarm, and whether every record so far was legal.
   */
  datatype View = View(last: Option<nat>, silent: bool, values: seq<seq<int>>, high: seq<bool>, legal: bool)

  const UNSEEN := View(None, false, NO_WINDOWS, NO_ALARMS, true)

  function DeviceOf(r: Record): Option<nat> {
    match r
    case Reject(_, _) => None
    case ResourceLimit(_) => None
    case Duplicate(d, _) => Some(d)
    case Late(d, _, _) => Some(d)
    case SilenceActive(d, _) => Some(d)
    case SilenceClear(d) => Some(d)
    case Accepted(d, _, _, _, _, _, _) => Some(d)
    case HighActive(d, _, _) => Some(d)
    case HighClear(d, _, _) => Some(d)
    case Restarted(d) => Some(d)
  }

  /** Sequences increase, except for the declared rollover. */
  predicate Follows(last: Option<nat>, sequence: nat) {
    last.Some? ==> sequence > last.value || Rollover(last.value, sequence)
  }

  predicate ViewOk(v: View) { |v.values| == MAX_METRICS && |v.high| == MAX_METRICS }

  /** Whether the record may come next. */
  predicate Legal(v: View, r: Record)
    requires ViewOk(v)
  {
    match r
    case Duplicate(_, s) => v.last == Some(s)
    case Late(_, s, last) => v.last == Some(last) && s < last && !Rollover(last, s)
    case SilenceActive(_, _) => !v.silent
    case SilenceClear(_) => v.silent
    case Accepted(_, s, _, m, value, average, _) =>
      !v.silent && Follows(v.last, s) && m < MAX_METRICS && average == Average(LastEight(v.values[m] + [Stored(value)]))
    case HighActive(_, m, average) => m < MAX_METRICS && !v.high[m] && average > HIGH
    case HighClear(_, m, average) => m < MAX_METRICS && v.high[m] && average <= CLEAR
    case Reject(_, _) => true
    case ResourceLimit(_) => true
    case Restarted(_) => true
  }

  function Next(v: View, r: Record): (w: View)
    requires ViewOk(v)
    ensures ViewOk(w)
  {
    match r
    case SilenceActive(_, _) => v.(silent := true)
    case SilenceClear(_) => v.(silent := false)
    case Accepted(_, s, _, m, value, _, _) =>
      if m < MAX_METRICS then v.(last := Some(s), values := v.values[m := v.values[m] + [Stored(value)]]) else v
    case HighActive(_, m, _) => if m < MAX_METRICS then v.(high := v.high[m := true]) else v
    case HighClear(_, m, _) => if m < MAX_METRICS then v.(high := v.high[m := false]) else v
    case Restarted(_) => v.(last := None, values := NO_WINDOWS, high := NO_ALARMS)
    case Duplicate(_, _) => v
    case Late(_, _, _) => v
    case Reject(_, _) => v
    case ResourceLimit(_) => v
  }

  function Observe(v: View, r: Record, device: nat): (w: View)
    requires ViewOk(v)
    ensures ViewOk(w)
  {
    if DeviceOf(r) != Some(device) then v else Next(v, r).(legal := v.legal && Legal(v, r))
  }

  function Watch(out: seq<Record>, device: nat): (v: View)
    ensures ViewOk(v)
  {
    if out == [] then UNSEEN else Observe(Watch(out[..|out| - 1], device), out[|out| - 1], device)
  }

  lemma WatchSnoc(out: seq<Record>, r: Record, device: nat)
    ensures Watch(out + [r], device) == Observe(Watch(out, device), r, device)
  {
    assert (out + [r])[..|out|] == out;
  }

  /** The tracker and the monitor agree, except perhaps about the last sequence. */
  predicate Agrees(v: View, t: Tracker) {
    v.legal && ViewOk(v) && TrackerOk(t) && v.silent == t.silence && v.high == t.high &&
    forall m :: 0 <= m < MAX_METRICS ==> t.windows[m] == LastEight(v.values[m])
  }

  ghost predicate DeviceOk(core: Core, device: nat) {
    var v := Watch(core.out, device);
    match IndexOf(core.trackers, device)
    case None => v == UNSEEN
    case Some(i) => Agrees(v, core.trackers[i]) && v.last == Some(core.trackers[i].lastSeq)
  }

  ghost predicate TraceOk(core: Core) { CoreOk(core) && forall device: nat :: DeviceOk(core, device) }

  lemma LastEightStep(values: seq<int>, x: int)
    ensures LastEight(LastEight(values) + [x]) == LastEight(values + [x])
  {
  }

  // ----- one device at a time --------------------------------------------------------------------

  lemma {:induction false} IndexUnique(trackers: seq<Tracker>, i: nat)
    requires i < |trackers| && forall j, k :: 0 <= j < k < |trackers| ==> trackers[j].id != trackers[k].id
    ensures IndexOf(trackers, trackers[i].id) == Some(i)
  {
    var found := IndexOf(trackers, trackers[i].id);
  }

  /** Updating one tracker in place moves no index. */
  lemma {:induction false} IndexStable(a: seq<Tracker>, b: seq<Tracker>, id: nat)
    requires |a| == |b| && forall i :: 0 <= i < |a| ==> a[i].id == b[i].id
    ensures IndexOf(a, id) == IndexOf(b, id)
  {
    if a != [] { IndexStable(a[..|a| - 1], b[..|b| - 1], id); }
  }

  lemma IndexAppend(trackers: seq<Tracker>, t: Tracker, id: nat)
    ensures IndexOf(trackers + [t], id) ==
            if IndexOf(trackers, id).Some? then IndexOf(trackers, id)
            else if t.id == id then Some(|trackers|) else None
  {
    assert (trackers + [t])[..|trackers|] == trackers;
  }

  lemma OtherRecord(v: View, r: Record, device: nat)
    requires ViewOk(v) && DeviceOf(r) != Some(device)
    ensures Observe(v, r, device) == v
  {
  }

  lemma RecordsOfOthers(out: seq<Record>, records: seq<Record>, device: nat)
    requires forall i :: 0 <= i < |records| ==> DeviceOf(records[i]) != Some(device)
    ensures Watch(out + records, device) == Watch(out, device)
    decreases records
  {
    if records == [] {
      assert out + records == out;
    } else {
      hide *;
      var n := |records| - 1;
      RecordsOfOthers(out, records[..n], device);
      assert out + records == (out + records[..n]) + [records[n]];
      WatchSnoc(out + records[..n], records[n], device);
      OtherRecord(Watch(out, device), records[n], device);
    }
  }

  lemma ClearedView(out: seq<Record>, t: Tracker)
    requires Agrees(Watch(out, t.id), t)
    ensures Watch(out + if t.silence then [SilenceClear(t.id)] else [], t.id) == Watch(out, t.id).(silent := false)
  {
    if t.silence { WatchSnoc(out, SilenceClear(t.id), t.id); } else { assert out + [] == out; }
  }

  lemma EventView(out: seq<Record>, id: nat, event: Record)
    requires event.Accepted? && event.device == id && event.metric < MAX_METRICS
    requires var v := Watch(out, id);
             v.legal && !v.silent && Follows(v.last, event.sequence) &&
             event.average == Average(LastEight(v.values[event.metric] + [Stored(event.value)]))
    ensures var v := Watch(out, id);
            Watch(out + [event], id) ==
              v.(last := Some(event.sequence),
                 values := v.values[event.metric := v.values[event.metric] + [Stored(event.value)]])
  {
    WatchSnoc(out, event, id);
  }

  lemma AlarmView(out: seq<Record>, id: nat, m: nat, average: int)
    requires m < MAX_METRICS && Watch(out, id).legal
    ensures var v := Watch(out, id);
            var (on, alarms) := HighStep(v.high[m], id, m, average);
            Watch(out + alarms, id) == v.(high := v.high[m := on])
  {
    var v := Watch(out, id);
    var (on, alarms) := HighStep(v.high[m], id, m, average);
    if alarms != [] {
      WatchSnoc(out, alarms[0], id);
      assert alarms == [alarms[0]];
    } else {
      assert out + alarms == out && v.high[m := on] == v.high;
    }
  }

  /** What the monitor makes of the records of an accepted frame. */
  function Seen(v: View, f: Frame, on: bool): (w: View)
    requires ViewOk(v) && f.metric < MAX_METRICS
    ensures ViewOk(w)
  {
    v.(silent := false, last := Some(f.sequence), high := v.high[f.metric := on],
       values := v.values[f.metric := v.values[f.metric] + [Stored(Normalized(f))]])
  }

  lemma SeenAgrees(v: View, t: Tracker, f: Frame, window: seq<int>, on: bool)
    requires Agrees(v, t) && f.metric < MAX_METRICS
    requires window == LastEight(t.windows[f.metric] + [Stored(Normalized(f))])
    ensures Agrees(Seen(v, f, on), Tracker(t.id, false, f.sequence, f.timestamp,
                                           t.windows[f.metric := window], t.high[f.metric := on]))
  {
    LastEightStep(v.values[f.metric], Stored(Normalized(f)));
  }

  lemma RecordsSeen(out: seq<Record>, t: Tracker, f: Frame, event: Record, average: int, total: nat)
    requires Agrees(Watch(out, t.id), t) && Follows(Watch(out, t.id).last, f.sequence) && f.metric < MAX_METRICS
    requires average == Average(LastEight(t.windows[f.metric] + [Stored(Normalized(f))]))
    requires event == Accepted(t.id, f.sequence, f.timestamp, f.metric, Normalized(f), average, total)
    ensures var (on, alarms) := HighStep(t.high[f.metric], t.id, f.metric, average);
            Watch(out + (if t.silence then [SilenceClear(t.id)] else []) + [event] + alarms, t.id) ==
            Seen(Watch(out, t.id), f, on)
  {
    var v := Watch(out, t.id);
    LastEightStep(v.values[f.metric], Stored(Normalized(f)));
    var cleared := out + if t.silence then [SilenceClear(t.id)] else [];
    ClearedView(out, t);
    EventView(cleared, t.id, event);
    AlarmView(cleared + [event], t.id, f.metric, average);
  }

  /** An accepted frame, spelled out. */
  lemma AcceptedParts(core: Core, i: nat, f: Frame, window: seq<int>, average: int)
    requires i < |core.trackers| && TrackerOk(core.trackers[i]) && f.metric < MAX_METRICS
    requires window == LastEight(core.trackers[i].windows[f.metric] + [Stored(Normalized(f))])
    requires average == Average(window)
    ensures var t := core.trackers[i];
            var c := AcceptedBy(core, i, f);
            var (on, alarms) := HighStep(t.high[f.metric], t.id, f.metric, average);
            var event := Accepted(t.id, f.sequence, f.timestamp, f.metric, Normalized(f), average, core.accepted + 1);
            c.trackers == core.trackers[i := Tracker(t.id, false, f.sequence, f.timestamp,
                                                     t.windows[f.metric := window], t.high[f.metric := on])] &&
            c.out == core.out + (if t.silence then [SilenceClear(t.id)] else []) + [event] + alarms
  {
    var t := core.trackers[i];
    var cleared := if t.silence then [SilenceClear(t.id)] else [];
    var event := Accepted(t.id, f.sequence, f.timestamp, f.metric, Normalized(f), average, core.accepted + 1);
    var alarms := HighStep(t.high[f.metric], t.id, f.metric, average).1;
    assert core.out + (cleared + [event] + alarms) == core.out + cleared + [event] + alarms;
  }

  /** The records of an accepted frame, seen by its own device. */
  lemma AcceptedView(core: Core, i: nat, f: Frame)
    requires i < |core.trackers| && TrackerOk(core.trackers[i]) && f.metric < MAX_METRICS
    requires var v := Watch(core.out, core.trackers[i].id); Agrees(v, core.trackers[i]) && Follows(v.last, f.sequence)
    ensures var c := AcceptedBy(core, i, f);
            var v := Watch(c.out, c.trackers[i].id);
            c.trackers[i].id == core.trackers[i].id && Agrees(v, c.trackers[i]) && v.last == Some(f.sequence)
  {
    var t, m := core.trackers[i], f.metric;
    var window := LastEight(t.windows[m] + [Stored(Normalized(f))]);
    var average := Average(window);
    var on := HighStep(t.high[m], t.id, m, average).0;
    var event := Accepted(t.id, f.sequence, f.timestamp, m, Normalized(f), average, core.accepted + 1);
    AcceptedParts(core, i, f, window, average);
    RecordsSeen(core.out, t, f, event, average, core.accepted + 1);
    SeenAgrees(Watch(core.out, t.id), t, f, window, on);
    assert Seen(Watch(core.out, t.id), f, on).last == Some(f.sequence);
    hide *;
  }

  /** Records of other devices do not touch this one. */
  lemma AcceptedOthers(core: Core, i: nat, f: Frame, device: nat)
    requires i < |core.trackers| && TrackerOk(core.trackers[i]) && f.metric < MAX_METRICS
    requires device != core.trackers[i].id
    ensures Watch(AcceptedBy(core, i, f).out, device) == Watch(core.out, device)
  {
    var t := core.trackers[i];
    var c := AcceptedBy(core, i, f);
    var records := c.out[|core.out|..];
    assert c.out == core.out + records;
    RecordsOfOthers(core.out, records, device);
  }

  /** A step that touches one tracker and is legal for it. */
  lemma OneDeviceKeeps(core: Core, c: Core, i: nat)
    requires CoreOk(core) && i < |core.trackers| && |c.trackers| == |core.trackers|
    requires c.trackers == core.trackers[i := c.trackers[i]] && c.trackers[i].id == core.trackers[i].id
    requires var v := Watch(c.out, core.trackers[i].id);
             Agrees(v, c.trackers[i]) && v.last == Some(c.trackers[i].lastSeq)
    requires forall device: nat :: device != core.trackers[i].id ==>
               DeviceOk(core, device) && Watch(c.out, device) == Watch(core.out, device)
    ensures TraceOk(c)
  {
    IndexUnique(core.trackers, i);
    forall device: nat ensures DeviceOk(c, device) {
      IndexStable(core.trackers, c.trackers, device);
      if device != core.trackers[i].id { assert DeviceOk(core, device); }
    }
  }

  /** Accepting keeps the invariant when the sequence check has passed. */
  lemma AcceptedKeeps(core: Core, i: nat, f: Frame)
    requires CoreOk(core) && i < |core.trackers| && f.metric < MAX_METRICS
    requires var v := Watch(core.out, core.trackers[i].id); Agrees(v, core.trackers[i]) && Follows(v.last, f.sequence)
    requires forall device: nat :: device != core.trackers[i].id ==> DeviceOk(core, device)
    ensures TraceOk(AcceptedBy(core, i, f))
  {
    AcceptedView(core, i, f);
    forall device: nat | device != core.trackers[i].id
      ensures Watch(AcceptedBy(core, i, f).out, device) == Watch(core.out, device)
    {
      AcceptedOthers(core, i, f, device);
    }
    OneDeviceKeeps(core, AcceptedBy(core, i, f), i);
  }

  // ----- every step keeps the invariant ------------------------------------------------------------

  /** A record that names no tracked device's state: rejects and resource limits. */
  lemma NeutralKeeps(core: Core, c: Core, r: Record)
    requires TraceOk(core) && DeviceOf(r) == None && c.trackers == core.trackers && c.out == core.out + [r]
    ensures TraceOk(c)
  {
    forall device: nat ensures DeviceOk(c, device) {
      assert DeviceOk(core, device);
      WatchSnoc(core.out, r, device);
    }
  }

  lemma RestartView(out: seq<Record>, t: Tracker)
    requires Agrees(Watch(out, t.id), t)
    ensures var v := Watch(out + [Restarted(t.id)], t.id);
            v.last == None && Agrees(v, t.(windows := NO_WINDOWS, high := NO_ALARMS))
  {
    WatchSnoc(out, Restarted(t.id), t.id);
    assert LastEight([]) == [];
  }

  lemma RestartKeeps(core: Core, i: nat)
    requires CoreOk(core) && i < |core.trackers| && Agrees(Watch(core.out, core.trackers[i].id), core.trackers[i])
    ensures var c := Restart(core, i);
            CoreOk(c) && c.trackers[i].id == core.trackers[i].id &&
            Agrees(Watch(c.out, c.trackers[i].id), c.trackers[i]) && Watch(c.out, c.trackers[i].id).last == None &&
            forall device: nat :: device != core.trackers[i].id && DeviceOk(core, device) ==> DeviceOk(c, device)
  {
    var c, id := Restart(core, i), core.trackers[i].id;
    RestartView(core.out, core.trackers[i]);
    forall device: nat | device != id && DeviceOk(core, device) ensures DeviceOk(c, device) {
      IndexStable(core.trackers, c.trackers, device);
      WatchSnoc(core.out, Restarted(id), device);
    }
  }

  lemma TrackedKeeps(core: Core, i: nat, f: Frame)
    requires TraceOk(core) && i < |core.trackers| && core.trackers[i].id == f.device && f.metric < MAX_METRICS
    ensures TraceOk(OnTracked(core, i, f))
  {
    var last := core.trackers[i].lastSeq;
    IndexUnique(core.trackers, i);
    assert DeviceOk(core, f.device);
    if IsRestart(f) {
      RestartKeeps(core, i);
      AcceptedKeeps(Restart(core, i), i, f);
    } else if f.sequence == last {
      UnchangedKeeps(core, i, Duplicate(f.device, f.sequence));
    } else if !Rollover(last, f.sequence) && f.sequence < last {
      UnchangedKeeps(core, i, Late(f.device, f.sequence, last));
    } else {
      AcceptedKeeps(core, i, f);
    }
  }

  /** A duplicate or late report changes no state. */
  lemma UnchangedKeeps(core: Core, i: nat, r: Record)
    requires TraceOk(core) && i < |core.trackers| && (r.Duplicate? || r.Late?)
    requires DeviceOf(r) == Some(core.trackers[i].id)
    requires Legal(Watch(core.out, core.trackers[i].id), r)
    ensures TraceOk(Emit(core, r))
  {
    forall device: nat ensures DeviceOk(Emit(core, r), device) {
      assert DeviceOk(core, device);
      WatchSnoc(core.out, r, device);
    }
  }

  lemma NewKeeps(core: Core, f: Frame)
    requires TraceOk(core) && |core.trackers| < MAX_DEVICES
    requires IndexOf(core.trackers, f.device) == None && f.metric < MAX_METRICS
    ensures TraceOk(OnNew(core, f))
  {
    var c, i := core.(trackers := core.trackers + [Fresh(f.device)]), |core.trackers|;
    assert DeviceOk(core, f.device);
    forall device: nat | device != f.device ensures DeviceOk(c, device) {
      IndexAppend(core.trackers, Fresh(f.device), device);
      assert DeviceOk(core, device);
    }
    assert Agrees(UNSEEN, c.trackers[i]);
    if IsRestart(f) {
      RestartKeeps(c, i);
      AcceptedKeeps(Restart(c, i), i, f);
    } else {
      AcceptedKeeps(c, i, f);
    }
  }

  lemma {:induction false} SilenceKeeps(core: Core, watermark: nat, n: nat)
    requires TraceOk(core) && n <= |core.trackers|
    ensures TraceOk(SilenceUpTo(core, watermark, n))
  {
    if n > 0 {
      SilenceKeeps(core, watermark, n - 1);
      var c := SilenceUpTo(core, watermark, n - 1);
      var t := c.trackers[n - 1];
      if GoesSilent(t, watermark) { RaiseKeeps(c, n - 1, watermark); }
    }
  }

  lemma RaiseKeeps(core: Core, i: nat, watermark: nat)
    requires TraceOk(core) && i < |core.trackers| && !core.trackers[i].silence
    ensures var t := core.trackers[i];
            TraceOk(Emit(core.(trackers := core.trackers[i := t.(silence := true)]), SilenceActive(t.id, watermark)))
  {
    var t := core.trackers[i];
    var c := Emit(core.(trackers := core.trackers[i := t.(silence := true)]), SilenceActive(t.id, watermark));
    IndexUnique(core.trackers, i);
    forall device: nat ensures DeviceOk(c, device) {
      assert DeviceOk(core, device);
      IndexStable(core.trackers, c.trackers, device);
      WatchSnoc(core.out, SilenceActive(t.id, watermark), device);
    }
  }

  /** Every accepted frame extends a legal trace to a legal trace. */
  lemma AcceptKeeps(core: Core, f: Frame)
    requires TraceOk(core)
    ensures TraceOk(Accept(core, f))
  {
    if f.metric == WATERMARK {
      SilenceKeeps(core, f.timestamp, |core.trackers|);
    } else if f.metric >= MAX_METRICS {
      RejectKeeps(core, "metric");
    } else {
      match IndexOf(core.trackers, f.device)
      case Some(i) => TrackedKeeps(core, i, f);
      case None =>
        if |core.trackers| == MAX_DEVICES {
          NeutralKeeps(core, Emit(core, ResourceLimit(f.device)), ResourceLimit(f.device));
        } else {
          NewKeeps(core, f);
        }
    }
  }

  lemma RejectKeeps(core: Core, reason: string)
    requires TraceOk(core)
    ensures TraceOk(Rejected(core, reason))
  {
    NeutralKeeps(core, Rejected(core, reason), Reject(reason, core.rejected + 1));
  }

  lemma StartOk()
    ensures TraceOk(START)
  {
    forall device: nat ensures DeviceOk(START, device) {}
  }

  // ----- what a legal trace says -----------------------------------------------------------------------

  lemma {:induction false} LegalAt(out: seq<Record>, device: nat, i: nat)
    requires Watch(out, device).legal && i < |out| && DeviceOf(out[i]) == Some(device)
    ensures Legal(Watch(out[..i], device), out[i])
    ensures Watch(out[..i + 1], device).legal
    decreases |out|
  {
    var n := |out| - 1;
    if i == n {
      assert out[..i + 1] == out;
    } else {
      assert out[..n][..i] == out[..i] && out[..n][..i + 1] == out[..i + 1];
      LegalAt(out[..n], device, i);
    }
  }

  /** The view after each record, one record at a time. */
  lemma WatchAt(out: seq<Record>, device: nat, i: nat)
    requires i < |out|
    ensures Watch(out[..i + 1], device) == Observe(Watch(out[..i], device), out[i], device)
  {
    assert out[..i + 1] == out[..i] + [out[i]];
    WatchSnoc(out[..i], out[i], device);
  }

  lemma {:induction false} SilencePersists(out: seq<Record>, device: nat, i: nat, j: nat)
    requires i <= j <= |out| && Watch(out[..i], device).silent
    requires forall k :: i <= k < j ==> out[k] != SilenceClear(device)
    ensures Watch(out[..j], device).silent
    decreases j - i
  {
    if i < j {
      SilencePersists(out, device, i, j - 1);
      WatchAt(out, device, j - 1);
    }
  }

  /** Between two silence alarms of a device there is a clear. */
  lemma SilenceAlternates(out: seq<Record>, device: nat, i: nat, j: nat)
    requires Watch(out, device).legal && i < j < |out|
    requires out[i].SilenceActive? && out[i].device == device && out[j].SilenceActive? && out[j].device == device
    ensures exists k :: i < k < j && out[k] == SilenceClear(device)
  {
    LegalAt(out, device, j);
    WatchAt(out, device, i);
    if forall k :: i + 1 <= k < j ==> out[k] != SilenceClear(device) {
      SilencePersists(out, device, i + 1, j);
    }
  }

  lemma {:induction false} QuietPersists(out: seq<Record>, device: nat, i: nat, j: nat)
    requires i <= j <= |out| && !Watch(out[..i], device).silent
    requires forall k :: i <= k < j ==> !(out[k].SilenceActive? && out[k].device == device)
    ensures !Watch(out[..j], device).silent
    decreases j - i
  {
    if i < j {
      QuietPersists(out, device, i, j - 1);
      WatchAt(out, device, j - 1);
    }
  }

  /** And between two clears, or before the first, there is an alarm. */
  lemma ClearsAlternate(out: seq<Record>, device: nat, i: nat, j: nat)
    requires Watch(out, device).legal && i <= j < |out| && out[j] == SilenceClear(device)
    requires i == 0 || out[i - 1] == SilenceClear(device)
    ensures exists k :: i <= k < j && out[k].SilenceActive? && out[k].device == device
  {
    LegalAt(out, device, j);
    if i > 0 { WatchAt(out, device, i - 1); }
    if forall k :: i <= k < j ==> !(out[k].SilenceActive? && out[k].device == device) {
      QuietPersists(out, device, i, j);
    }
  }

  /** A restart, or the given end of a high alarm of metric `m`. */
  predicate EndsHigh(r: Record, device: nat, m: nat, on: bool) {
    r == Restarted(device) ||
    (if on then r.HighActive? && r.device == device && r.metric == m
     else r.HighClear? && r.device == device && r.metric == m)
  }

  lemma {:induction false} HighPersists(out: seq<Record>, device: nat, m: nat, on: bool, i: nat, j: nat)
    requires i <= j <= |out| && m < MAX_METRICS && Watch(out[..i], device).high[m] != on
    requires forall k :: i <= k < j ==> !EndsHigh(out[k], device, m, on)
    ensures Watch(out[..j], device).high[m] != on
    decreases j - i
  {
    if i < j {
      HighPersists(out, device, m, on, i, j - 1);
      WatchAt(out, device, j - 1);
      HighStays(Watch(out[..j - 1], device), out[j - 1], device, m, on);
    }
  }

  lemma HighStays(v: View, r: Record, device: nat, m: nat, on: bool)
    requires ViewOk(v) && m < MAX_METRICS && v.high[m] != on && !EndsHigh(r, device, m, on)
    ensures Observe(v, r, device).high[m] != on
  {
  }

  /** Between restarts the high alarms of a metric and their clears alternate. */
  lemma HighAlternates(out: seq<Record>, device: nat, m: nat, on: bool, i: nat, j: nat)
    requires Watch(out, device).legal && i < j < |out| && m < MAX_METRICS
    requires EndsHigh(out[i], device, m, on) && !out[i].Restarted?
    requires EndsHigh(out[j], device, m, on) && !out[j].Restarted?
    ensures exists k :: i < k < j && EndsHigh(out[k], device, m, !on)
  {
    LegalAt(out, device, i);
    LegalAt(out, device, j);
    WatchAt(out, device, i);
    if forall k :: i + 1 <= k < j ==> !EndsHigh(out[k], device, m, !on) {
      HighPersists(out, device, m, !on, i + 1, j);
    }
  }

  lemma {:induction false} LastPersists(out: seq<Record>, device: nat, i: nat, j: nat)
    requires i <= j <= |out|
    requires forall k :: i <= k < j && DeviceOf(out[k]) == Some(device) ==> !out[k].Accepted? && !out[k].Restarted?
    ensures Watch(out[..j], device).last == Watch(out[..i], device).last
    decreases j - i
  {
    if i < j {
      LastPersists(out, device, i, j - 1);
      WatchAt(out, device, j - 1);
    }
  }

  /** Consecutive accepted sequences of a device increase or roll over, unless it restarted. */
  lemma SequencesAdvance(out: seq<Record>, device: nat, i: nat, j: nat)
    requires Watch(out, device).legal && i < j < |out|
    requires out[i].Accepted? && out[i].device == device && out[j].Accepted? && out[j].device == device
    requires forall k :: i < k < j && DeviceOf(out[k]) == Some(device) ==> !out[k].Accepted? && !out[k].Restarted?
    ensures out[j].sequence > out[i].sequence || Rollover(out[i].sequence, out[j].sequence)
  {
    LegalAt(out, device, i);
    LegalAt(out, device, j);
    WatchAt(out, device, i);
    LastPersists(out, device, i + 1, j);
  }
}
