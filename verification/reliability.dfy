/** Per-probe connection reliability (entity.py,
    `TraegerProbeReliabilityManager`): a capped history of connection
    events, failure counters, a grace period during which a disconnected
    probe still shows as available, a plausibility filter for temperature
    readings and a 0-100 connection quality score.

    Every probe's record is created lazily with the values of `Fresh`;
    reading a probe that was never updated therefore sees `Fresh`. */
module Reliability {
  import opened Optional

  type ProbeId = string

  /** One entry of the connection history. */
  datatype Event = Event(time: int, connected: bool, temperature: Option<int>)

  datatype ProbeRecord = ProbeRecord(
    lastConnected: int,
    lastDisconnected: int,
    connectionFailures: nat,
    consecutiveFailures: nat,
    targetBackup: Option<int>,
    history: seq<Event>,
    graceUntil: int,
    lastValidTemp: Option<int>,
    tempValidationFailures: nat)

  type Manager = map<ProbeId, ProbeRecord>

  const HistoryCap: nat := 10
  const MinPlausibleTemp: int := -10
  const MaxPlausibleTemp: int := 600
  const MaxTempJump: int := 100

  /** The record a probe starts with. */
  const Fresh: ProbeRecord := ProbeRecord(0, 0, 0, 0, None, [], 0, None, 0)

  /** `get_probe_state`: the probe's record, or a fresh one. */
  function RecordOf(m: Manager, id: ProbeId): ProbeRecord
  {
    if id in m then m[id] else Fresh
  }

  /** Appends `e` and drops the oldest entry when that makes the history
      longer than the cap. */
  function AppendHistory(h: seq<Event>, e: Event): (h': seq<Event>)
    ensures |h'| > 0 && h'[|h'| - 1] == e
    ensures |h| < HistoryCap ==> h' == h + [e]
    ensures |h| >= HistoryCap ==> h' == h[1..] + [e]
    ensures |h| <= HistoryCap ==> |h'| <= HistoryCap
  {
    if |h| + 1 > HistoryCap then
      assert (h + [e])[1..] == h[1..] + [e];
      (h + [e])[1..]
    else h + [e]
  }

  /** `_is_valid_temperature`: present, within [-10, 600], and within 100
      of the last accepted reading when there is one. */
  function IsValidTemperature(t: Option<int>, last: Option<int>): (ok: bool)
    ensures ok ==> t.Some? && MinPlausibleTemp <= t.value <= MaxPlausibleTemp
    ensures ok && last.Some? ==> last.value - MaxTempJump <= t.value <= last.value + MaxTempJump
    ensures t.Some? && MinPlausibleTemp <= t.value <= MaxPlausibleTemp && last.None? ==> ok
    ensures (&& t.Some? && MinPlausibleTemp <= t.value <= MaxPlausibleTemp && last.Some?
             && last.value - MaxTempJump <= t.value <= last.value + MaxTempJump) ==> ok
  {
    match t
    case None => false
    case Some(v) =>
      if v < MinPlausibleTemp || v > MaxPlausibleTemp then false
      else
        match last
        case None => true
        case Some(l) =>
          var change := if v >= l then v - l else l - v;
          change <= MaxTempJump
  }

  /** Grace period granted by the `n`-th consecutive disconnect. */
  function GracePeriod(n: nat): nat
  {
    if 30 * n < 120 then 30 * n else 120
  }

  /** `update_probe_connection` on one record. */
  function UpdateRecord(r: ProbeRecord, connected: bool, temp: Option<int>, now: int): (r': ProbeRecord)
    ensures r'.history == AppendHistory(r.history, Event(now, connected, temp))
    ensures r'.targetBackup == r.targetBackup
    // a connected update
    ensures connected ==>
      && r'.lastConnected == now
      && r'.lastDisconnected == r.lastDisconnected
      && r'.connectionFailures == r.connectionFailures
      && r'.graceUntil == r.graceUntil
      && (r'.consecutiveFailures == 0 <==>
            r.lastConnected == 0 || now - r.lastDisconnected > 5 || r.consecutiveFailures == 0)
      && (r'.consecutiveFailures != 0 ==> r'.consecutiveFailures == r.consecutiveFailures)
    ensures connected && temp.None? ==>
      r'.lastValidTemp == r.lastValidTemp && r'.tempValidationFailures == r.tempValidationFailures
    ensures connected && temp.Some? && IsValidTemperature(temp, r.lastValidTemp) ==>
      r'.lastValidTemp == temp && r'.tempValidationFailures == 0
    ensures connected && temp.Some? && !IsValidTemperature(temp, r.lastValidTemp) ==>
      r'.lastValidTemp == r.lastValidTemp && r'.tempValidationFailures == r.tempValidationFailures + 1
    // a disconnected update
    ensures !connected ==>
      && r'.lastDisconnected == now
      && r'.lastConnected == r.lastConnected
      && r'.connectionFailures == r.connectionFailures + 1
      && r'.consecutiveFailures == r.consecutiveFailures + 1
      && r'.lastValidTemp == r.lastValidTemp
      && r'.tempValidationFailures == r.tempValidationFailures
      && (r'.consecutiveFailures <= 3 ==> r'.graceUntil == now + 30 * r'.consecutiveFailures)
      && (r'.consecutiveFailures > 3 ==> r'.graceUntil == r.graceUntil)
  {
    var r1 := r.(history := AppendHistory(r.history, Event(now, connected, temp)));
    if connected then
      var consecutive := if r1.lastConnected == 0 || now - r1.lastDisconnected > 5 then 0 else r1.consecutiveFailures;
      var r2 := r1.(consecutiveFailures := consecutive, lastConnected := now);
      match temp
      case None => r2
      case Some(_) =>
        if IsValidTemperature(temp, r2.lastValidTemp) then r2.(lastValidTemp := temp, tempValidationFailures := 0)
        else r2.(tempValidationFailures := r2.tempValidationFailures + 1)
    else
      var n := r1.consecutiveFailures + 1;
      var r2 := r1.(lastDisconnected := now, consecutiveFailures := n, connectionFailures := r1.connectionFailures + 1);
      if n <= 3 then r2.(graceUntil := now + GracePeriod(n)) else r2
  }

  /** `update_probe_connection`: only the updated probe's record changes. */
  function Update(m: Manager, id: ProbeId, connected: bool, temp: Option<int>, now: int): (m': Manager)
    ensures m'.Keys == m.Keys + {id}
    ensures RecordOf(m', id) == UpdateRecord(RecordOf(m, id), connected, temp, now)
    ensures forall other :: other != id ==> RecordOf(m', other) == RecordOf(m, other)
  {
    m[id := UpdateRecord(RecordOf(m, id), connected, temp, now)]
  }

  /** `should_show_available`: connected, or disconnected but within the
      grace period. */
  function ShouldShowAvailable(m: Manager, id: ProbeId, rawConnected: bool, now: int): (r: bool)
    ensures r <==> rawConnected || now < RecordOf(m, id).graceUntil
  {
    if rawConnected then true
    else now < RecordOf(m, id).graceUntil
  }

  /** `backup_target_temperature`: remembers a positive target; zero or a
      negative value leaves the manager untouched. */
  function BackupTarget(m: Manager, id: ProbeId, target: int): (m': Manager)
    ensures target > 0 ==> RecordOf(m', id) == RecordOf(m, id).(targetBackup := Some(target))
    ensures target <= 0 ==> m' == m
    ensures forall other :: other != id ==> RecordOf(m', other) == RecordOf(m, other)
  {
    if target > 0 then m[id := RecordOf(m, id).(targetBackup := Some(target))] else m
  }

  /** `get_backup_target_temperature`. */
  function GetBackupTarget(m: Manager, id: ProbeId): Option<int>
  {
    RecordOf(m, id).targetBackup
  }

  /** The backup is a last-value cache of positive targets. */
  lemma BackupRoundTrip(m: Manager, id: ProbeId, target: int, other: ProbeId)
    ensures target > 0 ==> GetBackupTarget(BackupTarget(m, id, target), id) == Some(target)
    ensures target <= 0 ==> GetBackupTarget(BackupTarget(m, id, target), id) == GetBackupTarget(m, id)
    ensures other != id ==> GetBackupTarget(BackupTarget(m, id, target), other) == GetBackupTarget(m, other)
    ensures GetBackupTarget(map[], id) == None
  {
  }

  // ---------------------------------------------------------------------
  // Connection quality

  function CountConnected(s: seq<Event>): (n: nat)
    ensures n <= |s|
  {
    if |s| == 0 then 0
    else (if s[0].connected then 1 else 0) + CountConnected(s[1..])
  }

  /** The last five history entries (fewer when the history is shorter). */
  function Recent(h: seq<Event>): (s: seq<Event>)
    ensures |s| == if |h| < 5 then |h| else 5
  {
    if |h| <= 5 then h else h[|h| - 5..]
  }

  function Clamp(x: int, lo: int, hi: int): int
    requires lo <= hi
  {
    if x < lo then lo else if x > hi then hi else x
  }

  /** `get_connection_quality`. The source computes
      `int(connected / len * 100 - penalty)`; for the denominators 1 to 5
      that occur here the ratio times 100 is exact or truncates to the same
      integer, and every negative value clamps to 0 either way. */
  function Quality(r: ProbeRecord): (q: int)
    ensures 0 <= q <= 100
    ensures |r.history| < 2 ==> q == 50
  {
    if |r.history| < 2 then 50
    else
      var recent := Recent(r.history);
      var ratio := CountConnected(recent) * 100 / |recent|;
      var penalty := if r.consecutiveFailures * 20 < 80 then r.consecutiveFailures * 20 else 80;
      Clamp(ratio - penalty, 0, 100)
  }

  lemma {:induction false} CountAllConnected(s: seq<Event>)
    requires forall i :: 0 <= i < |s| ==> s[i].connected
    ensures CountConnected(s) == |s|
  {
    if |s| > 0 {
      CountAllConnected(s[1..]);
    }
  }

  /** A probe whose recent history is all connected and that has no
      outstanding failure has full quality. */
  lemma QualityExtremes(r: ProbeRecord)
    requires |r.history| >= 2
    ensures ((forall i :: 0 <= i < |Recent(r.history)| ==> Recent(r.history)[i].connected)
             && r.consecutiveFailures == 0) ==> Quality(r) == 100
  {
    var recent := Recent(r.history);
    if (forall i :: 0 <= i < |recent| ==> recent[i].connected) && r.consecutiveFailures == 0 {
      CountAllConnected(recent);
      QualityFull(r);
    }
  }

  lemma QualityFull(r: ProbeRecord)
    requires |r.history| >= 2 && r.consecutiveFailures == 0
    requires CountConnected(Recent(r.history)) == |Recent(r.history)|
    ensures Quality(r) == 100
  {
    var n := |Recent(r.history)|;
    assert 2 <= n <= 5;
    assert n * 100 / n == 100 by {
      if n == 2 {} else if n == 3 {} else if n == 4 {} else {}
    }
  }

  /** More consecutive failures never raise the quality of the same
      history, and four or more leave at most 20. */
  lemma QualityPenalised(r: ProbeRecord, failures: nat)
    requires |r.history| >= 2
    ensures failures >= r.consecutiveFailures ==> Quality(r.(consecutiveFailures := failures)) <= Quality(r)
    ensures failures >= 4 ==> Quality(r.(consecutiveFailures := failures)) <= 20
  {
    var recent := Recent(r.history);
    var ratio := CountConnected(recent) * 100 / |recent|;
    assert ratio <= 100 by {
      assert CountConnected(recent) * 100 <= |recent| * 100;
    }
  }

  /** Four connected events out of five with one outstanding failure give
      a quality of 80 - 20 = 60. */
  lemma QualityExample(t: int)
    ensures var h := [Event(t, true, None), Event(t, true, None), Event(t, false, None),
                      Event(t, true, None), Event(t, true, None)];
      Quality(Fresh.(history := h, consecutiveFailures := 1)) == 60
  {
    var h := [Event(t, true, None), Event(t, true, None), Event(t, false, None),
              Event(t, true, None), Event(t, true, None)];
    assert CountConnected(h[4..]) == 1;
    assert CountConnected(h[3..]) == 2;
    assert CountConnected(h[2..]) == 2;
    assert CountConnected(h[1..]) == 3;
  }

  // ---------------------------------------------------------------------
  // Invariants of a probe record over its lifetime

  /** Records built by updates at non-decreasing times: the history stays
      within the cap and the grace period never reaches past 90 seconds
      after the latest disconnect. */
  ghost predicate Healthy(r: ProbeRecord)
  {
    && |r.history| <= HistoryCap
    && r.graceUntil <= r.lastDisconnected + 90
  }

  lemma UpdatePreservesHealthy(r: ProbeRecord, connected: bool, temp: Option<int>, now: int)
    requires Healthy(r)
    requires now >= r.lastDisconnected
    ensures Healthy(UpdateRecord(r, connected, temp, now))
  {
  }

  /** The grace period follows the consecutive-disconnect count: 30 s after
      the first, 60 s after the second, 90 s after the third, and no new
      grace after the fourth. */
  lemma {:induction false} GraceSchedule(t1: int, t2: int, t3: int, t4: int)
    ensures var r1 := UpdateRecord(Fresh, false, None, t1);
      var r2 := UpdateRecord(r1, false, None, t2);
      var r3 := UpdateRecord(r2, false, None, t3);
      var r4 := UpdateRecord(r3, false, None, t4);
      && r1.graceUntil == t1 + 30
      && r2.graceUntil == t2 + 60
      && r3.graceUntil == t3 + 90
      && r4.graceUntil == t3 + 90
      && r4.consecutiveFailures == 4 && r4.connectionFailures == 4
  {
  }
}
