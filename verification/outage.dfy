/** Pellet-outage detection (binary_sensor.py, `PelletOutageSensor`).

    The detector keeps the grill readings of the last ten minutes while the
    grill is actively cooking at a high enough set point, and raises a
    latched flag when the grill has fallen well below its target and well
    below its recent peak, with readings old enough to show the drop is
    sustained. The flag clears when monitoring stops or a new cook starts
    (the target moves by more than 25 °F / 14 °C). */
module Outage {
  import opened Optional
  import opened Consts
  import opened Telemetry

  /** One history entry: the time of the refresh, the grill temperature and
      the grill's set point at that moment. */
  datatype Sample = Sample(time: int, temp: int, target: int)

  /** What the sensor keeps between refreshes. */
  datatype Detector = Detector(history: seq<Sample>, detected: bool)

  /** The user's options; an absent option takes its default. The drop is
      entered in °F. */
  datatype Options = Options(tempDrop: Option<int>, timeThreshold: Option<int>)

  /** Seconds of history kept. */
  const HistoryWindow: int := 600

  const Initial: Detector := Detector([], false)

  // ---------------------------------------------------------------------
  // Thresholds

  /** Python's `int(a / b)` for a positive divisor: division truncated
      toward zero (Dafny's `/` rounds toward negative infinity). */
  function TruncDiv(a: int, b: int): (q: int)
    requires b > 0
    ensures a >= 0 ==> 0 <= a - b * q < b
    ensures a < 0 ==> -b < a - b * q <= 0
  {
    if a >= 0 then a / b else -((-a) / b)
  }

  /** `_get_temp_drop_threshold` as written: a configured drop is converted
      to Celsius with the formula for a temperature, not for a difference. */
  function DropThresholdAsWritten(config: Option<int>, u: Unit): (t: int)
    ensures config.None? ==> t == (if u == Celsius then OutageDropC else OutageDropF)
    ensures config.Some? && u == Fahrenheit ==> t == config.value
    // a configured Celsius value is offset by 32 °F before scaling, so any
    // drop under 34 °F gives a threshold of zero or less
    ensures config.Some? && u == Celsius && config.value >= 32 ==>
      0 <= (config.value - 32) * 5 - 9 * t < 9
    ensures config.Some? && u == Celsius && config.value < 32 ==>
      -9 < (config.value - 32) * 5 - 9 * t <= 0
    ensures config.Some? && u == Celsius && config.value < 34 ==> t <= 0
  {
    match config
    case Some(x) => if u == Celsius then TruncDiv((x - 32) * 5, 9) else x
    case None => if u == Celsius then OutageDropC else OutageDropF
  }

  /** The drop threshold with the configured °F difference scaled by 5/9,
      as the Celsius default (28 for 50 °F) shows was meant. */
  function DropThreshold(config: Option<int>, u: Unit): (t: int)
    ensures config.None? ==> t == (if u == Celsius then OutageDropC else OutageDropF)
    ensures config.Some? && u == Celsius && config.value >= 0 ==> 0 <= config.value * 5 - 9 * t < 9
    ensures config.Some? && u == Celsius && config.value < 0 ==> -9 < config.value * 5 - 9 * t <= 0
    ensures config.Some? && 20 <= config.value <= 100 ==> 11 <= t <= 100
    ensures config.Some? && u == Fahrenheit ==> t == config.value
  {
    match config
    case Some(x) => if u == Celsius then TruncDiv(x * 5, 9) else x
    case None => if u == Celsius then OutageDropC else OutageDropF
  }

  /** `_get_time_threshold`. */
  function TimeThreshold(o: Options): (t: int)
    ensures o.timeThreshold.None? ==> t == OutageTimeThreshold
    ensures o.timeThreshold.Some? ==> t == o.timeThreshold.value
  {
    o.timeThreshold.GetOr(OutageTimeThreshold)
  }

  // ---------------------------------------------------------------------
  // When to monitor

  /** The cooking modes: igniting, preheating, manual and custom cook. */
  predicate IsActiveMode(mode: int)
  {
    mode == ModeCustomCook || mode == ModeManualCook || mode == ModePreheating || mode == ModeIgniting
  }

  function MinTarget(u: Unit): int
  {
    if u == Celsius then OutageMinTargetC else OutageMinTargetF
  }

  /** `_should_monitor_pellet_outage`: a status is present, the grill is in
      a cooking mode, and its set point reaches the unit's floor. */
  function ShouldMonitor(status: Option<GrillStatus>, u: Unit): (r: bool)
    ensures r <==>
      && status.Some?
      && ModeIgniting <= status.value.systemStatus <= ModeCustomCook
      && status.value.setTemp >= (if u == Celsius then OutageMinTargetC else OutageMinTargetF)
  {
    status.Some? && IsActiveMode(status.value.systemStatus) && status.value.setTemp >= MinTarget(u)
  }

  // ---------------------------------------------------------------------
  // History

  /** The samples strictly newer than `cutoff`, in order. */
  function KeepAfter(h: seq<Sample>, cutoff: int): (r: seq<Sample>)
    ensures |r| <= |h|
    ensures forall i :: 0 <= i < |r| ==> r[i].time > cutoff
  {
    if |h| == 0 then []
    else (if h[0].time > cutoff then [h[0]] else []) + KeepAfter(h[1..], cutoff)
  }

  lemma {:induction false} KeepAfterAppend(a: seq<Sample>, b: seq<Sample>, cutoff: int)
    ensures KeepAfter(a + b, cutoff) == KeepAfter(a, cutoff) + KeepAfter(b, cutoff)
  {
    if |a| == 0 {
      assert a + b == b;
    } else {
      assert (a + b)[0] == a[0];
      assert (a + b)[1..] == a[1..] + b;
      KeepAfterAppend(a[1..], b, cutoff);
    }
  }

  /** Only samples of the history are kept. */
  lemma {:induction false} KeepAfterSubset(h: seq<Sample>, cutoff: int)
    ensures forall s :: s in KeepAfter(h, cutoff) ==> s in h
  {
    if |h| > 0 {
      KeepAfterSubset(h[1..], cutoff);
    }
  }

  /** Every sample newer than the cutoff is kept. */
  lemma {:induction false} KeepAfterKeeps(h: seq<Sample>, cutoff: int, s: Sample)
    requires s in h && s.time > cutoff
    ensures s in KeepAfter(h, cutoff)
  {
    if h[0] != s {
      assert s in h[1..];
      KeepAfterKeeps(h[1..], cutoff, s);
    }
  }

  /** `_update_temperature_history`: cleared when not monitoring; otherwise
      the current reading is appended and samples ten minutes old or older
      are dropped. */
  function UpdateHistory(h: seq<Sample>, status: Option<GrillStatus>, u: Unit, now: int): (h': seq<Sample>)
    ensures !ShouldMonitor(status, u) ==> h' == []
    ensures ShouldMonitor(status, u) ==>
      |h'| > 0 && h'[|h'| - 1] == Sample(now, status.value.grill, status.value.setTemp)
    ensures forall i :: 0 <= i < |h'| ==> h'[i].time > now - HistoryWindow
    ensures forall i :: 0 <= i < |h'| - 1 ==> h'[i] in h
  {
    if !ShouldMonitor(status, u) then []
    else
      var cur := Sample(now, status.value.grill, status.value.setTemp);
      var cutoff := now - HistoryWindow;
      KeepAfterAppend(h, [cur], cutoff);
      assert KeepAfter([cur], cutoff) == [cur];
      var kept := KeepAfter(h, cutoff);
      KeepAfterSubset(h, cutoff);
      assert forall i :: 0 <= i < |kept| ==> kept[i] in kept;
      KeepAfter(h + [cur], cutoff)
  }

  /** Nothing recent is lost: every sample of the old history newer than
      ten minutes survives the update while monitoring. */
  lemma UpdateKeepsRecent(h: seq<Sample>, status: Option<GrillStatus>, u: Unit, now: int, s: Sample)
    requires ShouldMonitor(status, u)
    requires s in h && s.time > now - HistoryWindow
    ensures s in UpdateHistory(h, status, u, now)
  {
    var cur := Sample(now, status.value.grill, status.value.setTemp);
    KeepAfterKeeps(h, now - HistoryWindow, s);
    KeepAfterAppend(h, [cur], now - HistoryWindow);
  }

  /** Samples in time order. */
  ghost predicate Ordered(h: seq<Sample>)
  {
    forall i, j :: 0 <= i < j < |h| ==> h[i].time <= h[j].time
  }

  /** A bound every sample meets is met by every kept sample. */
  lemma {:induction false} KeepAfterBound(h: seq<Sample>, cutoff: int, lo: int)
    requires forall i :: 0 <= i < |h| ==> lo <= h[i].time
    ensures forall i :: 0 <= i < |KeepAfter(h, cutoff)| ==> lo <= KeepAfter(h, cutoff)[i].time
  {
    if |h| > 0 {
      var tail := h[1..];
      assert forall i :: 0 <= i < |tail| ==> tail[i] == h[i + 1];
      KeepAfterBound(tail, cutoff, lo);
      var rest := KeepAfter(tail, cutoff);
      if h[0].time > cutoff {
        var r := [h[0]] + rest;
        assert KeepAfter(h, cutoff) == r;
        assert forall i :: 1 <= i < |r| ==> r[i] == rest[i - 1];
      } else {
        assert KeepAfter(h, cutoff) == rest;
      }
    }
  }

  lemma {:induction false} KeepAfterOrdered(h: seq<Sample>, cutoff: int)
    requires Ordered(h)
    ensures Ordered(KeepAfter(h, cutoff))
  {
    if |h| > 0 {
      var tail := h[1..];
      assert forall i :: 0 <= i < |tail| ==> tail[i] == h[i + 1];
      assert Ordered(tail);
      var rest := KeepAfter(tail, cutoff);
      KeepAfterOrdered(tail, cutoff);
      if h[0].time > cutoff {
        var r := [h[0]] + rest;
        assert KeepAfter(h, cutoff) == r;
        assert forall i :: 0 <= i < |tail| ==> h[0].time <= tail[i].time;
        KeepAfterBound(tail, cutoff, h[0].time);
        assert forall i :: 1 <= i < |r| ==> r[i] == rest[i - 1];
        forall i, j | 0 <= i < j < |r|
          ensures r[i].time <= r[j].time
        {
          if i == 0 {
            assert h[0].time <= rest[j - 1].time;
          }
        }
      } else {
        assert KeepAfter(h, cutoff) == rest;
      }
    }
  }

  /** With a clock that does not run backwards, the history stays in time
      order. */
  lemma HistoryStaysOrdered(h: seq<Sample>, status: Option<GrillStatus>, u: Unit, now: int)
    requires Ordered(h)
    requires forall i :: 0 <= i < |h| ==> h[i].time <= now
    ensures Ordered(UpdateHistory(h, status, u, now))
  {
    if ShouldMonitor(status, u) {
      var h2 := h + [Sample(now, status.value.grill, status.value.setTemp)];
      assert Ordered(h2);
      KeepAfterOrdered(h2, now - HistoryWindow);
    }
  }

  // ---------------------------------------------------------------------
  // Detection

  /** Where the newest-first scan of `_detect_pellet_outage` stops: just
      after the newest sample older than `since`. */
  function ScanStart(h: seq<Sample>, since: int): (k: nat)
    ensures k <= |h|
    ensures forall i :: k <= i < |h| ==> h[i].time >= since
    ensures k > 0 ==> h[k - 1].time < since
    decreases |h|
  {
    if |h| == 0 || h[|h| - 1].time < since then |h|
    else ScanStart(h[..|h| - 1], since)
  }

  /** The recent peak: the highest temperature seen scanning from the newest
      sample back until one older than `since`, seeded with `cur`. */
  function Peak(h: seq<Sample>, since: int, cur: int): (m: int)
    ensures m >= cur
    ensures forall i :: ScanStart(h, since) <= i < |h| ==> h[i].temp <= m
    ensures m == cur || exists i :: ScanStart(h, since) <= i < |h| && h[i].temp == m
    decreases |h|
  {
    if |h| == 0 || h[|h| - 1].time < since then cur
    else
      var init := h[..|h| - 1];
      var m := Peak(init, since, cur);
      assert forall i :: 0 <= i < |init| ==> init[i] == h[i];
      if h[|h| - 1].temp > m then h[|h| - 1].temp else m
  }

  /** Python's `any(timestamp <= since ...)`. */
  function SomeAtOrBefore(h: seq<Sample>, since: int): (r: bool)
    ensures r <==> exists i :: 0 <= i < |h| && h[i].time <= since
  {
    if |h| == 0 then false
    else h[0].time <= since || SomeAtOrBefore(h[1..], since)
  }

  /** `_detect_pellet_outage` with the given thresholds: at least two
      samples, the newest below its target by more than `drop`, some sample
      of the scanned recent past above the newest by more than `drop` (any
      negative `drop` passes, the newest itself seeding the peak), and some
      sample at least `window` seconds old. */
  function Detect(h: seq<Sample>, drop: int, window: int, now: int): (r: bool)
    ensures r <==>
      && |h| >= 2
      && h[|h| - 1].target - h[|h| - 1].temp > drop
      && (drop < 0 || exists i :: ScanStart(h, now - window) <= i < |h| && h[i].temp - h[|h| - 1].temp > drop)
      && (exists i :: 0 <= i < |h| && h[i].time <= now - window)
  {
    if |h| < 2 then false
    else
      var last := h[|h| - 1];
      var since := now - window;
      var peak := Peak(h, since, last.temp);
      && last.target - last.temp > drop
      && peak - last.temp > drop
      && SomeAtOrBefore(h, since)
  }

  // ---------------------------------------------------------------------
  // Reset

  function Abs(x: int): nat
  {
    if x < 0 then -x else x
  }

  function TargetChangeThreshold(u: Unit): int
  {
    if u == Celsius then 14 else 25
  }

  /** The loop over earlier targets that stops at the first one far from
      `target`. */
  function AnyFar(prev: seq<Sample>, target: int, limit: int): (r: bool)
    ensures r <==> exists i :: 0 <= i < |prev| && Abs(target - prev[i].target) > limit
  {
    if |prev| == 0 then false
    else Abs(target - prev[0].target) > limit || AnyFar(prev[1..], target, limit)
  }

  /** A new cook started: some earlier sample's target differs from the
      newest one's by more than the unit's threshold. */
  function TargetJumped(h: seq<Sample>, u: Unit): bool
  {
    |h| >= 2 && AnyFar(h[..|h| - 1], h[|h| - 1].target, TargetChangeThreshold(u))
  }

  /** `_reset_pellet_outage`: the flag after the reset step. It only ever
      clears the flag: when monitoring stops, or when the target moved. */
  function Reset(detected: bool, h: seq<Sample>, monitoring: bool, u: Unit): (r: bool)
    ensures r ==> detected
    ensures r <==> (detected && monitoring &&
      !(|h| >= 2 && exists i :: 0 <= i < |h| - 1 && Abs(h[|h| - 1].target - h[i].target) > TargetChangeThreshold(u)))
  {
    if !monitoring then false
    else if TargetJumped(h, u) then
      var prev := h[..|h| - 1];
      assert forall i :: 0 <= i < |prev| ==> prev[i] == h[i];
      false
    else
      var prev := if |h| >= 2 then h[..|h| - 1] else [];
      assert forall i :: 0 <= i < |prev| ==> prev[i] == h[i];
      detected
  }

  // ---------------------------------------------------------------------
  // One refresh

  /** One refresh with the given drop threshold and time window: update the
      history, apply the reset, then run detection only when the flag is
      down and the grill is monitored. */
  function RefreshWith(d: Detector, status: Option<GrillStatus>, u: Unit, drop: int, window: int, now: int): (d': Detector)
    ensures d'.history == UpdateHistory(d.history, status, u, now)
    ensures !ShouldMonitor(status, u) ==> d' == Initial
    ensures d'.detected ==> ShouldMonitor(status, u)
    // a raised flag is latched until the cook stops or its target moves
    ensures d.detected && ShouldMonitor(status, u) && !TargetJumped(d'.history, u) ==> d'.detected
    // otherwise the flag is exactly what detection finds now
    ensures ShouldMonitor(status, u) && (!d.detected || TargetJumped(d'.history, u)) ==>
      d'.detected == Detect(d'.history, drop, window, now)
  {
    var h := UpdateHistory(d.history, status, u, now);
    var monitoring := ShouldMonitor(status, u);
    var kept := Reset(d.detected, h, monitoring, u);
    var detected :=
      if !kept && monitoring then Detect(h, drop, window, now)
      else kept;
    Detector(h, detected)
  }

  /** `grill_refresh_state` as written: the thresholds come from the
      options, the drop converted as `_get_temp_drop_threshold` does. */
  function Refresh(d: Detector, status: Option<GrillStatus>, u: Unit, o: Options, now: int): (d': Detector)
    ensures d'.history == UpdateHistory(d.history, status, u, now)
    ensures !ShouldMonitor(status, u) ==> d' == Initial
    ensures d.detected && ShouldMonitor(status, u) && !TargetJumped(d'.history, u) ==> d'.detected
    ensures ShouldMonitor(status, u) && (!d.detected || TargetJumped(d'.history, u)) ==>
      d'.detected == Detect(d'.history, DropThresholdAsWritten(o.tempDrop, u), TimeThreshold(o), now)
  {
    RefreshWith(d, status, u, DropThresholdAsWritten(o.tempDrop, u), TimeThreshold(o), now)
  }

  /** The refresh with the drop converted as a temperature difference. */
  function RefreshCorrected(d: Detector, status: Option<GrillStatus>, u: Unit, o: Options, now: int): (d': Detector)
    ensures d'.history == Refresh(d, status, u, o, now).history
    ensures !ShouldMonitor(status, u) ==> d' == Initial
    ensures d.detected && ShouldMonitor(status, u) && !TargetJumped(d'.history, u) ==> d'.detected
    ensures ShouldMonitor(status, u) && (!d.detected || TargetJumped(d'.history, u)) ==>
      d'.detected == Detect(d'.history, DropThreshold(o.tempDrop, u), TimeThreshold(o), now)
  {
    RefreshWith(d, status, u, DropThreshold(o.tempDrop, u), TimeThreshold(o), now)
  }

  // ---------------------------------------------------------------------
  // The threshold conversion

  /** As written, a configured 20 °F drop becomes a negative Celsius
      threshold, and the 50 °F default entered through the options becomes
      10 rather than the 28 used when no option is set. */
  lemma AsWrittenThresholds()
    ensures DropThresholdAsWritten(Some(20), Celsius) == -6
    ensures DropThresholdAsWritten(Some(50), Celsius) == 10
    ensures DropThresholdAsWritten(None, Celsius) == 28
  {
  }

  /** With that negative threshold a Celsius grill sitting exactly at its
      100 °C target is reported out of pellets by the refresh once five
      minutes of history exist. */
  lemma AsWrittenFlagsGrillAtTarget()
    ensures var status := GrillStatus(true, ModeCustomCook, 0, 100, 100, 0, []);
      var d := Detector([Sample(0, 100, 100)], false);
      Refresh(d, Some(status), Celsius, Options(Some(20), None), 300).detected
  {
    var h := [Sample(0, 100, 100), Sample(300, 100, 100)];
    KeepAfterAppend([Sample(0, 100, 100)], [Sample(300, 100, 100)], 300 - HistoryWindow);
    assert UpdateHistory([Sample(0, 100, 100)], Some(GrillStatus(true, ModeCustomCook, 0, 100, 100, 0, [])), Celsius, 300) == h;
    assert SomeAtOrBefore(h, 0);
  }

  /** With the scaled conversion every threshold the options allow is
      positive, so a grill at or above its target is never flagged. */
  lemma NeverFlagsAtTarget(config: Option<int>, u: Unit, h: seq<Sample>, window: int, now: int)
    requires config.Some? ==> 20 <= config.value <= 100
    requires |h| > 0 && h[|h| - 1].temp >= h[|h| - 1].target
    ensures !Detect(h, DropThreshold(config, u), window, now)
  {
  }

  /** The corrected refresh never raises the flag for a grill at or above
      its target: only an already latched flag can be up afterwards. */
  lemma CorrectedNeverFlagsAtTarget(d: Detector, status: GrillStatus, u: Unit, o: Options, now: int)
    requires o.tempDrop.Some? ==> 20 <= o.tempDrop.value <= 100
    requires status.grill >= status.setTemp
    requires !d.detected
    ensures !RefreshCorrected(d, Some(status), u, o, now).detected
  {
    var h := UpdateHistory(d.history, Some(status), u, now);
    if ShouldMonitor(Some(status), u) {
      assert h[|h| - 1] == Sample(now, status.grill, status.setTemp);
      NeverFlagsAtTarget(o.tempDrop, u, h, TimeThreshold(o), now);
    }
  }

  /** A latched flag stays up while the grill keeps cooking at the same
      target, however the temperature recovers. */
  lemma {:induction false} FlagLatches(d: Detector, status: GrillStatus, u: Unit, o: Options, now: int)
    requires d.detected && ShouldMonitor(Some(status), u)
    requires forall i :: 0 <= i < |d.history| ==> d.history[i].target == status.setTemp
    ensures Refresh(d, Some(status), u, o, now).detected
  {
    var h := UpdateHistory(d.history, Some(status), u, now);
    forall i | 0 <= i < |h|
      ensures h[i].target == status.setTemp
    {
      assert h[i] in h;
    }
  }

  // ---------------------------------------------------------------------
  // Construction

  /** The sensor's own attributes (`_temp_history`, `_pellet_outage_detected`,
      `_active_cooking_modes`): `None` before the constructor assigns them. */
  type Attributes = Option<Detector>

  /** A refresh on the sensor's attributes. Every path reads one of them:
      with a status the mode is looked up in `_active_cooking_modes`, and
      without one the history is cleared. On unassigned attributes the
      refresh raises, which is `None`. */
  function RefreshAttributes(a: Attributes, status: Option<GrillStatus>, u: Unit, o: Options, now: int): (r: Attributes)
    ensures r.Some? <==> a.Some?
    ensures a.Some? ==> r.value.history == UpdateHistory(a.value.history, status, u, now)
  {
    match a
    case None => None
    case Some(d) => Some(Refresh(d, status, u, o, now))
  }

  /** `PelletOutageSensor.__init__` as written: the base constructor runs
      the overridden refresh before the sensor's attributes are assigned;
      `None` is the raised error. */
  function ConstructAsWritten(status: Option<GrillStatus>, u: Unit, o: Options, now: int): (r: Option<Detector>)
    ensures r.None? <==> RefreshAttributes(None, status, u, o, now).None?
  {
    match RefreshAttributes(None, status, u, o, now)
    case None => None
    case Some(_) => Some(Initial)
  }

  /** As written, constructing the sensor fails whatever the store holds. */
  lemma AsWrittenConstructionFails(status: Option<GrillStatus>, u: Unit, o: Options, now: int)
    ensures ConstructAsWritten(status, u, o, now).None?
  {
  }

  /** The constructor with the attributes assigned before the first
      refresh: it succeeds, keeps at most the current sample and raises no
      flag. */
  function Construct(status: Option<GrillStatus>, u: Unit, o: Options, now: int): (r: Option<Detector>)
    ensures r.Some?
    ensures r.value.history == UpdateHistory([], status, u, now)
    ensures |r.value.history| <= 1 && !r.value.detected
  {
    RefreshAttributes(Some(Initial), status, u, o, now)
  }
}
