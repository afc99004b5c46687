/** The derived display states of sensor.py: the grill-mode name, the
    heating state (a hysteresis machine that remembers its previous output
    and target) and the probe state (a latched alarm below a fell-out
    check), together with the probe's availability. */
module Sensors {
  import opened Optional
  import opened Consts
  import opened Telemetry
  import opened Store
  import Reliability

  // ---------------------------------------------------------------------
  // Grill state

  /** The mode codes the integration knows. */
  predicate IsKnownMode(code: int)
  {
    code == ModeCoolDown || code == ModeCustomCook || code == ModeManualCook || code == ModePreheating
    || code == ModeIgniting || code == ModeIdle || code == ModeSleeping || code == ModeOffline
    || code == ModeShutdown
  }

  /** `GrillState.state`: the name of a mode code, "unknown" for any code
      the integration does not know. */
  function GrillStateName(code: int): (r: string)
    ensures r == "unknown" <==> !IsKnownMode(code)
  {
    if code == ModeCoolDown then "cool_down"
    else if code == ModeCustomCook then "cook_custom"
    else if code == ModeManualCook then "cook_manual"
    else if code == ModePreheating then "preheating"
    else if code == ModeIgniting then "igniting"
    else if code == ModeIdle then "idle"
    else if code == ModeSleeping then "sleeping"
    else if code == ModeOffline then "offline"
    else if code == ModeShutdown then "shutdown"
    else "unknown"
  }

  /** Distinct known modes get distinct names, so the name identifies the
      mode. */
  lemma GrillStateNameInjective(a: int, b: int)
    requires IsKnownMode(a) && IsKnownMode(b) && a != b
    ensures GrillStateName(a) != GrillStateName(b)
  {
  }

  // ---------------------------------------------------------------------
  // Heating state

  datatype Heat = Idle | Preheating | Heating | AtTemp | Cooling | OverTemp | UnderTemp | CoolDown

  /** The state names the sensor reports. */
  function HeatName(h: Heat): string
  {
    match h
    case Idle => "idle"
    case Preheating => "preheating"
    case Heating => "heating"
    case AtTemp => "at_temp"
    case Cooling => "cooling"
    case OverTemp => "over_temp"
    case UnderTemp => "under_temp"
    case CoolDown => "cool_down"
  }

  /** Each heating state has its own name, so the reported string
      identifies the state. */
  lemma HeatNameInjective(a: Heat, b: Heat)
    requires HeatName(a) == HeatName(b)
    ensures a == b
  {
  }

  /** The sensor's memory: its previous output and the target it saw. */
  datatype HeatMemory = HeatMemory(prevState: Heat, prevTarget: Option<int>)

  const HeatStart: HeatMemory := HeatMemory(Idle, None)

  datatype HeatOut = HeatOut(state: Heat, mem: HeatMemory)

  predicate IsPreheatMode(mode: int)
  {
    mode == ModePreheating || mode == ModeIgniting
  }

  predicate IsCookMode(mode: int)
  {
    mode == ModeCustomCook || mode == ModeManualCook
  }

  /** The half-width of the at-temperature band. */
  function Swing(u: Unit): int
  {
    if u == Celsius then 11 else 20
  }

  /** The cook-mode transition from a state the machine knows; `None` for
      a state that sends it to the catch-all. */
  function CookTransition(prev: Heat, cur: int, target: int, u: Unit): Option<Heat>
  {
    var low := target - Swing(u);
    var high := target + Swing(u);
    match prev
    case Heating => Some(if cur >= target then AtTemp else Heating)
    case Preheating => Some(if cur >= target then AtTemp else Heating)
    case Cooling => Some(if cur <= target then AtTemp else Cooling)
    case AtTemp => Some(if cur > high then OverTemp else if cur < low then UnderTemp else AtTemp)
    case UnderTemp => Some(if cur > low then AtTemp else UnderTemp)
    case OverTemp => Some(if cur < high then AtTemp else OverTemp)
    case _ => None
  }

  /** One evaluation of the `HeatingState.state` property. Without a
      status the output is idle and the memory is kept; otherwise the memory
      becomes this output and the current target. The property writes its
      memory on every read, so each read is one step. */
  function HeatingStep(mem: HeatMemory, status: Option<GrillStatus>, u: Unit): (o: HeatOut)
    ensures status.None? ==> o == HeatOut(Idle, mem)
    ensures status.Some? ==> o.mem == HeatMemory(o.state, Some(status.value.setTemp))
    ensures status.Some? && IsPreheatMode(status.value.systemStatus) ==>
      o.state == (if status.value.grill < GrillMinTemp(u) then Preheating else Heating)
    ensures status.Some? && status.value.systemStatus == ModeCoolDown ==> o.state == CoolDown
    ensures (status.Some? && !IsPreheatMode(status.value.systemStatus) && !IsCookMode(status.value.systemStatus)
             && status.value.systemStatus != ModeCoolDown) ==> o.state == Idle
    // in a cook mode the output is one of the five cooking states, and each
    // names where the reading stands against the target
    ensures status.Some? && IsCookMode(status.value.systemStatus) ==>
      var cur := status.value.grill;
      var target := status.value.setTemp;
      && o.state in {Heating, Cooling, AtTemp, OverTemp, UnderTemp}
      && (o.state == Heating ==> cur <= target)
      && (o.state == Cooling ==> cur > target)
      && (o.state == OverTemp ==> cur >= target + Swing(u))
      && (o.state == UnderTemp ==> cur <= target - Swing(u))
    // a new target restarts the machine from heating or cooling
    ensures status.Some? && IsCookMode(status.value.systemStatus) && mem.prevTarget != Some(status.value.setTemp) ==>
      o.state == (if status.value.grill <= status.value.setTemp then Heating else Cooling)
    // with the target unchanged, the hysteresis table of the previous state
    ensures status.Some? && IsCookMode(status.value.systemStatus) && mem.prevTarget == Some(status.value.setTemp) ==>
      var cur := status.value.grill;
      var target := status.value.setTemp;
      var low := target - Swing(u);
      var high := target + Swing(u);
      && (mem.prevState == Heating || mem.prevState == Preheating ==>
            o.state == (if cur >= target then AtTemp else Heating))
      && (mem.prevState == Cooling ==> o.state == (if cur <= target then AtTemp else Cooling))
      && (mem.prevState == AtTemp ==>
            o.state == (if cur > high then OverTemp else if cur < low then UnderTemp else AtTemp))
      && (mem.prevState == UnderTemp ==> o.state == (if cur > low then AtTemp else UnderTemp))
      && (mem.prevState == OverTemp ==> o.state == (if cur < high then AtTemp else OverTemp))
      // idle, cool down or any state outside the table start over
      && (mem.prevState == Idle || mem.prevState == CoolDown ==>
            o.state == (if cur <= target then Heating else Cooling))
  {
    match status
    case None => HeatOut(Idle, mem)
    case Some(s) =>
      var target := s.setTemp;
      var cur := s.grill;
      var state :=
        if IsPreheatMode(s.systemStatus) then
          (if cur < GrillMinTemp(u) then Preheating else Heating)
        else if IsCookMode(s.systemStatus) then
          var next := CookTransition(mem.prevState, cur, target, u);
          var targetChanged := Some(target) != mem.prevTarget || next.None?;
          if targetChanged then (if cur <= target then Heating else Cooling)
          else next.value
        else if s.systemStatus == ModeCoolDown then CoolDown
        else Idle;
      HeatOut(state, HeatMemory(state, Some(target)))
  }

  /** With a steady reading in a cook mode the machine settles within three
      refreshes: the third output repeats forever after. */
  lemma HeatingSettles(mem: HeatMemory, s: GrillStatus, u: Unit)
    requires IsCookMode(s.systemStatus)
    ensures var o1 := HeatingStep(mem, Some(s), u);
      var o2 := HeatingStep(o1.mem, Some(s), u);
      var o3 := HeatingStep(o2.mem, Some(s), u);
      HeatingStep(o3.mem, Some(s), u) == o3
  {
  }

  /** Once at temperature, small movements inside the band keep it there. */
  lemma HeatingBandHolds(s: GrillStatus, u: Unit)
    requires IsCookMode(s.systemStatus)
    requires s.setTemp - Swing(u) <= s.grill <= s.setTemp + Swing(u)
    ensures HeatingStep(HeatMemory(AtTemp, Some(s.setTemp)), Some(s), u).state == AtTemp
  {
  }

  // ---------------------------------------------------------------------
  // Probe state

  datatype ProbeDisplay = ProbeIdle | FellOut | ProbeAtTemp | Close | ProbeSet

  function ProbeName(p: ProbeDisplay): string
  {
    match p
    case ProbeIdle => "idle"
    case FellOut => "fell_out"
    case ProbeAtTemp => "at_temp"
    case Close => "close"
    case ProbeSet => "set"
  }

  /** Each probe state has its own name. */
  lemma ProbeNameInjective(a: ProbeDisplay, b: ProbeDisplay)
    requires ProbeName(a) == ProbeName(b)
    ensures a == b
  {
  }

  /** The probe sensor's memory: the target it last saw and the alarm
      latch. */
  datatype ProbeMemory = ProbeMemory(prevTarget: Option<int>, alarm: bool)

  const ProbeStart: ProbeMemory := ProbeMemory(None, false)

  datatype ProbeOut = ProbeOut(state: ProbeDisplay, mem: ProbeMemory)

  /** Modes in which a probe target is live. */
  predicate IsActiveMode(mode: int)
  {
    mode == ModePreheating || mode == ModeIgniting || mode == ModeCustomCook || mode == ModeManualCook
  }

  /** A reading at or above this means the probe is out of the meat. */
  function FellOutTemp(u: Unit): int
  {
    if u == Celsius then 102 else 215
  }

  /** How close to its target a probe reads as "close". */
  function CloseMargin(u: Unit): int
  {
    if u == Celsius then 3 else 5
  }

  /** The probe left its food: an implausibly hot reading, or a physical
      disconnection after more than two rejected readings. */
  predicate FellOutSignal(a: Accessory, u: Unit, validationFailures: nat)
  {
    a.probe.getTemp.GetOr(0) >= FellOutTemp(u) || (!AccessoryConnected(a) && validationFailures > 2)
  }

  /** The probe's alarm is cleared by a move to a new non-zero target or
      by leaving the active modes. */
  predicate AlarmCleared(mem: ProbeMemory, a: Accessory, mode: int)
  {
    var target := a.probe.setTemp.GetOr(0);
    (Some(target) != mem.prevTarget && target != 0) || !IsActiveMode(mode)
  }

  /** One evaluation of the `ProbeState.state` property; `validationFailures`
      is the reliability manager's count of rejected readings for this
      probe. */
  function ProbeStep(mem: ProbeMemory, acc: Option<Accessory>, mode: int, u: Unit, validationFailures: nat): (o: ProbeOut)
    ensures acc.None? ==> o == ProbeOut(ProbeIdle, mem)
    ensures acc.Some? ==> o.mem.prevTarget == Some(acc.value.probe.setTemp.GetOr(0))
    // falling out takes priority over everything else
    ensures acc.Some? ==> (o.state == FellOut <==> FellOutSignal(acc.value, u, validationFailures))
    // a fired alarm is shown as at temperature unless the probe fell out
    ensures acc.Some? && acc.value.probe.alarmFired ==> o.mem.alarm
    ensures acc.Some? && acc.value.probe.alarmFired && !FellOutSignal(acc.value, u, validationFailures) ==>
      o.state == ProbeAtTemp
    // the latch survives while the target and the cook mode stay put
    ensures (acc.Some? && mem.alarm && IsActiveMode(mode) && mem.prevTarget == Some(acc.value.probe.setTemp.GetOr(0))
             && !FellOutSignal(acc.value, u, validationFailures)) ==> o.state == ProbeAtTemp
    ensures acc.Some? && o.mem.alarm ==> o.state in {FellOut, ProbeAtTemp}
    ensures o.mem.alarm ==> mem.alarm || (acc.Some? && acc.value.probe.alarmFired)
    // the latch: set by a fired alarm, cleared by a new target or an inactive mode, else kept
    ensures acc.Some? ==>
      (o.mem.alarm <==> acc.value.probe.alarmFired || (mem.alarm && !AlarmCleared(mem, acc.value, mode)))
    ensures o.state == ProbeAtTemp ==> o.mem.alarm
    // below the fell-out check and the latch: close or set with a live target, else idle
    ensures acc.Some? && !FellOutSignal(acc.value, u, validationFailures) && !o.mem.alarm ==>
      var target := acc.value.probe.setTemp.GetOr(0);
      (target != 0 && IsActiveMode(mode) ==> o.state in {Close, ProbeSet})
      && (!(target != 0 && IsActiveMode(mode)) ==> o.state == ProbeIdle)
    ensures o.state == Close ==>
      var target := acc.value.probe.setTemp.GetOr(0);
      target != 0 && IsActiveMode(mode) && acc.value.probe.getTemp.GetOr(0) + CloseMargin(u) >= target
    ensures o.state == ProbeSet ==>
      var target := acc.value.probe.setTemp.GetOr(0);
      target != 0 && IsActiveMode(mode) && acc.value.probe.getTemp.GetOr(0) + CloseMargin(u) < target
  {
    match acc
    case None => ProbeOut(ProbeIdle, mem)
    case Some(a) =>
      var target := a.probe.setTemp.GetOr(0);
      var temp := a.probe.getTemp.GetOr(0);
      var alarm :=
        if a.probe.alarmFired then true
        else if AlarmCleared(mem, a, mode) then false
        else mem.alarm;
      if FellOutSignal(a, u, validationFailures) then ProbeOut(FellOut, ProbeMemory(Some(target), alarm))
      else if alarm then ProbeOut(ProbeAtTemp, ProbeMemory(Some(target), alarm))
      else if target != 0 && IsActiveMode(mode) then
        ProbeOut(if temp + CloseMargin(u) >= target then Close else ProbeSet, ProbeMemory(Some(target), alarm))
      else ProbeOut(ProbeIdle, ProbeMemory(Some(target), false))
  }

  /** The probe state reads the validation failures from the reliability
      manager's record for the probe. */
  function ProbeState(mem: ProbeMemory, acc: Option<Accessory>, mode: int, u: Unit,
                      m: Reliability.Manager, sensor: Reliability.ProbeId): (o: ProbeOut)
    ensures acc.Some? && !AccessoryConnected(acc.value) && Reliability.RecordOf(m, sensor).tempValidationFailures > 2
            ==> o.state == FellOut
  {
    ProbeStep(mem, acc, mode, u, Reliability.RecordOf(m, sensor).tempValidationFailures)
  }

  /** A probe that has never been updated cannot be reported as fallen
      out by the disconnection rule alone. */
  lemma FreshProbeNeedsHotReading(mem: ProbeMemory, a: Accessory, mode: int, u: Unit, sensor: Reliability.ProbeId)
    requires a.probe.getTemp.GetOr(0) < FellOutTemp(u)
    ensures ProbeState(mem, Some(a), mode, u, map[], sensor).state != FellOut
  {
  }

  /** `grill_accessory_update`: a present accessory feeds its connection
      and temperature into the reliability manager; an absent one changes
      nothing. */
  function AccessoryUpdate(m: Reliability.Manager, sensor: Reliability.ProbeId, acc: Option<Accessory>, now: int): (m': Reliability.Manager)
    ensures acc.None? ==> m' == m
    ensures acc.Some? ==>
      Reliability.RecordOf(m', sensor) ==
      Reliability.UpdateRecord(Reliability.RecordOf(m, sensor), AccessoryConnected(acc.value), acc.value.probe.getTemp, now)
    ensures forall other :: other != sensor ==> Reliability.RecordOf(m', other) == Reliability.RecordOf(m, other)
  {
    match acc
    case None => m
    case Some(a) => Reliability.Update(m, sensor, AccessoryConnected(a), a.probe.getTemp, now)
  }

  datatype Availability = Availability(available: bool, mem: ProbeMemory)

  /** `ProbeState.available`: unavailable, with the alarm cleared, without
      a status, with the grill disconnected or without the accessory;
      otherwise the alarm is cleared when the probe is unplugged and the
      answer is the reliability manager's (connected, or within grace). */
  function ProbeAvailable(mem: ProbeMemory, st: DeviceStore, id: GrillId, acc: Option<Accessory>,
                          m: Reliability.Manager, sensor: Reliability.ProbeId, now: int): (r: Availability)
    ensures r.available <==>
      && GrillAvailable(st, id) && acc.Some?
      && (AccessoryConnected(acc.value) || now < Reliability.RecordOf(m, sensor).graceUntil)
    ensures r.mem.prevTarget == mem.prevTarget
    ensures r.mem.alarm <==> mem.alarm && GrillAvailable(st, id) && acc.Some? && AccessoryConnected(acc.value)
  {
    match GetState(st, id)
    case None => Availability(false, mem.(alarm := false))
    case Some(s) =>
      if !s.connected || acc.None? then Availability(false, mem.(alarm := false))
      else
        var raw := AccessoryConnected(acc.value);
        var mem' := if raw then mem else mem.(alarm := false);
        Availability(Reliability.ShouldShowAvailable(m, sensor, raw, now), mem')
  }

  /** An unplugged probe stays available only until its grace period ends,
      and never past it. */
  lemma UnpluggedProbeGrace(mem: ProbeMemory, st: DeviceStore, id: GrillId, a: Accessory,
                            m: Reliability.Manager, sensor: Reliability.ProbeId, now: int)
    requires GrillAvailable(st, id) && !AccessoryConnected(a)
    ensures ProbeAvailable(mem, st, id, Some(a), m, sensor, now).available
            <==> now < Reliability.RecordOf(m, sensor).graceUntil
    ensures !ProbeAvailable(mem, st, id, Some(a), m, sensor, now).mem.alarm
  {
  }

  /** The probe's label and id suffix: its last four characters when the
      id is longer than eight, else the whole id. */
  function ProbeSuffix(sensor: string): (r: string)
    ensures |sensor| > 8 ==> |r| == 4
    ensures |sensor| <= 8 ==> r == sensor
    ensures r == sensor[|sensor| - |r|..]
  {
    if |sensor| > 8 then sensor[|sensor| - 4..] else sensor
  }
}
