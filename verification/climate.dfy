/** The climate entities of climate.py: the grill's thermostat (target,
    heat/cool/off mode, set-point limits, shutdown) and each probe's
    thermostat (availability, limits, presets, and the probe target it
    sends and backs up). */
module Climate {
  import opened Optional
  import opened Consts
  import opened Telemetry
  import opened Store
  import opened Commands
  import Reliability

  datatype Hvac = Off | Heat | Cool

  // ---------------------------------------------------------------------
  // The grill

  /** Modes in which the grill holds no set point. */
  predicate IsOffMode(mode: int)
  {
    mode == ModeOffline || mode == ModeIdle || mode == ModeSleeping || mode == ModeShutdown
  }

  /** `target_temperature`: 0 without a status or while the grill is
      offline, idle, sleeping or shut down; the set point otherwise. */
  function GrillTarget(status: Option<GrillStatus>): (t: int)
    ensures status.None? ==> t == 0
    ensures status.Some? && !(status.value.systemStatus in {ModeOffline, ModeIdle, ModeSleeping, ModeShutdown})
            ==> t == status.value.setTemp
    ensures status.Some? && IsOffMode(status.value.systemStatus) ==> t == 0
    ensures t != 0 ==> status.Some? && t == status.value.setTemp
  {
    match status
    case None => 0
    case Some(s) => if IsOffMode(s.systemStatus) then 0 else s.setTemp
  }

  /** `hvac_mode`: cooling while cooling down, heating from igniting to a
      custom cook, off for every other code and without a status. */
  function GrillHvac(status: Option<GrillStatus>): (h: Hvac)
    ensures h == Cool <==> status.Some? && status.value.systemStatus == ModeCoolDown
    ensures h == Heat <==> status.Some? && ModeIgniting <= status.value.systemStatus <= ModeCustomCook
  {
    match status
    case None => Off
    case Some(s) =>
      if s.systemStatus == ModeCoolDown then Cool
      else if s.systemStatus == ModeCustomCook then Heat
      else if s.systemStatus == ModeManualCook then Heat
      else if s.systemStatus == ModePreheating then Heat
      else if s.systemStatus == ModeIgniting then Heat
      else Off
  }

  /** A heating grill always shows its set point as its target. */
  lemma HeatingShowsTarget(status: Option<GrillStatus>)
    requires GrillHvac(status) == Heat
    ensures GrillTarget(status) == status.value.setTemp
  {
  }

  /** `min_temp`. */
  function GrillMin(u: Unit): (t: int)
    ensures t == GrillMinTemp(u)
    ensures t > 0
  {
    if u == Celsius then 75 else 165
  }

  /** `max_temp`: the grill's own limit, or the minimum when its limits are
      unknown. */
  function GrillMax(limits: Option<Limits>, u: Unit): (t: int)
    ensures limits.None? ==> t == GrillMin(u)
    ensures limits.Some? ==> t == limits.value.maxGrillTemp
  {
    match limits
    case None => GrillMin(u)
    case Some(l) => l.maxGrillTemp
  }

  /** `async_set_hvac_mode`: off and cool start the shutdown sequence,
      heat sends nothing. */
  function SetGrillHvac(h: Hvac): (c: Option<Command>)
    ensures c.Some? <==> h != Heat
    ensures c.Some? ==> Encode(c.value) == "17"
  {
    match h
    case Off => Some(Shutdown)
    case Cool => Some(Shutdown)
    case Heat => None
  }

  /** `async_set_temperature` on the grill: the rounded set point. */
  function SetGrillTemperature(t: int): (c: Command)
    ensures Decode(Encode(c)) == Some(SetGrillTemp(t))
  {
    EncodeDecode(SetGrillTemp(t));
    SetGrillTemp(t)
  }

  // ---------------------------------------------------------------------
  // A probe

  /** `max_temp` / `min_temp` of a probe. */
  function ProbeMin(u: Unit): int
  {
    if u == Celsius then 27 else 80
  }

  function ProbeMax(u: Unit): int
  {
    if u == Celsius then 100 else 215
  }

  /** Every preset target lies within the probe's limits in both units. */
  lemma PresetsWithinProbeLimits(i: nat, u: Unit)
    requires i < |Presets|
    ensures ProbeMin(u) <= PresetTemp(Presets[i], u) <= ProbeMax(u)
  {
  }

  /** `available` of a probe: the grill is present and connected, the
      accessory is present, and it reports itself connected. */
  function ProbeAvailable(st: DeviceStore, id: GrillId, acc: Option<Accessory>): (r: bool)
    ensures r <==> GrillAvailable(st, id) && acc.Some? && acc.value.con != 0
  {
    match GetState(st, id)
    case None => false
    case Some(s) => if !s.connected || acc.None? then false else AccessoryConnected(acc.value)
  }

  /** `target_temperature` of a probe: 0 without an accessory. */
  function ProbeTarget(acc: Option<Accessory>): (t: int)
    ensures acc.None? ==> t == 0
    ensures acc.Some? && acc.value.probe.setTemp.Some? ==> t == acc.value.probe.setTemp.value
  {
    match acc
    case None => 0
    case Some(a) => a.probe.setTemp.GetOr(0)
  }

  /** `hvac_mode` of a probe: off without a status, heat when the probe
      reports `con == 1`, off otherwise; `None` where the source fails on a
      missing accessory. */
  function ProbeHvac(status: Option<GrillStatus>, acc: Option<Accessory>): (h: Option<Hvac>)
    ensures h.None? <==> status.Some? && acc.None?
    ensures h == Some(Heat) <==> status.Some? && acc.Some? && acc.value.con == 1
  {
    if status.None? then Some(Off)
    else if acc.None? then None
    else if acc.value.con == 1 then Some(Heat)
    else Some(Off)
  }

  /** The selected preset's name; `None` is Home Assistant's "none". */
  type PresetMode = Option<string>

  /** `preset_mode`: the selection is dropped when the grill has no
      status, reports no probe connected, or the probe has no target. */
  function PresetModeNow(current: PresetMode, status: Option<GrillStatus>, acc: Option<Accessory>): (p: PresetMode)
    ensures p.Some? ==> p == current
    ensures p.None? <==> current.None? || status.None? || status.value.probeCon == 0 || ProbeTarget(acc) == 0
  {
    if status.None? || status.value.probeCon == 0 || ProbeTarget(acc) == 0 then None else current
  }

  /** Index of the preset of that name, the first one if names repeated. */
  function FindPreset(table: seq<Preset>, name: string): (r: Option<nat>)
    ensures r.Some? ==> r.value < |table| && table[r.value].name == name
    ensures r.Some? ==> forall j :: 0 <= j < r.value ==> table[j].name != name
    ensures r.None? ==> forall i :: 0 <= i < |table| ==> table[i].name != name
  {
    if |table| == 0 then None
    else if table[0].name == name then Some(0)
    else
      match FindPreset(table[1..], name)
      case None => None
      case Some(k) => Some(k + 1)
  }

  /** What a probe command does: the new preset selection, the reliability
      manager after the backup, and the command sent (if any). */
  datatype ProbeCommand = ProbeCommand(preset: PresetMode, manager: Reliability.Manager, command: Option<Command>)

  /** `async_set_temperature` on a probe: clears the preset, backs up the
      rounded target and sends it. */
  function SetProbeTemperature(m: Reliability.Manager, sensor: Reliability.ProbeId, t: int): (r: ProbeCommand)
    ensures r.preset.None?
    ensures r.command == Some(SetProbeTemp(t))
    ensures t > 0 ==> Reliability.GetBackupTarget(r.manager, sensor) == Some(t)
    ensures t <= 0 ==> r.manager == m
    ensures forall other :: other != sensor ==> Reliability.RecordOf(r.manager, other) == Reliability.RecordOf(m, other)
  {
    ProbeCommand(None, Reliability.BackupTarget(m, sensor, t), Some(SetProbeTemp(t)))
  }

  /** `async_set_preset_mode`: the selection is recorded first; a name the
      table lacks stops there (the source raises on the lookup), otherwise
      the preset's target in the grill's unit is backed up and sent. */
  function SetPreset(m: Reliability.Manager, sensor: Reliability.ProbeId, name: string, u: Unit): (r: ProbeCommand)
    ensures r.preset == Some(name)
    ensures r.command.None? <==> (forall i :: 0 <= i < |Presets| ==> Presets[i].name != name)
    ensures r.command.None? ==> r.manager == m
    ensures r.command.Some? ==>
      var i := FindPreset(Presets, name).value;
      var t := PresetTemp(Presets[i], u);
      && Presets[i].name == name
      && r.command == Some(SetProbeTemp(t))
      && Reliability.GetBackupTarget(r.manager, sensor) == Some(t)
  {
    match FindPreset(Presets, name)
    case None => ProbeCommand(Some(name), m, None)
    case Some(i) =>
      var t := PresetTemp(Presets[i], u);
      PresetsWithinProbeLimits(i, u);
      ProbeCommand(Some(name), Reliability.BackupTarget(m, sensor, t), Some(SetProbeTemp(t)))
  }

  /** Choosing "Chicken" on a Celsius grill sends "14,74". */
  lemma ChickenPreset(m: Reliability.Manager, sensor: Reliability.ProbeId)
    ensures SetPreset(m, sensor, "Chicken", Celsius).command == Some(SetProbeTemp(74))
  {
    assert Presets[0].name == "Chicken";
  }
}
