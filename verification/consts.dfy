/** Constants of the integration: grill mode codes, temperature floors,
    pellet-outage thresholds and the probe preset table. */
module Consts {

  /** The unit a grill reports its temperatures in. */
  datatype Unit = Fahrenheit | Celsius

  // Grill modes (the `system_status` code of a grill's status document).
  const ModeOffline: int := 99
  const ModeShutdown: int := 9
  const ModeCoolDown: int := 8
  const ModeCustomCook: int := 7
  const ModeManualCook: int := 6
  const ModePreheating: int := 5
  const ModeIgniting: int := 4
  const ModeIdle: int := 3
  const ModeSleeping: int := 2

  /** Lowest grill set point the vendor application offers. */
  function GrillMinTemp(u: Unit): int
  {
    if u == Celsius then 75 else 165
  }

  // Pellet-outage detection defaults.
  const OutageDropF: int := 50
  const OutageDropC: int := 28
  const OutageTimeThreshold: int := 300
  const OutageMinTargetF: int := 200
  const OutageMinTargetC: int := 93

  /** The probe presets: a name with its target in each unit. */
  datatype Preset = Preset(name: string, fahrenheit: int, celsius: int)

  const Presets: seq<Preset> := [
    Preset("Chicken", 165, 74),
    Preset("Turkey", 165, 74),
    Preset("Beef (Rare)", 125, 52),
    Preset("Beef (Medium Rare)", 135, 57),
    Preset("Beef (Medium)", 140, 60),
    Preset("Beef (Medium Well)", 145, 63),
    Preset("Beef (Well Done)", 155, 68),
    Preset("Beef (Ground)", 160, 71),
    Preset("Lamb (Rare)", 125, 52),
    Preset("Lamb (Medium Rare)", 135, 57),
    Preset("Lamb (Medium)", 140, 60),
    Preset("Lamb (Medium Well)", 145, 63),
    Preset("Lamb (Well Done)", 155, 68),
    Preset("Lamb (Ground)", 160, 71),
    Preset("Pork (Medium Rare)", 135, 57),
    Preset("Pork (Medium)", 140, 60),
    Preset("Pork (Well Done)", 155, 68),
    Preset("Fish", 145, 63)
  ]

  /** The preset's target in the grill's unit. */
  function PresetTemp(p: Preset, u: Unit): int
  {
    if u == Celsius then p.celsius else p.fahrenheit
  }
}
