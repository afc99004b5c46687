/** The raw telemetry document a grill publishes, as the store keeps it.
    Each field stands for one key of the JSON payload; a key the consumers
    read with a default (`.get(key, default)`) is an `Option`. */
module Telemetry {
  import opened Optional

  /** A grill's id (its `thingName`). */
  type GrillId = string

  /** The `probe` sub-document of an accessory. */
  datatype ProbeReading = ProbeReading(
    getTemp: Option<int>,     // `get_temp`, absent reads as missing
    setTemp: Option<int>,     // `set_temp`
    alarmFired: bool)         // `alarm_fired`, absent reads as false

  /** One entry of the status document's `acc` list. */
  datatype Accessory = Accessory(uuid: string, kind: string, con: int, probe: ProbeReading)

  /** The `status` sub-document: live readings of one grill. */
  datatype GrillStatus = GrillStatus(
    connected: bool,
    systemStatus: int,
    units: int,               // 0 means Celsius, anything else Fahrenheit
    setTemp: int,             // `set`: commanded grill temperature
    grill: int,               // measured grill temperature
    probeCon: int,
    acc: seq<Accessory>)

  datatype Details = Details(friendlyName: Option<string>)
  datatype Limits = Limits(maxGrillTemp: int)
  datatype Settings = Settings(deviceTypeId: string, fwVersion: string)
  datatype Features = Features(superSmokeEnabled: int, pelletSensorConnected: int)

  /** A whole message payload; it replaces the previous one wholesale. */
  datatype Snapshot = Snapshot(
    status: GrillStatus,
    details: Details,
    limits: Limits,
    settings: Settings,
    features: Features)

  /** The accessory is reporting a physical connection (`bool(con)`). */
  predicate AccessoryConnected(a: Accessory)
  {
    a.con != 0
  }
}
