/** The device state store: the last snapshot received for each grill id,
    read through absence-safe getters (traeger.py, the `get_*_for_device`
    family, `get_units_for_device` and `get_details_for_accessory`). */
module Store {
  import opened Optional
  import opened Consts
  import opened Telemetry

  type DeviceStore = map<GrillId, Snapshot>

  function GetState(st: DeviceStore, id: GrillId): (r: Option<GrillStatus>)
    ensures r.None? <==> id !in st
    ensures r.Some? ==> r.value == st[id].status
  {
    if id in st then Some(st[id].status) else None
  }

  function GetDetails(st: DeviceStore, id: GrillId): (r: Option<Details>)
    ensures r.None? <==> id !in st
    ensures r.Some? ==> r.value == st[id].details
  {
    if id in st then Some(st[id].details) else None
  }

  function GetLimits(st: DeviceStore, id: GrillId): (r: Option<Limits>)
    ensures r.None? <==> id !in st
    ensures r.Some? ==> r.value == st[id].limits
  {
    if id in st then Some(st[id].limits) else None
  }

  function GetSettings(st: DeviceStore, id: GrillId): (r: Option<Settings>)
    ensures r.None? <==> id !in st
    ensures r.Some? ==> r.value == st[id].settings
  {
    if id in st then Some(st[id].settings) else None
  }

  function GetFeatures(st: DeviceStore, id: GrillId): (r: Option<Features>)
    ensures r.None? <==> id !in st
    ensures r.Some? ==> r.value == st[id].features
  {
    if id in st then Some(st[id].features) else None
  }

  /** Fahrenheit until a snapshot says otherwise; Celsius exactly when the
      grill reports `units == 0`. */
  function UnitsFor(st: DeviceStore, id: GrillId): (u: Unit)
    ensures u == Celsius <==> id in st && st[id].status.units == 0
    ensures id !in st ==> u == Fahrenheit
  {
    match GetState(st, id)
    case None => Fahrenheit
    case Some(s) => if s.units == 0 then Celsius else Fahrenheit
  }

  /** Index of the first accessory carrying `uuid`, if any. */
  function FirstAccessory(acc: seq<Accessory>, uuid: string): (r: Option<nat>)
    ensures r.Some? ==> r.value < |acc| && acc[r.value].uuid == uuid
    ensures r.Some? ==> forall j :: 0 <= j < r.value ==> acc[j].uuid != uuid
    ensures r.None? ==> forall j :: 0 <= j < |acc| ==> acc[j].uuid != uuid
  {
    if |acc| == 0 then None
    else if acc[0].uuid == uuid then Some(0)
    else
      match FirstAccessory(acc[1..], uuid)
      case None => None
      case Some(k) => Some(k + 1)
  }

  /** The accessory of grill `id` whose uuid matches, the first one if
      several do; `None` without a snapshot or without a match. */
  function AccessoryFor(st: DeviceStore, id: GrillId, uuid: string): (r: Option<Accessory>)
    ensures id !in st ==> r.None?
    ensures r.Some? ==> r.value in st[id].status.acc && r.value.uuid == uuid
    ensures id in st && (exists a :: a in st[id].status.acc && a.uuid == uuid) ==> r.Some?
  {
    match GetState(st, id)
    case None => None
    case Some(s) =>
      match FirstAccessory(s.acc, uuid)
      case None => None
      case Some(k) => Some(s.acc[k])
  }

  /** `get_cloudconnect`: false for a grill never heard from, otherwise
      whether the broker session is running and connected. */
  function CloudConnect(st: DeviceStore, id: GrillId, running: bool, connected: bool): (r: bool)
    ensures r <==> id in st && running && connected
  {
    if id !in st then false else running && connected
  }

  /** The common `available` of the grill's sensors: a snapshot exists and
      its status reports the grill connected. */
  function GrillAvailable(st: DeviceStore, id: GrillId): (r: bool)
    ensures r <==> id in st && st[id].status.connected
    ensures r ==> CloudConnect(st, id, true, true)
  {
    match GetState(st, id)
    case None => false
    case Some(s) => s.connected
  }

  /** The getters agree: a grill has all of its sub-documents or none. */
  lemma GettersAgree(st: DeviceStore, id: GrillId)
    ensures GetState(st, id).Some? == GetDetails(st, id).Some?
        == GetLimits(st, id).Some? == GetSettings(st, id).Some?
        == GetFeatures(st, id).Some?
  {
  }
}
