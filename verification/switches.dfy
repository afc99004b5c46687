/** The switches of switch.py: keep warm and super smoke, which only act
    while the grill is heating, and the connect switch, which starts or
    kills the broker session. */
module Switches {
  import opened Optional
  import opened Consts
  import opened Telemetry
  import opened Store
  import opened Commands
  import opened Registry
  import Session
  import Climate
  import Outage

  /** A switch of the grill: its id suffix and the codes it sends. */
  datatype SwitchKind =
    | SuperSmoke   // "smoke", on 20 / off 21
    | KeepWarm     // "keepwarm", on 18 / off 19
    | Connect      // "connect": the broker session itself

  function OnCode(k: SwitchKind): int
  {
    match k
    case SuperSmoke => 20
    case KeepWarm => 18
    case Connect => 0
  }

  function OffCode(k: SwitchKind): int
  {
    match k
    case SuperSmoke => 21
    case KeepWarm => 19
    case Connect => 0
  }

  /** The four codes of the keep-warm and super-smoke switches are
      distinct, and each decodes back to its own switch command rather than
      to one of the plain commands. */
  lemma SwitchCodesDistinct(a: SwitchKind, b: SwitchKind)
    requires a != Connect && b != Connect
    ensures OnCode(a) != OffCode(b)
    ensures a != b ==> OnCode(a) != OnCode(b) && OffCode(a) != OffCode(b)
    ensures Decode(Encode(Switch(OnCode(a)))) == Some(Switch(OnCode(a)))
    ensures Decode(Encode(Switch(OffCode(a)))) == Some(Switch(OffCode(a)))
  {
    SwitchRoundTrip(OnCode(a));
    SwitchRoundTrip(OffCode(a));
  }

  /** The modes from igniting up to a custom cook. */
  predicate InSwitchRange(mode: int)
  {
    ModeIgniting <= mode <= ModeCustomCook
  }

  /** `available` of the keep-warm switch: a status in a heating mode. */
  function SwitchAvailable(status: Option<GrillStatus>): (r: bool)
    ensures r <==> status.Some? && status.value.systemStatus in {4, 5, 6, 7}
  {
    status.Some? && InSwitchRange(status.value.systemStatus)
  }

  /** `available` of the super-smoke switch: additionally the grill must
      report the feature enabled. */
  function SuperSmokeAvailable(st: DeviceStore, id: GrillId): (r: bool)
    ensures r ==> SwitchAvailable(GetState(st, id))
    ensures r <==> id in st && InSwitchRange(st[id].status.systemStatus) && st[id].features.superSmokeEnabled == 1
  {
    match GetState(st, id)
    case None => false
    case Some(s) =>
      if InSwitchRange(s.systemStatus) then GetFeatures(st, id).value.superSmokeEnabled == 1 else false
  }

  /** `async_turn_on`: the on code, only while in a heating mode. Without
      a status the source fails before sending; no command either way. */
  function TurnOn(status: Option<GrillStatus>, k: SwitchKind): (c: Option<Command>)
    requires k != Connect
    ensures c.Some? <==> SwitchAvailable(status)
    ensures c.Some? ==> Encode(c.value) == Encode(Switch(OnCode(k)))
  {
    if status.Some? && InSwitchRange(status.value.systemStatus) then Some(Switch(OnCode(k))) else None
  }

  /** `async_turn_off`: the off code, under the same guard. */
  function TurnOff(status: Option<GrillStatus>, k: SwitchKind): (c: Option<Command>)
    requires k != Connect
    ensures c.Some? <==> SwitchAvailable(status)
    ensures c.Some? ==> Encode(c.value) == Encode(Switch(OffCode(k)))
  {
    if status.Some? && InSwitchRange(status.value.systemStatus) then Some(Switch(OffCode(k))) else None
  }

  /** On and off send different texts, so a switch can be told apart from
      its opposite on the wire. */
  lemma OnOffDistinct(status: Option<GrillStatus>, k: SwitchKind)
    requires k != Connect && SwitchAvailable(status)
    ensures Encode(TurnOn(status, k).value) != Encode(TurnOff(status, k).value)
  {
    if Encode(Switch(OnCode(k))) == Encode(Switch(OffCode(k))) {
      EncodeInjective(Switch(OnCode(k)), Switch(OffCode(k)));
    }
  }

  /** `async_setup_entry`: super smoke first when the grill reports it,
      then keep warm and connect, which every grill gets. */
  function Setup(features: Option<Features>): (r: seq<SwitchKind>)
    ensures |r| >= 2 && r[|r| - 2] == KeepWarm && r[|r| - 1] == Connect
    ensures |r| == 3 <==> features.Some? && features.value.superSmokeEnabled == 1
    ensures |r| == 3 ==> r[0] == SuperSmoke
  {
    if features.Some? && features.value.superSmokeEnabled == 1 then [SuperSmoke, KeepWarm, Connect]
    else [KeepWarm, Connect]
  }

  /** A super-smoke switch set up for a grill can be available: setup and
      availability read the same flag. */
  lemma SetupMatchesAvailability(st: DeviceStore, id: GrillId)
    requires SuperSmokeAvailable(st, id)
    ensures Setup(GetFeatures(st, id))[0] == SuperSmoke
  {
  }

  // ---------------------------------------------------------------------
  // The connect switch

  /** What a connect switch copied from the client at its last
      `grill_refresh_state` (entity.py): whether the grill had a snapshot,
      and the cloud-connect value. `is_on` reads this copy, not the client. */
  datatype ConnectCache = ConnectCache(hasState: bool, cloudConnect: bool)

  /** A connect switch entity: its grill, the handler it registered for
      that grill, and its cached copy. */
  datatype ConnectSwitch = ConnectSwitch(grill: GrillId, handler: HandlerId, cache: ConnectCache)

  /** `grill_refresh_state`, as far as the connect switch reads it. */
  function ConnectRefresh(c: Session.Client, id: GrillId): (v: ConnectCache)
    ensures v.hasState <==> id in c.store
  {
    ConnectCache(GetState(c.store, id).Some?, CloudConnect(c.store, id, c.life.running, c.life.state == Session.Connected))
  }

  /** `is_on` of the connect switch: off when the copy had no snapshot,
      otherwise the copied cloud-connect value. */
  function ConnectIsOn(v: ConnectCache): bool
  {
    v.hasState && v.cloudConnect
  }

  /** Right after a refresh the switch is on exactly when the grill has a
      snapshot and the session is running and connected. */
  lemma ConnectIsOnFresh(c: Session.Client, id: GrillId)
    ensures ConnectIsOn(ConnectRefresh(c, id)) <==>
      id in c.store && c.life.running && c.life.state == Session.Connected
  {
  }

  /** The switch's callback: a switch whose handler a step invoked re-reads
      the client; any other keeps its copy. */
  function Notify(w: ConnectSwitch, s: Session.Step): (r: ConnectSwitch)
    ensures r.grill == w.grill && r.handler == w.handler
    ensures w.handler in s.fired ==> r.cache == ConnectRefresh(s.client, w.grill)
    ensures w.handler !in s.fired ==> r == w
  {
    if w.handler in s.fired then w.(cache := ConnectRefresh(s.client, w.grill)) else w
  }

  function NotifyAll(ws: seq<ConnectSwitch>, s: Session.Step): (r: seq<ConnectSwitch>)
    ensures |r| == |ws|
    ensures forall i :: 0 <= i < |ws| ==> r[i] == Notify(ws[i], s)
  {
    seq(|ws|, i requires 0 <= i < |ws| => Notify(ws[i], s))
  }

  /** A session step together with the connect switches after their callbacks. */
  datatype SwitchStep = SwitchStep(step: Session.Step, switches: seq<ConnectSwitch>)

  /** `async_turn_off` of the connect switch kills the session; the handlers
      `kill` invokes refresh their switches. A switch of an account grill
      that had a snapshot, registered for that grill, then reads off; a
      switch whose handler was not invoked keeps its last copy. */
  function ConnectTurnOff(c: Session.Client, ws: seq<ConnectSwitch>, now: int): (r: SwitchStep)
    ensures !r.step.client.life.running
    ensures r.step.client.store.Keys == c.store.Keys
    ensures |r.switches| == |ws|
    ensures forall i :: 0 <= i < |ws| ==> r.switches[i].grill == ws[i].grill && r.switches[i].handler == ws[i].handler
    ensures forall i ::
      (&& 0 <= i < |ws| && c.life.running && ws[i].grill in c.store && ws[i].grill in c.grills
       && ws[i].handler in HandlersOf(c.callbacks, ws[i].grill))
      ==> !ConnectIsOn(r.switches[i].cache)
    ensures forall i :: 0 <= i < |ws| && ws[i].handler !in r.step.fired ==> r.switches[i] == ws[i]
    ensures !c.life.running ==> r.switches == ws
  {
    var s := Session.KillSession(c, now);
    var r := SwitchStep(s, NotifyAll(ws, s));
    forall i | 0 <= i < |ws| && c.life.running && ws[i].grill in c.store &&
      ws[i].handler in HandlersOf(c.callbacks, ws[i].grill) && ws[i].grill in c.grills
      ensures !ConnectIsOn(r.switches[i].cache)
    {
      var j :| 0 <= j < |c.grills| && c.grills[j] == ws[i].grill;
      Session.KillFiresExactly(c.grills, c.store, c.callbacks, ws[i].handler);
    }
    r
  }

  /** Turning the connect switch off twice is the same as once: the second
      kill changes nothing and invokes no handler. */
  lemma ConnectTurnOffIdempotent(c: Session.Client, ws: seq<ConnectSwitch>, now: int, later: int)
    ensures var once := ConnectTurnOff(c, ws, now);
      ConnectTurnOff(once.step.client, once.switches, later) == SwitchStep(Session.Step(once.step.client, Session.NoAction, [], []), once.switches)
  {
  }

  /** A switch whose grill lost its snapshot after its last refresh (the
      connect and subscribe callbacks drop snapshots without invoking any
      handler) is not refreshed by `kill` and still reads on. */
  lemma StaleConnectSwitchAfterKill()
    ensures var life := Session.Lifecycle(Session.Connected, 0, 0, true, false, 0, 0, 0, false, false);
      var c := Session.Client(life, ["g"], map[], map["g" := [1]]);
      var w := ConnectSwitch("g", 1, ConnectCache(true, true));
      var r := ConnectTurnOff(c, [w], 0);
      !r.step.client.life.running && ConnectIsOn(r.switches[0].cache)
  {
    var life := Session.Lifecycle(Session.Connected, 0, 0, true, false, 0, 0, 0, false, false);
    var c := Session.Client(life, ["g"], map[], map["g" := [1]]);
    assert Session.KillFired(["g"], map[], map["g" := [1]]) == [];
  }

  // ---------------------------------------------------------------------
  // Agreement with the other entities

  /** The switches are usable exactly while the thermostat shows heat. */
  lemma SwitchesFollowHeat(status: Option<GrillStatus>)
    ensures SwitchAvailable(status) <==> Climate.GrillHvac(status) == Climate.Heat
  {
  }

  /** Pellet-outage monitoring only runs while the switches are usable. */
  lemma OutageMonitoringImpliesSwitches(status: Option<GrillStatus>, u: Unit)
    ensures Outage.ShouldMonitor(status, u) ==> SwitchAvailable(status)
  {
  }
}
