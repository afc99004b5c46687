/** The broker session of the cloud client (traeger.py): connection state,
    failure counting with exponential backoff and a retry ceiling, topic
    routing into the device store, callback fan-out, and the kill switch.

    Transport callbacks become pure transitions over one `Client` record.
    Scheduling is not performed here: a transition returns an `Action`
    telling the caller what to schedule. Wall-clock time is the `now`
    parameter. */
module Session {
  import opened Optional
  import opened Telemetry
  import opened Store
  import opened Registry

  datatype ConnState = Disconnected | Connecting | Connected

  const MaxRetryAttempts: nat := 10
  const BaseRetryDelay: nat := 5
  const MaxRetryDelay: nat := 300

  /** The bookkeeping fields of the session, gathered in one record. */
  datatype Lifecycle = Lifecycle(
    state: ConnState,             // connection_state
    consecutiveFailures: nat,
    retryCount: nat,              // connection_retry_count
    running: bool,                // mqtt_thread_running
    refreshing: bool,             // mqtt_thread_refreshing
    lastSuccess: int,             // last_successful_connection
    lastAttempt: int,             // last_connection_attempt
    urlExpires: int,              // mqtt_url_expires
    taskPending: bool,            // a periodic main task is scheduled
    grillsActive: bool)

  /** The session aggregate: lifecycle, the grills of the account, the
      device store and the callback registry. */
  datatype Client = Client(
    life: Lifecycle,
    grills: seq<GrillId>,
    store: DeviceStore,
    callbacks: Callbacks)

  /** What the caller must do after a transition. `ScheduleMain` runs the
      periodic `main` again after the delay. `Kill` means: run `Kill` next
      (the source creates or awaits the kill task). */
  datatype Action = NoAction | ScheduleReconnect(delay: nat) | ScheduleMain(delay: nat) | Kill

  /** The result of a transition: the new client, the action to take, the
      topics to subscribe to and the handlers invoked, in invocation order. */
  datatype Step = Step(client: Client, action: Action, subscribe: seq<string>, fired: seq<HandlerId>)

  // ---------------------------------------------------------------------
  // Backoff

  function Pow2(n: nat): (r: nat)
    ensures r >= 1
  {
    if n == 0 then 1 else 2 * Pow2(n - 1)
  }

  /** Pre-jitter reconnect delay after `n` failures: min(5 * 2^n, 300). */
  function Backoff(n: nat): nat
  {
    var d := BaseRetryDelay * Pow2(n);
    if d < MaxRetryDelay then d else MaxRetryDelay
  }

  lemma {:induction false} Pow2Monotone(m: nat, n: nat)
    requires m <= n
    ensures Pow2(m) <= Pow2(n)
  {
    if m < n {
      Pow2Monotone(m, n - 1);
    }
  }

  /** The delay lies in [5, 300], doubles until it saturates, never shrinks
      as failures accumulate, and is saturated from six failures on. */
  lemma BackoffBounds(m: nat, n: nat)
    requires m <= n
    ensures BaseRetryDelay <= Backoff(n) <= MaxRetryDelay
    ensures Backoff(m) <= Backoff(n)
    ensures n >= 6 ==> Backoff(n) == MaxRetryDelay
    ensures Backoff(n + 1) == if 2 * Backoff(n) < MaxRetryDelay then 2 * Backoff(n) else MaxRetryDelay
  {
    Pow2Monotone(m, n);
    if n >= 6 {
      Pow2Monotone(6, n);
    }
  }

  lemma BackoffExamples()
    ensures Backoff(0) == 5 && Backoff(1) == 10 && Backoff(3) == 40
    ensures Backoff(5) == 160 && Backoff(6) == 300 && Backoff(10) == 300
  {
    BackoffBounds(10, 10);
  }

  /** A token or broker URL is refreshed when under a minute remains. */
  predicate RefreshDue(expires: int, now: int)
  {
    expires - now < 60
  }

  // ---------------------------------------------------------------------
  // Topics

  const TopicPrefix: string := "prod/thing/update/"

  function TopicFor(id: GrillId): string
  {
    TopicPrefix + id
  }

  /** The grill id a message topic is about; `None` for any other topic. */
  function Route(topic: string): Option<GrillId>
  {
    if |topic| >= |TopicPrefix| && topic[..|TopicPrefix|] == TopicPrefix
    then Some(topic[|TopicPrefix|..])
    else None
  }

  /** Routing is exactly the inverse of the subscription topic. */
  lemma RouteInvertsTopic(id: GrillId, topic: string)
    ensures Route(TopicFor(id)) == Some(id)
    ensures Route(topic) == Some(id) ==> topic == TopicFor(id)
  {
    assert TopicFor(id)[..|TopicPrefix|] == TopicPrefix;
    assert TopicFor(id)[|TopicPrefix|..] == id;
    if Route(topic) == Some(id) {
      assert topic == topic[..|TopicPrefix|] + topic[|TopicPrefix|..];
    }
  }

  function Topics(grills: seq<GrillId>): (ts: seq<string>)
    ensures |ts| == |grills|
    ensures forall i :: 0 <= i < |grills| ==> ts[i] == TopicFor(grills[i])
  {
    if |grills| == 0 then [] else [TopicFor(grills[0])] + Topics(grills[1..])
  }

  // ---------------------------------------------------------------------
  // Broker callbacks

  /** The store without the snapshots of the account grills. */
  function DropGrills(st: DeviceStore, grills: seq<GrillId>): (st': DeviceStore)
    ensures st'.Keys == st.Keys - set g | g in grills
    ensures forall i :: 0 <= i < |grills| ==> grills[i] !in st'
    ensures forall k :: k in st' ==> k in st && st'[k] == st[k]
  {
    st - set g | g in grills
  }

  /** `mqtt_onconnect`. On success (rc == 0) the session is connected, both
      counters restart, the cached snapshot of every account grill is
      dropped and every grill's topic is subscribed; otherwise the session
      is disconnected and one more failure is counted, with no reconnect
      scheduled. */
  function OnConnect(c: Client, rc: int, now: int): (r: Step)
    ensures rc == 0 ==>
      && r.client.life == c.life.(state := Connected, consecutiveFailures := 0, retryCount := 0, lastSuccess := now)
      && r.client.store.Keys == c.store.Keys - set g | g in c.grills
      && (forall k :: k in r.client.store ==> k in c.store && r.client.store[k] == c.store[k])
      && |r.subscribe| == |c.grills|
      && (forall i :: 0 <= i < |c.grills| ==> Route(r.subscribe[i]) == Some(c.grills[i]))
    ensures rc != 0 ==>
      && r.client == c.(life := c.life.(state := Disconnected, consecutiveFailures := c.life.consecutiveFailures + 1))
      && r.subscribe == []
    ensures r.action == NoAction && r.fired == []
    ensures r.client.grills == c.grills && r.client.callbacks == c.callbacks
  {
    if rc == 0 then
      var life := c.life.(state := Connected, consecutiveFailures := 0, retryCount := 0, lastSuccess := now);
      var ts := Topics(c.grills);
      forall i | 0 <= i < |c.grills|
        ensures Route(ts[i]) == Some(c.grills[i])
      {
        RouteInvertsTopic(c.grills[i], ts[i]);
      }
      Step(c.(life := life, store := DropGrills(c.store, c.grills)), NoAction, ts, [])
    else
      var life := c.life.(state := Disconnected, consecutiveFailures := c.life.consecutiveFailures + 1);
      Step(c.(life := life), NoAction, [], [])
  }

  /** `mqtt_onconnectfail`: disconnected, one more failure; at the retry
      ceiling the session is killed, below it a reconnect is scheduled
      after the backoff for the already-incremented count. */
  function OnConnectFail(c: Client): (r: Step)
    ensures r.client == c.(life := c.life.(state := Disconnected, consecutiveFailures := c.life.consecutiveFailures + 1))
    ensures r.action == Kill <==> c.life.consecutiveFailures + 1 >= MaxRetryAttempts
    ensures r.action != Kill ==> r.action == ScheduleReconnect(Backoff(c.life.consecutiveFailures + 1))
    ensures r.subscribe == [] && r.fired == []
  {
    var n := c.life.consecutiveFailures + 1;
    var c' := c.(life := c.life.(state := Disconnected, consecutiveFailures := n));
    if n >= MaxRetryAttempts then Step(c', Kill, [], [])
    else Step(c', ScheduleReconnect(Backoff(n)), [], [])
  }

  /** `mqtt_ondisconnect`: always disconnected. Only an unexpected
      disconnect (rc != 0) of a running, non-refreshing session schedules a
      reconnect, with the backoff for the count BEFORE it is incremented. */
  function OnDisconnect(c: Client, rc: int): (r: Step)
    ensures r.client.life.state == Disconnected
    ensures r.client == c.(life := c.life.(state := Disconnected, consecutiveFailures := r.client.life.consecutiveFailures))
    ensures var unexpected := rc != 0 && c.life.running && !c.life.refreshing;
      && (unexpected ==> r.action == ScheduleReconnect(Backoff(c.life.consecutiveFailures))
                         && r.client.life.consecutiveFailures == c.life.consecutiveFailures + 1)
      && (!unexpected ==> r.action == NoAction
                          && r.client.life.consecutiveFailures == c.life.consecutiveFailures)
    ensures r.subscribe == [] && r.fired == []
  {
    var life := c.life.(state := Disconnected);
    if rc != 0 && c.life.running && !c.life.refreshing then
      var delay := Backoff(c.life.consecutiveFailures);
      Step(c.(life := life.(consecutiveFailures := c.life.consecutiveFailures + 1)), ScheduleReconnect(delay), [], [])
    else
      Step(c.(life := life), NoAction, [], [])
  }

  /** `mqtt_onsubscribe`: the cached snapshot of every account grill is
      dropped until the grill publishes again; nothing else changes. The
      state re-request it schedules for each grill is network work left to
      the caller. */
  function OnSubscribe(c: Client): (r: Step)
    ensures forall i :: 0 <= i < |c.grills| ==> c.grills[i] !in r.client.store
    ensures forall k :: k in c.store && k !in c.grills ==> k in r.client.store && r.client.store[k] == c.store[k]
    ensures forall k :: k in r.client.store ==> k in c.store
    ensures r.client == c.(store := r.client.store)
    ensures r.action == NoAction && r.subscribe == [] && r.fired == []
  {
    Step(c.(store := DropGrills(c.store, c.grills)), NoAction, [], [])
  }

  /** How a reconnect attempt ends. `Initiated`: the transport was created
      and `connect` returned. `RefreshFailed`: an exception before the
      connect block (token or URL refresh, client construction).
      `ConnectFailed`: `connect` itself raised, which the connect block
      counts once and the attempt counts again. */
  datatype ReconnectOutcome = Initiated | RefreshFailed | ConnectFailed

  /** `_attempt_reconnect`. Does nothing when the session is not running or
      already refreshing. Otherwise the attempt runs with `refreshing` set
      and clears it at the end; a failed attempt counts failures and asks
      for a kill when the count reaches the ceiling. */
  function AttemptReconnect(c: Client, outcome: ReconnectOutcome, now: int): (r: Step)
    ensures !c.life.running || c.life.refreshing ==> r == Step(c, NoAction, [], [])
    ensures c.life.running && !c.life.refreshing ==>
      && !r.client.life.refreshing
      && r.client.life.running
      && r.client.life.consecutiveFailures == c.life.consecutiveFailures +
           (match outcome case Initiated => 0 case RefreshFailed => 1 case ConnectFailed => 2)
      && (r.action == Kill <==> outcome != Initiated && r.client.life.consecutiveFailures >= MaxRetryAttempts)
      && (r.action != Kill ==> r.action == NoAction)
      && (outcome == Initiated ==> r.client.life.state == Connecting && r.client.life.lastAttempt == now)
      && (outcome == ConnectFailed ==> r.client.life.state == Disconnected && r.client.life.lastAttempt == now)
      && (outcome == RefreshFailed ==> r.client.life.state == c.life.state && r.client.life.lastAttempt == c.life.lastAttempt)
    ensures r.client.grills == c.grills && r.client.store == c.store && r.client.callbacks == c.callbacks
    ensures r.subscribe == [] && r.fired == []
  {
    if !c.life.running || c.life.refreshing then Step(c, NoAction, [], [])
    else
      var l := c.life;
      var l' :=
        match outcome
        case Initiated => l.(state := Connecting, lastAttempt := now)
        case RefreshFailed => l.(consecutiveFailures := l.consecutiveFailures + 1)
        case ConnectFailed => l.(state := Disconnected, lastAttempt := now, consecutiveFailures := l.consecutiveFailures + 2);
      var action := if outcome != Initiated && l'.consecutiveFailures >= MaxRetryAttempts then Kill else NoAction;
      Step(c.(life := l'.(refreshing := false)), action, [], [])
  }

  /** `_force_reconnect`: the failure counter restarts from zero, then a
      normal reconnect attempt runs. */
  function ForceReconnect(c: Client, outcome: ReconnectOutcome, now: int): (r: Step)
    ensures var c0 := c.(life := c.life.(consecutiveFailures := 0));
      r == AttemptReconnect(c0, outcome, now)
    ensures c.life.running && !c.life.refreshing ==>
      r.client.life.consecutiveFailures <= 2 && r.action == NoAction
  {
    AttemptReconnect(c.(life := c.life.(consecutiveFailures := 0)), outcome, now)
  }

  // ---------------------------------------------------------------------
  // The periodic main task

  const HealthCheckAge: int := 3600
  const MinMainDelay: nat := 30

  /** The health check of `main`: the last successful connection is more
      than an hour old and the session is not connected now. A session
      that never connected (`lastSuccess == 0`) has age 0. */
  predicate Stale(l: Lifecycle, now: int)
  {
    l.lastSuccess > 0 && now - l.lastSuccess > HealthCheckAge && l.state != Connected
  }

  /** The delay until the next `main`: the time the broker URL has left,
      but at least 30 s. */
  function MainDelay(expires: int, now: int): (d: nat)
    ensures d >= MinMainDelay
    ensures d == MinMainDelay || d == expires - now
    ensures expires - now >= MinMainDelay ==> d == expires - now
  {
    if expires - now < MinMainDelay then MinMainDelay else expires - now
  }

  /** The health-check part of `main`: a stale session is force-reconnected. */
  function MainHealth(c: Client, force: ReconnectOutcome, now: int): (r: Client)
    ensures Stale(c.life, now) ==> r == ForceReconnect(c, force, now).client
    ensures !Stale(c.life, now) ==> r == c
    ensures !c.life.refreshing ==> !r.life.refreshing
    ensures r.life.running == c.life.running
    ensures r.grills == c.grills && r.store == c.store && r.callbacks == c.callbacks
  {
    if Stale(c.life, now) then ForceReconnect(c, force, now).client else c
  }

  /** The URL-refresh part of `main`. Only when under a minute of the
      broker URL remains: the client is rebuilt with `get_mqtt_client`,
      which takes the refreshed expiry `expires` (the old one when the
      request failed). A started connection marks the session running
      and connecting; a failed `connect` counts one failure there; any
      failure at the ceiling asks for a kill and ends `main` without a new
      schedule. Otherwise `main` schedules itself again. */
  function MainRefresh(c: Client, outcome: ReconnectOutcome, expires: int, now: int): (r: Step)
    ensures !RefreshDue(c.life.urlExpires, now) ==>
      r == Step(c.(life := c.life.(taskPending := true)), ScheduleMain(MainDelay(c.life.urlExpires, now)), [], [])
    ensures RefreshDue(c.life.urlExpires, now) ==>
      && !r.client.life.refreshing
      && r.client.life.urlExpires == expires
      && r.client.life.consecutiveFailures == c.life.consecutiveFailures + (if outcome == ConnectFailed then 1 else 0)
      && r.client.life.running == (c.life.running || outcome == Initiated)
      && (outcome == Initiated ==> r.client.life.state == Connecting && r.client.life.lastAttempt == now)
      && (outcome == ConnectFailed ==> r.client.life.state == Disconnected && r.client.life.lastAttempt == now)
      && (outcome == RefreshFailed ==> r.client.life.state == c.life.state && r.client.life.lastAttempt == c.life.lastAttempt)
      && (r.action == Kill <==> outcome != Initiated && r.client.life.consecutiveFailures >= MaxRetryAttempts)
      && (r.action != Kill ==> r.action == ScheduleMain(MainDelay(expires, now)) && r.client.life.taskPending)
    ensures r.client.grills == c.grills && r.client.store == c.store && r.client.callbacks == c.callbacks
    ensures r.subscribe == [] && r.fired == []
  {
    if !RefreshDue(c.life.urlExpires, now) then
      Step(c.(life := c.life.(taskPending := true)), ScheduleMain(MainDelay(c.life.urlExpires, now)), [], [])
    else
      var l := c.life.(urlExpires := expires);
      var l' :=
        match outcome
        case Initiated => l.(state := Connecting, lastAttempt := now, running := true)
        case RefreshFailed => l
        case ConnectFailed => l.(state := Disconnected, lastAttempt := now, consecutiveFailures := l.consecutiveFailures + 1);
      if outcome != Initiated && l'.consecutiveFailures >= MaxRetryAttempts then
        Step(c.(life := l'.(refreshing := false)), Kill, [], [])
      else
        Step(c.(life := l'.(refreshing := false, taskPending := true)), ScheduleMain(MainDelay(expires, now)), [], [])
  }

  /** `main`: the health check, then the URL refresh. */
  function Main(c: Client, force: ReconnectOutcome, outcome: ReconnectOutcome, expires: int, now: int): (r: Step)
    // the forced reconnect restarts the count, so only the refresh can ask for a kill
    ensures r.action == Kill ==>
      RefreshDue(MainHealth(c, force, now).life.urlExpires, now) && outcome != Initiated
      && r.client.life.consecutiveFailures >= MaxRetryAttempts
    ensures r.action != Kill ==> r.action.ScheduleMain? && r.action.delay >= MinMainDelay && r.client.life.taskPending
    ensures Stale(c.life, now) && c.life.running && !c.life.refreshing ==> r.action != Kill
    ensures r.client.grills == c.grills && r.client.store == c.store && r.client.callbacks == c.callbacks
    ensures r.subscribe == [] && r.fired == []
  {
    MainRefresh(MainHealth(c, force, now), outcome, expires, now)
  }

  // ---------------------------------------------------------------------
  // Kill

  /** A snapshot with its grill marked offline. */
  function Offline(s: Snapshot): Snapshot
  {
    s.(status := s.status.(connected := false))
  }

  /** Handlers invoked by `kill`: for each account grill in order, the
      handlers of that grill when it has a snapshot. */
  function KillFired(grills: seq<GrillId>, st: DeviceStore, cb: Callbacks): seq<HandlerId>
  {
    if |grills| == 0 then []
    else (if grills[0] in st then HandlersOf(cb, grills[0]) else []) + KillFired(grills[1..], st, cb)
  }

  /** `kill`. A session that is not running is left as it is. A running
      one stops: no pending task, not running, disconnected, the broker URL
      expired at `now`, every account grill with a snapshot marked offline
      and its handlers invoked. */
  function KillSession(c: Client, now: int): (r: Step)
    ensures !c.life.running ==> r == Step(c, NoAction, [], [])
    ensures c.life.running ==>
      && r.client.life == c.life.(running := false, state := Disconnected, taskPending := false, urlExpires := now)
      && r.client.store.Keys == c.store.Keys
      && (forall k :: k in c.store ==>
            r.client.store[k] == if k in c.grills then Offline(c.store[k]) else c.store[k])
      && r.fired == KillFired(c.grills, c.store, c.callbacks)
    ensures r.client.grills == c.grills && r.client.callbacks == c.callbacks
    ensures r.action == NoAction && r.subscribe == []
  {
    if !c.life.running then Step(c, NoAction, [], [])
    else
      var life := c.life.(running := false, state := Disconnected, taskPending := false, urlExpires := now);
      var st := map k | k in c.store :: if k in c.grills then Offline(c.store[k]) else c.store[k];
      Step(c.(life := life, store := st), NoAction, [], KillFired(c.grills, c.store, c.callbacks))
  }

  /** Every handler of every account grill that has a snapshot is invoked
      by `kill`, and nothing else is. */
  lemma {:induction false} KillFiresExactly(grills: seq<GrillId>, st: DeviceStore, cb: Callbacks, h: HandlerId)
    ensures h in KillFired(grills, st, cb) <==>
      exists i :: 0 <= i < |grills| && grills[i] in st && h in HandlersOf(cb, grills[i])
  {
    if |grills| > 0 {
      KillFiresExactly(grills[1..], st, cb, h);
      if h in KillFired(grills[1..], st, cb) {
        var i :| 0 <= i < |grills[1..]| && grills[1..][i] in st && h in HandlersOf(cb, grills[1..][i]);
        assert grills[i + 1] == grills[1..][i];
      }
      if exists i :: 0 <= i < |grills| && grills[i] in st && h in HandlersOf(cb, grills[i]) {
        var i :| 0 <= i < |grills| && grills[i] in st && h in HandlersOf(cb, grills[i]);
        if i > 0 {
          assert grills[1..][i - 1] == grills[i];
        }
      }
    }
  }

  /** `kill` is idempotent: a second kill changes nothing and invokes no
      handler; afterwards the broker URL is due for refresh. */
  lemma KillIdempotent(c: Client, now: int, later: int)
    requires now <= later
    ensures var k := KillSession(c, now).client;
      KillSession(k, later) == Step(k, NoAction, [], [])
    ensures c.life.running ==> RefreshDue(KillSession(c, now).client.life.urlExpires, later)
  {
  }

  // ---------------------------------------------------------------------
  // Messages and registration

  /** A grill is doing work: connected and in a mode from igniting to cool down. */
  predicate ActiveGrill(s: Snapshot)
  {
    s.status.connected && 4 <= s.status.systemStatus <= 8
  }

  /** The activity scan of `mqtt_onmessage`: walks the account grills in
      order, stopping at the first one without a snapshot. */
  function ScanActive(grills: seq<GrillId>, st: DeviceStore): bool
  {
    if |grills| == 0 || grills[0] !in st then false
    else ActiveGrill(st[grills[0]]) || ScanActive(grills[1..], st)
  }

  /** The scan finds an active grill exactly when one appears before the
      first grill that has no snapshot. */
  lemma {:induction false} ScanActiveSpec(grills: seq<GrillId>, st: DeviceStore)
    ensures ScanActive(grills, st) <==>
      exists i :: 0 <= i < |grills| && (forall j :: 0 <= j <= i ==> grills[j] in st) && ActiveGrill(st[grills[i]])
  {
    if |grills| > 0 && grills[0] in st {
      var rest := grills[1..];
      ScanActiveSpec(rest, st);
      if ScanActive(grills, st) && !ActiveGrill(st[grills[0]]) {
        var i :| 0 <= i < |rest| && (forall j :: 0 <= j <= i ==> rest[j] in st) && ActiveGrill(st[rest[i]]);
        assert forall j :: 0 <= j <= i + 1 ==> grills[j] in st by {
          forall j | 0 <= j <= i + 1 ensures grills[j] in st {
            if j > 0 { assert grills[j] == rest[j - 1]; }
          }
        }
        assert grills[i + 1] == rest[i];
      }
      if exists i :: 0 <= i < |grills| && (forall j :: 0 <= j <= i ==> grills[j] in st) && ActiveGrill(st[grills[i]]) {
        var i :| 0 <= i < |grills| && (forall j :: 0 <= j <= i ==> grills[j] in st) && ActiveGrill(st[grills[i]]);
        if i > 0 {
          assert rest[i - 1] == grills[i];
          assert forall j :: 0 <= j <= i - 1 ==> rest[j] in st by {
            forall j | 0 <= j <= i - 1 ensures rest[j] in st {
              assert rest[j] == grills[j + 1];
            }
          }
        }
      }
    }
  }

  /** `mqtt_onmessage`. A topic outside the update prefix, or a payload that
      does not parse (`None`), changes nothing. Otherwise the grill's
      snapshot is replaced wholesale, its handlers fire in registration
      order, and `grillsActive` latches on when the activity scan succeeds. */
  function OnMessage(c: Client, topic: string, payload: Option<Snapshot>): (r: Step)
    ensures Route(topic).None? || payload.None? ==> r == Step(c, NoAction, [], [])
    ensures Route(topic).Some? && payload.Some? ==>
      var id := Route(topic).value;
      && r.client.store == c.store[id := payload.value]
      && r.fired == HandlersOf(c.callbacks, id)
      && r.client.life == c.life.(grillsActive := c.life.grillsActive || ScanActive(c.grills, r.client.store))
    ensures r.client.grills == c.grills && r.client.callbacks == c.callbacks
    ensures c.life.grillsActive ==> r.client.life.grillsActive
    ensures r.action == NoAction && r.subscribe == []
  {
    match Route(topic)
    case None => Step(c, NoAction, [], [])
    case Some(id) =>
      match payload
      case None => Step(c, NoAction, [], [])
      case Some(p) =>
        var st := c.store[id := p];
        var active := c.life.grillsActive || ScanActive(c.grills, st);
        Step(c.(store := st, life := c.life.(grillsActive := active)), NoAction, [], HandlersOf(c.callbacks, id))
  }

  /** `set_callback_for_grill` on the session. */
  function RegisterCallback(c: Client, id: GrillId, h: HandlerId): (c': Client)
    ensures HandlersOf(c'.callbacks, id) == HandlersOf(c.callbacks, id) + [h]
    ensures c' == c.(callbacks := c'.callbacks)
  {
    c.(callbacks := Register(c.callbacks, id, h))
  }

  /** A message for a grill invokes every registration of its handlers,
      duplicates included, and the newest registration last. */
  lemma MessageFiresRegistered(c: Client, id: GrillId, h: HandlerId, p: Snapshot)
    ensures var c' := RegisterCallback(RegisterCallback(c, id, h), id, h);
      var r := OnMessage(c', TopicFor(id), Some(p));
      && multiset(r.fired)[h] == multiset(HandlersOf(c.callbacks, id))[h] + 2
      && r.fired[|r.fired| - 1] == h
      && r.client.store[id] == p
  {
    RouteInvertsTopic(id, TopicFor(id));
    var c1 := RegisterCallback(c, id, h);
    var c2 := RegisterCallback(c1, id, h);
    assert HandlersOf(c2.callbacks, id) == HandlersOf(c.callbacks, id) + [h] + [h];
  }

  // ---------------------------------------------------------------------
  // The session as one state machine

  datatype Event =
    | ConnAck(rc: int)
    | ConnectFail
    | Disconnect(rc: int)
    | Reconnect(outcome: ReconnectOutcome)
    | Force(outcome: ReconnectOutcome)
    | Stop
    | Message(topic: string, payload: Option<Snapshot>)
    | Subscribe(id: GrillId, h: HandlerId)
    | SubAck
    | Tick(force: ReconnectOutcome, refresh: ReconnectOutcome, expires: int)

  function Next(c: Client, e: Event, now: int): Step
  {
    match e
    case ConnAck(rc) => OnConnect(c, rc, now)
    case ConnectFail => OnConnectFail(c)
    case Disconnect(rc) => OnDisconnect(c, rc)
    case Reconnect(o) => AttemptReconnect(c, o, now)
    case Force(o) => ForceReconnect(c, o, now)
    case Stop => KillSession(c, now)
    case Message(t, p) => OnMessage(c, t, p)
    case Subscribe(id, h) => Step(RegisterCallback(c, id, h), NoAction, [], [])
    case SubAck => OnSubscribe(c)
    case Tick(force, refresh, expires) => Main(c, force, refresh, expires, now)
  }

  /** The failure counter never goes down except on a successful connect
      acknowledgement or a forced reconnect, requested directly or by the
      health check of `main`. */
  lemma FailuresOnlyResetOnSuccessOrForce(c: Client, e: Event, now: int)
    ensures Next(c, e, now).client.life.consecutiveFailures < c.life.consecutiveFailures ==>
      e == ConnAck(0) || e.Force? || (e.Tick? && Stale(c.life, now))
    ensures e == ConnAck(0) ==> Next(c, e, now).client.life.consecutiveFailures == 0
  {
  }

  /** Kill is requested exactly when a failure leaves the counter at the
      ceiling: a broker connect failure, a failed reconnect attempt, or a
      failed URL refresh in `main`. */
  lemma KillExactlyAtCeiling(c: Client, e: Event, now: int)
    ensures Next(c, e, now).action == Kill <==>
      && Next(c, e, now).client.life.consecutiveFailures >= MaxRetryAttempts
      && (|| e.ConnectFail?
          || ((e.Reconnect? || e.Force?) && c.life.running && !c.life.refreshing && e.outcome != Initiated)
          || (e.Tick? && RefreshDue(MainHealth(c, e.force, now).life.urlExpires, now) && e.refresh != Initiated))
  {
  }

  /** Outside of an attempt the session is never left refreshing: every
      transition keeps `refreshing` false. */
  lemma RefreshingStaysClear(c: Client, e: Event, now: int)
    requires !c.life.refreshing
    ensures !Next(c, e, now).client.life.refreshing
  {
  }

  /** Only `kill` stops a running session, and only a connection started by
      the URL refresh of `main` starts one. */
  lemma RunningOnlyStoppedByKill(c: Client, e: Event, now: int)
    ensures Next(c, e, now).client.life.running && !c.life.running ==>
      e.Tick? && e.refresh == Initiated && RefreshDue(c.life.urlExpires, now)
    ensures c.life.running && !Next(c, e, now).client.life.running ==> e == Stop
  {
  }
}
