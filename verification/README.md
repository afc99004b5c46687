# Traeger Home Assistant integration: a Dafny model

This project models the decision logic of the Traeger WiFIRE integration for Home Assistant. The integration keeps a broker session with the Traeger cloud. It stores the last telemetry snapshot of each grill, derives entity states from those snapshots, and sends short command strings to the grill.

The model covers:

- **Session bookkeeping** (`Session`, `Store`, `Registry`, `Commands`, `Decimal`):
  - the connection state, the failure counter and the exponential backoff;
  - the broker callbacks, the reconnect attempts, the periodic `main` task and `kill`;
  - routing of `prod/thing/update/<id>` messages;
  - the absence-safe getters over the snapshot store;
  - the per-grill callback registry;
  - the command strings ("90", "11,t", "14,t", "12,s", "17", switch codes).
- **Probe reliability** (`Reliability`): per-probe counters, a ten-entry history, grace-period availability, the temperature plausibility filter, the quality score and the target backup.
- **Pellet-outage detection** (`Outage`): the monitoring gate, the ten-minute sample window, peak scan and detection, the reset rules and the latched flag.
- **Display state** (`Sensors`, `Climate`, `Switches`):
  - the grill-state names;
  - the heating-state hysteresis machine;
  - the probe state with its latched alarm and fell-out priority;
  - probe availability;
  - the thermostat mappings, limits and presets;
  - the switch guards and setup gating.
- **Entity naming** (`Naming`): the friendly-name fallback, the entity-id base and the entity name.
- **Constants** (`Consts`): mode codes, temperature floors, outage thresholds and the probe preset table.

Modelling choices:

- Everything is a pure function over immutable records.
- The wall clock is an integer parameter `now`.
- A broker callback returns the new session together with an action (`NoAction`, `ScheduleReconnect(delay)` or `Kill`). It also returns the topics to subscribe to and the handlers it invokes.
- Scheduling is left to the caller.
- Where the Python code raises on a missing key, the model usually returns `None` or sends no command. Examples: a switch turned on with no status, an unknown preset name, a probe thermostat without its accessory. The places where it does not are listed under "## Left out".
- `Option.None` in a telemetry field stands for an absent key, never for a JSON `null`.

Deliberate behaviour kept as written: when creating the broker client fails inside `_attempt_reconnect`, the failure counter goes up twice. It goes up once in `get_mqtt_client` (custom_components/traeger/traeger.py:254) and once in the attempt's handler (line 560). `Session.AttemptReconnect` models this as the `ConnectFailed` outcome, which adds 2.

## Model

| member | source | states |
|---|---|---|
| Session.BackoffBounds | custom_components/traeger/traeger.py:59-60 | The pre-jitter delay `min(5·2^n, 300)` lies in [5, 300], never shrinks as n grows, doubles until it saturates, and is 300 from n = 6 on |
| Session.BackoffExamples | custom_components/traeger/traeger.py:288 | Concrete delays: 5, 10, 40, 160, 300, 300 for 0, 1, 3, 5, 6, 10 failures |
| Session.RouteInvertsTopic | custom_components/traeger/traeger.py:306-307 | Routing a message topic recovers exactly the grill whose update topic it is, and no other topic routes to that grill |
| Session.Topics | custom_components/traeger/traeger.py:268-273 | One subscription topic per account grill, in account order |
| Session.OnConnect | custom_components/traeger/traeger.py:260-277 | rc = 0: connected; failure and retry counters zeroed; last success = now; every account grill's snapshot dropped and nothing else changed; one subscription per grill routing back to it. rc ≠ 0: disconnected, one more failure, no subscription. No reconnect is scheduled either way |
| Session.OnConnectFail | custom_components/traeger/traeger.py:278-292 | Disconnected with one more failure; Kill exactly when the new count reaches 10, otherwise a reconnect after the backoff of the incremented count |
| Session.OnDisconnect | custom_components/traeger/traeger.py:325-337 | Always disconnected. Only an unexpected disconnect of a running, non-refreshing session schedules a reconnect, using the backoff of the count before it is incremented; otherwise the count is unchanged |
| Session.AttemptReconnect | custom_components/traeger/traeger.py:539-566 | A no-op unless running and not refreshing. Afterwards the session is not refreshing; failures grow by 0, 1 or 2 by outcome; Kill exactly when a failed attempt reaches the ceiling; store, grills and callbacks unchanged |
| Session.ForceReconnect | custom_components/traeger/traeger.py:568-572 | An attempt after zeroing the counter; a live session therefore never gets Kill from it and ends with at most 2 failures |
| Session.OnSubscribe | custom_components/traeger/traeger.py:293-302 | Every account grill's snapshot is dropped; other grills' snapshots, the session state and the callbacks are unchanged; nothing is scheduled or invoked |
| Session.DropGrills | custom_components/traeger/traeger.py:294-298 | Exactly the account grills leave the store; every other snapshot stays as it was |
| Session.MainDelay | custom_components/traeger/traeger.py:435-439 | The time the broker URL has left, but never under 30 s |
| Session.MainHealth | custom_components/traeger/traeger.py:410-416 | A session whose last success is over an hour old and that is not connected is force-reconnected; otherwise nothing changes; running, store and callbacks are untouched |
| Session.MainRefresh | custom_components/traeger/traeger.py:418-439 | Without a URL due: main reschedules itself after the URL's remaining time (at least 30 s). With one due: the new expiry is taken; a started connection marks the session running and connecting; a failed connect adds one failure; refreshing ends clear; Kill exactly when a failure leaves the counter at 10 or more, otherwise main is rescheduled |
| Session.Main | custom_components/traeger/traeger.py:406-439 | Kill only from a failed URL refresh at the ceiling, never from the health check of a live session; otherwise main is rescheduled after at least 30 s |
| Session.KillSession | custom_components/traeger/traeger.py:441-490 | Not running: nothing changes. Running: stopped, disconnected, task cleared, URL expiry = now, every cached account grill marked offline (other snapshots untouched), and that grill's handlers invoked |
| Session.KillFiresExactly | custom_components/traeger/traeger.py:475-486 | A handler is invoked by kill iff it is registered for an account grill that has a snapshot |
| Session.KillIdempotent | custom_components/traeger/traeger.py:441-490 | A second kill changes nothing and invokes nothing; after a kill the broker URL is due for refresh |
| Session.ScanActiveSpec | custom_components/traeger/traeger.py:312-320 | The activity scan is true iff some account grill, reached before any grill without a snapshot, is connected with mode 4 to 8 |
| Session.OnMessage | custom_components/traeger/traeger.py:303-320 | Foreign topics and unparsable payloads change nothing. Otherwise the grill's snapshot is replaced wholesale, its handlers fire in registration order, and `grills_active` latches true when the scan finds activity |
| Session.RegisterCallback | custom_components/traeger/traeger.py:137-140 | The handler is appended to the grill's list; nothing else in the session changes |
| Session.MessageFiresRegistered | custom_components/traeger/traeger.py:309-311 | A handler registered twice fires twice more than before, last, on a message for its grill |
| Session.FailuresOnlyResetOnSuccessOrForce | custom_components/traeger/traeger.py:260-292 | Over every event (callbacks, attempts, main, kill, messages, registrations), the failure counter decreases only on a successful connect or a forced reconnect, including the one main's health check makes; a successful connect zeroes it |
| Session.KillExactlyAtCeiling | custom_components/traeger/traeger.py:278-292 | Over every event, Kill is requested exactly when the counter ends at 10 or more after a connect failure, a failed reconnect attempt, or a failed URL refresh in main (lines 426-431) |
| Session.RefreshingStaysClear | custom_components/traeger/traeger.py:565-566 | No event leaves a non-refreshing session refreshing. Attempts and main's refresh are single events here, so no other event runs while the flag is set (see "## Left out") |
| Session.RunningOnlyStoppedByKill | custom_components/traeger/traeger.py:441-454 | Only kill stops a running session; only a connection started by main's URL refresh (lines 247-248) starts one |
| Registry.Register | custom_components/traeger/traeger.py:137-140 | Appends the handler to the grill's list (creating it), leaves other grills' lists alone |
| Registry.RegisterCounts | custom_components/traeger/traeger.py:137-140 | No deduplication: each registration adds exactly one occurrence of the handler |
| Store.GetState | custom_components/traeger/traeger.py:348-351 | `None` iff the grill has no snapshot, otherwise its status |
| Store.GetDetails | custom_components/traeger/traeger.py:353-356 | `None` iff no snapshot, otherwise its details |
| Store.GetLimits | custom_components/traeger/traeger.py:358-361 | `None` iff no snapshot, otherwise its limits |
| Store.GetSettings | custom_components/traeger/traeger.py:363-366 | `None` iff no snapshot, otherwise its settings |
| Store.GetFeatures | custom_components/traeger/traeger.py:368-371 | `None` iff no snapshot, otherwise its features |
| Store.GettersAgree | custom_components/traeger/traeger.py:348-371 | The five getters are all present or all absent |
| Store.CloudConnect | custom_components/traeger/traeger.py:373-376 | True iff the grill has a snapshot and the session is running and connected |
| Store.UnitsFor | custom_components/traeger/traeger.py:378-385 | Fahrenheit without a snapshot; Celsius iff `units == 0` |
| Store.FirstAccessory | custom_components/traeger/traeger.py:391-394 | The index of the first accessory with the uuid, or `None` when none has it |
| Store.AccessoryFor | custom_components/traeger/traeger.py:387-394 | `None` without a snapshot; a result is one of the grill's accessories with that uuid; found whenever one exists |
| Store.GrillAvailable | custom_components/traeger/sensor.py:73-79 | A grill entity is available iff a snapshot exists and reports connected; availability implies cloud-connect while connected |
| Commands.EncodeDecode | custom_components/traeger/traeger.py:112-128 | Decoding any encoded command gives the command back (switch codes up to the coinciding plain commands) |
| Commands.EncodeInjective | custom_components/traeger/traeger.py:112-128 | Two commands with the same string have the same canonical form: only a switch code that equals a plain command's code (90, 17) shares its string |
| Commands.GrillTempDecodes | custom_components/traeger/traeger.py:115-116 | "11," and the temperature decode to the set-temperature command |
| Commands.ProbeTempDecodes | custom_components/traeger/traeger.py:118-119 | "14," and the temperature decode to the probe command |
| Commands.TimerDecodes | custom_components/traeger/traeger.py:127-128 | "12," and the seconds decode to the timer command |
| Commands.SwitchRoundTrip | custom_components/traeger/traeger.py:121-122 | A switch code's decimal string decodes back to it |
| Commands.ParameterRoundTrip | custom_components/traeger/traeger.py:115-128 | A two-character prefix, a comma and a decimal number split back into prefix and number |
| Decimal.IntRoundTrip | custom_components/traeger/traeger.py:116 | Reading back the decimal text of an integer gives the integer |
| Decimal.IntToStringInjective | custom_components/traeger/traeger.py:116 | Distinct integers have distinct decimal text |
| Reliability.AppendHistory | custom_components/traeger/entity.py:152-161 | The event is appended last; the oldest entry is dropped once there are 10; the cap is kept |
| Reliability.IsValidTemperature | custom_components/traeger/entity.py:227-242 | Accepted iff present, within [-10, 600], and within 100 of the last valid reading when there is one |
| Reliability.UpdateRecord | custom_components/traeger/entity.py:147-200 | Connected: last-connected = now, consecutive failures reset iff first connect or gap over 5 s, temperature accepted, rejected or ignored as the filter says. Disconnected: last-disconnected = now, both counters +1, grace = now + 30·n for n ≤ 3, otherwise unchanged |
| Reliability.Update | custom_components/traeger/entity.py:147-149 | Only the updated probe's record changes |
| Reliability.ShouldShowAvailable | custom_components/traeger/entity.py:202-214 | Available iff raw-connected or still inside the grace period |
| Reliability.BackupTarget | custom_components/traeger/entity.py:216-220 | A positive target is stored; zero or negative changes nothing; other probes untouched |
| Reliability.BackupRoundTrip | custom_components/traeger/entity.py:216-225 | The getter returns the last positive target stored, `None` for a fresh probe |
| Reliability.Quality | custom_components/traeger/entity.py:244-260 | The score lies in [0, 100] and is 50 with fewer than two history entries |
| Reliability.QualityExtremes | custom_components/traeger/entity.py:252-260 | An all-connected recent history without outstanding failures scores 100 |
| Reliability.QualityPenalised | custom_components/traeger/entity.py:256-260 | More consecutive failures never raise the score; four or more cap it at 20 |
| Reliability.QualityExample | custom_components/traeger/entity.py:252-260 | Four connected of five with one failure score 60 |
| Reliability.UpdatePreservesHealthy | custom_components/traeger/entity.py:152-200 | Updates at non-decreasing times keep the history within 10 and the grace within 90 s of the latest disconnect |
| Reliability.GraceSchedule | custom_components/traeger/entity.py:188-200 | Successive disconnects grant 30, 60 and 90 s; the fourth leaves the grace where it was |
| Naming.CollapseRun | custom_components/traeger/entity.py:69 | Each maximal whitespace run becomes exactly one `_` in its place: a run between text ending in a non-space (or nothing) and text starting with a non-space collapses to the two sides' collapsed forms joined by one `_` |
| Naming.CollapseNoSpace | custom_components/traeger/entity.py:69 | Text without whitespace is left as it is |
| Naming.CollapseTwoWords | custom_components/traeger/entity.py:69 | Two space-free words with a whitespace run between them become the words joined by one `_` |
| Naming.SlugifyTwoWords | custom_components/traeger/entity.py:65-69 | Two words of letters and digits with a whitespace run between them clean to their lower-cased forms joined by one `_` ("My  Grill" becomes "my_grill") |
| Naming.CollapseExample | custom_components/traeger/entity.py:69 | "my  grill" collapses to "my_grill" |
| Naming.SlugifySpec | custom_components/traeger/entity.py:68-69 | The cleaned name is a slug whose letters and digits are exactly the name's lower-cased letters and digits, in order |
| Naming.StripBrandSlug | custom_components/traeger/entity.py:70-72 | Dropping a leading "traeger_" keeps a slug a slug |
| Naming.IdBodySpec | custom_components/traeger/entity.py:68-80 | The part before the suffix is a non-empty slug, and "grill" when the name has no letter or digit |
| Naming.EntityIdBaseSpec | custom_components/traeger/entity.py:62-80 | The id base is a non-empty slug, `_`, and the grill id's last four characters |
| Naming.Last | custom_components/traeger/entity.py:75 | The last k characters, or the whole text when it is shorter |
| Naming.FriendlyName | custom_components/traeger/entity.py:41-60 | The stripped friendly name when non-blank, otherwise "Traeger " and the id's last eight characters; never blank at the front |
| Naming.EntityName | custom_components/traeger/entity.py:82-88 | The id's last four characters, `_`, and the base name with no spaces left, character for character |
| Naming.Underscored | custom_components/traeger/entity.py:87 | Same length; each character lower-cased with spaces turned into underscores |
| Outage.TruncDiv | custom_components/traeger/binary_sensor.py:66 | Python's `int(a / b)`: the quotient truncated toward zero |
| Outage.DropThresholdAsWritten | custom_components/traeger/binary_sensor.py:60-74 | Defaults 50 F / 28 C; a configured Fahrenheit value is used as is; a configured Celsius value is `(x - 32) · 5 / 9` truncated, which is zero or less for any x under 34 |
| Outage.DropThreshold | custom_components/traeger/binary_sensor.py:60-74 | The corrected conversion (see Findings): the same defaults and Fahrenheit value; a configured Celsius value is `x · 5 / 9` truncated toward zero (`0 <= 5x - 9t < 9` for x >= 0, `-9 < 5x - 9t <= 0` below); a value in [20, 100] converts to a Celsius difference in [11, 100] |
| Outage.AsWrittenThresholds | custom_components/traeger/binary_sensor.py:60-74 | As written, 20 converts to -6 and 50 to 10 in Celsius, against the default 28 |
| Outage.TimeThreshold | custom_components/traeger/binary_sensor.py:76-80 | The configured value, or 300 s when none is set |
| Outage.ShouldMonitor | custom_components/traeger/binary_sensor.py:117-135 | Monitoring iff a status exists, its mode is 4-7, and its target is at least 200 F, or 93 C on a Celsius grill |
| Outage.UpdateHistory | custom_components/traeger/binary_sensor.py:137-155 | Cleared when not monitoring; otherwise ends with the current sample, keeps only samples newer than now - 600, and keeps nothing that was not in the history before |
| Outage.UpdateKeepsRecent | custom_components/traeger/binary_sensor.py:151-155 | Every earlier sample newer than ten minutes survives the update |
| Outage.KeepAfterAppend | custom_components/traeger/binary_sensor.py:153-155 | Filtering distributes over concatenation |
| Outage.KeepAfterSubset | custom_components/traeger/binary_sensor.py:153-155 | Only samples of the history are kept |
| Outage.KeepAfterKeeps | custom_components/traeger/binary_sensor.py:153-155 | Every sample newer than the cutoff is kept |
| Outage.KeepAfterOrdered | custom_components/traeger/binary_sensor.py:153-155 | Filtering keeps time order |
| Outage.HistoryStaysOrdered | custom_components/traeger/binary_sensor.py:144-155 | With a clock that does not run backwards the history stays in time order |
| Outage.ScanStart | custom_components/traeger/binary_sensor.py:175-177 | The newest-first scan covers exactly the suffix of samples at or after the threshold time |
| Outage.Peak | custom_components/traeger/binary_sensor.py:173-178 | The peak is at least the current temperature, bounds every scanned sample, and is the current temperature or a scanned one |
| Outage.SomeAtOrBefore | custom_components/traeger/binary_sensor.py:186-188 | True iff some sample is at or before the threshold time |
| Outage.Detect | custom_components/traeger/binary_sensor.py:157-190 | True iff there are two samples, the latest is more than the threshold below its target, a scanned sample exceeds it by more than the threshold, and some sample is old enough |
| Outage.AnyFar | custom_components/traeger/binary_sensor.py:207-210 | True iff some earlier target differs from the latest by more than the limit |
| Outage.Reset | custom_components/traeger/binary_sensor.py:192-210 | The flag survives iff it was set, monitoring continues, and no earlier target is more than 25 F / 14 C from the latest |
| Outage.RefreshWith | custom_components/traeger/binary_sensor.py:212-224 | Update, reset, detect, for given thresholds: the history is the updated one; not monitoring gives the initial detector; a set flag implies monitoring and stays set until the target jumps; otherwise the flag is the fresh detection |
| Outage.Refresh | custom_components/traeger/binary_sensor.py:212-224 | The refresh as written: the same steps with the time threshold from the options and the drop converted as written |
| Outage.RefreshCorrected | custom_components/traeger/binary_sensor.py:212-224 | The refresh with the corrected drop conversion; same history and latching as the as-written refresh |
| Outage.FlagLatches | custom_components/traeger/binary_sensor.py:219-224 | A raised flag stays raised across any refresh while monitoring with an unchanged target |
| Outage.AsWrittenFlagsGrillAtTarget | custom_components/traeger/binary_sensor.py:60-67 | The as-written refresh of a Celsius grill with a 20 F drop option reports a grill sitting exactly at its 100 C target out of pellets |
| Outage.NeverFlagsAtTarget | custom_components/traeger/binary_sensor.py:157-190 | With the corrected threshold, detection never fires for a grill at or above its target |
| Outage.CorrectedNeverFlagsAtTarget | custom_components/traeger/binary_sensor.py:212-224 | The corrected refresh never raises the flag for a grill at or above its target; only an already latched flag stays up |
| Outage.RefreshAttributes | custom_components/traeger/binary_sensor.py:117-155 | A refresh succeeds iff the sensor's attributes are assigned, and then updates the history as the refresh does |
| Outage.ConstructAsWritten | custom_components/traeger/binary_sensor.py:44-58 | The constructor fails exactly when the refresh the base constructor runs fails |
| Outage.AsWrittenConstructionFails | custom_components/traeger/entity.py:12-16 | As written, constructing the sensor fails for every store content |
| Outage.Construct | custom_components/traeger/binary_sensor.py:44-58 | With the attributes assigned first, construction succeeds, keeps at most the current sample and raises no flag |
| Sensors.GrillStateName | custom_components/traeger/sensor.py:160-184 | "unknown" exactly for the codes outside 2-9 and 99 |
| Sensors.GrillStateNameInjective | custom_components/traeger/sensor.py:160-184 | Distinct known codes have distinct names |
| Sensors.HeatingStep | custom_components/traeger/sensor.py:207-274 | One read of the state. No status: idle, memory kept. Preheat modes: preheating below the minimum cook temperature, else heating. Cool-down mode shows cool_down; other non-cook modes are idle. Cook modes with a changed target: heating if at or below it, else cooling. Same target: heating/preheating go to at_temp iff the grill reaches the target; cooling goes to at_temp iff it is at or below it; at_temp goes to over_temp above the band, under_temp below it, else stays; under_temp returns iff above the band's low edge; over_temp returns iff below the high edge; idle or cool_down start over at heating or cooling. Memory records the state and target |
| Sensors.HeatNameInjective | custom_components/traeger/sensor.py:207-274 | The names `HeatName` reports (idle, preheating, heating, at_temp, cooling, over_temp, under_temp, cool_down) are pairwise distinct, so the string identifies the state |
| Sensors.HeatingSettles | custom_components/traeger/sensor.py:229-265 | With steady input the machine is at a fixed point after three steps |
| Sensors.HeatingBandHolds | custom_components/traeger/sensor.py:240-246 | At temperature, a reading inside ±swing stays at temperature |
| Sensors.ProbeStep | custom_components/traeger/sensor.py:378-425 | One read of the state. No accessory: idle. Fell-out iff the fell-out signal, with priority. The latch is on iff the alarm fired now, or it was on and neither a new non-zero target nor an inactive mode cleared it; a latched probe shows at_temp, and at_temp implies the latch. Otherwise close or set with a non-zero target in an active mode, split by the 3 C / 5 F margin, and idle without one |
| Sensors.ProbeNameInjective | custom_components/traeger/sensor.py:378-425 | The names `ProbeName` reports (idle, fell_out, at_temp, close, set) are pairwise distinct |
| Sensors.ProbeState | custom_components/traeger/sensor.py:389-411 | A disconnected probe with more than two rejected readings shows fell_out |
| Sensors.FreshProbeNeedsHotReading | custom_components/traeger/sensor.py:394-411 | A probe without recorded failures shows fell_out only at 215 F / 102 C or more |
| Sensors.AccessoryUpdate | custom_components/traeger/sensor.py:315-330 | With an accessory, the probe's record takes one reliability update with `bool(con)` and the reading; other probes and the no-accessory case are unchanged |
| Sensors.ProbeAvailable | custom_components/traeger/sensor.py:339-361 | Available iff the grill is available, the accessory exists, and it is connected or in grace; the alarm is cleared unless the probe is physically connected |
| Sensors.UnpluggedProbeGrace | custom_components/traeger/sensor.py:352-361 | An unplugged probe of a live grill is shown exactly during its grace period, with the alarm cleared |
| Sensors.ProbeSuffix | custom_components/traeger/sensor.py:367-369 | The sensor id's last four characters for ids over eight characters, otherwise the whole id |
| Climate.GrillTarget | custom_components/traeger/climate.py:104-119 | 0 without a status or in modes 99, 3, 2, 9; otherwise the set point |
| Climate.GrillHvac | custom_components/traeger/climate.py:134-163 | Cool iff mode 8; heat iff modes 4-7; off otherwise and without a status |
| Climate.HeatingShowsTarget | custom_components/traeger/climate.py:104-163 | A heating grill shows its set point as target |
| Climate.GrillMin | custom_components/traeger/climate.py:127-132 | 75 C / 165 F |
| Climate.GrillMax | custom_components/traeger/climate.py:121-125 | The grill's limit, or the minimum when limits are unknown |
| Climate.SetGrillHvac | custom_components/traeger/climate.py:178-181 | Off and cool send "17"; heat sends nothing |
| Climate.SetGrillTemperature | custom_components/traeger/climate.py:173-176 | The command decodes back to setting that temperature |
| Climate.PresetsWithinProbeLimits | custom_components/traeger/const.py:66-139 | Every preset lies within the probe limits `Climate.ProbeMin` / `Climate.ProbeMax`, which are the probe thermostat's `min_temp` / `max_temp` of climate.py:254-268: [27, 100] C / [80, 215] F |
| Climate.ProbeAvailable | custom_components/traeger/climate.py:216-226 | Available iff the grill is available and the accessory exists with a non-zero `con` |
| Climate.ProbeTarget | custom_components/traeger/climate.py:248-252 | 0 without an accessory, otherwise its target |
| Climate.ProbeHvac | custom_components/traeger/climate.py:270-283 | Off without a status; heat iff `con == 1`; no value where the source fails on a missing accessory |
| Climate.PresetModeNow | custom_components/traeger/climate.py:292-302 | The selection is kept unless there is no status, no probe connected, or no probe target |
| Climate.FindPreset | custom_components/traeger/climate.py:383 | The index of the first preset with the name, or `None` when no preset has it |
| Climate.SetProbeTemperature | custom_components/traeger/climate.py:349-360 | Clears the preset, backs up a positive target, sends "14,t"; other probes untouched |
| Climate.SetPreset | custom_components/traeger/climate.py:380-391 | Records the selection; an unknown name sends nothing; otherwise the named preset's value in the grill's unit is backed up and sent |
| Climate.ChickenPreset | custom_components/traeger/const.py:67-70 | "Chicken" on a Celsius grill sends 74 |
| Switches.SwitchAvailable | custom_components/traeger/switch.py:114-125 | Available iff a status exists in modes 4-7 |
| Switches.SuperSmokeAvailable | custom_components/traeger/switch.py:157-170 | Additionally needs `super_smoke_enabled == 1` |
| Switches.TurnOn | custom_components/traeger/switch.py:135-142 | The on code (`Switches.OnCode`: 20 super smoke, 18 keep warm) is sent exactly when the switch is available |
| Switches.TurnOff | custom_components/traeger/switch.py:144-151 | The off code (`Switches.OffCode`: 21 super smoke, 19 keep warm) is sent exactly when the switch is available |
| Switches.SwitchCodesDistinct | custom_components/traeger/switch.py:26-48 | The on and off codes 20, 21, 18, 19 given at setup are four distinct codes, and each decodes back to its own switch command |
| Switches.OnOffDistinct | custom_components/traeger/switch.py:26-48 | A switch's on and off strings differ |
| Switches.Setup | custom_components/traeger/switch.py:26-48 | Super smoke first iff the feature flag is 1; keep warm and connect always, last |
| Switches.SetupMatchesAvailability | custom_components/traeger/switch.py:27 | A super-smoke switch that can be available was created at setup |
| Switches.ConnectRefresh | custom_components/traeger/entity.py:19-26 | The connect switch's copy taken at a refresh records a snapshot exactly when the grill has one |
| Switches.ConnectIsOnFresh | custom_components/traeger/switch.py:81-85 | `is_on` reads the copy; right after a refresh it is on iff the grill has a snapshot and the session is running and connected |
| Switches.Notify | custom_components/traeger/entity.py:30-39 | A switch whose handler a step invoked re-reads the client; any other keeps its copy and its grill and handler |
| Switches.ConnectTurnOff | custom_components/traeger/switch.py:92-94 | Turning it off stops the session and the store keeps its grills. A switch of an account grill with a snapshot, registered for that grill, then reads off; a switch whose handler `kill` did not invoke keeps its copy; a stopped session leaves every switch as it was |
| Switches.StaleConnectSwitchAfterKill | custom_components/traeger/traeger.py:479-484 | A switch whose grill lost its snapshot after the switch's last refresh is not refreshed by `kill` and still reads on |
| Switches.ConnectTurnOffIdempotent | custom_components/traeger/switch.py:92-94 | Turning it off twice is the same as once: the second kill changes nothing, invokes no handler and leaves every switch's copy as it was |
| Switches.SwitchesFollowHeat | custom_components/traeger/switch.py:114-125 | The switches are usable exactly while the thermostat shows heat |
| Switches.OutageMonitoringImpliesSwitches | custom_components/traeger/binary_sensor.py:117-135 | Outage monitoring only runs while the switches are usable |

## Left out

- Transport: the paho MQTT client, TLS and websocket setup, the worker thread and its receive loop. These are I/O and threads.
- Scheduling: asyncio `call_later`, `async_create_task`, `call_soon_threadsafe`, and kill's polling wait. Transitions return actions; the caller does the scheduling.
- Reconnect jitter: `random.uniform` adds up to 10 % more. `ScheduleReconnect` carries the delay before jitter.
- HTTP and Cognito: `api_wrapper`, `do_cognito`, `get_user_data`, `update_grills`. The network side of `refresh_token` and `refresh_mqtt_url` is also out. Only the "refresh when under a minute remains" test is kept (`Session.RefreshDue`).
- `start` and `syncmain`: `start` fetches the grill list over HTTP and schedules the first `main`; `syncmain` only wraps `main` in a task. The network and the scheduling are out; `main` itself is modelled.
- The state re-request that `mqtt_onsubscribe` schedules for each grill (`update_state`): network. Dropping the snapshots is modelled.
- The broker URL refresh inside a reconnect attempt (`_attempt_reconnect`, also reached from the health check of `main`): the attempt leaves the URL expiry unchanged. In `main`'s own refresh the new expiry is an input.
- Switches.TurnOn: requires a keep-warm or super-smoke switch. The connect switch's turn-on calls `start(1)`, which is network and scheduling.
- The `is_on` of the keep-warm and super-smoke switches. It reads status keys (`keepwarm`, `smoke`) that the telemetry record does not carry.
- The value sensors (`ValueTemperature`, `PelletSensor`, `GrillTimer`), `number.py`, and `config_flow.py`. number.py relies on float minutes and Python `round`.
- Reliability.Quality: integer arithmetic. The source computes `int(connected / len * 100 - penalty)` in floating point. For the history lengths 1 to 5 that occur, this equals the integer form after clamping.
- Floating-point inputs: temperatures and times are integers. Home Assistant's `round` on a float temperature is not modelled.
- JSON `null` values: `Option.None` is an absent key. A probe reporting `get_temp: null` or `set_temp: null` makes `ProbeState.state` raise a TypeError (sensor.py:396, 416); `Sensors.ProbeStep` reads those as 0 instead. The reliability manager treats a null reading and an absent one alike, so `Reliability` loses nothing.
- Climate.ProbeTarget: a present accessory whose probe lacks `set_temp` gives 0; the source raises a KeyError there (climate.py:252).
- Session.AttemptReconnect: a reconnect attempt, and the URL refresh of `main`, is one atomic event. In the source `mqtt_thread_refreshing` stays set across the awaits inside them (traeger.py:546-558, 419-430), and a disconnect callback or scheduled attempt arriving in that window is dropped by the guards at lines 331, 535 and 541. In the model no event can arrive mid-attempt, so those guards only matter for a caller that starts in a refreshing state, and `Session.RefreshingStaysClear` holds by this construction. Interleavings inside an attempt are not modelled.
- Sensors.HeatingStep: one call is one read of `HeatingState.state`. The property writes its memory on every read, and `icon` reads it again (sensor.py:198-202), so one state write in Home Assistant may step the machine more than once (idle to heating to at_temp, say). How often the host reads the property is not modelled; `Sensors.HeatingSettles` bounds the effect to three reads under steady input.
- Sensors.ProbeStep: one call is one read of `ProbeState.state`, which also writes its memory on every read.
- Switches.ConnectTurnOff: a switch whose grill has no snapshot when `kill` runs keeps the copy from its last refresh. The connect and subscribe callbacks drop snapshots without invoking handlers (traeger.py:268-271, 295-298), so such a switch can still read on after the session stopped (`Switches.StaleConnectSwitchAfterKill`). The model promises off only for switches whose handler `kill` invokes.
- Switches.ConnectIsOn: only the connect switch is modelled with its cached copy. The other entities' properties are stated on the current store, which is what their copy holds right after their handler runs.
- Naming: ASCII semantics for `lower()`, `\s` and `strip()`. Unicode case mapping and Unicode whitespace are out.
- The friendly-name cache: it is cleared on every refresh, so the name is always recomputed.
- Climate.ProbeHvac: returns `None` where the source raises on a missing accessory. It does not model the exception itself.
- Home Assistant plumbing: icons, `device_info`, `extra_state_attributes`, `schedule_update_ha_state`, `TraegerGrillMonitor`, and logging.

## Findings

| source | as written | input that shows it | evidently intended | confidence | as-written member | corrected member |
|---|---|---|---|---|---|---|
| custom_components/traeger/binary_sensor.py:66 | A configured drop threshold is converted to Celsius with the temperature formula `int((x - 32) * 5 / 9)` | A Celsius grill with drop 20: threshold -6. A grill holding steady exactly at its target then satisfies both "below target by more than -6" and "dropped from peak by more than -6". After five minutes of samples it is flagged out of pellets. The default 50 gives 10 instead of the built-in 28 | A temperature difference converts without the 32 offset: `int(x * 5 / 9)`. This is how the built-in defaults relate (50 F, 28 C) | not executed | Outage.AsWrittenFlagsGrillAtTarget | Outage.CorrectedNeverFlagsAtTarget |
| custom_components/traeger/binary_sensor.py:44 | `PelletOutageSensor.__init__` calls the base constructor first, and that constructor (entity.py:16) runs the overridden `grill_refresh_state` before `_temp_history` and `_active_cooking_modes` are assigned | Any store: without a snapshot the refresh clears `_temp_history` (line 141), with one it reads `_active_cooking_modes` (line 124); either raises AttributeError, so the sensor is never constructed. This assumes Home Assistant's `BinarySensorEntity` defines no `__init__` of its own, so `super().__init__` reaches the base entity | Assign the sensor's attributes before the base constructor runs its first refresh | not executed | Outage.AsWrittenConstructionFails | Outage.Construct |

`Outage.Refresh` models the refresh as written, with `Outage.DropThresholdAsWritten`. `Outage.DropThreshold` is the corrected conversion, used by `Outage.RefreshCorrected`. Both refreshes share `Outage.RefreshWith`.
