# thermostatd core, modelled in Dafny

thermostatd drives one Fujitsu air-conditioning unit through an infrared
(LIRC) transmitter and exposes it over HTTP. This project models its core,
the `thermostat` package:

- **The state value** (`thermostat/state.go`), module `ThermostatState` in
  `state.dfy`. A `State` holds power, mode, fan speed, target temperature
  and current temperature. Modes and fan speeds are strings, as in the
  source, so any token an API caller sends reaches the validity check.
  `IsValid` is written the way the source checks it: a floor and ceiling that
  HEAT lowers, then evenness through Go's truncating `%` (`GoRem`).
  `TemperatureAllowed` states the rule independently, and
  `ValidityCharacterized` proves the two agree. `ToLirc` and `ToLircOn`
  render a state as LIRC command names. Their tables are maps; a missing
  key gives Go's zero value `""`. The temperature goes through a model of
  `%d` (`Text.FormatInt`). `ParseLirc` decodes a command name back into
  what it asks of the unit, and the round-trip lemmas show that the command
  of a valid state carries exactly its mode, its fan speed and, outside FAN
  mode, its target temperature. The four setters work on a pointer in the
  source. Here each is a method that takes the state and returns the new
  state with an error: copy, validate, then commit one field or nothing.
- **The controller** (`thermostat/thermostat.go`), module
  `ThermostatControl` in `thermostat.dfy`. It is a class `Thermostat` with
  the committed `state` and a `log` of transport events: `Send(command)`,
  `Wait` (the one-second sleep) and `Display(line1, line2)`. Delivery of a
  send is a nondeterministic outcome, and the attempt is logged either way.
  `CommitPlan(s, settle, hasDisplay)` is the full event sequence that
  committing `s` calls for. Predicate `Ran` says a method emitted a prefix
  of that plan. The prefix is all of the plan on success. On a transport
  failure it stops at the failed send, and the committed state is kept.
  The class invariant `Valid()` says the committed state is always valid.
  It also says every send so far went out under the `fujitsu_heat_ac`
  profile. Successful mutators also establish `InSync()`: the last
  transmission is the committed state's full command.
- **Scenarios** (`scenarios.dfy`): end-to-end runs from the default state,
  proved as client methods.

`text.dfy` (module `Text`) holds the decimal rendering and the field
splitting that the decoder uses.

The controller's three error branches for an invalid committed state can
never run, because the class invariant rules them out. These are the
`ToLirc`/`ToLircOn` errors in `sendCurrentState` and `sendOnState`, and
the `State.SetPower` error in `Thermostat.SetPower`. The model proves
them unreachable instead of modelling them.

Inside the `thermostat` package every validation failure is one error,
"invalid state" (`InvalidState`), whether the cause is an unknown mode or
fan speed or a temperature out of range. The API layer rejects unknown
tokens first with its own "invalid mode" and "invalid fan speed" errors.
Those checks belong to the HTTP layer listed under "## Left out".

## Model

| member | source | states |
|---|---|---|
| `ThermostatState.NewState` | thermostat/state.go:9-17 | the default state is valid and powered off, with COOL, AUTO, target 72 and current 0 |
| `ThermostatState.ModeIsValid` | thermostat/state.go:48-55 | a mode is valid exactly when it is COOL, DRY, HEAT or FAN, which are exactly the modes with a wire token |
| `ThermostatState.FanSpeedIsValid` | thermostat/state.go:74-81 | a fan speed is valid exactly when it is AUTO, QUIET, LOW, MEDIUM or HIGH, which are exactly the speeds with a wire token |
| `ThermostatState.GoRem` | thermostat/state.go:97 | Go's `%` by 2, the only divisor used: zero exactly for even numbers, otherwise 1 or -1 with the sign of the dividend |
| `ThermostatState.IsValid` | thermostat/state.go:84-102 | a valid state has a target that is even and within 60..88, and a mode and fan speed that both have wire tokens |
| `ThermostatState.ValidityCharacterized` | thermostat/state.go:84-102 | valid iff mode and fan speed are known tokens and the target is even and in [60,76] for HEAT, [64,88] otherwise (boundaries included) |
| `ThermostatState.ValidityIgnoresPowerAndCurrentTemperature` | thermostat/state.go:84-102 | validity does not depend on power or on the current temperature |
| `ThermostatState.Lookup` | thermostat/state.go:129 | Go's map index: a non-empty result is the key's own entry in the table; the result is "" exactly when the key is missing or maps to "" |
| `ThermostatState.ModeTokenRoundTrip` | thermostat/state.go:104-109 | every valid mode's token is dash-free and reads back as that mode |
| `ThermostatState.FanSpeedTokenRoundTrip` | thermostat/state.go:111-117 | every valid fan speed's token is dash-free, is not "on", and reads back as that speed |
| `ThermostatState.ToLirc` | thermostat/state.go:120-135 | fails, with the invalid-state error, exactly when the state is invalid |
| `ThermostatState.ToLircOn` | thermostat/state.go:138-148 | fails, with the invalid-state error, exactly when the state is invalid |
| `ThermostatState.PoweredOffEncodesTurnOff` | thermostat/state.go:125-127 | a valid powered-off state encodes as "turn-off" in both encoders, whatever its other fields |
| `ThermostatState.PoweredOnEncoding` | thermostat/state.go:129-147 | powered on: mode token, "-", fan token, then a two-digit "-<temp>F" exactly when the mode is not FAN; the settle command is mode token + "-on" |
| `ThermostatState.ToLircRoundTrip` | thermostat/state.go:119-135 | decoding a valid state's command gives turn-off, or its mode, fan speed and (except in FAN) target temperature |
| `ThermostatState.ToLircOnRoundTrip` | thermostat/state.go:137-148 | decoding a valid powered-on state's settle command gives its mode |
| `ThermostatState.CommandDeterminesSettings` | thermostat/state.go:119-148 | equal commands of valid powered-on states mean equal mode, fan speed and (outside FAN) target; a settle command never equals a full command |
| `ThermostatState.SetPower` | thermostat/state.go:151-160 | succeeds exactly when the state is already valid, changing only the power; otherwise returns the invalid-state error and the state unchanged |
| `ThermostatState.SetMode` | thermostat/state.go:163-172 | succeeds exactly when the mode is known and accepts the current target (fan speed valid), changing only the mode; otherwise changes nothing |
| `ThermostatState.SetFanSpeed` | thermostat/state.go:175-184 | succeeds exactly when the speed is known and the rest is valid, changing only the fan speed; otherwise changes nothing |
| `ThermostatState.SetTargetTemperature` | thermostat/state.go:187-196 | succeeds exactly when the current mode accepts the temperature, changing only the target; otherwise changes nothing |
| `Text.FormatInt` | thermostat/state.go:131 | `%d`: a leading minus exactly for negatives, then decimal digits that read back as the magnitude, with no leading zero (except "0" itself) |
| `ThermostatControl.RemoteCommand` | thermostat/thermostat.go:26-28 | a transmitted name is the profile "fujitsu_heat_ac", a space, then the command |
| `ThermostatControl.DisplayFor` | thermostat/thermostat.go:57-66 | on: "Temp: ", the target in `%d`, "F (", the mode, ")", then "Fan: " and the fan speed; off: "Thermostat Off" and an empty second line |
| `ThermostatControl.OnStateEvents` | thermostat/thermostat.go:30-45 | no event in HEAT; otherwise one profiled send that decodes to powering on in the state's mode (to turn-off for a state that is off) |
| `ThermostatControl.CurrentStateEvents` | thermostat/thermostat.go:47-69 | one profiled send that decodes to turn-off or to the state's mode, fan speed and (outside FAN) target, then, when a display is attached, exactly the display write for that state |
| `ThermostatControl.CommitPlan` | thermostat/thermostat.go:133-140 | every planned send goes under the remote profile, and the plan holds a wait exactly when it settles |
| `ThermostatControl.CommitPlanTransmissions` | thermostat/thermostat.go:78-92 | the transport sees the settle command (not in HEAT) and the wait only when settling, then exactly one full command |
| `ThermostatControl.PlanEndsInSync` | thermostat/thermostat.go:47-69 | after a whole plan has run, the last transmission is the committed state's full command |
| `ThermostatControl.Thermostat.constructor` | thermostat/thermostat.go:22-24 | a new thermostat holds the default state and has sent nothing |
| `ThermostatControl.Thermostat.SendCommand` | thermostat/thermostat.go:26-28 | appends exactly one profiled send; the outcome is delivered or a transport failure |
| `ThermostatControl.Thermostat.SendOnState` | thermostat/thermostat.go:30-45 | in HEAT mode sends nothing and succeeds; otherwise sends the settle command once |
| `ThermostatControl.Thermostat.SendCurrentState` | thermostat/thermostat.go:47-69 | sends the full command, then writes the display if one is attached; a failed send skips the display |
| `ThermostatControl.Thermostat.Emit` | thermostat/thermostat.go:129-140 | runs the settle command and wait (when asked), then the full command, stopping at the first failed send; success leaves the unit in sync |
| `ThermostatControl.Thermostat.Reset` | thermostat/thermostat.go:72-75 | state becomes the default and the one transmitted command is "turn-off" |
| `ThermostatControl.Thermostat.SetPower` | thermostat/thermostat.go:78-92 | changes only the power; on: settle command (not in HEAT), wait, full command, even if already on; off: one send and no wait |
| `ThermostatControl.Thermostat.SetTargetTemperature` | thermostat/thermostat.go:95-102 | a temperature the mode rejects gives the invalid-state error with no state change and no events; otherwise only the target changes and one full command is sent |
| `ThermostatControl.Thermostat.SetMode` | thermostat/thermostat.go:105-112 | an unknown mode, or one rejecting the target, changes nothing and emits nothing; otherwise only the mode changes and one full command is sent |
| `ThermostatControl.Thermostat.SetFanSpeed` | thermostat/thermostat.go:115-122 | an unknown speed changes nothing and emits nothing; otherwise only the fan speed changes and one full command is sent |
| `ThermostatControl.Thermostat.SetState` | thermostat/thermostat.go:125-141 | an invalid candidate changes nothing and emits nothing; otherwise it is committed before any send, and settle plus wait happen only on the off-to-on edge |
| `ThermostatScenarios.HeatCeilingRejected` | thermostat/thermostat.go:95-112 | defaults, then HEAT, then 80F: refused with the invalid-state error, and the target stays 72 |
| `ThermostatScenarios.DefaultPowerOnPlan` | thermostat/thermostat.go:84-91 | from the defaults, the power-on plan is "cool-on", wait, "cool-auto-72F" under the profile |
| `ThermostatScenarios.HeatPowerOnPlan` | thermostat/thermostat.go:30-33 | from the defaults in HEAT, the power-on plan is a wait then "heat-auto-72F", with no settle send |
| `ThermostatScenarios.PowerOnFromDefaults` | thermostat/thermostat.go:78-92 | defaults, then power on: "cool-on", wait, "cool-auto-72F"; a failed send cuts the sequence short |
| `ThermostatScenarios.PowerOffFromDefaults` | thermostat/thermostat.go:78-92 | defaults, then power off: exactly one send, "turn-off", and no wait |
| `ThermostatScenarios.PowerOnInHeat` | thermostat/thermostat.go:30-45 | in HEAT, power on gives a wait then "heat-auto-72F", with no settle command |

## Left out

- The HTTP API (`api/v1.go`, `api/api.go`): routing, form parsing and JSON encoding. Only the calls it makes into the controller are modelled.
- Bearer-token authentication (`util/token_auth.go`) and start-up wiring (`main.go`): I/O and hardware set-up.
- The LIRC router and the LCD library are foreign calls. A send is an appended event with a nondeterministic outcome. A display write is an appended event, and its error is ignored, as in the source.
- `padForLcd` is not part of this model: display events carry the unpadded lines.
- `time.Sleep` is a `Wait` event with no timing semantics.
- Concurrent, unsynchronised access to the shared thermostat: calls are modelled one at a time.
- Go's 64-bit `int` wrap-around: validity bounds every committed temperature to 60..88. No arithmetic is done on temperatures apart from `%2`.
- Error values are kinds (`InvalidState`, `TransportFailure`), not Go error objects or messages. The transport's own error value is not carried.
- The controller's invalid-state branches after a commit are proved unreachable rather than modelled.
- `ThermostatControl.Thermostat.SendCommand`: the failed send is recorded as an attempt, and the model does not say what reached the unit.
