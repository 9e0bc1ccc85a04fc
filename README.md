# Sericulture dashboard: live telemetry core

A Dafny model of the live-telemetry logic of the sericulture (silkworm rearing)
dashboard page, `src/pages/Dashboard.tsx`. The page subscribes to two MQTT
topics, `farm/temperature` and `farm/humidity`. For every inbound message it
updates the current reading of the metric named by the topic and appends one
merged point `{timestamp, temperature, humidity}` to a history capped at 48
points. The metric that did not change is carried forward from the last point,
or from the initial values 27 and 80 while the history is empty. From the
current readings it derives the card chips ("Optimal"/"Check") and the
environment status words ("OK"/"Alert") against the inclusive ranges [24, 28]
and [70, 90]. Its device panel publishes `FAN_ON`, `HEATER_OFF` and so on to
`farm/device` through the MQTT client when one exists. The trend chart is given
a single zero-valued placeholder point while the history is empty.

Files and modules:

- `numbers.dfy`, module `Numbers`: the value of a payload after `parseFloat`. It is
  a finite real, an infinity or NaN. Comparisons follow JavaScript, so every
  comparison with NaN is false.
- `status.dfy`, module `Status`: the range checks and the two label pairs.
- `telemetry.dfy`, module `Telemetry`: points, messages, the three state cells,
  the step `Ingest` that one message applies, the invariant `Consistent`, and
  the chart-data choice.
- `replay.dfy`, module `Replay`: a whole message stream. `Run` applies the
  handler message by message. `RunCharacterised` describes the result without
  the step function. The current values are the latest value on each topic.
  The history is the last 48 points of the full merged trace.
- `commands.dfy`, module `Commands`: the device table and the command tokens.
- `dashboard.dfy`, module `Page`: class `Dashboard`, the page's state cells as
  fields. Its methods are the message handler (`OnMessage`), storing the client
  (`AttachClient`), `send` (`Send`) and the ON/OFF buttons (`Press`). Each method
  is tied to the pure functions above. `Page.Session` is an example session
  that exercises the class through its contracts and models no source function.

## Behaviour of the page worth knowing

- When the history is empty, the fallback for the metric a message does not
  update is the initial value: 27 for temperature, 80 for humidity.
- A payload that does not parse becomes NaN. It is stored and appended like
  any other value (`Page.NotANumberIsAdmitted`).
- Timestamps are locale time strings taken from the clock. Points are kept in
  arrival order, and the model claims no order between their timestamps.
- The thresholds are constants in the page. Each metric has its own status.
- Readings arrive only through the MQTT push handler.

The fallback at lines 74-75 reads `temperature` and `humidity` from the closure
created when the page first mounted, so it always sees 27 and 80.
`Telemetry.AppendedPointIsCurrent` shows that this is harmless: the history is
empty only before the first message, when the current values are still 27 and 80.

## Model

| member | source | states |
|---|---|---|
| `Numbers.Within` | src/pages/Dashboard.tsx:214-215 | `v >= lo && v <= hi` holds exactly for finite readings in the closed range; NaN and the infinities are never within |
| `Status.TemperatureOk` | src/pages/Dashboard.tsx:214 | temperature is acceptable iff it is finite and 24 <= t <= 28, both bounds inclusive |
| `Status.HumidityOk` | src/pages/Dashboard.tsx:215 | humidity is acceptable iff it is finite and 70 <= h <= 90, both bounds inclusive |
| `Status.TemperatureChip` | src/pages/Dashboard.tsx:112 | the temperature card chip reads "Optimal" iff the temperature is in [24, 28], and "Check" otherwise |
| `Status.HumidityChip` | src/pages/Dashboard.tsx:140 | the humidity card chip reads "Optimal" iff the humidity is in [70, 90], and "Check" otherwise |
| `Status.TemperatureStatus` | src/pages/Dashboard.tsx:244-251 | the temperature status box reads "OK" iff the temperature is in [24, 28], and "Alert" otherwise |
| `Status.HumidityStatus` | src/pages/Dashboard.tsx:244-252 | the humidity status box reads "OK" iff the humidity is in [70, 90], and "Alert" otherwise |
| `Status.BoundsInclusive` | src/pages/Dashboard.tsx:112-113 | 24 and 28 (and 70 and 90) pass; 23.9, 28.1, 69.9, 90.1, NaN and infinities do not |
| `Telemetry.Last` | src/pages/Dashboard.tsx:83 | for n >= 1, `slice(-n)` yields min(|s|, n) elements, and they are the suffix of `s` |
| `Telemetry.Window` | src/pages/Dashboard.tsx:83 | the new history has min(|old|, 47) + 1 <= 48 points: the last min(|old|, 47) old points in order, then the new point |
| `Telemetry.NewPoint` | src/pages/Dashboard.tsx:73-81 | the new point carries the message's timestamp; the metric named by the topic takes the message's value; the other metric is carried forward from the last point, or is 27 (temperature) / 80 (humidity) when the history is empty; an unknown topic carries both |
| `Telemetry.Ingest` | src/pages/Dashboard.tsx:68-85 | one message appends exactly that point to a history of min(|old|, 47) + 1 <= 48 points, and keeps the invariant |
| `Telemetry.InitialConsistent` | src/pages/Dashboard.tsx:53-55 | the initial state (27, 80, empty history) satisfies the handler's invariant |
| `Telemetry.IngestConsistent` | src/pages/Dashboard.tsx:70-83 | every message keeps the invariant: at most 48 points, and the last point's temperature and humidity equal the current ones; afterwards the history is non-empty |
| `Telemetry.IngestHistory` | src/pages/Dashboard.tsx:83 | after a message the history length is min(|old|, 47) + 1 <= 48; it keeps the old suffix and ends with the new point |
| `Telemetry.IngestCurrent` | src/pages/Dashboard.tsx:69-71 | a `farm/temperature` message sets only the temperature, a `farm/humidity` message only the humidity, any other topic neither |
| `Telemetry.AppendedPointIsCurrent` | src/pages/Dashboard.tsx:70-80 | under the invariant, the appended point is exactly (timestamp, new current temperature, new current humidity) |
| `Telemetry.ChartData` | src/pages/Dashboard.tsx:154 | the chart gets the history unchanged when it is non-empty, and the one placeholder point ("", 0, 0) otherwise |
| `Replay.Trace` | src/pages/Dashboard.tsx:77-81 | the unbounded merged trace has one point per message |
| `Replay.TraceAt` | src/pages/Dashboard.tsx:77-81 | point i of the trace holds message i's timestamp and the latest temperature and humidity seen up to message i (27 / 80 if none) |
| `Replay.RunCharacterised` | src/pages/Dashboard.tsx:68-85 | after any stream of messages the current values are the latest value on each topic (or 27 / 80) and the history is the last 48 points of the trace |
| `Replay.RunConsistent` | src/pages/Dashboard.tsx:53-84 | the invariant holds after any stream of messages |
| `Replay.RunWindow` | src/pages/Dashboard.tsx:83 | after n messages the history holds exactly the points of the last min(n, 48) messages, oldest first |
| `Replay.CarryForwardExample` | src/pages/Dashboard.tsx:74-80 | temperature 25, humidity 80, temperature 30 give the points (25, 80), (25, 80), (30, 80) |
| `Commands.Token` | src/pages/Dashboard.tsx:304-310 | the token is the device code followed by `_ON` or `_OFF` |
| `Commands.TokenInjective` | src/pages/Dashboard.tsx:304-310 | a token determines its code and its action |
| `Commands.DeviceCodes` | src/pages/Dashboard.tsx:286-291 | the device table has four rows with the distinct codes FAN, HEATER, HUMIDIFIER and COOLER |
| `Commands.PanelTokensDistinct` | src/pages/Dashboard.tsx:295-310 | no two buttons of the device panel publish the same token |
| `Commands.FanOnToken` | src/pages/Dashboard.tsx:304-310 | the fan's buttons send `FAN_ON` and `FAN_OFF` |
| `Page.Dashboard.constructor` | src/pages/Dashboard.tsx:53-56 | the page starts with temperature 27, humidity 80, an empty history, no client and nothing sent |
| `Page.Dashboard.AttachClient` | src/pages/Dashboard.tsx:60-61 | once the connection is started the client cell holds a client; nothing else changes |
| `Page.Dashboard.OnMessage` | src/pages/Dashboard.tsx:68-85 | the cells become `Ingest` of the old cells; temperature and humidity change only for their own topic; the history keeps the last min(|old|, 47) points and ends with (timestamp, temperature, humidity); the invariant is kept |
| `Page.Dashboard.Send` | src/pages/Dashboard.tsx:292 | with a client, exactly one publish (`farm/device`, cmd) is appended to the outbox; without one, nothing is |
| `Page.Dashboard.Press` | src/pages/Dashboard.tsx:304-310 | an ON/OFF button appends exactly one publish of `code_ON` / `code_OFF` on `farm/device` when there is a client, and nothing otherwise |
| `Page.NotANumberIsAdmitted` | src/pages/Dashboard.tsx:69-70 | a temperature payload that parses to NaN is stored and appended, and the temperature is then flagged "Check" / "Alert" |

## Left out

- MQTT connection, subscription and teardown (`mqtt.connect`, the `connect` handler, `c.end()`, lines 59-66 and 87): a foreign asynchronous library and the network. A handled message is a call of `OnMessage`; storing the client is `AttachClient`.
- What the MQTT client does with a publish (queueing, delivery): a publish handed to the client is an entry in `outbox`.
- `parseFloat` (line 69): the parsed value is a parameter of type `Number`. Rounding of finite values to IEEE doubles is not modelled, because the code only compares and copies readings.
- `new Date().toLocaleTimeString()` (line 78): the clock; the timestamp is an opaque string parameter.
- React's deferred, batched state updates: the message handler is applied as one sequential step per message, in arrival order.
- Rendering: cards, animation, the chart, `toFixed` formatting, the chip colours, the menu selection (`active`), the static silkworm-stage and alert tables (lines 90-283 apart from the modelled expressions, and 321-402).
- The other pages and components (home, services, documents, contact, account, login, header, footer, routing and the local-storage login flag): presentational markup and navigation, outside the telemetry logic.
