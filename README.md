# Smart-home agent: user interface and connection manager

A Dafny model of the cooperative timing and state machines at the centre of
an ESP32 agent that reads a gas and an electricity meter, shows pages on a
small display and publishes each measurement over MQTT.

- `agent.dfy` (module `Agent`, from `include/agent.hpp`). It holds the `Page`
  enum, the constructors' default intervals and the 32-bit millisecond clock.
  `unsigned long` is 32 bits on the target, so a clock reading is a `Millis`
  (`0 <= x < 2^32`). The C++ `now - last` becomes `Elapsed(now, last)`, which
  is `(now - last) % 2^32`.
- `ui.dfy` (module `UI`, from `src/ui.cpp`). The class `UserInterface` has the
  fields the C++ object updates. `currentPage`, `displayOn`,
  `buttonPressedTime` and `lastRenderingTime` are `var`s. The screensaver
  timeout and the refresh interval are `const`, as in the C++, so nothing can
  change them after construction. A third `const`, `buttonStabilizerInterval`,
  is the constructor argument the C++ hands on to the button's stabilizer.
  The C++ class keeps no field of its own for it. Its methods are proved against
  two pure transitions. `Press` is one confirmed button press. `Tick` is one
  pass of `loop`. The lemmas state what these promise over many presses and
  ticks. A tick does not draw anything: it returns a `Repaint`, which is
  `Skip`, `Blank` (clear only) or `Show(renderer)`.
- `connection.dfy` (module `Connection`, from `src/connection.cpp`). The
  class `ConnectionManager` has the `const` check interval,
  `lastConnectionCheck`, and a log `calls` of the transport calls it makes
  (WiFi disconnect, WiFi begin, MQTT connect, MQTT publish). What WiFi and
  MQTT report to one call is a `Link` parameter: whether each is up, and
  what a connect attempt would answer.

Inputs that come from hardware or libraries are parameters. The clock
reading is `now`. Whether the button's stabilizer confirmed a press this
tick is `press`. When it did, `press` also carries the clock reading that
`buttonPressed` takes with its own `millis()` call. The transport state is
`link`. The UTC timestamp text and the MQTT topic are strings.

The source of `connection.cpp` differs from the header in two ways, and the
model follows the `.cpp` bodies. First, the header declares an
`InfluxDBClient`, but the code uses an MQTT client. Second, the header
declares `sendMeasurement(config, double, field)`, but the code defines
`sendMeasurement(config, long)` with the field fixed to "electricity".

Two behaviours of the code as written are stated as lemmas rather than
changed:

- `loop` never assigns `lastRenderingTime`, so it stays 0. Once the clock
  passes the refresh interval, every tick repaints
  (`RepaintsEveryTickOnceDue`).
- `loop` reads `now` before the stabilizer runs the press callback, and the
  callback reads the clock again. If the second reading is one millisecond
  later, the wrap-safe subtraction sees an elapsed time of almost 2^32 ms,
  and that tick switches the display off right after the press woke it
  (`LaterPressReadingBlanksDisplay`). When both readings agree, a press
  always leaves the display on (`PressThisTickKeepsDisplayOn`).

## Model

| member | source | states |
|---|---|---|
| `Agent.Ordinal` | include/agent.hpp:31 | The enumerator value C++ gives each page: its position in the declaration, 0 to 4 (below 5, as the ensures states). `PagesInDeclarationOrder` and `OrdinalInjective` pin it down. |
| `Agent.PagesInDeclarationOrder` | include/agent.hpp:31 | There are exactly five pages, HOME, WIFI, TIME, ELECTRICITY, GAS, and each sits at the position of its enumerator value. |
| `Agent.OrdinalInjective` | include/agent.hpp:31 | Two pages with the same enumerator value are the same page. |
| `Agent.Elapsed` | src/connection.cpp:24 | `now - since` on 32-bit `unsigned long`: the plain difference if `since <= now`, otherwise the difference plus 2^32 (one wrap). |
| `Agent.ElapsedInvertsLater` | src/ui.cpp:79 | Elapsed time is the inverse of moving the clock forward. The time from `t` to `t + d` is `d`, and `since` plus the elapsed time is `now`, across the wrap too. |
| `Agent.ElapsedWithinWindow` | src/connection.cpp:24 | For readings `x` before `y`, both measured from a common origin, the time from `x` to `y` is the difference of their distances from the origin. |
| `UI.Next` | src/ui.cpp:48-64 | The page switch: HOME to WIFI to TIME to ELECTRICITY to GAS, with the default branch taking GAS back to HOME. `NextIsSuccessorInDeclarationOrder` and `CycleOfFive` pin it down. |
| `UI.NextIsSuccessorInDeclarationOrder` | src/ui.cpp:48-64 | The page switch moves to the next enumerator, and GAS (the default branch) wraps to HOME. |
| `UI.AdvanceMovesAlongOrder` | src/ui.cpp:48-64 | After `n` page steps the enumerator value is the start's value plus `n`, modulo 5. |
| `UI.CycleOfFive` | src/ui.cpp:48-64 | `n` page steps return to the starting page if and only if `n` is a multiple of 5. |
| `UI.Press` | src/ui.cpp:44-70 | `buttonPressed` on the state: record the press time, then advance the page if the display is on, or wake it onto HOME if it is off. `PressRule`, `PressesWhileOnAdvance` and `WakingPressDoesNotAdvance` pin it down. |
| `UI.PressRule` | src/ui.cpp:44-70 | Every press records its clock reading and leaves the display on. With the display on it moves to the next page. With it off it shows HOME instead. `lastRenderingTime` is untouched. |
| `UI.PressesWhileOnAdvance` | src/ui.cpp:46-64 | `k` presses with the display on advance the page `k` steps and keep the display on. |
| `UI.FivePressesReturn` | src/ui.cpp:48-64 | With the display on, one to five presses return to the starting page exactly when there are five. |
| `UI.WakingPressDoesNotAdvance` | src/ui.cpp:65-69 | From a dark display, `k` presses end `k - 1` steps after HOME: the waking press is not a page step. |
| `UI.RendererFor` | src/ui.cpp:86-102 | The render switch: WIFI, TIME, ELECTRICITY and GAS get their own renderer, and the default branch is HOME's. `RendererDrawsItsPage` pins it down. |
| `UI.RendererDrawsItsPage` | src/ui.cpp:86-102 | The render switch gives each page its own renderer, with HOME's renderer as the default. The map is a bijection. |
| `UI.Tick` | src/ui.cpp:72-106 | One pass of `loop`: the press if any, then `displayOn` recomputed from the elapsed time, then the repaint decision. `TickSetsDisplayByElapsedTime`, `TickIgnoresPreviousDisplayFlag`, `TickRepaintRule` and `TickFrame` pin it down. |
| `UI.TickSetsDisplayByElapsedTime` | src/ui.cpp:79 | After a tick the display is on if and only if the time since the last press is at most the screensaver timeout. |
| `UI.TickIgnoresPreviousDisplayFlag` | src/ui.cpp:79 | Without a press, a tick's outcome does not depend on the previous `displayOn`: the flag is recomputed, not edge-triggered. |
| `UI.PressThisTickKeepsDisplayOn` | src/ui.cpp:73-79 | A press whose clock reading is the tick's `now` leaves the display on after the tick. |
| `UI.LaterPressReadingBlanksDisplay` | src/ui.cpp:73-79 | A press whose own clock reading (line 45) is 1 ms after the tick's `now` leaves the display off for that tick, for any timeout below 2^32 - 1. |
| `UI.TickRepaintRule` | src/ui.cpp:82-105 | A tick repaints if and only if more than the refresh interval has passed since `lastRenderingTime`. A repaint with the display on draws the current page's renderer. A repaint with the display off only clears. |
| `UI.TickFrame` | src/ui.cpp:72-106 | A tick never changes `lastRenderingTime`. Without a press it keeps the page and the press time. With one, they are the press's. |
| `UI.RunKeepsLastRenderingTime` | src/ui.cpp:72-106 | No series of ticks changes `lastRenderingTime`. |
| `UI.RepaintsEveryTickOnceDue` | src/ui.cpp:82 | From construction on, after any ticks, every tick whose clock reading is above the refresh interval repaints. |
| `UI.UserInterface.constructor` | src/ui.cpp:3-13 | Stores the intervals (defaults 60000, 100 and 100 ms). Starts on HOME with the display off and both times 0. |
| `UI.UserInterface.SwitchDisplayOff` | src/ui.cpp:32-34 | Turns the display flag off and changes nothing else. |
| `UI.UserInterface.SwitchDisplayOn` | src/ui.cpp:36-38 | Turns the display flag on and changes nothing else. |
| `UI.UserInterface.ButtonPressed` | src/ui.cpp:44-70 | Records the press time. Wakes the display onto HOME, or advances the page if it was already on. The new state is `Press` of the old. |
| `UI.UserInterface.Loop` | src/ui.cpp:72-106 | Applies the press, if any. Sets `displayOn` from the elapsed time alone. Repaints if and only if the refresh interval has passed. Leaves `lastRenderingTime` alone. The new state and repaint are `Tick` of the old state. |
| `Connection.Check` | src/connection.cpp:8-20 | `checkConnections` as its result and the transport calls it makes. `CheckCases`, `CheckConnectedIff` and `CheckAttemptsAtMostOnce` pin it down. |
| `Connection.CheckCases` | src/connection.cpp:8-20 | WiFi down: false, after one disconnect and one begin. WiFi up and MQTT down: the answer of one connect. Both up: true with no call. |
| `Connection.CheckConnectedIff` | src/connection.cpp:8-20 | The check succeeds if and only if WiFi is up and MQTT is up or accepts the connect. |
| `Connection.CheckAttemptsAtMostOnce` | src/connection.cpp:9-17 | A check makes at most one reconnect or handshake attempt and no publish. |
| `Connection.Due` | src/connection.cpp:24 | The rate limiter's guard: more than the interval has passed since the last check, measured wrap-safe with `Elapsed`. `NoCheckBeforeIntervalPasses` and `AtMostOneCheckPerInterval` pin it down. |
| `Connection.LastCheckAfter` | src/connection.cpp:24-27 | `lastConnectionCheck` after one `loop` call. After a check it is the call's reading, so zero time has elapsed since it. Otherwise it is the old value, at most the interval before the call. `ConnectionManager.Loop` ensures its new field is this value. |
| `Connection.ChecksIn` | src/connection.cpp:22-28 | The number of checks in a series of `loop` calls, each one step of `ConnectionManager.Loop` (`Due`, then `LastCheckAfter`). `NoCheckBeforeIntervalPasses`, `AtMostOneCheckPerInterval` and `ConsecutiveLoopsCheckOnce` pin it down. |
| `Connection.NoCheckBeforeIntervalPasses` | src/connection.cpp:22-28 | `loop` calls no more than the interval after the last check perform no check. |
| `Connection.AtMostOneCheckPerInterval` | src/connection.cpp:22-28 | Any number of `loop` calls, in clock order within one interval of a common start, perform at most one check, across a clock wrap too. |
| `Connection.ConsecutiveLoopsCheckOnce` | src/connection.cpp:24-26 | Two `loop` calls at most the interval apart do not both check. |
| `Connection.DecimalText` | src/connection.cpp:40 | The `%d` text of the value: a minus sign for a negative value, then its decimal digits. `DigitsRoundTrip` and `DecimalRoundTrip` pin it down. |
| `Connection.DigitsRoundTrip` | src/connection.cpp:40 | The decimal digits of a natural number are non-empty digit characters that denote that number. There is no leading zero except for 0 itself. |
| `Connection.DecimalRoundTrip` | src/connection.cpp:40 | The `%d` text of the value reads back as the same value. |
| `Connection.Payload` | src/connection.cpp:38-40 | The published message: the fixed JSON template with the timestamp text and the value's decimal text substituted. `PayloadRoundTrip` and `PayloadFixedFields` pin it down. |
| `Connection.PayloadRoundTrip` | src/connection.cpp:38-40 | The published message gives back the timestamp text and the value it was built from, for a timestamp without double quotes. |
| `Connection.PayloadFixedFields` | src/connection.cpp:38 | The message starts with the timestamp field. It ends with the fixed sensor "main", measurement "consumption" and field "electricity". |
| `Connection.SendCalls` | src/connection.cpp:36-43 | The calls of `sendMeasurement`: the check's calls, then one publish of this measurement's payload only if the check succeeded. `SendPublishesOnceIffConnected` pins it down. |
| `Connection.SendPublishesOnceIffConnected` | src/connection.cpp:36-43 | Sending makes exactly one publish if the check succeeds and none otherwise. When there is one, it is the last call, with the configured topic and this measurement's payload. |
| `Connection.ConnectionManager.constructor` | src/connection.cpp:3-6 | Stores the check interval (default 180000 ms). Sets `lastConnectionCheck` to 0 with no calls made. |
| `Connection.ConnectionManager.CheckConnections` | src/connection.cpp:8-20 | Returns `Check`'s answer and appends exactly `Check`'s calls to the log. |
| `Connection.ConnectionManager.Loop` | src/connection.cpp:22-28 | If more than the interval has passed since the last check, it performs one check and sets `lastConnectionCheck` to `now`. Otherwise nothing changes. The new `lastConnectionCheck` is `LastCheckAfter` of the old. |
| `Connection.ConnectionManager.Setup` | src/connection.cpp:30-34 | Performs one check at start-up. |
| `Connection.ConnectionManager.SendMeasurement` | src/connection.cpp:36-43 | Appends the check's calls, then one publish only if it succeeded. The publish count grows by exactly 1 or 0. Nothing is kept for a retry. |

## Left out

- Drawing: the display driver, the page renderers, `showInitMessage`, `showConfigMessage` and `UserInterface::setup`. These are display I/O. The model returns which renderer a tick would call.
- `SignalStabilizer` and `MeasuringController` are not part of this model. Only their declarations are shown (include/agent.hpp:86-98, 126-144), with no bodies to model, and the consumption counter is a `double`. The button's stabilizer is the per-tick `press` input.
- `AgentConfiguration` (config portal, stored preferences, credential getters): configuration storage. Credentials, host and port are not modelled. The topic is a parameter.
- WiFi and MQTT library internals. `WiFi.mode`, `mqttClient.begin` and the connect credentials are not modelled. Calls go to a log instead of being performed. A successful connect is not remembered: the next call's `Link` says what the library reports then.
- Timestamp text: `UTC.dateTime(RFC3339_EXT)` is an input string.
- The `sprintf` buffer of 128 bytes, and printing a `long` with `%d`: on the target both are 32 bits, and the value is written out as plain decimal.
- `millis()`, `Timezone::setLocation` and `setTimezone`: the clock is the `now` parameter. The timezone only affects drawing.
- `Page` values outside the five enumerators: the code only ever assigns enumerators, so the switches' default branches are reached by GAS (page switch) and HOME (render switch) only.
