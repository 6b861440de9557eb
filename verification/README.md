# IoT MCP server and M5 device — a Dafny model

This project models the core of a small IoT control system. On the server side,
an MCP tool server drives an ESP32/M5 device over MQTT. On the device side, the
firmware lights an RGB unit and reports temperature and humidity. The model
covers the following parts.

- **Session** (`MQTTController` in `tools/iot.py`). This is the broker session:
  lazy `initialize`, the `_on_connect` / `_on_disconnect` callbacks and
  `publish`. It is written as a sequential state machine over an immutable
  `Controller` record. The record keeps every connect issued, every
  subscription requested, every message handed to the transport and every
  reconnect task started.
- **Telemetry** (`latest_data` and `_on_message`). These are the process-wide
  readings cache and the only callback that writes it.
- **IotTools** (`set_rgb`, `set_fan`, `get_temphum`). These are the three tools,
  with their order of checks and their reply records.
- **Units**, **Stats**, **Sorting** and **SciOps** (`tools/calculator.py`).
  These cover `unit_converter`, `statistics`, Python's `sorted` as `median`
  uses it, and the case-insensitive operation lookup of `scientific_calc`.
- **Bits**, **DeviceColor**, **DeviceMessages** and **DeviceLoop**
  (`m5_device.py`). These cover Python's `|` and `<<` on unbounded integers, the
  `set_color` packing, the `sub_cb` decoder, `publish_data`, and the main
  loop's one-second tick with its every-fifth-tick publication.
- **Json**, **Numerals** and **Wrappers**. These are shared vocabulary: decoded
  JSON values with Python's `int()`/`float()` conversions, `str()` of an
  integer, and `Option`/`Result`.

Numbers from the calculator and from telemetry are exact reals. Exceptions that
the source catches become `Failure`, `None` or an unchanged state. Inputs the
model cannot decide are explicit parameters:

- whether the connect acknowledgement arrived within the five-second poll;
- what `client.publish` returned;
- the clock readings;
- the sensor reads.

## Model

| member | source | states |
|---|---|---|
| `Session.Initialize` | tools/iot.py:25-50 | With a client already present, it answers `connected` and changes nothing. Otherwise it creates the client and issues exactly one connect. It answers true iff the acknowledgement arrived during the poll. A connect that raised or went unacknowledged changes nothing but the new client and its one connect. An acknowledged one has also run `_on_connect` once. Nothing is ever published. |
| `Session.InitializeAsWritten` | tools/iot.py:25-50 | As the code is written: with a client present it agrees with `Initialize`. On a fresh controller it always answers false, because `_on_connect` cannot run while the poll holds the lock. |
| `Session.FirstInitializeAlwaysFails` | tools/iot.py:26-40 | On a fresh controller, the as-written `initialize` answers false even with a broker that acknowledges at once, where the corrected one answers true. Once the acknowledgement is handled, both reach the same state and the next call succeeds. |
| `Session.AsWrittenIsUnacked` | tools/iot.py:25-44 | The code as written behaves as the corrected `initialize` does when the acknowledgement misses the poll, so every result proved for all connect outcomes covers it too. |
| `Session.OnConnect` | tools/iot.py:46-50 | The controller is connected whatever the result code. The telemetry topic is subscribed once more. Client, connect count, outbox and reconnect tasks are unchanged. |
| `Session.OnDisconnect` | tools/iot.py:52-56 | The controller is disconnected and exactly one more reconnect task is started. Nothing else changes. |
| `Session.Publish` | tools/iot.py:85-98 | While disconnected it refuses without touching the transport. While connected it hands exactly this message to the transport once. It succeeds iff connected and the transport returned `MQTT_ERR_SUCCESS`. |
| `Session.SingleConnectAttempt` | tools/iot.py:25-33 | However many times `initialize` runs, at most one connect is ever issued, and after the first call a client exists. |
| `Session.FailedConnectIsSticky` | tools/iot.py:32-44 | After a connect that raised, the next `initialize` answers false and changes nothing, whatever its attempt: it does not retry. |
| `Session.ResubscribeOnReconnect` | tools/iot.py:46-56 | A disconnect followed by a connect resubscribes to the telemetry topic and leaves the outbox alone. |
| `Session.DisconnectTwiceStartsTwoTasks` | tools/iot.py:52-83 | Every disconnect starts its own reconnect task, with no deduplication. |
| `Session.RunInvariant` | tools/iot.py:25-98 | Any sequence of `initialize` calls, callbacks and `publish` calls keeps at most one connect issued and `connected` only with a client. The transport has been handed exactly the messages published while connected, in order. |
| `Session.SessionRun` | tools/iot.py:19-98 | From a new controller, every run issues at most one connect, and the outbox is exactly the messages published while connected. |
| `Telemetry.OnMessage` | tools/iot.py:58-70 | These leave the cache unchanged: another topic, an undecodable or non-JSON payload, a non-object document, a missing key, or a temperature `float()` rejects. A humidity `float()` rejects leaves the new temperature beside the old humidity. Two convertible readings replace both fields. A field that holds a reading keeps one. |
| `Telemetry.ReadingIsStored` | tools/iot.py:62-67 | A document whose two fields both convert stores exactly those two values. |
| `Telemetry.TornUpdate` | tools/iot.py:65-67 | Any convertible temperature beside any humidity `float()` rejects updates the temperature alone, so the update is not atomic. |
| `Telemetry.TornUpdateOnNull` | tools/iot.py:65-67 | A humidity of `null` is such a value: the temperature is stored and the humidity kept. |
| `Telemetry.ReadingsPersist` | tools/iot.py:14-17 | Once a reading is stored in `latest_data`, no message makes it `None` again. |
| `IotTools.Command` | tools/iot.py:127-136 | The shared shape of the command tools is initialise, then validate, then publish. A connectivity failure wins. A failed range check publishes nothing. A valid command publishes exactly its message and succeeds iff the transport succeeded. |
| `IotTools.SetRgb` | tools/iot.py:105-136 | Connectivity is checked before the channels. If `initialize` fails, the reply is the connection error and the session is what `initialize` left. Out-of-range channels are refused with nothing published. Valid channels publish exactly `{"r","g","b"}` on `esp32/rgbled`. A publish that fails gives the publish error. The call succeeds iff connected, all three channels are in 0..255 and the publish returned success. |
| `IotTools.SetFan` | tools/iot.py:139-162 | The same as `set_rgb`, for a speed in 0..100 and `{"speed"}` on `esp32/fan`: the connection error with the session `initialize` left, the range error with nothing published, the publish error when the transport fails. |
| `IotTools.GetTemphum` | tools/iot.py:165-181 | The reply is "no data" iff either reading is missing. Otherwise it is exactly the cached pair. |
| `IotTools.CommandsTouchOnlyOutbox` | tools/iot.py:127-136 | For any command tool: its connection flag, subscriptions, client and connect count are those `initialize` left, no reconnect task starts, and the outbox is unchanged or grows by exactly the command's message. |
| `IotTools.TemphumAfterTelemetry` | tools/iot.py:175-181 | Before any telemetry the tool says "no data", never zero. After a complete document it returns that document's values. |
| `IotTools.TemphumExample` | tools/iot.py:168-173 | The documented reply 25.5 / 60.2 comes back from a document that carries those readings. |
| `IotTools.ColorWordsInjective` | tools/iot.py:135 | Two `set_rgb` success texts are equal only for equal channels, so the reply identifies the colour set. |
| `IotTools.FanWordsInjective` | tools/iot.py:161 | Two `set_fan` success texts are equal only for equal speeds. |
| `IotTools.ErrorWordsDistinct` | tools/iot.py:128-162 | The connection, RGB range, fan range and publish error texts are pairwise distinct. |
| `Json.ToFloat` | tools/iot.py:66-67 | `float()` keeps floats, widens ints, turns booleans into 1.0 and 0.0, converts text as Python would, and raises on `null`, lists and objects. |
| `Json.ToInt` | m5_device.py:61-63 | `int()` keeps ints, turns booleans into 1 and 0, truncates floats toward zero, converts text as Python would, and raises on `null`, lists and objects. |
| `Json.TruncateTowardZero` | m5_device.py:61 | `int()` of a float truncates toward zero, on both sides of zero. |
| `Numerals.Decimal` | tools/iot.py:135 | `str()` of an int is non-empty and starts with `-` iff the int is negative. |
| `Numerals.DigitsDenote` | tools/iot.py:161 | The decimal digits of `n` read back as `n`. |
| `Numerals.DecimalInjective` | tools/iot.py:135 | Distinct integers print distinctly, so the reply texts identify their arguments. |
| `Units.Convert` | tools/calculator.py:167-182 | Equal temperature units give the value back. The conversion succeeds iff the pair is supported: two temperature units with a formula, or two units of one category. Temperatures keep their kelvin value. Lengths and weights scale by the ratio of the table factors. |
| `Units.ConvertTemperature` | tools/calculator.py:169-174 | Equal units are the identity. Otherwise the pair must be one of the four table keys, and a missing one fails with the key `"<from>-><to>"`. |
| `Units.ConvertQuantity` | tools/calculator.py:175-178 | The category is chosen by the source unit. It fails with the source unit's key when that unit is unknown, else with the target unit's key. It succeeds iff both units are in one table. |
| `Units.Factor` | tools/calculator.py:144-158 | Every table factor is positive. |
| `Units.RoundTrip` | tools/calculator.py:159-178 | Converting there and back returns the original value for every accepted pair, across all three categories. |
| `Units.QuantityPreserved` | tools/calculator.py:175-178 | A converted length or weight measures the same physical amount in base units. |
| `Units.FormulaKeepsKelvin` | tools/calculator.py:159-164 | Each of the four temperature formulas preserves the absolute temperature. |
| `Units.FahrenheitKelvinUnsupported` | tools/calculator.py:159-174 | F to K and K to F fail with their table key instead of converting. |
| `Units.MixedCategoriesFail` | tools/calculator.py:167-178 | Units of different categories fail, including a temperature unit against a length or weight unit, and so do unknown units. |
| `Units.KeyErrorWordsInjective` | tools/calculator.py:181-182 | The error text of a missing key names that key, so distinct keys give distinct replies. |
| `Units.CentimetresToMetres` | tools/calculator.py:140-141 | The documented example: 100 cm is 1 m. |
| `Stats.Statistics` | tools/calculator.py:109-127 | An unknown name fails with its own error. Empty data fails with an index error for `median` and division by zero otherwise. The call succeeds iff the name is known and the data is non-empty. The mean times the count is the sum. The median is the middle of the sorted data, the variance is the population variance (never negative), and the standard deviation is the square root of that variance. |
| `Stats.DefaultIsMean` | tools/calculator.py:95 | A call that names no operation computes the mean: it fails on empty data and otherwise returns the mean. |
| `Stats.Mean` | tools/calculator.py:111 | The mean times the length is the sum. |
| `Stats.Variance` | tools/calculator.py:119-121 | The population variance is never negative. |
| `Stats.SquaredDeviations` | tools/calculator.py:118 | A sum of squares is never negative. |
| `Stats.MeanWithinRange` | tools/calculator.py:110-111 | The mean lies between the smallest and the largest data point. |
| `Stats.MeanExample` | tools/calculator.py:105-106 | The documented example: the mean of [1, 2, 3, 4] is 2.5. |
| `Stats.VarianceZeroIffConstant` | tools/calculator.py:119-121 | The variance is zero iff all data points are equal. |
| `Stats.MedianOfSorted` | tools/calculator.py:112-115 | On sorted data, the median is the middle element for an odd length and the mean of the two middle elements for an even length. |
| `Stats.MedianPermutation` | tools/calculator.py:113-115 | The median does not depend on the order of the data. |
| `Stats.MedianWithinData` | tools/calculator.py:112-115 | The median lies between two data points, and is a data point when the length is odd. |
| `Stats.ErrorWordsDistinct` | tools/calculator.py:114-127 | The division, index and unknown-operation error texts are pairwise distinct. |
| `Sorting.Sort` | tools/calculator.py:113 | `sorted` returns an ascending permutation of its input. |
| `Sorting.Insert` | tools/calculator.py:113 | Inserting into a sorted list keeps it sorted and adds exactly one occurrence of the element. |
| `Sorting.SortedUnique` | tools/calculator.py:113 | Two sorted lists with the same elements are equal, so `sorted` has exactly one possible answer. |
| `Sorting.SortSorted` | tools/calculator.py:113 | Sorting already sorted data changes nothing. |
| `Sorting.SortPermutation` | tools/calculator.py:113 | Sorting depends only on the multiset of the data. |
| `SciOps.Lookup` | tools/calculator.py:84-89 | A found operation's name is the lower-cased input. A failure carries the error text with the name as written. The lookup fails iff no operation has that lower-cased name. |
| `SciOps.Lower` | tools/calculator.py:85 | Lower-casing keeps the length, leaves no capital letter, keeps every other character, and maps each capital to its lower-case letter. A name is its own lower-case form iff it has no capital. |
| `SciOps.LowerIdempotent` | tools/calculator.py:85 | Lower-casing twice is lower-casing once. |
| `SciOps.LookupIgnoresCase` | tools/calculator.py:85 | Names that agree after lower-casing select the same operation or fail alike. |
| `SciOps.LookupByName` | tools/calculator.py:75-85 | Each of the six operations is found under its own name in any ASCII capitalisation. |
| `SciOps.LookupExamples` | tools/calculator.py:84-89 | "SQRT" finds `sqrt`. "exp" fails, naming "exp". |
| `Bits.Or` | m5_device.py:54 | On non-negative integers, the bitwise or of `a` and `b` is at least each operand and at most their sum. |
| `Bits.OrZero` | m5_device.py:54 | Zero is a right identity of bitwise or. |
| `Bits.ZeroOr` | m5_device.py:54 | Zero is a left identity of bitwise or. |
| `Bits.OrDisjoint` | m5_device.py:54 | OR-ing a value below `2^k` into `x << k` is addition. |
| `DeviceColor.PackBytes` | m5_device.py:53-55 | On byte channels the packed colour is `r*65536 + g*256 + b` and fits in 24 bits. |
| `DeviceColor.Unpack` | m5_device.py:54 | Shifting and masking the packed colour gives each byte back. |
| `DeviceColor.PackInjectiveOnBytes` | m5_device.py:54 | Distinct byte triples pack to distinct colours. |
| `DeviceColor.PackCollidesOutsideBytes` | m5_device.py:54 | Without masking, blue 256 packs to the same colour as green 1. |
| `DeviceColor.BlueSpillsIntoGreen` | m5_device.py:54 | Any blue in 0..65535 with no green packs to the colour of green `b / 256` and blue `b % 256`. |
| `DeviceColor.RedOverflows` | m5_device.py:54 | A red above 255 is shifted past the 24-bit colour: the packed value is `r * 65536`, at least `2^24`. |
| `DeviceColor.RedOverflowExample` | m5_device.py:54 | Red 256 packs to `0x1000000`, and all three channel bytes of that value are 0. |
| `DeviceColor.WordRoundTrip` | m5_device.py:54 | The same packing on 32-bit words gives each byte back. |
| `DeviceColor.WordAgreesWithPack` | m5_device.py:54 | The 32-bit packing and the unbounded-integer packing agree byte for byte. |
| `DeviceMessages.SubCb` | m5_device.py:57-66 | A payload that is not a JSON object is dropped. An object gives a `set_color` call iff every channel it carries converts with `int()`. A channel it leaves out is 0, and a channel it carries is its `int()`. |
| `DeviceMessages.MissingChannelsAreZero` | m5_device.py:61-63 | Any command whose fields are all integers is obeyed: the channels it carries are used as given, and the channels it leaves out are 0. |
| `DeviceMessages.OutOfRangeChannelBleeds` | m5_device.py:54-64 | A blue in 256..65535 reaches `set_color` unmasked and spills into green: without a green it lights green `b / 256` and blue `b % 256`, not blue `b % 256` alone. Blue 256 lights green 1. |
| `DeviceMessages.CommandRoundTrip` | m5_device.py:57-64 | The command `set_rgb` publishes decodes on the device into the same three channels, and the colour it fills gives those bytes back. |
| `DeviceLoop.PublishData` | m5_device.py:68-79 | A report is sent iff both sensor reads succeed, and it carries exactly those readings. |
| `DeviceLoop.Step` | m5_device.py:90-101 | Under 1000 ms nothing changes. Otherwise `last_time` is restamped. If a display read raises, the loop ends with the counter unchanged. Otherwise a tick is counted, the counter stays in 0..4, and `publish_data` runs iff the tick is the fifth. |
| `DeviceLoop.Run` | m5_device.py:90-102 | The first event is what `Step` makes of the first poll. The loop yields one event per poll when no display read raises. A run cut short ends in a crash, the crash comes from a poll whose display read raised, and no crash comes before the last event. |
| `DeviceLoop.FifthTickPublishes` | m5_device.py:88-101 | From any counter `k` in 0..4, after `n` counted ticks `publish_data` has run `(k + n) / 5` times and the counter is `(k + n) % 5`, also for a run a crash cut short. |
| `DeviceLoop.PublishesEveryFifthTick` | m5_device.py:88-101 | From a fresh start, publications are exactly one in five ticks. |
| `DeviceLoop.ReportsFollowPublications` | m5_device.py:68-101 | Reports sent never outnumber runs of `publish_data`, and they are equal when `publish_data`'s sensor reads never raise. |

## Left out

- `Session.Initialize`: the branch where the acknowledgement arrives during the poll is the corrected behaviour. The code's lock rules it out; `Session.InitializeAsWritten` models the code as written (see Findings).
- Threads and the controller's lock are left out. Every method and callback is one atomic step. Interleavings of the paho network thread with tool calls are not modelled.
- The five-second poll in `initialize` is left out. Its timing is an input: whether the acknowledgement arrived within the poll.
- The body of the reconnect task is left out: the `reconnect()` loop with its 5 s and 10 s sleeps. The model counts the tasks started.
- The paho client itself is left out: socket I/O, QoS handling and `loop_start`. `client.publish` is an input outcome: a result code, or raised.
- JSON text is left out. `json.dumps` output is kept as the JSON value it serialises, so key order and spacing are not modelled. `json.loads` is taken as already done (`Payload`).
- Parsing numeric strings inside `int()`/`float()` is left out. A JSON string carries its conversion outcomes as data.
- `Json.ToFloat`: NaN, infinities and the float range are not modelled, because values are exact reals.
- `Units.KeyErrorWordsInjective`: the error text is the key in single quotes. Python's `repr` picks double quotes for a key holding `'` and escapes backslashes and unprintable characters; those keys are not modelled.
- `Telemetry.OnMessage`: a payload that is not valid UTF-8 makes the source's `decode()` raise outside the `try`, so the exception escapes the callback. The model leaves the cache unchanged in that case and does not model the escaping exception.
- Logging is not modelled.
- `Units.Convert`: the result before `round(result, 6)`. Floating-point rounding is not modelled, so the round trip holds of exact reals only.
- `Stats.Statistics`: the standard deviation is returned as the symbolic square root of the variance. `math.sqrt` and float arithmetic are not modelled.
- `SciOps.Lower`: ASCII case mapping only. Of the non-ASCII characters Python lower-cases, only the Kelvin sign maps to an ASCII letter ('k'), and no operation name contains 'k', so the lookup's outcome does not change.
- `scientific_calc` applying the chosen function to its arguments is left out: floating-point library calls.
- The `calculator` tool, which evaluates an expression with `eval`, is left out. So is `random_number_generator`, which needs randomness.
- Device hardware is left out: Wi-Fi setup, the display labels, the sensor drivers, and `check_msg`. Sensor reads are inputs, with `None` for a read that raised. In `publish_data` the exception is caught; in the loop it ends `main`.
- `DeviceLoop.Step`: `ticks_diff` on the device's wrapping millisecond counter is taken as plain subtraction on an unbounded clock.
- `DeviceLoop.PublishData`: `round(x, 1)` of the readings and an exception from `client.publish` are not modelled.

## Observations

The model follows the code in each of these places.

- Each disconnect starts a new reconnect thread, and nothing stops several from running at once (`Session.DisconnectTwiceStartsTwoTasks`).
- `_on_connect` marks the session connected whatever the result code says (`Session.OnConnect`).
- A connect that raised leaves a client object behind, so `initialize` never tries again (`Session.FailedConnectIsSticky`).
- The command tools check connectivity before they check their arguments. An out-of-range request while offline reports the connection error (`IotTools.SetRgb`, `IotTools.SetFan`).
- The telemetry update is not atomic. A good temperature beside a bad humidity updates the temperature alone (`Telemetry.TornUpdate`).

## Findings

| source | as written | input that shows it | evidently intended | confidence | as-written member | corrected member |
|---|---|---|---|---|---|---|
| tools/iot.py:26-47 | `initialize` polls for `connected` while holding the lock, and `_on_connect` needs that lock to set `connected`. So the first call, the one made when the module loads (line 101), always answers false: after the full five-second poll when `client.connect` returns, and at once when it raises (lines 41-43). | A new controller and a broker that acknowledges at once. | Answer true when the acknowledgement arrives during the poll. | not executed | `Session.InitializeAsWritten`, `Session.FirstInitializeAlwaysFails` | `Session.Initialize` |
