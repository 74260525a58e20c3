# system-influxdb, modelled in Dafny

system-influxdb is a small host-metrics daemon. From a configuration it builds a
list of sensors: load, CPU usage, maximum core temperature, memory usage, network
throughput per interface, disk throughput per block device, and disk space per
mount path. Once per wall-clock second it ticks every sensor in order. A sensor
samples its value and hands it to `MeasurementSensor.upload`. That is a change
gate shared by all sensors and keyed by tag: it writes a point to InfluxDB only
when the value changed, or when the last write of that tag is more than an hour
old.

The model has eight modules, one per file:

- `Base`: the `Option` and `Result` values. A Python exception becomes an `Err`.
- `Kinds`: the seven sensor classes and their Python class names. The class
  name is the measurement name of every written point.
- `Text`: `str.split()` with no separator, `int(str)` and `str(int)`, enough
  to state the read-back of counter files and stat lines.
- `Rounding`: Python's `round()` on an exact rational, ties to even. It gives
  the disk sensor's halved deltas and the scheduler's delay. The delay's
  `(1000000 - microsecond) / 1000` is a float division and not always exactly
  n/1000. `round` of it still agrees: a tie (n ending in 500) is a multiple of
  one half and comes out exact, and any other quotient is at least 0.001 from
  the nearest half, far more than the division's error.
- `Gate`: the change gate.
  - `Evaluate` is the value-level meaning of one `upload` call.
  - `ChangeGate` is a class holding the two process-wide dictionaries and
    the log of records handed to the store.
  - `ChangeGate.Upload` updates them in place and is proved equal to
    `Evaluate`.
- `Sensing`: the sensors as values.
  - `Observe` and `Tick` model one `tick()` inside the controller's
    `try`/`except`.
  - `Cycle` models one pass over the registry.
  - `Registry` models `Controller.__init__`.
- `Sensors`: the two throughput sensors as classes whose `init`, `r1` and
  `t1`/`w1` fields roll in place. `MaxCoreTemperature` is the temperature
  loop. `TickSensor` dispatches `sensor.tick()`. Each is proved to do what
  `Sensing.Tick` says.
- `Scheduler`: the `Controller` class.
  - `Controller.Create` builds one sensor per configuration item, in a loop.
    A network or disk throughput item becomes a new object of its class. The
    other five kinds keep no state of their own and are plain `Sensor` values.
  - `Controller.Cycle` ticks every sensor in order through the shared gate
    and computes the delay to the next second.
  - Separation of the sensor objects from each other and from the gate is
    part of the controller's validity.

The operating system is a `Host` value: the psutil readings and the text of the
readable files. The clock is an integer `now` (the floor of `time.time()`) and
a microsecond field. A record is `Record(kind, tag, system, value, time)`. Its
measurement name is `ClassName(kind)`, which `ClassNameInjective` shows carries
the same information as the kind.

The heartbeat test at system-influxdb.py:28 is the strict
`lastUpdates[tag] + 3600 < now`. A value unchanged for exactly 3600 seconds is
suppressed, and it is written again at 3601 seconds (`QuietForAnHour`,
`HeartbeatAfterAnHour`).

## Model

| member | source | states |
|---|---|---|
| Kinds.ClassNameInjective | system-influxdb.py:31 | the measurement name `type(self).__name__` determines the sensor class and vice versa, so records may carry the class |
| Gate.Seeded | system-influxdb.py:22-26 | after seeding, the tag is present in both dictionaries |
| Gate.Evaluate | system-influxdb.py:19-35 | one upload touches only its own tag and removes no key; afterwards the tag holds this value and a time at most an hour old; at most this one record is written; the first upload of a tag always writes |
| Gate.EvaluateConsistent | system-influxdb.py:22-26 | the two dictionaries keep exactly the same tags |
| Gate.EvaluateWrites | system-influxdb.py:28-35 | a record is written if and only if the tag is new, the value differs from the last one written, or the last write is more than 3600 s old; a write refreshes the tag's time to now |
| Gate.EvaluateSuppressed | system-influxdb.py:28 | a same-value upload within 3600 s of the last write changes nothing at all: no write, the same dictionaries |
| Gate.QuietForAnHour | system-influxdb.py:28 | re-uploading the same value every second up to 3600 s after its write leaves the gate untouched |
| Gate.HeartbeatAfterAnHour | system-influxdb.py:28-35 | a value written at t and re-uploaded every second is suppressed through t+3600 and written again at t+3601, refreshing its time |
| Gate.LoadScenario | system-influxdb.py:19-35 | load 0.5 on an empty gate: written at t0, suppressed at t0+1, written again at t0+3601 |
| Gate.ChangeGate.constructor | system-influxdb.py:13-14 | the two class-level dictionaries start empty and nothing has been written |
| Gate.ChangeGate.Upload | system-influxdb.py:19-35 | the in-place update of the two dictionaries and the log is exactly `Evaluate`, and keeps them consistent |
| Rounding.RoundHalfEven | system-influxdb.py:131 | the result is within half a unit of n/d, and an exact tie gives an even result |
| Rounding.RoundHalfEvenUnique | system-influxdb.py:131 | any integer within half a unit that is even on a tie is that result: `round` is fully determined |
| Rounding.HalfRounded | system-influxdb.py:131-134 | `round(delta * .5)`: half of an even delta, the even neighbour of half an odd one |
| Rounding.HalfRoundedExamples | system-influxdb.py:131-134 | 3 and 5 both round to 2, 1 and -1 to 0, -3 to -2, 400 to 200 |
| Rounding.DelayMillis | system-influxdb.py:186 | the delay lies in [0, 1000] ms and lands within half a millisecond of the next whole second |
| Text.SplitWords | system-influxdb.py:121 | every field `split()` produces is non-empty and free of white space |
| Text.SplitPadded | system-influxdb.py:121 | splitting a line of words with any non-empty run of white space between them, and any white space before and after (padding, the final newline), gives the words back |
| Text.DigitsShowNat | system-influxdb.py:44 | the decimal digits of n read back as n |
| Text.ParseIntShowInt | system-influxdb.py:44 | `int()` of `str(n)` with any white space around it is n, for negative n too |
| Sensing.KindNamedFinds | system-influxdb.py:156-164 | the `sensorClasses` lookup finds a kind only under that kind's key, and fails when no kind has that key |
| Sensing.KindNamedConfigName | system-influxdb.py:156-164 | every kind is found under its own key |
| Sensing.MaxTemperature | system-influxdb.py:65-67 | the fold is at least 0 and at least every core reading, and is 0 or one of the readings |
| Sensing.ObserveShape | system-influxdb.py:47-150 | a successful tick keeps the sensor's kind and configuration; a stateless sensor uploads exactly one value; a counter sensor becomes initialised and uploads nothing on its first tick and two values on every later one |
| Sensing.ReadCounterFile | system-influxdb.py:41-45 | a file holding `str(n)` and a newline reads back as n |
| Sensing.NetworkTick | system-influxdb.py:89-106 | with both counters read: the first tick stores them and uploads nothing; a later one uploads the rx delta, then the tx delta; the baseline rolls to the readings |
| Sensing.NetworkTickOnFiles | system-influxdb.py:89-106 | the same, on counter files as the kernel writes them |
| Sensing.NetworkTickFails | system-influxdb.py:90-91 | a missing or non-integer counter file makes the tick raise |
| Sensing.NetworkScenario | system-influxdb.py:89-106 | counters at 1000/500 and then 1400/600: no upload, then 400 and 100 under the `-rx` and `-tx` tags |
| Sensing.DiskTick | system-influxdb.py:122-138 | fields 2 and 6 are the counters; the first tick stores them; a later one uploads half of each delta, rounded half to even, read first |
| Sensing.ObserveDiskOn | system-influxdb.py:121 | the disk tick works on the split fields of `/sys/block/<device>/stat` |
| Sensing.DiskTickFails | system-influxdb.py:121-123 | a missing stat file, or field 2 or 6 missing or not an integer, makes the tick raise |
| Sensing.IntegerFieldShowInt | system-influxdb.py:122-123 | a field holding `str(n)` parses as n |
| Sensing.DiskTickOnLine | system-influxdb.py:120-138 | on a stat line as the kernel writes it, with the fields padded by white space, a final newline, and the counters in fields 2 and 6, the tick stores or uploads exactly those numbers |
| Sensing.DiskTickShortLine | system-influxdb.py:121-123 | a stat line with fewer than seven fields makes the tick raise (IndexError, or ValueError when field 2 is present but not an integer) |
| Sensing.Publish | system-influxdb.py:99-103 | uploading a tick's values in order keeps the dictionaries consistent and only appends to the log, at most one record per value |
| Sensing.PublishKeys | system-influxdb.py:22-26 | the dictionaries gain exactly the tags uploaded and lose none |
| Sensing.TickOutcome | system-influxdb.py:179-183 | a tick inside the controller's `try` succeeds if and only if the observation does; the sensor is then in its state after the observation, and keeps its kind and configuration; a raising tick leaves the gate as it was |
| Sensing.TickKeeps | system-influxdb.py:179-183 | a tick keeps the dictionaries consistent and only appends to the log |
| Sensing.TickOk | system-influxdb.py:179-181 | a tick that does not raise uploads its observations in order under its class's name |
| Sensing.TickErr | system-influxdb.py:180-183 | a tick that raises leaves the sensor and the gate as they were |
| Sensing.Cycle | system-influxdb.py:179-183 | one pass gives one state and one outcome per sensor |
| Sensing.CycleKeeps | system-influxdb.py:179-183 | a pass keeps the dictionaries consistent and only appends to the log |
| Sensing.CycleOutcomes | system-influxdb.py:179-183 | whether each sensor succeeds, and its next state, depend only on that sensor and the host: a raising sensor stops no later sensor |
| Sensing.CycleSkipsFailure | system-influxdb.py:180-183 | a raising sensor hands the gate to the next sensor unchanged |
| Sensing.CycleWithoutFailure | system-influxdb.py:179-183 | a pass with a raising sensor leaves the gate and the log exactly as the pass over the other sensors does, so the others' values are still written |
| Sensing.InstantiateBuilds | system-influxdb.py:166-175 | an item builds a sensor only for a known kind, of that kind, with no baseline; an empty mapping and an unknown kind are the lookup's two errors |
| Sensing.Registry | system-influxdb.py:166-175 | a successful construction has one sensor per item |
| Sensing.RegistryBuildsEach | system-influxdb.py:166-175 | construction succeeds if and only if every item can be built, and then the i-th sensor is the one item i builds |
| Sensing.RegistryKeepsError | system-influxdb.py:166-175 | once a prefix of the items fails, the whole construction fails with the same error |
| Sensing.RegistryFirstError | system-influxdb.py:166-175 | the construction fails with the error of the first item that cannot be built |
| Sensing.InstantiateItemFor | system-influxdb.py:168-174 | a bare kind name builds a parameterless sensor with config None; a one-key mapping builds the sensor of its first key with its parameter |
| Sensing.RegistryUnknownKind | system-influxdb.py:169-174 | an unknown kind anywhere in the configuration fails the construction (KeyError) |
| Sensors.UploadTwo | system-influxdb.py:99-103 | the two uploads of a throughput tick update the gate as `Publish` of the two values, in order |
| Sensors.NetworkThroughputSensor.constructor | system-influxdb.py:80-87 | a new network sensor holds its interface and is not initialised |
| Sensors.NetworkThroughputSensor.Tick | system-influxdb.py:89-106 | the in-place tick returns success, sets the fields and updates the gate exactly as `Sensing.Tick` of the old state |
| Sensors.DiskTroughputSensor.constructor | system-influxdb.py:111-118 | a new disk sensor holds its device and is not initialised |
| Sensors.DiskTroughputSensor.Tick | system-influxdb.py:120-138 | the in-place tick returns success, sets the fields and updates the gate exactly as `Sensing.Tick` of the old state |
| Sensors.MaxCoreTemperature | system-influxdb.py:64-67 | the loop computes `MaxTemperature`: at least 0, at least every core, and 0 or one of the readings |
| Sensors.Report | system-influxdb.py:50-75 | a stateless sensor's tick is its one upload through the gate |
| Sensors.TickSensor | system-influxdb.py:181 | `sensor.tick()` of any sensor changes it and the gate exactly as `Sensing.Tick` says |
| Scheduler.NewSensor | system-influxdb.py:168-174 | `sensorClasses[kind](config=...)` gives a new sensor object whose state is `Instantiate(item)`, or the same error |
| Scheduler.NewSensors | system-influxdb.py:166-175 | the loop gives new, pairwise separate sensor objects whose states are `Registry(items)`, or its error |
| Scheduler.Controller.Create | system-influxdb.py:155-175 | `Controller(config)`: a valid controller over the shared gate whose sensors' states are `Registry(items)`, or the error of the first bad item |
| Scheduler.Controller.TickOne | system-influxdb.py:181 | ticking the i-th sensor advances it as `Sensing.Tick` says and changes no other sensor |
| Scheduler.Controller.TickAt | system-influxdb.py:179-183 | after the first i sensors have run as `Sensing.Cycle` says, ticking sensor i extends that cycle by one tick |
| Scheduler.Controller.Cycle | system-influxdb.py:179-186 | one pass leaves the sensors, the gate and the outcomes exactly as `Sensing.Cycle` of the old states says, and gives the delay `DelayMillis` |

## Left out

- Loading `config.yml`: the configuration arrives as a list of `ConfigItem` values. A mapping item is its entries in iteration order, and parameter values are strings.
- The InfluxDB client and its write API: a write is a `Record` appended to the gate's log, and the write is assumed never to raise. If it raised at system-influxdb.py:32, the tag would stay seeded with `None`. In a throughput tick, the second upload and the baseline roll (system-influxdb.py:100-106) would then be skipped. The model's "a raising tick changes nothing" (`TickErr`) rests on this assumption. Reading the `system`, `org` and `bucket` keys of the global configuration is not modelled; the system label is a constant of the gate.
- psutil and file I/O: the readings of one cycle are a `Host` value. One `now` serves a whole cycle, while the code reads the clock on every upload.
- Floating point: readings and uploaded values are `real`. NaN, infinities and float rounding are not modelled, and the disk sensor's `delta * .5` is exact, which holds in Python only for deltas below 2^53 in magnitude.
- Python's int/float equality in `lastValues[tag] != value` is equality of `real` values, and the seeded `None` equals no value.
- `int()`: ASCII digits with an optional sign and white space around them. Underscores between digits and non-ASCII digits are not modelled. White space is the fixed set of characters `str.isspace()` accepts in `Text.IsSpace`.
- The infinite `while True` loop and `time.sleep`: one pass is `Controller.Cycle`, and the delay is returned.
- `print`: the console messages for a write and for an ignored sensor error.
- Configuration values that are not strings, and `sensors:` items that are neither a string nor a mapping, are not modelled.
- A single value rather than a mapping under the kind key (e.g. `- network-throughput: eth0`) cannot be expressed, because a parameter block is `Option<map<string, string>>`. The source builds such a sensor for the parameterless kinds. For the throughput and disk-space kinds it raises TypeError (`'eth0'['interface']`, system-influxdb.py:87, 118, 146).
- `MeasurementSensor.readString` and `readInteger` are functions of the `Host` snapshot rather than file reads.
- Measurement names: a record carries the sensor's `Kind`, and its measurement name is `Kinds.ClassName` of that kind. This includes the class name `DiskTroughputSensor` as the code spells it.
- Constructor parameters: a parameterless sensor kind given `config=None` is built without reading it. A throughput or disk-space kind given None raises the TypeError of `None['interface']`, modelled as the error `NoParameters`.
