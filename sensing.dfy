/**
 * What the sensors observe and how the controller drives them, as values: the
 * seven sensor kinds, the host readings they sample, one tick of one sensor,
 * one scheduler cycle over the registry, and the registry built from the
 * configuration. The classes in module Sensors and Scheduler are proved to
 * behave as these functions say.
 */
module Sensing {
  import opened Base
  import opened Kinds
  import opened Text
  import opened Rounding
  import opened Gate

  /** The key of each kind in the controller's `sensorClasses` table. */
  function ConfigName(k: Kind): string {
    match k
    case Load => "load"
    case CpuUsage => "cpu-usage"
    case CpuMaxTemperature => "cpu-max-temperature"
    case MemoryUsage => "memory-usage"
    case NetworkThroughput => "network-throughput"
    case DiskThroughput => "disk-throughput"
    case DiskSpace => "disk-space"
  }

  /** The lookup `sensorClasses[name]`; `None` is the KeyError of an unknown kind. */
  function KindNamed(name: string): Option<Kind>
  {
    if name == "load" then Some(Load)
    else if name == "cpu-usage" then Some(CpuUsage)
    else if name == "cpu-max-temperature" then Some(CpuMaxTemperature)
    else if name == "memory-usage" then Some(MemoryUsage)
    else if name == "network-throughput" then Some(NetworkThroughput)
    else if name == "disk-throughput" then Some(DiskThroughput)
    else if name == "disk-space" then Some(DiskSpace)
    else None
  }

  /** The lookup finds exactly the kinds whose key is `name`. */
  lemma KindNamedFinds(name: string)
    ensures KindNamed(name).Some? ==> ConfigName(KindNamed(name).value) == name
    ensures KindNamed(name).None? ==> forall k: Kind :: ConfigName(k) != name
  {
  }

  lemma KindNamedConfigName(k: Kind)
    ensures KindNamed(ConfigName(k)) == Some(k)
  {
  }

  /**
   * What the operating system reports during one cycle: the metrics library's
   * values and the contents of the readable files. A missing key is a reading
   * that raises.
   */
  datatype Host = Host(
    loadAverage: real,                      // psutil.getloadavg()[0]
    cpuPercent: real,                       // psutil.cpu_percent()
    temperatures: map<string, seq<real>>,   // psutil.sensors_temperatures(), current value per core
    memoryPercent: real,                    // psutil.virtual_memory().percent
    diskUsage: map<string, real>,           // psutil.disk_usage(path).percent
    files: map<string, string>)             // file path to its text

  /** Why a tick raised. */
  datatype Failure =
    | NoSuchFile(path: string)
    | NotAnInteger(text: string)
    | NoSuchField(index: nat)
    | NoSuchChip(chip: string)
    | NoSuchPath(path: string)

  /** The rolling state of a counter sensor: `init`, and the previous two readings (`r1` with `t1` or `w1`). */
  datatype Baseline = Baseline(init: bool, first: int, second: int)

  const Uninitialised: Baseline := Baseline(false, 0, 0)

  /** One configured sensor with its configuration and rolling state. */
  datatype SensorState =
    | LoadState
    | CpuUsageState
    | CpuMaxTemperatureState
    | MemoryUsageState
    | NetworkState(interface: string, base: Baseline)
    | DiskState(device: string, base: Baseline)
    | DiskSpaceState(path: string)

  function KindOf(s: SensorState): Kind {
    match s
    case LoadState => Load
    case CpuUsageState => CpuUsage
    case CpuMaxTemperatureState => CpuMaxTemperature
    case MemoryUsageState => MemoryUsage
    case NetworkState(_, _) => NetworkThroughput
    case DiskState(_, _) => DiskThroughput
    case DiskSpaceState(_) => DiskSpace
  }

  predicate IsCounter(s: SensorState) {
    s.NetworkState? || s.DiskState?
  }

  /** `t` is `s` with the same kind and configuration, whatever its rolling state. */
  predicate SameSensor(s: SensorState, t: SensorState) {
    match s
    case NetworkState(i, _) => t.NetworkState? && t.interface == i
    case DiskState(d, _) => t.DiskState? && t.device == d
    case _ => t == s
  }

  datatype Observation = Observation(tag: string, value: real)

  /** A successful tick: the sensor's next state and the values it uploads, in order. */
  datatype Step = Step(next: SensorState, observations: seq<Observation>)

  function RxPath(interface: string): string {
    "/sys/class/net/" + interface + "/statistics/rx_bytes"
  }

  function TxPath(interface: string): string {
    "/sys/class/net/" + interface + "/statistics/tx_bytes"
  }

  function StatPath(device: string): string {
    "/sys/block/" + device + "/stat"
  }

  /** `readString(path)`. */
  function ReadString(host: Host, path: string): Result<string, Failure> {
    if path in host.files then Ok(host.files[path]) else Err(NoSuchFile(path))
  }

  /** `int(text)`. */
  function ParseInteger(text: string): Result<int, Failure> {
    match ParseInt(text)
    case Some(n) => Ok(n)
    case None => Err(NotAnInteger(text))
  }

  /** `readInteger(path)`. */
  function ReadInteger(host: Host, path: string): Result<int, Failure> {
    var text :- ReadString(host, path);
    ParseInteger(text)
  }

  /** `int(fields[index])`: an IndexError when the line is too short. */
  function IntegerField(fields: seq<string>, index: nat): Result<int, Failure> {
    if index < |fields| then ParseInteger(fields[index]) else Err(NoSuchField(index))
  }

  /** The fold of `CpuMaxTemperatureSensor.tick`: start at 0 and keep any reading greater than the maximum so far. */
  function MaxTemperature(temps: seq<real>): (m: real)
    ensures 0.0 <= m
    ensures forall i :: 0 <= i < |temps| ==> temps[i] <= m
    ensures m == 0.0 || m in temps
  {
    if temps == [] then 0.0
    else
      var prev := MaxTemperature(temps[..|temps| - 1]);
      var last := temps[|temps| - 1];
      assert temps == temps[..|temps| - 1] + [last];
      if last > prev then last else prev
  }

  /** `NetworkThroughputSensor.tick`: read both counters, then either store them or upload their deltas. */
  function ObserveNetwork(interface: string, b: Baseline, host: Host): Result<Step, Failure> {
    var rx :- ReadInteger(host, RxPath(interface));
    var tx :- ReadInteger(host, TxPath(interface));
    Ok(Step(NetworkState(interface, Baseline(true, rx, tx)),
      if !b.init then []
      else [Observation(interface + "-rx", (rx - b.first) as real),
            Observation(interface + "-tx", (tx - b.second) as real)]))
  }

  /** `DiskTroughputSensor.tick`: split the stat line, then go on as DiskStep says. */
  function ObserveDisk(device: string, b: Baseline, host: Host): Result<Step, Failure> {
    var text :- ReadString(host, StatPath(device));
    DiskStep(device, b, Split(text))
  }

  /** The disk sensor on the fields of its stat line: parse fields 2 and 6, then store them or upload half their deltas. */
  function DiskStep(device: string, b: Baseline, fields: seq<string>): Result<Step, Failure> {
    var r :- IntegerField(fields, 2);
    var w :- IntegerField(fields, 6);
    Ok(Step(DiskState(device, Baseline(true, r, w)),
      if !b.init then []
      else [Observation(device + "-read", HalfRounded(r - b.first) as real),
            Observation(device + "-write", HalfRounded(w - b.second) as real)]))
  }

  /** What one `tick()` of the sensor reads and uploads, or the exception it raises. */
  function Observe(s: SensorState, host: Host): Result<Step, Failure> {
    match s
    case LoadState => Ok(Step(s, [Observation("load-1", host.loadAverage)]))
    case CpuUsageState => Ok(Step(s, [Observation("usage", host.cpuPercent)]))
    case CpuMaxTemperatureState =>
      if "coretemp" in host.temperatures then
        Ok(Step(s, [Observation("maxtemp", MaxTemperature(host.temperatures["coretemp"]))]))
      else Err(NoSuchChip("coretemp"))
    case MemoryUsageState => Ok(Step(s, [Observation("perc", host.memoryPercent)]))
    case NetworkState(interface, b) => ObserveNetwork(interface, b, host)
    case DiskState(device, b) => ObserveDisk(device, b, host)
    case DiskSpaceState(path) =>
      if path in host.diskUsage then Ok(Step(s, [Observation(path, host.diskUsage[path])]))
      else Err(NoSuchPath(path))
  }

  /**
   * A tick keeps the sensor's kind and configuration; a sensor without state of
   * its own uploads one value per tick.
   */
  lemma ObserveShape(s: SensorState, host: Host)
    ensures var r := Observe(s, host);
      (r.Ok? ==> SameSensor(s, r.value.next)) &&
      (r.Ok? && !IsCounter(s) ==> r.value.next == s && |r.value.observations| == 1) &&
      // A counter sensor is initialised by its first successful tick, and stays so.
      (r.Ok? && IsCounter(s) ==> r.value.next.base.init) &&
      // It uploads nothing on that first tick and exactly two values on every later one.
      (r.Ok? && IsCounter(s) ==> |r.value.observations| == if s.base.init then 2 else 0)
  {
  }

  /** A counter file as the kernel writes it, the number and a newline, reads back as that number. */
  lemma ReadCounterFile(host: Host, path: string, n: int)
    requires path in host.files && host.files[path] == ShowInt(n) + "\n"
    ensures ReadInteger(host, path) == Ok(n)
  {
    assert ParseInt(host.files[path]) == Some(n) by {
      ParseIntShowInt(n, "", "\n");
      assert "" + ShowInt(n) + "\n" == ShowInt(n) + "\n";
    }
  }

  /**
   * The network sensor: the first successful tick stores the two readings and
   * uploads nothing; a later one uploads the two byte deltas, rx first; every
   * one rolls the baseline to the readings.
   */
  lemma NetworkTick(interface: string, b: Baseline, host: Host, rx: int, tx: int)
    requires ReadInteger(host, RxPath(interface)) == Ok(rx)
    requires ReadInteger(host, TxPath(interface)) == Ok(tx)
    ensures Observe(NetworkState(interface, b), host) ==
      Ok(Step(NetworkState(interface, Baseline(true, rx, tx)),
        if !b.init then []
        else [Observation(interface + "-rx", (rx - b.first) as real),
              Observation(interface + "-tx", (tx - b.second) as real)]))
  {
  }

  /** The same, on counter files as the kernel writes them: the number and a newline. */
  lemma NetworkTickOnFiles(interface: string, b: Baseline, host: Host, rx: int, tx: int)
    requires RxPath(interface) in host.files && host.files[RxPath(interface)] == ShowInt(rx) + "\n"
    requires TxPath(interface) in host.files && host.files[TxPath(interface)] == ShowInt(tx) + "\n"
    ensures Observe(NetworkState(interface, b), host) ==
      Ok(Step(NetworkState(interface, Baseline(true, rx, tx)),
        if !b.init then []
        else [Observation(interface + "-rx", (rx - b.first) as real),
              Observation(interface + "-tx", (tx - b.second) as real)]))
  {
    NetworkTick(interface, b, host, rx, tx) by {
      ReadCounterFile(host, RxPath(interface), rx);
      ReadCounterFile(host, TxPath(interface), tx);
    }
  }

  /** Either counter file missing or not holding an integer: the tick raises. */
  lemma NetworkTickFails(interface: string, b: Baseline, host: Host)
    requires ReadInteger(host, RxPath(interface)).Err? || ReadInteger(host, TxPath(interface)).Err?
    ensures Observe(NetworkState(interface, b), host).Err?
  {
  }

  /**
   * The disk sensor: fields 2 and 6 of the stat line are the two counters; the
   * first successful tick stores them, a later one uploads half of each delta,
   * rounded half to even, read first.
   */
  lemma DiskTick(device: string, b: Baseline, fields: seq<string>, r: int, w: int)
    requires IntegerField(fields, 2) == Ok(r) && IntegerField(fields, 6) == Ok(w)
    ensures DiskStep(device, b, fields) ==
      Ok(Step(DiskState(device, Baseline(true, r, w)),
        if !b.init then []
        else [Observation(device + "-read", HalfRounded(r - b.first) as real),
              Observation(device + "-write", HalfRounded(w - b.second) as real)]))
  {
  }

  /** A missing stat file, or a stat line whose field 2 or 6 is missing or not an integer: the tick raises. */
  lemma DiskTickFails(device: string, b: Baseline, host: Host)
    requires StatPath(device) !in host.files ||
      IntegerField(Split(host.files[StatPath(device)]), 2).Err? ||
      IntegerField(Split(host.files[StatPath(device)]), 6).Err?
    ensures Observe(DiskState(device, b), host).Err?
  {
  }

  /** The disk sensor on the fields of its stat file. */
  lemma ObserveDiskOn(device: string, b: Baseline, host: Host)
    requires StatPath(device) in host.files
    ensures Observe(DiskState(device, b), host) == DiskStep(device, b, Split(host.files[StatPath(device)]))
  {
  }

  /** A field that holds the decimal digits of `n` parses as `n`. */
  lemma IntegerFieldShowInt(fields: seq<string>, index: nat, n: int)
    requires index < |fields| && fields[index] == ShowInt(n)
    ensures IntegerField(fields, index) == Ok(n)
  {
    assert ParseInt(fields[index]) == Some(n) by {
      ParseIntShowInt(n, "", "");
      assert "" + ShowInt(n) + "" == ShowInt(n);
    }
  }

  /**
   * The disk sensor on a stat line as the kernel writes it: the fields padded
   * with white space, the counters in fields 2 and 6, and a newline at the end.
   */
  lemma DiskTickOnLine(device: string, b: Baseline, host: Host, pre: string, fields: seq<string>, gaps: seq<string>, post: string,
                         r: int, w: int)
    requires forall i :: 0 <= i < |fields| ==> IsWord(fields[i])
    requires |fields| > 6 && fields[2] == ShowInt(r) && fields[6] == ShowInt(w)
    requires |gaps| == |fields| - 1 && forall i :: 0 <= i < |gaps| ==> |gaps[i]| > 0 && AllSpaces(gaps[i])
    requires AllSpaces(pre) && AllSpaces(post)
    requires StatPath(device) in host.files && host.files[StatPath(device)] == pre + Joined(fields, gaps) + post
    ensures Observe(DiskState(device, b), host) ==
      Ok(Step(DiskState(device, Baseline(true, r, w)),
        if !b.init then []
        else [Observation(device + "-read", HalfRounded(r - b.first) as real),
              Observation(device + "-write", HalfRounded(w - b.second) as real)]))
  {
    SplitPadded(pre, fields, gaps, post);
    IntegerFieldShowInt(fields, 2, r);
    IntegerFieldShowInt(fields, 6, w);
    DiskTick(device, b, fields, r, w);
  }

  /** A stat line with fewer than seven fields makes the tick raise. */
  lemma DiskTickShortLine(device: string, b: Baseline, fields: seq<string>)
    requires |fields| <= 6
    ensures DiskStep(device, b, fields).Err?
  {
  }

  /** Two ticks of a new network sensor, the counters at 1000 and 500 and then at 1400 and 600: no upload, then the deltas 400 and 100. */
  lemma NetworkScenario(interface: string, host1: Host, host2: Host)
    requires ReadInteger(host1, RxPath(interface)) == Ok(1000) && ReadInteger(host1, TxPath(interface)) == Ok(500)
    requires ReadInteger(host2, RxPath(interface)) == Ok(1400) && ReadInteger(host2, TxPath(interface)) == Ok(600)
    ensures Observe(NetworkState(interface, Uninitialised), host1) ==
      Ok(Step(NetworkState(interface, Baseline(true, 1000, 500)), []))
    ensures Observe(NetworkState(interface, Baseline(true, 1000, 500)), host2) ==
      Ok(Step(NetworkState(interface, Baseline(true, 1400, 600)),
        [Observation(interface + "-rx", 400.0), Observation(interface + "-tx", 100.0)]))
  {
    NetworkTick(interface, Uninitialised, host1, 1000, 500);
    NetworkTick(interface, Baseline(true, 1000, 500), host2, 1400, 600);
  }

  /** Each observation of a tick, in order, goes through the change gate. */
  function Publish(g: GateState, system: string, kind: Kind, obs: seq<Observation>, now: int): (r: GateState)
    ensures Consistent(g) ==> Consistent(r)
    ensures g.log <= r.log && |r.log| <= |g.log| + |obs|
    decreases |obs|
  {
    if obs == [] then g
    else
      var g' := Evaluate(g, system, kind, obs[0].tag, obs[0].value, now);
      EvaluateConsistent(g, system, kind, obs[0].tag, obs[0].value, now);
      Publish(g', system, kind, obs[1..], now)
  }

  /** Publishing adds exactly the tags of the observations to the gate's bookkeeping, and removes none. */
  lemma {:induction false} PublishKeys(g: GateState, system: string, kind: Kind, obs: seq<Observation>, now: int)
    ensures Publish(g, system, kind, obs, now).lastValues.Keys == g.lastValues.Keys + set o | o in obs :: o.tag
    decreases |obs|
  {
    if obs != [] {
      var g' := Evaluate(g, system, kind, obs[0].tag, obs[0].value, now);
      PublishKeys(g', system, kind, obs[1..], now);
      TagsSplit(obs);
    }
  }

  lemma TagsSplit(obs: seq<Observation>)
    requires obs != []
    ensures (set o | o in obs :: o.tag) == {obs[0].tag} + set o | o in obs[1..] :: o.tag
  {
    var all, rest := set o | o in obs :: o.tag, set o | o in obs[1..] :: o.tag;
    forall t | t in all ensures t in {obs[0].tag} + rest {
      var o :| o in obs && o.tag == t;
      if o != obs[0] {
        assert o in obs[1..];
      }
    }
  }

  /** The sensor's state after a tick: advanced when the tick succeeds, as it was when it raises. */
  function After(s: SensorState, host: Host): SensorState {
    match Observe(s, host)
    case Ok(step) => step.next
    case Err(_) => s
  }

  datatype TickResult = TickResult(state: SensorState, gate: GateState, ok: bool)

  /** One `sensor.tick()` inside the controller's `try`: a raising tick is swallowed and has changed nothing. */
  function Tick(s: SensorState, host: Host, g: GateState, system: string, now: int): TickResult {
    match Observe(s, host)
    case Ok(step) => TickResult(step.next, Publish(g, system, KindOf(s), step.observations, now), true)
    case Err(_) => TickResult(s, g, false)
  }

  /**
   * A tick succeeds exactly when the sensor's observation does; it leaves the
   * sensor in its state after the observation, of the same kind and
   * configuration, and a raising tick leaves the gate as it was.
   */
  lemma TickOutcome(s: SensorState, host: Host, g: GateState, system: string, now: int)
    ensures var r := Tick(s, host, g, system, now);
      (r.ok <==> Observe(s, host).Ok?) && r.state == After(s, host) &&
      (!r.ok ==> r.gate == g) && SameSensor(s, r.state)
  {
    ObserveShape(s, host);
  }

  /** A tick keeps the gate's two maps in step and only appends to the store's log. */
  lemma TickKeeps(s: SensorState, host: Host, g: GateState, system: string, now: int)
    ensures var r := Tick(s, host, g, system, now);
      (Consistent(g) ==> Consistent(r.gate)) && g.log <= r.gate.log
  {
  }

  /** A tick that does not raise uploads its observations through the gate, in order. */
  lemma TickOk(s: SensorState, host: Host, g: GateState, system: string, now: int, step: Step)
    requires Observe(s, host) == Ok(step)
    ensures Tick(s, host, g, system, now) ==
      TickResult(step.next, Publish(g, system, KindOf(s), step.observations, now), true)
  {
  }

  /** A tick that raises leaves the sensor and the gate as they were. */
  lemma TickErr(s: SensorState, host: Host, g: GateState, system: string, now: int)
    requires Observe(s, host).Err?
    ensures Tick(s, host, g, system, now) == TickResult(s, g, false)
  {
  }

  datatype CycleResult = CycleResult(states: seq<SensorState>, gate: GateState, oks: seq<bool>)

  /**
   * One pass of the controller's `for sensor in self.sensors` loop: every sensor
   * is ticked once, in registry order, each on the gate the previous one left.
   */
  function Cycle(ss: seq<SensorState>, host: Host, g: GateState, system: string, now: int): (r: CycleResult)
    ensures |r.states| == |ss| && |r.oks| == |ss|
    decreases |ss|
  {
    if ss == [] then CycleResult([], g, [])
    else
      var prev := Cycle(ss[..|ss| - 1], host, g, system, now);
      var t := Tick(ss[|ss| - 1], host, prev.gate, system, now);
      CycleResult(prev.states + [t.state], t.gate, prev.oks + [t.ok])
  }

  /** A cycle keeps the gate's two maps in step and only appends to the store's log. */
  lemma {:induction false} CycleKeeps(ss: seq<SensorState>, host: Host, g: GateState, system: string, now: int)
    ensures var r := Cycle(ss, host, g, system, now);
      (Consistent(g) ==> Consistent(r.gate)) && g.log <= r.gate.log
    decreases |ss|
  {
    if ss != [] {
      var front := ss[..|ss| - 1];
      CycleKeeps(front, host, g, system, now);
      TickKeeps(ss[|ss| - 1], host, Cycle(front, host, g, system, now).gate, system, now);
    }
  }

  /**
   * Whether a sensor succeeds, and its next state, depend on that sensor and the
   * host alone: a raising sensor does not stop or disturb the sensors after it.
   */
  lemma {:induction false} CycleOutcomes(ss: seq<SensorState>, host: Host, g: GateState, system: string, now: int)
    ensures var r := Cycle(ss, host, g, system, now);
      forall i :: 0 <= i < |ss| ==> r.oks[i] == Observe(ss[i], host).Ok? && r.states[i] == After(ss[i], host)
    decreases |ss|
  {
    if ss != [] {
      var front := ss[..|ss| - 1];
      CycleOutcomes(front, host, g, system, now);
      var prev := Cycle(front, host, g, system, now);
      var t := Tick(ss[|ss| - 1], host, prev.gate, system, now);
      TickOutcome(ss[|ss| - 1], host, prev.gate, system, now);
      var r := Cycle(ss, host, g, system, now);
      assert r.states == prev.states + [t.state] && r.oks == prev.oks + [t.ok];
      forall i | 0 <= i < |ss|
        ensures r.oks[i] == Observe(ss[i], host).Ok? && r.states[i] == After(ss[i], host)
      {
        if i < |front| {
          assert ss[i] == front[i];
        }
      }
    }
  }

  /** A sensor that raises leaves the gate to the next sensor exactly as it found it. */
  lemma CycleSkipsFailure(ss: seq<SensorState>, host: Host, g: GateState, system: string, now: int, i: nat)
    requires i < |ss| && Observe(ss[i], host).Err?
    ensures Cycle(ss[..i + 1], host, g, system, now).gate == Cycle(ss[..i], host, g, system, now).gate
  {
    assert ss[..i + 1][..i] == ss[..i];
    assert ss[..i + 1][i] == ss[i];
  }

  /**
   * A raising sensor might as well not be in the registry: the whole pass leaves
   * the gate, the store's log included, exactly as the pass over the others does.
   */
  lemma {:induction false} CycleWithoutFailure(ss: seq<SensorState>, host: Host, g: GateState, system: string, now: int, i: nat)
    requires i < |ss| && Observe(ss[i], host).Err?
    ensures Cycle(ss, host, g, system, now).gate == Cycle(ss[..i] + ss[i + 1..], host, g, system, now).gate
    decreases |ss|
  {
    var others := ss[..i] + ss[i + 1..];
    var front := ss[..|ss| - 1];
    if i == |ss| - 1 {
      assert others == front;
      TickErr(ss[i], host, Cycle(front, host, g, system, now).gate, system, now);
    } else {
      assert front[i] == ss[i];
      CycleWithoutFailure(front, host, g, system, now, i);
      assert others[..|others| - 1] == front[..i] + front[i + 1..];
      assert others[|others| - 1] == ss[|ss| - 1];
    }
  }

  /** A configuration `sensors:` entry: a bare kind name, or a mapping whose first key is the kind. */
  datatype ConfigItem =
    | Named(name: string)
    | Keyed(entries: seq<(string, Option<map<string, string>>)>)

  datatype ConfigError =
    | UnknownKind(name: string)        // KeyError from sensorClasses
    | EmptyItem                        // next(iter({})) on an empty mapping
    | NoParameters(key: string)        // TypeError from config['interface'] and the like when config is None
    | MissingParameter(key: string)    // KeyError from config['interface'] and the like

  /** `sensorClasses[kind](config=config)`: the constructor reads the one parameter its kind needs. */
  function Construct(k: Kind, config: Option<map<string, string>>): Result<SensorState, ConfigError> {
    match k
    case Load => Ok(LoadState)
    case CpuUsage => Ok(CpuUsageState)
    case CpuMaxTemperature => Ok(CpuMaxTemperatureState)
    case MemoryUsage => Ok(MemoryUsageState)
    case NetworkThroughput =>
      var p :- Parameter(config, "interface");
      Ok(NetworkState(p, Uninitialised))
    case DiskThroughput =>
      var p :- Parameter(config, "device");
      Ok(DiskState(p, Uninitialised))
    case DiskSpace =>
      var p :- Parameter(config, "path");
      Ok(DiskSpaceState(p))
  }

  function Parameter(config: Option<map<string, string>>, key: string): Result<string, ConfigError> {
    match config
    case None => Err(NoParameters(key))
    case Some(m) => if key in m then Ok(m[key]) else Err(MissingParameter(key))
  }

  /** The configuration key an item names. */
  function ItemName(item: ConfigItem): Option<string> {
    match item
    case Named(name) => Some(name)
    case Keyed(entries) => if entries == [] then None else Some(entries[0].0)
  }

  /** One iteration of the loop in `Controller.__init__`. */
  function Instantiate(item: ConfigItem): Result<SensorState, ConfigError>
  {
    match item
    case Named(name) =>
      (match KindNamed(name)
       case None => Err(UnknownKind(name))
       case Some(k) => Construct(k, None))
    case Keyed(entries) =>
      if entries == [] then Err(EmptyItem)
      else
        match KindNamed(entries[0].0)
        case None => Err(UnknownKind(entries[0].0))
        case Some(k) => Construct(k, entries[0].1)
  }

  /**
   * A sensor is built only for a known kind, of that kind, and with no
   * baseline yet; an empty mapping and an unknown kind are the two errors of
   * the lookup.
   */
  lemma InstantiateBuilds(item: ConfigItem)
    ensures var r := Instantiate(item);
      (r.Ok? ==> ItemName(item).Some? && KindNamed(ItemName(item).value) == Some(KindOf(r.value))) &&
      (r.Ok? && IsCounter(r.value) ==> r.value.base == Uninitialised) &&
      (ItemName(item).None? ==> r == Err(EmptyItem)) &&
      (ItemName(item).Some? && KindNamed(ItemName(item).value).None? ==> r == Err(UnknownKind(ItemName(item).value)))
  {
  }

  /** `Controller.__init__`: one sensor per item, in order, or the first item's error. */
  function Registry(items: seq<ConfigItem>): (r: Result<seq<SensorState>, ConfigError>)
    ensures r.Ok? ==> |r.value| == |items|
    decreases |items|
  {
    if items == [] then Ok([])
    else
      var prefix := items[..|items| - 1];
      var last := items[|items| - 1];
      var prev := Registry(prefix);
      if prev.Err? then prev
      else
        match Instantiate(last)
        case Err(e) => Err(e)
        case Ok(s) => Ok(prev.value + [s])
  }

  /**
   * The construction succeeds exactly when every item can be built, and then
   * the i-th sensor is the one the i-th item builds.
   */
  lemma {:induction false} RegistryBuildsEach(items: seq<ConfigItem>)
    ensures Registry(items).Ok? <==> forall i :: 0 <= i < |items| ==> Instantiate(items[i]).Ok?
    ensures Registry(items).Ok? ==> forall i :: 0 <= i < |items| ==> Instantiate(items[i]) == Ok(Registry(items).value[i])
    decreases |items|
  {
    if items != [] {
      var prefix := items[..|items| - 1];
      RegistryBuildsEach(prefix);
      assert forall i :: 0 <= i < |prefix| ==> prefix[i] == items[i];
    }
  }

  /** Once a prefix of the configuration fails, the whole construction fails with the same error. */
  lemma {:induction false} RegistryKeepsError(items: seq<ConfigItem>, k: nat)
    requires k <= |items| && Registry(items[..k]).Err?
    ensures Registry(items) == Registry(items[..k])
    decreases |items| - k
  {
    if k == |items| {
      assert items[..k] == items;
    } else {
      assert items[..k + 1][..k] == items[..k];
      RegistryKeepsError(items, k + 1);
    }
  }

  /** The construction fails with the error of the first item that cannot be built. */
  lemma RegistryFirstError(items: seq<ConfigItem>, i: nat)
    requires i < |items| && Instantiate(items[i]).Err?
    requires forall j :: 0 <= j < i ==> Instantiate(items[j]).Ok?
    ensures Registry(items) == Err(Instantiate(items[i]).error)
  {
    var prefix := items[..i];
    assert forall j :: 0 <= j < i ==> prefix[j] == items[j];
    RegistryBuildsEach(prefix);
    assert items[..i + 1][..i] == prefix && items[..i + 1][i] == items[i];
    RegistryKeepsError(items, i + 1);
  }

  /** The configuration entry that describes a sensor: its kind name, with its parameter when it has one. */
  function ItemFor(s: SensorState): ConfigItem {
    match s
    case NetworkState(i, _) => Keyed([(ConfigName(NetworkThroughput), Some(map["interface" := i]))])
    case DiskState(d, _) => Keyed([(ConfigName(DiskThroughput), Some(map["device" := d]))])
    case DiskSpaceState(p) => Keyed([(ConfigName(DiskSpace), Some(map["path" := p]))])
    case _ => Named(ConfigName(KindOf(s)))
  }

  /** Building a sensor from the entry that describes it gives it back, with no baseline. */
  lemma InstantiateItemFor(s: SensorState)
    ensures Instantiate(ItemFor(s)) == Ok(if IsCounter(s) then s.(base := Uninitialised) else s)
  {
  }

  /** An unknown kind anywhere in the configuration fails the whole construction. */
  lemma RegistryUnknownKind(items: seq<ConfigItem>, i: nat)
    requires i < |items| && ItemName(items[i]).Some? && KindNamed(ItemName(items[i]).value).None?
    ensures Registry(items).Err?
  {
    RegistryBuildsEach(items);
  }
}
