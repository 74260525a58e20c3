/**
 * The sensor objects. The two throughput sensors keep a rolling baseline in
 * their own fields and are classes; the others keep no state of their own.
 * Every `Tick` is proved to do exactly what `Sensing.Tick` says of the
 * sensor's abstract state.
 */
module Sensors {
  import opened Base
  import opened Kinds
  import opened Text
  import opened Rounding
  import opened Gate
  import opened Sensing

  /** Uploading one value through `Publish` is one call of the gate. */
  lemma PublishOne(g: GateState, system: string, kind: Kind, o: Observation, now: int)
    ensures Publish(g, system, kind, [o], now) == Evaluate(g, system, kind, o.tag, o.value, now)
  {
    assert [o][1..] == [];
  }

  /** Uploading two values through `Publish` is two calls of the gate, in order. */
  lemma PublishTwo(g: GateState, system: string, kind: Kind, o1: Observation, o2: Observation, now: int)
    ensures Publish(g, system, kind, [o1, o2], now) ==
      Evaluate(Evaluate(g, system, kind, o1.tag, o1.value, now), system, kind, o2.tag, o2.value, now)
  {
    assert [o1, o2][1..] == [o2];
    PublishOne(Evaluate(g, system, kind, o1.tag, o1.value, now), system, kind, o2, now);
  }

  /** The two `upload` calls of a throughput sensor's later ticks, in order. */
  method UploadTwo(gate: ChangeGate, kind: Kind, o1: Observation, o2: Observation, now: int)
    requires gate.Valid()
    modifies gate
    ensures gate.Valid()
    ensures gate.State() == Publish(old(gate.State()), gate.system, kind, [o1, o2], now)
  {
    PublishTwo(gate.State(), gate.system, kind, o1, o2, now);
    gate.Upload(kind, o1.tag, o1.value, now);
    gate.Upload(kind, o2.tag, o2.value, now);
  }

  /** `NetworkThroughputSensor`: `init`, `r1` and `t1` are the baseline of the rx and tx byte counters. */
  class NetworkThroughputSensor {
    const interface: string
    var init: bool
    var r1: int
    var t1: int

    function State(): SensorState
      reads this
    {
      NetworkState(interface, Baseline(init, r1, t1))
    }

    constructor (interface: string)
      ensures State() == NetworkState(interface, Uninitialised)
    {
      this.interface := interface;
      init, r1, t1 := false, 0, 0;
    }

    /** `NetworkThroughputSensor.tick`; `ok` is false when the tick raises. */
    method Tick(gate: ChangeGate, host: Host, now: int) returns (ok: bool)
      requires gate.Valid()
      modifies this, gate
      ensures gate.Valid()
      ensures var t := Sensing.Tick(old(State()), host, old(gate.State()), gate.system, now);
        ok == t.ok && State() == t.state && gate.State() == t.gate
    {
      ghost var s0, g0 := State(), gate.State();
      var rx := ReadInteger(host, RxPath(interface));
      if rx.Err? {
        NetworkTickFails(interface, s0.base, host);
        TickErr(s0, host, g0, gate.system, now);
        return false;
      }
      var tx := ReadInteger(host, TxPath(interface));
      if tx.Err? {
        NetworkTickFails(interface, s0.base, host);
        TickErr(s0, host, g0, gate.system, now);
        return false;
      }
      var r2, t2 := rx.value, tx.value;
      NetworkTick(interface, s0.base, host, r2, t2);
      ghost var next := NetworkState(interface, Baseline(true, r2, t2));
      var kind := NetworkThroughput;
      assert KindOf(s0) == kind;
      if !init {
        TickOk(s0, host, g0, gate.system, now, Step(next, []));
        r1, t1, init := r2, t2, true;
        return true;
      }
      var o1 := Observation(interface + "-rx", (r2 - r1) as real);
      var o2 := Observation(interface + "-tx", (t2 - t1) as real);
      TickOk(s0, host, g0, gate.system, now, Step(next, [o1, o2]));
      UploadTwo(gate, kind, o1, o2, now);
      r1, t1 := r2, t2;
      return true;
    }
  }

  /** `DiskTroughputSensor`: `init`, `r1` and `w1` are the baseline of the sectors-read and sectors-written counters. */
  class DiskTroughputSensor {
    const device: string
    var init: bool
    var r1: int
    var w1: int

    function State(): SensorState
      reads this
    {
      DiskState(device, Baseline(init, r1, w1))
    }

    constructor (device: string)
      ensures State() == DiskState(device, Uninitialised)
    {
      this.device := device;
      init, r1, w1 := false, 0, 0;
    }

    /** `DiskTroughputSensor.tick`; `ok` is false when the tick raises. */
    method Tick(gate: ChangeGate, host: Host, now: int) returns (ok: bool)
      requires gate.Valid()
      modifies this, gate
      ensures gate.Valid()
      ensures var t := Sensing.Tick(old(State()), host, old(gate.State()), gate.system, now);
        ok == t.ok && State() == t.state && gate.State() == t.gate
    {
      ghost var s0, g0 := State(), gate.State();
      var text := ReadString(host, StatPath(device));
      if text.Err? {
        DiskTickFails(device, s0.base, host);
        TickErr(s0, host, g0, gate.system, now);
        return false;
      }
      var stat := Split(text.value);
      var rd := IntegerField(stat, 2);
      if rd.Err? {
        DiskTickFails(device, s0.base, host);
        TickErr(s0, host, g0, gate.system, now);
        return false;
      }
      var wr := IntegerField(stat, 6);
      if wr.Err? {
        DiskTickFails(device, s0.base, host);
        TickErr(s0, host, g0, gate.system, now);
        return false;
      }
      var r2, w2 := rd.value, wr.value;
      ObserveDiskOn(device, s0.base, host);
      DiskTick(device, s0.base, stat, r2, w2);
      ghost var next := DiskState(device, Baseline(true, r2, w2));
      var kind := DiskThroughput;
      assert KindOf(s0) == kind;
      if !init {
        TickOk(s0, host, g0, gate.system, now, Step(next, []));
        r1, w1, init := r2, w2, true;
        return true;
      }
      var o1 := Observation(device + "-read", HalfRounded(r2 - r1) as real);
      var o2 := Observation(device + "-write", HalfRounded(w2 - w1) as real);
      TickOk(s0, host, g0, gate.system, now, Step(next, [o1, o2]));
      UploadTwo(gate, kind, o1, o2, now);
      r1, w1 := r2, w2;
      return true;
    }
  }

  /** The loop of `CpuMaxTemperatureSensor.tick` over the current readings of the cores. */
  method MaxCoreTemperature(cores: seq<real>) returns (m: real)
    ensures m == MaxTemperature(cores)
    ensures 0.0 <= m && forall i :: 0 <= i < |cores| ==> cores[i] <= m
    ensures m == 0.0 || m in cores
  {
    m := 0.0;
    for i := 0 to |cores|
      invariant m == MaxTemperature(cores[..i])
    {
      assert cores[..i + 1][..i] == cores[..i];
      if cores[i] > m {
        m := cores[i];
      }
    }
    assert cores[..|cores|] == cores;
  }

  /** One configured sensor: one of the stateless kinds, or a reference to a throughput sensor object. */
  datatype Sensor =
    | LoadSensor
    | CpuUsageSensor
    | CpuMaxTemperatureSensor
    | MemoryUsageSensor
    | Network(n: NetworkThroughputSensor)
    | Disk(d: DiskTroughputSensor)
    | DiskSpaceSensor(path: string)

  /** The objects whose fields a sensor's tick updates. */
  function Objects(s: Sensor): set<object> {
    match s
    case Network(n) => {n}
    case Disk(d) => {d}
    case _ => {}
  }

  /** The sensor's configuration and rolling state, as a value. */
  function Abstract(s: Sensor): SensorState
    reads Objects(s)
  {
    match s
    case LoadSensor => LoadState
    case CpuUsageSensor => CpuUsageState
    case CpuMaxTemperatureSensor => CpuMaxTemperatureState
    case MemoryUsageSensor => MemoryUsageState
    case Network(n) => n.State()
    case Disk(d) => d.State()
    case DiskSpaceSensor(path) => DiskSpaceState(path)
  }

  /** The one `upload` of a sensor without state of its own, whose tick observes `o`. */
  method Report(st: SensorState, o: Observation, gate: ChangeGate, host: Host, now: int)
    requires gate.Valid() && Observe(st, host) == Ok(Step(st, [o]))
    modifies gate
    ensures gate.Valid()
    ensures Sensing.Tick(st, host, old(gate.State()), gate.system, now) == TickResult(st, gate.State(), true)
  {
    var kind := KindOf(st);
    TickOk(st, host, gate.State(), gate.system, now, Step(st, [o]));
    PublishOne(gate.State(), gate.system, kind, o, now);
    gate.Upload(kind, o.tag, o.value, now);
  }

  /** `sensor.tick()` for any sensor; `ok` is false when it raises. */
  method TickSensor(s: Sensor, gate: ChangeGate, host: Host, now: int) returns (ok: bool)
    requires gate.Valid() && gate !in Objects(s)
    modifies Objects(s), gate
    ensures gate.Valid()
    ensures var t := Sensing.Tick(old(Abstract(s)), host, old(gate.State()), gate.system, now);
      ok == t.ok && Abstract(s) == t.state && gate.State() == t.gate
  {
    match s
    case Network(n) =>
      ok := n.Tick(gate, host, now);
    case Disk(d) =>
      ok := d.Tick(gate, host, now);
    case LoadSensor =>
      Report(LoadState, Observation("load-1", host.loadAverage), gate, host, now);
      ok := true;
    case CpuUsageSensor =>
      Report(CpuUsageState, Observation("usage", host.cpuPercent), gate, host, now);
      ok := true;
    case CpuMaxTemperatureSensor =>
      if "coretemp" !in host.temperatures {
        TickErr(CpuMaxTemperatureState, host, gate.State(), gate.system, now);
        return false;
      }
      var maxTemp := MaxCoreTemperature(host.temperatures["coretemp"]);
      Report(CpuMaxTemperatureState, Observation("maxtemp", maxTemp), gate, host, now);
      ok := true;
    case MemoryUsageSensor =>
      Report(MemoryUsageState, Observation("perc", host.memoryPercent), gate, host, now);
      ok := true;
    case DiskSpaceSensor(path) =>
      if path !in host.diskUsage {
        TickErr(DiskSpaceState(path), host, gate.State(), gate.system, now);
        return false;
      }
      Report(DiskSpaceState(path), Observation(path, host.diskUsage[path]), gate, host, now);
      ok := true;
  }
}
