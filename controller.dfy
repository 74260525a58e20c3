/**
 * The controller: it builds one sensor object per configuration item and then,
 * once per wall-clock second, ticks every sensor in registry order.
 */
module Scheduler {
  import opened Base
  import opened Kinds
  import opened Rounding
  import opened Gate
  import opened Sensing
  import opened Sensors

  /** `sensorClasses[kind](config=config)` for one configuration item: a new sensor, or the exception. */
  method NewSensor(item: ConfigItem) returns (r: Result<Sensor, ConfigError>)
    ensures r.Ok? <==> Instantiate(item).Ok?
    ensures r.Ok? ==> fresh(Objects(r.value)) && Abstract(r.value) == Instantiate(item).value
    ensures r.Err? ==> r.error == Instantiate(item).error
  {
    var name: string, config: Option<map<string, string>>;
    match item {
      case Named(n) =>
        name, config := n, None;
      case Keyed(entries) =>
        if entries == [] {
          return Err(EmptyItem);
        }
        name, config := entries[0].0, entries[0].1;
    }
    var kind := KindNamed(name);
    if kind.None? {
      return Err(UnknownKind(name));
    }
    match kind.value {
      case Load =>
        r := Ok(LoadSensor);
      case CpuUsage =>
        r := Ok(CpuUsageSensor);
      case CpuMaxTemperature =>
        r := Ok(CpuMaxTemperatureSensor);
      case MemoryUsage =>
        r := Ok(MemoryUsageSensor);
      case NetworkThroughput =>
        var p := Parameter(config, "interface");
        if p.Err? {
          return Err(p.error);
        }
        var n := new NetworkThroughputSensor(p.value);
        r := Ok(Network(n));
      case DiskThroughput =>
        var p := Parameter(config, "device");
        if p.Err? {
          return Err(p.error);
        }
        var d := new DiskTroughputSensor(p.value);
        r := Ok(Disk(d));
      case DiskSpace =>
        var p := Parameter(config, "path");
        if p.Err? {
          return Err(p.error);
        }
        r := Ok(DiskSpaceSensor(p.value));
    }
  }

  /** The objects the sensors of a registry update. */
  function Footprint(ss: seq<Sensor>): set<object> {
    set i, o | 0 <= i < |ss| && o in Objects(ss[i]) :: o
  }

  /** The abstract states of a registry's sensors, in order. */
  function States(ss: seq<Sensor>): (r: seq<SensorState>)
    reads Footprint(ss)
    ensures |r| == |ss| && forall i :: 0 <= i < |ss| ==> r[i] == Abstract(ss[i])
    decreases |ss|
  {
    if ss == [] then []
    else
      assert Footprint(ss[..|ss| - 1]) <= Footprint(ss) by {
        forall o | o in Footprint(ss[..|ss| - 1]) ensures o in Footprint(ss) {
          var i :| 0 <= i < |ss| - 1 && o in Objects(ss[..|ss| - 1][i]);
          assert ss[..|ss| - 1][i] == ss[i];
        }
      }
      assert Objects(ss[|ss| - 1]) <= Footprint(ss);
      var prefix := States(ss[..|ss| - 1]);
      assert forall i :: 0 <= i < |ss| - 1 ==> ss[..|ss| - 1][i] == ss[i];
      prefix + [Abstract(ss[|ss| - 1])]
  }

  /** Distinct sensors share no object, and none of them is the gate. */
  predicate Separate(ss: seq<Sensor>, gate: ChangeGate) {
    (forall i :: 0 <= i < |ss| ==> gate !in Objects(ss[i])) &&
    (forall i, j :: 0 <= i < j < |ss| ==> Objects(ss[i]) !! Objects(ss[j]))
  }

  lemma SeparateAppend(ss: seq<Sensor>, s: Sensor, gate: ChangeGate)
    requires Separate(ss, gate) && gate !in Objects(s) && Objects(s) !! Footprint(ss)
    ensures Separate(ss + [s], gate)
    ensures Footprint(ss + [s]) == Footprint(ss) + Objects(s)
  {
    var t := ss + [s];
    assert forall i :: 0 <= i < |ss| ==> t[i] == ss[i];
    assert t[|ss|] == s;
    forall i, j | 0 <= i < j < |t| ensures Objects(t[i]) !! Objects(t[j]) {
      if j == |ss| {
        assert Objects(t[i]) <= Footprint(ss);
      }
    }
    forall o | o in Footprint(t) ensures o in Footprint(ss) + Objects(s) {
      var i :| 0 <= i < |t| && o in Objects(t[i]);
      if i < |ss| {
        assert o in Objects(ss[i]);
      }
    }
  }

  lemma StatesAre(ss: seq<Sensor>, built: seq<SensorState>)
    requires |ss| == |built| && forall j :: 0 <= j < |ss| ==> Abstract(ss[j]) == built[j]
    ensures States(ss) == built
  {
  }

  /** Building one more item onto a registry that built so far. */
  lemma RegistryStep(items: seq<ConfigItem>, i: nat)
    requires i < |items| && Registry(items[..i]).Ok? && Instantiate(items[i]).Ok?
    ensures Registry(items[..i + 1]) == Ok(Registry(items[..i]).value + [Instantiate(items[i]).value])
  {
    assert items[..i + 1][..i] == items[..i] && items[..i + 1][i] == items[i];
  }

  /** An item that cannot be built after a prefix that could fails the whole registry. */
  lemma RegistryStops(items: seq<ConfigItem>, i: nat)
    requires i < |items| && Registry(items[..i]).Ok? && Instantiate(items[i]).Err?
    ensures Registry(items) == Err(Instantiate(items[i]).error)
  {
    RegistryBuildsEach(items[..i]);
    forall j | 0 <= j < i ensures Instantiate(items[j]).Ok? {
      assert items[..i][j] == items[j];
    }
    RegistryFirstError(items, i);
  }

  /** Ticking one more sensor of the registry extends the cycle by that sensor's tick. */
  lemma CycleExtend(ss: seq<SensorState>, i: nat, host: Host, g: GateState, system: string, now: int,
                    prev: CycleResult, t: TickResult)
    requires i < |ss| && Cycle(ss[..i], host, g, system, now) == prev
    requires Tick(ss[i], host, prev.gate, system, now) == t
    ensures Cycle(ss[..i + 1], host, g, system, now) == CycleResult(prev.states + [t.state], t.gate, prev.oks + [t.ok])
  {
    assert ss[..i + 1][..i] == ss[..i] && ss[..i + 1][i] == ss[i];
  }

  /** The loop of `Controller.__init__`: a new sensor object per item, in order, or the first item's exception. */
  method NewSensors(items: seq<ConfigItem>, gate: ChangeGate) returns (r: Result<seq<Sensor>, ConfigError>)
    ensures r.Ok? <==> Registry(items).Ok?
    ensures r.Ok? ==> Separate(r.value, gate) && fresh(Footprint(r.value)) && States(r.value) == Registry(items).value
    ensures r.Err? ==> r.error == Registry(items).error
  {
    var sensors: seq<Sensor> := [];
    ghost var built: seq<SensorState> := [];
    for i := 0 to |items|
      invariant Separate(sensors, gate) && fresh(Footprint(sensors))
      invariant Registry(items[..i]) == Ok(built)
      invariant |sensors| == |built| && forall j :: 0 <= j < |sensors| ==> Abstract(sensors[j]) == built[j]
    {
      var s := NewSensor(items[i]);
      if s.Err? {
        RegistryStops(items, i);
        return Err(s.error);
      }
      RegistryStep(items, i);
      assert Separate(sensors + [s.value], gate) && fresh(Footprint(sensors + [s.value])) by {
        SeparateAppend(sensors, s.value, gate);
      }
      sensors, built := sensors + [s.value], built + [Abstract(s.value)];
    }
    assert items[..|items|] == items;
    StatesAre(sensors, built);
    return Ok(sensors);
  }

  /** `Controller`: the sensors in registry order, and the change gate they all upload through. */
  class Controller {
    const gate: ChangeGate
    const sensors: seq<Sensor>

    predicate Valid()
      reads gate
    {
      gate.Valid() && Separate(sensors, gate)
    }

    constructor (gate: ChangeGate, sensors: seq<Sensor>)
      requires gate.Valid() && Separate(sensors, gate)
      ensures Valid() && this.gate == gate && this.sensors == sensors
    {
      this.gate := gate;
      this.sensors := sensors;
    }

    /**
     * `Controller.__init__`: the controller with one new sensor per item, in
     * order, or the exception the first item that cannot be built raises.
     */
    static method Create(items: seq<ConfigItem>, gate: ChangeGate) returns (r: Result<Controller, ConfigError>)
      requires gate.Valid()
      ensures r.Ok? <==> Registry(items).Ok?
      ensures r.Ok? ==> fresh(r.value) && r.value.gate == gate && r.value.Valid() &&
                        fresh(Footprint(r.value.sensors)) && States(r.value.sensors) == Registry(items).value
      ensures r.Err? ==> r.error == Registry(items).error
    {
      var sensors := NewSensors(items, gate);
      if sensors.Err? {
        return Err(sensors.error);
      }
      var c := new Controller(gate, sensors.value);
      return Ok(c);
    }

    /** `sensor.tick()` for the i-th sensor: it advances as `Sensing.Tick` says, and no other sensor changes. */
    method TickOne(i: nat, host: Host, now: int) returns (ok: bool)
      requires Valid() && i < |sensors|
      modifies Objects(sensors[i]), gate
      ensures Valid()
      ensures Sensing.Tick(old(Abstract(sensors[i])), host, old(gate.State()), gate.system, now) ==
        TickResult(Abstract(sensors[i]), gate.State(), ok)
      ensures forall j :: 0 <= j < |sensors| && j != i ==> Abstract(sensors[j]) == old(Abstract(sensors[j]))
    {
      ok := TickSensor(sensors[i], gate, host, now);
      forall j | 0 <= j < |sensors| && j != i ensures Abstract(sensors[j]) == old(Abstract(sensors[j])) {
        assert Objects(sensors[j]) !! Objects(sensors[i]) && gate !in Objects(sensors[j]);
      }
    }

    /**
     * The same tick, after the first i sensors have been ticked as the cycle
     * `Sensing.Cycle(before[..i], ...)` says: the cycle is extended by this
     * sensor's tick.
     */
    method TickAt(i: nat, host: Host, now: int, ghost before: seq<SensorState>, ghost g0: GateState,
                  ghost after: seq<SensorState>, ghost oks: seq<bool>) returns (ok: bool)
      requires Valid() && i < |sensors| == |before| && Abstract(sensors[i]) == before[i]
      requires Sensing.Cycle(before[..i], host, g0, gate.system, now) == CycleResult(after, gate.State(), oks)
      modifies Objects(sensors[i]), gate
      ensures Valid()
      ensures Sensing.Cycle(before[..i + 1], host, g0, gate.system, now) ==
        CycleResult(after + [Abstract(sensors[i])], gate.State(), oks + [ok])
      ensures forall j :: 0 <= j < |sensors| && j != i ==> Abstract(sensors[j]) == old(Abstract(sensors[j]))
    {
      ghost var prev := CycleResult(after, gate.State(), oks);
      ok := TickOne(i, host, now);
      CycleExtend(before, i, host, g0, gate.system, now, prev, TickResult(Abstract(sensors[i]), gate.State(), ok));
    }

    /**
     * One pass of the loop in `Controller.tick`: every sensor is ticked in
     * order, a raising sensor is skipped, and the delay to the next wall-clock
     * second is computed from the microsecond field of the current time.
     */
    method Cycle(host: Host, now: int, microsecond: Microsecond) returns (oks: seq<bool>, delay: int)
      requires Valid()
      modifies Footprint(sensors), gate
      ensures Valid()
      ensures var r := Sensing.Cycle(old(States(sensors)), host, old(gate.State()), gate.system, now);
        States(sensors) == r.states && gate.State() == r.gate && oks == r.oks
      ensures delay == DelayMillis(microsecond)
    {
      ghost var before, g0 := States(sensors), gate.State();
      ghost var after: seq<SensorState> := [];
      oks := [];
      for i := 0 to |sensors|
        invariant gate.Valid()
        invariant Sensing.Cycle(before[..i], host, g0, gate.system, now) == CycleResult(after, gate.State(), oks)
        invariant forall j :: 0 <= j < i ==> Abstract(sensors[j]) == after[j]
        invariant forall j :: i <= j < |sensors| ==> Abstract(sensors[j]) == before[j]
      {
        assert Objects(sensors[i]) <= Footprint(sensors);
        var ok := TickAt(i, host, now, before, g0, after, oks);
        after := after + [Abstract(sensors[i])];
        oks := oks + [ok];
      }
      assert before[..|sensors|] == before;
      delay := DelayMillis(microsecond);
    }
  }
}
