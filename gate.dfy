/**
 * The change gate of `MeasurementSensor.upload`: two process-wide maps, keyed
 * by tag alone, decide whether a sampled value is written to the time-series
 * store. A value is written when it differs from the last one written for its
 * tag, or when the last write of that tag is more than an hour old.
 */
module Gate {
  import opened Base
  import opened Kinds

  /** The heartbeat: an unchanged value is written again once more than this many seconds have passed. */
  const HEARTBEAT_SECONDS: int := 3600

  /**
   * One point handed to the store: the measurement is the class name of the
   * sensor of kind `kind`, tagged with the observation's tag and the
   * deployment's system label.
   */
  datatype Record = Record(kind: Kind, tag: string, system: string, value: real, time: int)

  /**
   * `lastValues` and `lastUpdates` are the two class-level dictionaries shared
   * by every sensor; `log` is what has been handed to the store so far. The
   * first value of a tag is seeded as `None`, which no sampled value equals.
   */
  datatype GateState = GateState(
    lastValues: map<string, Option<real>>,
    lastUpdates: map<string, int>,
    log: seq<Record>)

  /** The two maps always hold the same tags. */
  predicate Consistent(g: GateState) {
    g.lastValues.Keys == g.lastUpdates.Keys
  }

  /** The bookkeeping as `upload` finds it after seeding a tag it has not seen. */
  function Seeded(g: GateState, tag: string, now: int): (r: GateState)
    ensures tag in r.lastValues && tag in r.lastUpdates
  {
    GateState(
      if tag in g.lastValues then g.lastValues else g.lastValues[tag := None],
      if tag in g.lastUpdates then g.lastUpdates else g.lastUpdates[tag := now],
      g.log)
  }

  /** The test that decides whether `upload` writes. */
  predicate Changed(g: GateState, tag: string, value: real, now: int)
    requires tag in g.lastValues && tag in g.lastUpdates
  {
    g.lastValues[tag] != Some(value) || g.lastUpdates[tag] + HEARTBEAT_SECONDS < now
  }

  /** What one call `upload(tag, value)` at wall-clock second `now`, made by a sensor of kind `kind`, does to the gate. */
  function Evaluate(g: GateState, system: string, kind: Kind, tag: string, value: real, now: int): (r: GateState)
    // Only the call's own tag is touched, and no entry is ever removed.
    ensures r.lastValues.Keys == g.lastValues.Keys + {tag}
    ensures r.lastUpdates.Keys == g.lastUpdates.Keys + {tag}
    ensures forall t :: t in g.lastValues && t != tag ==> r.lastValues[t] == g.lastValues[t]
    ensures forall t :: t in g.lastUpdates && t != tag ==> r.lastUpdates[t] == g.lastUpdates[t]
    // Afterwards the gate remembers this value, and its last write is at most an hour old.
    ensures r.lastValues[tag] == Some(value)
    ensures now - HEARTBEAT_SECONDS <= r.lastUpdates[tag]
    // At most this one record is written, and the first value of a tag always is.
    ensures r.log == g.log || r.log == g.log + [Record(kind, tag, system, value, now)]
    ensures tag !in g.lastValues ==> r.log == g.log + [Record(kind, tag, system, value, now)]
  {
    var s := Seeded(g, tag, now);
    if Changed(s, tag, value, now) then
      GateState(s.lastValues[tag := Some(value)], s.lastUpdates[tag := now],
                s.log + [Record(kind, tag, system, value, now)])
    else s
  }

  lemma EvaluateConsistent(g: GateState, system: string, kind: Kind, tag: string, value: real, now: int)
    ensures Consistent(g) ==> Consistent(Evaluate(g, system, kind, tag, value, now))
  {
  }

  /**
   * A write happens exactly when the tag is new, its value changed, or its last
   * write is more than 3600 seconds old; a write refreshes the tag's time.
   */
  lemma EvaluateWrites(g: GateState, system: string, kind: Kind, tag: string, value: real, now: int)
    requires Consistent(g)
    ensures var r := Evaluate(g, system, kind, tag, value, now);
      (r.log == g.log + [Record(kind, tag, system, value, now)]) <==>
      (tag !in g.lastValues || g.lastValues[tag] != Some(value) ||
       g.lastUpdates[tag] + HEARTBEAT_SECONDS < now)
    ensures var r := Evaluate(g, system, kind, tag, value, now);
      r.log != g.log ==> r.lastUpdates[tag] == now
  {
  }

  /** A suppressed call changes nothing: no write, no refreshed time, the maps as they were. */
  lemma EvaluateSuppressed(g: GateState, system: string, kind: Kind, tag: string, value: real, now: int)
    requires Consistent(g)
    requires tag in g.lastValues && g.lastValues[tag] == Some(value)
    requires now <= g.lastUpdates[tag] + HEARTBEAT_SECONDS
    ensures Evaluate(g, system, kind, tag, value, now) == g
  {
  }

  /** The same value uploaded at each of the `n` seconds from `start` on. */
  function Repeated(g: GateState, system: string, kind: Kind, tag: string, value: real, start: int, n: nat): GateState
    decreases n
  {
    if n == 0 then g
    else Repeated(Evaluate(g, system, kind, tag, value, start), system, kind, tag, value, start + 1, n - 1)
  }

  /**
   * Debounce: once a value has been written at second `t`, uploading it again at
   * every second up to `t + 3600` is suppressed every time.
   */
  lemma {:induction false} QuietForAnHour(g: GateState, system: string, kind: Kind, tag: string, value: real, start: int, n: nat)
    requires Consistent(g)
    requires tag in g.lastValues && g.lastValues[tag] == Some(value)
    requires start + n - 1 <= g.lastUpdates[tag] + HEARTBEAT_SECONDS
    ensures Repeated(g, system, kind, tag, value, start, n) == g
    decreases n
  {
    if n > 0 {
      EvaluateSuppressed(g, system, kind, tag, value, start);
      QuietForAnHour(g, system, kind, tag, value, start + 1, n - 1);
    }
  }

  /**
   * Heartbeat: a value written at second `t` and uploaded again at every second
   * after it is written once more at `t + 3601`, and not before.
   */
  lemma HeartbeatAfterAnHour(g: GateState, system: string, kind: Kind, tag: string, value: real, t: int)
    requires Consistent(g)
    requires tag in g.lastValues && g.lastValues[tag] == Some(value) && g.lastUpdates[tag] == t
    ensures Repeated(g, system, kind, tag, value, t + 1, HEARTBEAT_SECONDS) == g
    ensures var r := Evaluate(g, system, kind, tag, value, t + HEARTBEAT_SECONDS + 1);
      r.log == g.log + [Record(kind, tag, system, value, t + HEARTBEAT_SECONDS + 1)] &&
      r.lastUpdates[tag] == t + HEARTBEAT_SECONDS + 1
  {
    QuietForAnHour(g, system, kind, tag, value, t + 1, HEARTBEAT_SECONDS);
  }

  /**
   * A `load-1` reading of 0.5 on an empty gate: written at t0, suppressed a
   * second later, written again as a heartbeat 3601 seconds after t0.
   */
  lemma LoadScenario(system: string, t0: int)
    ensures var g0 := GateState(map[], map[], []);
      var g1 := Evaluate(g0, system, Load, "load-1", 0.5, t0);
      var g2 := Evaluate(g1, system, Load, "load-1", 0.5, t0 + 1);
      var g3 := Evaluate(g2, system, Load, "load-1", 0.5, t0 + 3601);
      g1.log == [Record(Load, "load-1", system, 0.5, t0)] &&
      g2 == g1 &&
      g3.log == g1.log + [Record(Load, "load-1", system, 0.5, t0 + 3601)] &&
      g3.lastUpdates["load-1"] == t0 + 3601
  {
  }

  /**
   * The process-wide gate state. `system` is the deployment label read from the
   * configuration; it is the same for every record.
   */
  class ChangeGate {
    const system: string
    var lastValues: map<string, Option<real>>
    var lastUpdates: map<string, int>
    var log: seq<Record>

    function State(): GateState
      reads this
    {
      GateState(lastValues, lastUpdates, log)
    }

    predicate Valid()
      reads this
    {
      Consistent(State())
    }

    constructor (system: string)
      ensures Valid() && this.system == system
      ensures State() == GateState(map[], map[], [])
    {
      this.system := system;
      lastValues, lastUpdates, log := map[], map[], [];
    }

    /** `MeasurementSensor.upload`, called by a sensor of kind `kind` at wall-clock second `now`. */
    method Upload(kind: Kind, tag: string, value: real, now: int)
      requires Valid()
      modifies this
      ensures Valid()
      ensures State() == Evaluate(old(State()), system, kind, tag, value, now)
    {
      if tag !in lastUpdates {
        lastUpdates := lastUpdates[tag := now];
      }
      if tag !in lastValues {
        lastValues := lastValues[tag := None];
      }
      if lastValues[tag] != Some(value) || lastUpdates[tag] + HEARTBEAT_SECONDS < now {
        log := log + [Record(kind, tag, system, value, now)];
        lastValues := lastValues[tag := Some(value)];
        lastUpdates := lastUpdates[tag := now];
      }
    }
  }
}
