/**
 The redundancy tracker of the rule engine (FR-08): working-sensor counts per
 area and parameter, and one consecutive-fault counter per sensor, all in Redis.
 The class is the program's; the functions say what one complete call does.
 */
module Redundancy {
  import opened Wrappers
  import opened Alerts

  datatype CountKey = CountKey(area: string, parameter: string)

  /** The two families of Redis keys. A missing key reads as 0. */
  datatype Redis = Redis(counts: map<CountKey, int>, faults: map<string, nat>) {
    function Count(k: CountKey): int {
      Get(counts, k)
    }

    function Faults(sensor: string): nat {
      if sensor in faults then faults[sensor] else 0
    }
  }

  datatype CallResult = CallResult(redis: Redis, alerts: seq<Alert>)

  function Get(counts: map<CountKey, int>, k: CountKey): int {
    if k in counts then counts[k] else 0
  }

  /** DECR, followed by SET 0 when it went negative. */
  function Clamped(count: int): int {
    if count - 1 < 0 then 0 else count - 1
  }

  /** The alerts for one parameter whose decremented count is `remaining`. */
  function LossAlerts(remaining: int, sensor: string, area: string, parameter: string, ts: string, id: nat)
    : (alerts: seq<Alert>)
    ensures 1 <= |alerts| <= 2
  {
    if remaining == 0 then
      [ Alert(id, Malfunction, High, area, sensor, parameter, None, None, ts, Context(Some(0), None, None)),
        Alert(id + 1, Priority, High, area, sensor, parameter, None, None, ts, Context(Some(0), None, Some(id))) ]
    else
      [ Alert(id, Malfunction, Low, area, sensor, parameter, None, None, ts, Context(Some(remaining), None, None)) ]
  }

  /** The counts after decrementing every parameter in turn. */
  function DecrementAll(counts: map<CountKey, int>, area: string, parameters: seq<string>): map<CountKey, int>
    decreases |parameters|
  {
    if parameters == [] then counts else
      var last := |parameters| - 1;
      var before := DecrementAll(counts, area, parameters[..last]);
      var k := CountKey(area, parameters[last]);
      before[k := Clamped(Get(before, k))]
  }

  /** The alerts raised while decrementing every parameter in turn. */
  function DecrementAlerts(
    counts: map<CountKey, int>, sensor: string, area: string, parameters: seq<string>, ts: string, id: nat)
    : seq<Alert>
    decreases |parameters|
  {
    if parameters == [] then [] else
      var last := |parameters| - 1;
      var before := DecrementAlerts(counts, sensor, area, parameters[..last], ts, id);
      var remaining := Get(DecrementAll(counts, area, parameters), CountKey(area, parameters[last]));
      before + LossAlerts(remaining, sensor, area, parameters[last], ts, id + |before|)
  }

  function IncrementAll(counts: map<CountKey, int>, area: string, parameters: seq<string>): map<CountKey, int>
    decreases |parameters|
  {
    if parameters == [] then counts else
      var last := |parameters| - 1;
      var before := IncrementAll(counts, area, parameters[..last]);
      var k := CountKey(area, parameters[last]);
      before[k := Get(before, k) + 1]
  }

  function AfterFault(r: Redis, sensor: string, area: string, parameters: seq<string>, ts: string, id: nat): CallResult {
    var bumped := r.faults[sensor := r.Faults(sensor) + 1];
    if r.Faults(sensor) != 0 then
      CallResult(r.(faults := bumped), [])
    else
      CallResult(
        Redis(DecrementAll(r.counts, area, parameters), bumped),
        DecrementAlerts(r.counts, sensor, area, parameters, ts, id))
  }

  function AfterRecovery(r: Redis, sensor: string, area: string, parameters: seq<string>): CallResult {
    if r.Faults(sensor) == 0 then
      CallResult(r, [])
    else
      CallResult(Redis(IncrementAll(r.counts, area, parameters), r.faults - {sensor}), [])
  }

  /** One complete call of the tracker. Status 0 is a fault, anything else is healthy. */
  function AfterReading(
    r: Redis, sensor: string, area: string, parameters: seq<string>, status: int, ts: string, id: nat): CallResult
  {
    if status == 0 then
      AfterFault(r, sensor, area, parameters, ts, id)
    else
      AfterRecovery(r, sensor, area, parameters)
  }

  class RedundancyTracker {
    var counts: map<CountKey, int>
    var faults: map<string, nat>

    ghost function State(): Redis
      reads this
    {
      Redis(counts, faults)
    }

    constructor (counts: map<CountKey, int>, faults: map<string, nat>)
      ensures State() == Redis(counts, faults)
    {
      this.counts, this.faults := counts, faults;
    }

    method Decrement(area: string, parameter: string) returns (newCount: int)
      modifies this`counts
      ensures newCount == Clamped(Get(old(counts), CountKey(area, parameter)))
      ensures counts == old(counts)[CountKey(area, parameter) := newCount]
    {
      var key := CountKey(area, parameter);
      counts := counts[key := Get(counts, key) - 1];
      newCount := counts[key];
      if newCount < 0 {
        counts := counts[key := 0];
        newCount := 0;
      }
    }

    method Increment(area: string, parameter: string) returns (newCount: int)
      modifies this`counts
      ensures newCount == Get(old(counts), CountKey(area, parameter)) + 1
      ensures counts == old(counts)[CountKey(area, parameter) := newCount]
    {
      var key := CountKey(area, parameter);
      newCount := Get(counts, key) + 1;
      counts := counts[key := newCount];
    }

    method HandleFault(sensor: string, area: string, parameters: seq<string>, ts: string, firstId: nat)
      returns (alerts: seq<Alert>)
      modifies this
      ensures CallResult(State(), alerts) == AfterFault(old(State()), sensor, area, parameters, ts, firstId)
    {
      var faultCount := (if sensor in faults then faults[sensor] else 0) + 1;
      faults := faults[sensor := faultCount];
      alerts := [];
      if faultCount != 1 {
        return;
      }
      var i := 0;
      while i < |parameters|
        invariant 0 <= i <= |parameters|
        invariant faults == old(faults)[sensor := 1]
        invariant counts == DecrementAll(old(counts), area, parameters[..i])
        invariant alerts == DecrementAlerts(old(counts), sensor, area, parameters[..i], ts, firstId)
      {
        assert parameters[..i + 1][..i] == parameters[..i];
        var newCount := Decrement(area, parameters[i]);
        var id := firstId + |alerts|;
        if newCount == 0 {
          var malfunction := Alert(id, Malfunction, High, area, sensor, parameters[i], None, None, ts,
                                   Context(Some(0), None, None));
          var priority := Alert(id + 1, Priority, High, area, sensor, parameters[i], None, None, ts,
                                Context(Some(0), None, Some(malfunction.id)));
          alerts := alerts + [malfunction, priority];
        } else {
          alerts := alerts + [Alert(id, Malfunction, Low, area, sensor, parameters[i], None, None, ts,
                                    Context(Some(newCount), None, None))];
        }
        i := i + 1;
      }
      assert parameters[..i] == parameters;
    }

    method HandleRecovery(sensor: string, area: string, parameters: seq<string>)
      modifies this
      ensures CallResult(State(), []) == AfterRecovery(old(State()), sensor, area, parameters)
    {
      if sensor !in faults || faults[sensor] == 0 {
        return;
      }
      faults := faults - {sensor};
      var i := 0;
      while i < |parameters|
        invariant 0 <= i <= |parameters|
        invariant faults == old(faults) - {sensor}
        invariant counts == IncrementAll(old(counts), area, parameters[..i])
      {
        assert parameters[..i + 1][..i] == parameters[..i];
        var _ := Increment(area, parameters[i]);
        i := i + 1;
      }
      assert parameters[..i] == parameters;
    }

    method OnSensorReading(
      sensor: string, area: string, parameters: seq<string>, status: int, ts: string, firstId: nat)
      returns (alerts: seq<Alert>)
      modifies this
      ensures CallResult(State(), alerts) == AfterReading(old(State()), sensor, area, parameters, status, ts, firstId)
    {
      alerts := [];
      if status == 0 {
        alerts := HandleFault(sensor, area, parameters, ts, firstId);
      } else {
        HandleRecovery(sensor, area, parameters);
      }
    }
  }
}
