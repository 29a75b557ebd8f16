/** The rule engine's pipeline for one Kafka message, and what it amounts to over a whole stream. */
module RuleEngine {
  import opened Wrappers
  import opened Alerts
  import opened Redundancy
  import opened ThresholdEvaluator

  const HISTORY_MAX: nat := 5

  /** The sliding windows, by sensor and parameter. */
  type History = map<(string, string), seq<real>>

  function WindowOf(h: History, sensor: string, parameter: string): seq<real> {
    if (sensor, parameter) in h then h[(sensor, parameter)] else []
  }

  function Slid(window: seq<real>, value: real): seq<real> {
    LastOf(window + [value], HISTORY_MAX)
  }

  /** The slid window before the current value was added. */
  function WithoutNewest(window: seq<real>, value: real): seq<real> {
    Slid(window, value)[..|Slid(window, value)| - 1]
  }

  /** The windows after a message's first `n` measurements, and per parameter the window before its value was added. */
  function Slide(h: History, msg: Message, n: nat): (History, map<string, seq<real>>)
    requires n <= |msg.measurements|
  {
    if n == 0 then (h, map[]) else
      var (before, existing) := Slide(h, msg, n - 1);
      var (parameter, value) := msg.measurements[n - 1];
      var window := WindowOf(before, msg.sensorId, parameter);
      (before[(msg.sensorId, parameter) := Slid(window, value)], existing[parameter := WithoutNewest(window, value)])
  }

  function SlideAll(h: History, msg: Message): (History, map<string, seq<real>>) {
    Slide(h, msg, |msg.measurements|)
  }

  function Names(measurements: seq<(string, real)>): seq<string> {
    seq(|measurements|, i requires 0 <= i < |measurements| => measurements[i].0)
  }

  function ThresholdAlerts(h: History, msg: Message, thresholds: seq<AreaThreshold>, id: nat): seq<Alert> {
    PlainScan(msg, thresholds, Trends(msg, SlideAll(h, msg).1), id, |msg.measurements|)
  }

  /** The tracker's state and all alerts after one message: threshold alerts first, then redundancy alerts. */
  function Raised(h: History, r: Redis, msg: Message, thresholds: seq<AreaThreshold>, id: nat): CallResult {
    var threshold := ThresholdAlerts(h, msg, thresholds, id);
    var call := AfterReading(r, msg.sensorId, msg.areaId, Names(msg.measurements), msg.status, msg.ts, id + |threshold|);
    call.(alerts := threshold + call.alerts)
  }

  datatype State = State(history: History, redis: Redis, emitted: seq<Alert>, latest: map<string, Message>)

  function AfterMessage(s: State, raw: Option<Message>, thresholds: seq<AreaThreshold>, id: nat): State {
    match raw
    case None => s
    case Some(msg) =>
      var raised := Raised(s.history, s.redis, msg, thresholds, id);
      State(SlideAll(s.history, msg).0, raised.redis, s.emitted + raised.alerts, s.latest[msg.sensorId := msg])
  }

  class RuleEngineConsumer {
    const tracker: RedundancyTracker
    var history: History
    var emitted: seq<Alert>             // what was sent to Kafka, in order
    var latest: map<string, Message>    // sensor:{id}:latest

    ghost function View(): State
      reads this, tracker
    {
      State(history, tracker.State(), emitted, latest)
    }

    constructor (tracker: RedundancyTracker)
      ensures this.tracker == tracker && history == map[] && emitted == [] && latest == map[]
    {
      this.tracker := tracker;
      history, emitted, latest := map[], [], map[];
    }

    method UpdateHistory(sensor: string, parameter: string, value: real) returns (before: seq<real>)
      modifies this`history
      ensures history == old(history)[(sensor, parameter) := Slid(WindowOf(old(history), sensor, parameter), value)]
      ensures before == WithoutNewest(WindowOf(old(history), sensor, parameter), value)
    {
      var key := (sensor, parameter);
      var window := if key in history then history[key] else [];
      window := LastOf(window + [value], HISTORY_MAX);
      history := history[key := window];
      before := window[..|window| - 1];
    }

    /** Add every measurement to its window, collecting the windows as they were before. */
    method UpdateHistories(msg: Message) returns (existing: map<string, seq<real>>)
      modifies this`history
      ensures (history, existing) == SlideAll(old(history), msg)
    {
      existing := map[];
      for i := 0 to |msg.measurements|
        invariant (history, existing) == Slide(old(history), msg, i)
      {
        var (parameter, value) := msg.measurements[i];
        var before := UpdateHistory(msg.sensorId, parameter, value);
        existing := existing[parameter := before];
      }
    }

    method EmitAll(alerts: seq<Alert>)
      modifies this`emitted
      ensures emitted == old(emitted) + alerts
    {
      for i := 0 to |alerts|
        invariant emitted == old(emitted) + alerts[..i]
      {
        emitted := emitted + [alerts[i]];
      }
      assert alerts[..|alerts|] == alerts;
    }

    /** Steps 1 and 2 of the pipeline: thresholds against the slid windows, then one call of the tracker. */
    method RaiseAlerts(msg: Message, thresholds: seq<AreaThreshold>, firstId: nat) returns (alerts: seq<Alert>)
      modifies this`history, tracker
      ensures history == SlideAll(old(history), msg).0
      ensures tracker.State() == Raised(old(history), old(tracker.State()), msg, thresholds, firstId).redis
      ensures alerts == Raised(old(history), old(tracker.State()), msg, thresholds, firstId).alerts
    {
      ghost var r := tracker.State();
      var existing := UpdateHistories(msg);
      var thresholdAlerts := EvaluateThresholds(msg, thresholds, existing, firstId);
      assert thresholdAlerts == ThresholdAlerts(old(history), msg, thresholds, firstId);
      assert tracker.State() == r;
      var redundancyAlerts := tracker.OnSensorReading(
        msg.sensorId, msg.areaId, Names(msg.measurements), msg.status, msg.ts, firstId + |thresholdAlerts|);
      ghost var call := CallResult(tracker.State(), redundancyAlerts);
      assert Raised(old(history), r, msg, thresholds, firstId) == call.(alerts := thresholdAlerts + redundancyAlerts);
      alerts := thresholdAlerts + redundancyAlerts;
    }

    /** One message: raise its alerts, emit them in order, store the snapshot. An invalid message is skipped. */
    method Process(raw: Option<Message>, thresholds: seq<AreaThreshold>, firstId: nat)
      modifies this, tracker
      ensures View() == AfterMessage(old(View()), raw, thresholds, firstId)
    {
      if raw.None? {
        return;
      }
      var alerts := RaiseAlerts(raw.value, thresholds, firstId);
      EmitAll(alerts);
      latest := latest[raw.value.sensorId := raw.value];
    }
  }

  /// ## The stream

  /** A message names each parameter once, as the keys of a dictionary do. */
  ghost predicate NamesOnce(msg: Message) {
    Distinct(Names(msg.measurements))
  }

  ghost predicate AllNameOnce(stream: seq<Message>) {
    forall msg <- stream :: NamesOnce(msg)
  }

  /** The value among the first `n` measurements of a parameter, as a list of at most one. */
  function ValueIn(msg: Message, parameter: string, n: nat): (value: seq<real>)
    requires n <= |msg.measurements|
    ensures |value| <= 1
  {
    if n == 0 then [] else
      if msg.measurements[n - 1].0 == parameter then [msg.measurements[n - 1].1] else ValueIn(msg, parameter, n - 1)
  }

  /** What one message adds to the values of a sensor and parameter. */
  function Added(msg: Message, sensor: string, parameter: string): (added: seq<real>)
    ensures |added| <= 1
  {
    if msg.sensorId == sensor then ValueIn(msg, parameter, |msg.measurements|) else []
  }

  /** Every value the stream holds for one sensor and parameter, oldest first. */
  function Values(stream: seq<Message>, sensor: string, parameter: string): seq<real> {
    if stream == [] then [] else
      Values(stream[..|stream| - 1], sensor, parameter) + Added(stream[|stream| - 1], sensor, parameter)
  }

  function StreamHistory(stream: seq<Message>): History {
    if stream == [] then map[] else
      SlideAll(StreamHistory(stream[..|stream| - 1]), stream[|stream| - 1]).0
  }

  lemma {:induction false} NotYetNamed(msg: Message, i: nat, n: nat)
    requires n <= i < |msg.measurements| && NamesOnce(msg)
    ensures ValueIn(msg, msg.measurements[i].0, n) == []
  {
    if n > 0 {
      assert Names(msg.measurements)[n - 1] != Names(msg.measurements)[i];
      NotYetNamed(msg, i, n - 1);
    }
  }

  lemma {:induction false} NamedHasValue(msg: Message, i: nat, n: nat)
    requires i < n <= |msg.measurements| && NamesOnce(msg)
    ensures ValueIn(msg, msg.measurements[i].0, n) == [msg.measurements[i].1]
  {
    if i < n - 1 {
      assert Names(msg.measurements)[n - 1] != Names(msg.measurements)[i];
      NamedHasValue(msg, i, n - 1);
    }
  }

  /** A message slides exactly the windows of its own sensor and parameters, once each. */
  lemma {:induction false} SlideAt(h: History, msg: Message, n: nat, sensor: string, parameter: string)
    requires n <= |msg.measurements| && NamesOnce(msg)
    ensures var before := WindowOf(h, sensor, parameter);
            var value := ValueIn(msg, parameter, n);
            WindowOf(Slide(h, msg, n).0, sensor, parameter)
            == if sensor == msg.sensorId && value != [] then Slid(before, value[0]) else before
  {
    if n > 0 {
      SlideAt(h, msg, n - 1, sensor, parameter);
      if msg.measurements[n - 1].0 == parameter {
        NotYetNamed(msg, n - 1, n - 1);
      }
    }
  }

  lemma {:induction false} ExistingIsSetOnce(h: History, msg: Message, n: nat, i: nat)
    requires i < n <= |msg.measurements| && NamesOnce(msg)
    ensures HistoryOf(Slide(h, msg, n).1, msg.measurements[i].0) == HistoryOf(Slide(h, msg, i + 1).1, msg.measurements[i].0)
  {
    if i < n - 1 {
      assert Names(msg.measurements)[n - 1] != Names(msg.measurements)[i];
      ExistingIsSetOnce(h, msg, n - 1, i);
    }
  }

  /** What is handed to the evaluator for a parameter: its slid window without the newest value. */
  lemma ExistingAt(h: History, msg: Message, i: nat)
    requires i < |msg.measurements| && NamesOnce(msg)
    ensures var (parameter, value) := msg.measurements[i];
            HistoryOf(SlideAll(h, msg).1, parameter) == WithoutNewest(WindowOf(h, msg.sensorId, parameter), value)
  {
    var parameter := msg.measurements[i].0;
    ExistingIsSetOnce(h, msg, |msg.measurements|, i);
    SlideAt(h, msg, i, msg.sensorId, parameter);
    NotYetNamed(msg, i, i);
  }

  /** Sliding by at most one value keeps the last five of what has been seen. */
  lemma SlideKeepsLastFive(values: seq<real>, added: seq<real>)
    requires |added| <= 1
    ensures var window := LastOf(values, HISTORY_MAX);
            (if added == [] then window else Slid(window, added[0])) == LastOf(values + added, HISTORY_MAX)
  {
    if added == [] {
      assert values + added == values;
    } else {
      assert added == [added[0]];
    }
  }

  /** Each window is exactly the last five values of its own sensor and parameter. */
  lemma {:induction false} WindowIsLastFive(stream: seq<Message>, sensor: string, parameter: string)
    requires AllNameOnce(stream)
    ensures WindowOf(StreamHistory(stream), sensor, parameter) == LastOf(Values(stream, sensor, parameter), HISTORY_MAX)
    decreases |stream|
  {
    if stream != [] {
      var front, msg := stream[..|stream| - 1], stream[|stream| - 1];
      assert msg in stream;
      WindowIsLastFive(front, sensor, parameter);
      SlideAt(StreamHistory(front), msg, |msg.measurements|, sensor, parameter);
      SlideKeepsLastFive(Values(front, sensor, parameter), Added(msg, sensor, parameter));
    }
  }

  /** The whole history of each parameter of the sensor, before the current message. */
  function WholeHistory(stream: seq<Message>, msg: Message): map<string, seq<real>> {
    map parameter | parameter in Names(msg.measurements) :: Values(stream, msg.sensorId, parameter)
  }

  /**
   The alerts raised from the sliding windows are those raised from complete histories: every
   trend is the trend of the last five values of the whole stream for that sensor and parameter.
   */
  lemma StreamingTrendIsBatchTrend(stream: seq<Message>, msg: Message, thresholds: seq<AreaThreshold>, id: nat)
    requires AllNameOnce(stream) && NamesOnce(msg)
    ensures ThresholdAlerts(StreamHistory(stream), msg, thresholds, id)
         == PlainScan(msg, thresholds, Trends(msg, WholeHistory(stream, msg)), id, |msg.measurements|)
  {
    var existing, whole := SlideAll(StreamHistory(stream), msg).1, WholeHistory(stream, msg);
    forall i | 0 <= i < |msg.measurements| ensures Trends(msg, existing)[i] == Trends(msg, whole)[i] {
      WindowTrendIsWholeTrend(stream, msg, i);
    }
    assert Trends(msg, existing) == Trends(msg, whole);
  }

  lemma WindowTrendIsWholeTrend(stream: seq<Message>, msg: Message, i: nat)
    requires AllNameOnce(stream) && NamesOnce(msg) && i < |msg.measurements|
    ensures var (parameter, value) := msg.measurements[i];
            ComputeTrend(HistoryOf(SlideAll(StreamHistory(stream), msg).1, parameter), value)
            == ComputeTrend(HistoryOf(WholeHistory(stream, msg), parameter), value)
  {
    var (parameter, value) := msg.measurements[i];
    ExistingAt(StreamHistory(stream), msg, i);
    WindowIsLastFive(stream, msg.sensorId, parameter);
    TrendOfTruncated(Values(stream, msg.sensorId, parameter), value);
    assert Names(msg.measurements)[i] == parameter;
  }

  /** Truncating the history to what the consumer hands over does not change the trend. */
  lemma TrendOfTruncated(values: seq<real>, value: real)
    ensures ComputeTrend(WithoutNewest(LastOf(values, HISTORY_MAX), value), value) == ComputeTrend(values, value)
  {
    SlideKeepsLastFive(values, [value]);
    assert WithoutNewest(LastOf(values, HISTORY_MAX), value) + [value] == Slid(LastOf(values, HISTORY_MAX), value);
  }
}
