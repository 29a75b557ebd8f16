/** What the consumer has sent and stored after a whole stream of messages. */
module RuleEngineStream {
  import opened Wrappers
  import opened Alerts
  import opened Redundancy
  import opened ThresholdEvaluator
  import opened RuleEngine
  import ThresholdAlerts
  import TrackerAlerts

  /** A Kafka message, `None` when it is invalid, and the thresholds in force when it is processed. */
  datatype Input = Input(raw: Option<Message>, thresholds: seq<AreaThreshold>)

  /** The state after a stream. The supply numbers alerts from 0 on. */
  function AfterStream(s: State, stream: seq<Input>): State
    decreases |stream|
  {
    if stream == [] then s else
      var before, last := AfterStream(s, stream[..|stream| - 1]), stream[|stream| - 1];
      AfterMessage(before, last.raw, last.thresholds, |before.emitted|)
  }

  ghost predicate InputsNameOnce(stream: seq<Input>) {
    forall input <- stream :: input.raw.Some? ==> NamesOnce(input.raw.value)
  }

  /** An alert sent for a message: it names the message's sensor, area and time. */
  ghost predicate SentFor(alert: Alert, msg: Message, id: nat) {
    alert.id == id && alert.sensor == msg.sensorId && alert.area == msg.areaId && alert.tsEvent == msg.ts
  }

  /** After `before`, alerts of the message, numbered from `id`: first so many threshold alerts, then others. */
  ghost predicate Continues(before: seq<Alert>, sent: seq<Alert>, msg: Message, id: nat, first: nat) {
    && before <= sent
    && forall j | |before| <= j < |sent| ::
         SentFor(sent[j], msg, id + (j - |before|)) && (sent[j].kind == Threshold <==> j < |before| + first)
  }

  /**
   One message appends its alerts to what was sent, numbered through and naming its sensor, area and time: first
   all threshold alerts, then all of the tracker's.
   */
  lemma MessageSends(s: State, msg: Message, thresholds: seq<AreaThreshold>, id: nat) returns (first: nat)
    requires NamesOnce(msg)
    ensures Continues(s.emitted, AfterMessage(s, Some(msg), thresholds, id).emitted, msg, id, first)
  {
    var threshold := RuleEngine.ThresholdAlerts(s.history, msg, thresholds, id);
    first := |threshold|;
    EvaluatorSends(s.history, msg, thresholds, id);
    TrackerSends(s.redis, msg, id + first);
    OneAfterTheOther(s.emitted, threshold, TrackerCall(s.redis, msg, id + first), msg, id);
    assert AfterMessage(s, Some(msg), thresholds, id).emitted
        == s.emitted + (threshold + TrackerCall(s.redis, msg, id + first));
  }

  lemma OneAfterTheOther(before: seq<Alert>, threshold: seq<Alert>, others: seq<Alert>, msg: Message, id: nat)
    requires forall j | 0 <= j < |threshold| :: SentFor(threshold[j], msg, id + j) && threshold[j].kind == Threshold
    requires forall j | 0 <= j < |others| ::
               SentFor(others[j], msg, id + |threshold| + j) && others[j].kind != Threshold
    ensures Continues(before, before + (threshold + others), msg, id, |threshold|)
  {
  }

  lemma EvaluatorSends(h: History, msg: Message, thresholds: seq<AreaThreshold>, id: nat)
    ensures var threshold := RuleEngine.ThresholdAlerts(h, msg, thresholds, id);
            forall j | 0 <= j < |threshold| :: SentFor(threshold[j], msg, id + j) && threshold[j].kind == Threshold
  {
    var threshold := RuleEngine.ThresholdAlerts(h, msg, thresholds, id);
    var trends := Trends(msg, SlideAll(h, msg).1);
    var at := ThresholdAlerts.ScanTells(msg, thresholds, trends, id, |msg.measurements|);
    forall j | 0 <= j < |threshold| ensures SentFor(threshold[j], msg, id + j) && threshold[j].kind == Threshold {
      assert ThresholdAlerts.TellsCrossing(
          threshold[j], id + j, msg, msg.measurements[at[j]], thresholds, trends[at[j]]);
    }
  }

  function TrackerCall(r: Redis, msg: Message, id: nat): seq<Alert> {
    AfterReading(r, msg.sensorId, msg.areaId, Names(msg.measurements), msg.status, msg.ts, id).alerts
  }

  lemma TrackerSends(r: Redis, msg: Message, id: nat)
    requires NamesOnce(msg)
    ensures var call := TrackerCall(r, msg, id);
            forall j | 0 <= j < |call| :: SentFor(call[j], msg, id + j) && call[j].kind != Threshold
  {
    var call := TrackerCall(r, msg, id);
    if call != [] {
      var at := TrackerAlerts.DecrementAlertsTell(
        r.counts, msg.sensorId, msg.areaId, Names(msg.measurements), msg.ts, id);
      forall j | 0 <= j < |call| ensures SentFor(call[j], msg, id + j) && call[j].kind != Threshold {
        assert TrackerAlerts.NamesOrigin(call, j);
        assert TrackerAlerts.TellsLoss(
            call[j], id + j, msg.sensorId, CountKey(msg.areaId, call[j].parameter), msg.ts,
            Get(DecrementAll(r.counts, msg.areaId, Names(msg.measurements)), CountKey(msg.areaId, call[j].parameter)));
      }
    }
  }

  /** Over a whole stream the alerts are sent in the order of their messages, none twice: alert `j` is the `j`th raised. */
  lemma {:induction false} SentInOrder(s: State, stream: seq<Input>)
    requires InputsNameOnce(stream) && s.emitted == []
    ensures var sent := AfterStream(s, stream).emitted;
            forall j | 0 <= j < |sent| :: sent[j].id == j
    ensures stream != [] ==> AfterStream(s, stream[..|stream| - 1]).emitted <= AfterStream(s, stream).emitted
    decreases |stream|
  {
    if stream != [] {
      var front, last := stream[..|stream| - 1], stream[|stream| - 1];
      SentInOrder(s, front);
      assert last in stream;
      if last.raw.Some? {
        NextAreNumbered(AfterStream(s, front), last);
      }
    }
  }

  lemma NextAreNumbered(before: State, input: Input)
    requires input.raw.Some? && NamesOnce(input.raw.value)
    requires forall j | 0 <= j < |before.emitted| :: before.emitted[j].id == j
    ensures var sent := AfterMessage(before, input.raw, input.thresholds, |before.emitted|).emitted;
            before.emitted <= sent && forall j | 0 <= j < |sent| :: sent[j].id == j
  {
    var n := |before.emitted|;
    var sent := AfterMessage(before, input.raw, input.thresholds, n).emitted;
    var first := MessageSends(before, input.raw.value, input.thresholds, n);
    NumbersGoOn(before.emitted, sent, input.raw.value, first);
  }

  lemma NumbersGoOn(before: seq<Alert>, sent: seq<Alert>, msg: Message, first: nat)
    requires Continues(before, sent, msg, |before|, first) && forall j | 0 <= j < |before| :: before[j].id == j
    ensures forall j | 0 <= j < |sent| :: sent[j].id == j
  {
  }

  /// ## The snapshots

  /** The last valid message of a sensor. */
  function LastMessage(stream: seq<Input>, sensor: string): Option<Message> {
    if stream == [] then None else
      var last := stream[|stream| - 1].raw;
      if last.Some? && last.value.sensorId == sensor then last else LastMessage(stream[..|stream| - 1], sensor)
  }

  /** The snapshot stored for a sensor is its last valid message; invalid messages and other sensors' leave it alone. */
  lemma {:induction false} SnapshotIsLastMessage(s: State, stream: seq<Input>, sensor: string)
    ensures var latest, last := AfterStream(s, stream).latest, LastMessage(stream, sensor);
            if last.Some? then sensor in latest && latest[sensor] == last.value
            else (sensor in latest <==> sensor in s.latest) && (sensor in latest ==> latest[sensor] == s.latest[sensor])
    decreases |stream|
  {
    if stream != [] {
      SnapshotIsLastMessage(s, stream[..|stream| - 1], sensor);
    }
  }

  /// ## The windows

  /** Every window is the tail, of at most five values, of what the stream holds for its sensor and parameter. */
  lemma WindowIsTail(stream: seq<Message>, sensor: string, parameter: string)
    requires AllNameOnce(stream)
    ensures var all := Values(stream, sensor, parameter);
            WindowOf(StreamHistory(stream), sensor, parameter) == if |all| <= 5 then all else all[|all| - 5..]
  {
    WindowIsLastFive(stream, sensor, parameter);
  }
}
