/**
 The rule engine as a whole: the Kafka consumer and the silence watchdog drive one tracker, and only the
 consumer sends alerts. Which losses of coverage are announced? Steps are complete calls here.
 */
module RuleEngineRuns {
  import opened Wrappers
  import opened Alerts
  import opened Redundancy
  import opened TrackerRuns
  import ThresholdEvaluator
  import SilenceWatchdog
  import RuleEngine

  datatype Step =
    | Consume(raw: Option<ThresholdEvaluator.Message>, thresholds: seq<ThresholdEvaluator.AreaThreshold>, id: nat)
    | Scan(now: real, pages: seq<seq<SilenceWatchdog.Fetched>>)
    | Expiry(sensor: string)  // Redis drops a fault counter

  function CallsIn(step: Step): seq<SilenceWatchdog.Call>
    requires step.Scan?
  {
    SilenceWatchdog.ScanCalls(step.now, step.pages, |step.pages|)
  }

  function After(s: RuleEngine.State, step: Step): RuleEngine.State {
    match step
    case Consume(raw, thresholds, id) => RuleEngine.AfterMessage(s, raw, thresholds, id)
    case Scan(_, _) => s.(redis := SilenceWatchdog.AfterCalls(s.redis, CallsIn(step)))
    case Expiry(sensor) => s.(redis := s.redis.(faults := s.redis.faults - {sensor}))
  }

  function AfterAll(s: RuleEngine.State, steps: seq<Step>): RuleEngine.State
    decreases |steps|
  {
    if steps == [] then s else After(AfterAll(s, steps[..|steps| - 1]), steps[|steps| - 1])
  }

  /** The two tasks, wired to one tracker. */
  class Service {
    const tracker: RedundancyTracker
    const consumer: RuleEngine.RuleEngineConsumer
    const watchdog: SilenceWatchdog.SensorWatchdog

    ghost predicate Valid() {
      consumer.tracker == tracker && watchdog.tracker == tracker
    }

    ghost function View(): RuleEngine.State
      reads consumer, consumer.tracker
    {
      consumer.View()
    }

    constructor (counts: map<CountKey, int>, faults: map<string, nat>)
      ensures Valid() && View() == RuleEngine.State(map[], Redis(counts, faults), [], map[])
      ensures fresh(tracker) && fresh(consumer) && fresh(watchdog)
    {
      var t := new RedundancyTracker(counts, faults);
      tracker := t;
      consumer := new RuleEngine.RuleEngineConsumer(t);
      watchdog := new SilenceWatchdog.SensorWatchdog(t);
    }

    method ConsumeOne(raw: Option<ThresholdEvaluator.Message>, thresholds: seq<ThresholdEvaluator.AreaThreshold>, id: nat)
      requires Valid()
      modifies consumer, tracker
      ensures View() == After(old(View()), Consume(raw, thresholds, id))
    {
      consumer.Process(raw, thresholds, id);
    }

    method ScanOnce(now: real, pages: seq<seq<SilenceWatchdog.Fetched>>) returns (silentCount: nat)
      requires Valid()
      modifies tracker
      ensures View() == After(old(View()), Scan(now, pages))
    {
      silentCount := watchdog.Scan(now, pages);
    }
  }

  /// ## Steps as runs of the tracker

  /** Messages and snapshots name the sensor's own area and parameters. */
  ghost predicate Fits(fleet: Fleet, step: Step) {
    match step
    case Consume(None, _, _) => true
    case Consume(Some(msg), _, _) =>
      && msg.sensorId in fleet && msg.areaId == fleet[msg.sensorId].area
      && RuleEngine.Names(msg.measurements) == fleet[msg.sensorId].parameters
    case Scan(_, _) => forall c <- CallsIn(step) :: SilenceWatchdog.Matches(fleet, c)
    case Expiry(sensor) => sensor in fleet
  }

  ghost predicate AllFit(fleet: Fleet, steps: seq<Step>) {
    forall step <- steps :: Fits(fleet, step)
  }

  /** What the tracker sees of a step. */
  function EventsOf(s: RuleEngine.State, step: Step): seq<Event> {
    match step
    case Consume(None, _, _) => []
    case Consume(Some(msg), thresholds, id) => [ReadingOf(s, msg, thresholds, id)]
    case Scan(_, _) => SilenceWatchdog.EventsOf(CallsIn(step))
    case Expiry(sensor) => [Expire(sensor)]
  }

  function ReadingOf(
    s: RuleEngine.State, msg: ThresholdEvaluator.Message, thresholds: seq<ThresholdEvaluator.AreaThreshold>, id: nat): Event
  {
    Reading(msg.sensorId, msg.status, msg.ts, id + |RuleEngine.ThresholdAlerts(s.history, msg, thresholds, id)|)
  }

  lemma StepIsARun(fleet: Fleet, s: RuleEngine.State, step: Step)
    requires Fits(fleet, step)
    ensures Within(fleet, EventsOf(s, step))
    ensures After(s, step).redis == Run(fleet, s.redis, EventsOf(s, step))
  {
    match step
    case Scan(_, _) => SilenceWatchdog.CallsAreARun(fleet, s.redis, CallsIn(step));
    case Consume(None, _, _) =>
    case Consume(Some(msg), thresholds, id) =>
      ConsumeIsACall(fleet, s, step);
      RunOfOne(fleet, s.redis, ReadingOf(s, msg, thresholds, id));
    case Expiry(sensor) => RunOfOne(fleet, s.redis, Expire(sensor));
  }

  lemma RunOfOne(fleet: Fleet, r: Redis, e: Event)
    requires e.sensor in fleet
    ensures Within(fleet, [e]) && Run(fleet, r, [e]) == Apply(fleet, r, e).redis
  {
    assert [e][..0] == [];
  }

  /** What the tracker sees of a run. */
  function AllEvents(s: RuleEngine.State, steps: seq<Step>): seq<Event>
    decreases |steps|
  {
    if steps == [] then [] else
      var last := |steps| - 1;
      AllEvents(s, steps[..last]) + EventsOf(AfterAll(s, steps[..last]), steps[last])
  }

  lemma {:induction false} StepsAreARun(fleet: Fleet, s: RuleEngine.State, steps: seq<Step>)
    requires AllFit(fleet, steps)
    ensures Within(fleet, AllEvents(s, steps))
    ensures AfterAll(s, steps).redis == Run(fleet, s.redis, AllEvents(s, steps))
    decreases |steps|
  {
    if steps != [] {
      var front, step := steps[..|steps| - 1], steps[|steps| - 1];
      StepsAreARun(fleet, s, front);
      assert Fits(fleet, step);
      StepIsARun(fleet, AfterAll(s, front), step);
      RunOfAppend(fleet, s.redis, AllEvents(s, front), EventsOf(AfterAll(s, front), step));
    }
  }

  lemma {:induction false} RunOfAppend(fleet: Fleet, r: Redis, a: seq<Event>, b: seq<Event>)
    requires Within(fleet, a) && Within(fleet, b)
    ensures Within(fleet, a + b) && Run(fleet, r, a + b) == Run(fleet, Run(fleet, r, a), b)
    decreases |b|
  {
    if b == [] {
      assert a + b == a;
    } else {
      RunOfAppend(fleet, r, a, b[..|b| - 1]);
      assert (a + b)[..|a + b| - 1] == a + b[..|b| - 1];
    }
  }

  /// ## Priority alerts of one step

  lemma {:induction false} DecrementAlertsPriority(
    counts: map<CountKey, int>, sensor: string, area: string, parameters: seq<string>, ts: string, id: nat, k: CountKey)
    requires Distinct(parameters)
    ensures CountOf(DecrementAlerts(counts, sensor, area, parameters, ts, id), Priority, k)
         == if k.area == area && k.parameter in parameters && Clamped(Get(counts, k)) == 0 then 1 else 0
    decreases |parameters|
  {
    if parameters != [] {
      var last := |parameters| - 1;
      var own := CountKey(area, parameters[last]);
      DecrementAlertsPriority(counts, sensor, area, parameters[..last], ts, id, k);
      DecrementAllAt(counts, area, parameters, own);
      DecrementAlertsGrow(counts, sensor, area, parameters, ts, id, k);
      assert parameters == parameters[..last] + [parameters[last]];
    }
  }

  lemma DecrementAlertsGrow(
    counts: map<CountKey, int>, sensor: string, area: string, parameters: seq<string>, ts: string, id: nat, k: CountKey)
    requires parameters != []
    ensures var own := CountKey(area, parameters[|parameters| - 1]);
            var before := DecrementAlerts(counts, sensor, area, parameters[..|parameters| - 1], ts, id);
            CountOf(DecrementAlerts(counts, sensor, area, parameters, ts, id), Priority, k)
            == CountOf(before, Priority, k) +
               if own == k && Get(DecrementAll(counts, area, parameters), own) == 0 then 1 else 0
  {
    var p := parameters[|parameters| - 1];
    var before := DecrementAlerts(counts, sensor, area, parameters[..|parameters| - 1], ts, id);
    var remaining := Get(DecrementAll(counts, area, parameters), CountKey(area, p));
    LossAlertsCounts(remaining, sensor, area, p, ts, id + |before|, Priority, k);
    CountOfAppend(before, LossAlerts(remaining, sensor, area, p, ts, id + |before|), Priority, k);
  }

  /** Whatever the counts, a call returns a priority alert for a key when it is a loss that leaves its count at 0. */
  lemma CallPriority(fleet: Fleet, r: Redis, e: Event, k: CountKey)
    requires WellFormed(fleet) && e.sensor in fleet
    ensures CountOf(Apply(fleet, r, e).alerts, Priority, k)
         == if EffectOn(fleet, r, e, k) == Lost && Clamped(r.Count(k)) == 0 then 1 else 0
  {
    if e.Reading? && e.status == 0 && r.Faults(e.sensor) == 0 {
      DecrementAlertsPriority(r.counts, e.sensor, fleet[e.sensor].area, fleet[e.sensor].parameters, e.ts, e.id, k);
    }
  }

  lemma {:induction false} NoPriorityAmongThresholdAlerts(
    msg: ThresholdEvaluator.Message, thresholds: seq<ThresholdEvaluator.AreaThreshold>, trends: seq<Trend>, id: nat,
    n: nat, k: CountKey)
    requires n <= |msg.measurements| == |trends|
    ensures CountOf(ThresholdEvaluator.PlainScan(msg, thresholds, trends, id, n), Priority, k) == 0
  {
    if n > 0 {
      var before := ThresholdEvaluator.PlainScan(msg, thresholds, trends, id, n - 1);
      var alerts := ThresholdEvaluator.AlertsFor(msg, msg.measurements[n - 1], thresholds, trends[n - 1], id + |before|);
      NoPriorityAmongThresholdAlerts(msg, thresholds, trends, id, n - 1, k);
      NoPriorityForMeasurement(msg, msg.measurements[n - 1], thresholds, trends[n - 1], id + |before|, k);
      CountOfAppend(before, alerts, Priority, k);
    }
  }

  lemma NoPriorityForMeasurement(
    msg: ThresholdEvaluator.Message, measurement: (string, real), thresholds: seq<ThresholdEvaluator.AreaThreshold>,
    trend: Trend, id: nat, k: CountKey)
    ensures CountOf(ThresholdEvaluator.AlertsFor(msg, measurement, thresholds, trend, id), Priority, k) == 0
  {
    var alerts := ThresholdEvaluator.AlertsFor(msg, measurement, thresholds, trend, id);
    assert alerts != [] ==> alerts[..|alerts| - 1] == [] && alerts[0].kind == Threshold;
  }

  /** The priority alerts for `k` that one step sends. */
  function Sent(fleet: Fleet, s: RuleEngine.State, step: Step, k: CountKey): nat {
    if step.Consume? && step.raw.Some? then
      var e := ReadingOf(s, step.raw.value, step.thresholds, step.id);
      if EffectOn(fleet, s.redis, e, k) == Lost && Clamped(s.redis.Count(k)) == 0 then 1 else 0
    else 0
  }

  lemma StepSends(fleet: Fleet, s: RuleEngine.State, step: Step, k: CountKey)
    requires WellFormed(fleet) && Fits(fleet, step)
    ensures CountOf(After(s, step).emitted, Priority, k) == CountOf(s.emitted, Priority, k) + Sent(fleet, s, step, k)
  {
    if step.Consume? && step.raw.Some? {
      var e := ReadingOf(s, step.raw.value, step.thresholds, step.id);
      var threshold := RuleEngine.ThresholdAlerts(s.history, step.raw.value, step.thresholds, step.id);
      var call := Apply(fleet, s.redis, e).alerts;
      ConsumeIsACall(fleet, s, step);
      ThresholdAlertsHaveNoPriority(s.history, step.raw.value, step.thresholds, step.id, k);
      CallPriority(fleet, s.redis, e, k);
      CountOfAppend(threshold, call, Priority, k);
      CountOfAppend(s.emitted, threshold + call, Priority, k);
    }
  }

  lemma ThresholdAlertsHaveNoPriority(
    h: RuleEngine.History, msg: ThresholdEvaluator.Message, thresholds: seq<ThresholdEvaluator.AreaThreshold>, id: nat,
    k: CountKey)
    ensures CountOf(RuleEngine.ThresholdAlerts(h, msg, thresholds, id), Priority, k) == 0
  {
    NoPriorityAmongThresholdAlerts(
      msg, thresholds, ThresholdEvaluator.Trends(msg, RuleEngine.SlideAll(h, msg).1), id, |msg.measurements|, k);
  }

  lemma ConsumeIsACall(fleet: Fleet, s: RuleEngine.State, step: Step)
    requires Fits(fleet, step) && step.Consume? && step.raw.Some?
    ensures var call := Apply(fleet, s.redis, ReadingOf(s, step.raw.value, step.thresholds, step.id));
            && After(s, step).redis == call.redis
            && After(s, step).emitted
               == s.emitted + (RuleEngine.ThresholdAlerts(s.history, step.raw.value, step.thresholds, step.id) + call.alerts)
  {
  }

  /// ## Which losses are announced

  ghost predicate NothingOverstated(fleet: Fleet, r: Redis, k: CountKey) {
    0 <= r.Count(k) <= Healthy(fleet, r, k)
  }

  /** The step takes the last healthy sensor that covers `k`. */
  predicate TotalLoss(fleet: Fleet, s: RuleEngine.State, step: Step, k: CountKey) {
    0 < Healthy(fleet, s.redis, k) && Healthy(fleet, After(s, step).redis, k) == 0
  }

  /** The total losses of `k` that Kafka messages cause. */
  function KafkaLosses(fleet: Fleet, s: RuleEngine.State, steps: seq<Step>, k: CountKey): nat
    decreases |steps|
  {
    if steps == [] then 0 else
      var last := |steps| - 1;
      KafkaLosses(fleet, s, steps[..last], k) +
      if steps[last].Consume? && TotalLoss(fleet, AfterAll(s, steps[..last]), steps[last], k) then 1 else 0
  }

  lemma {:induction false} OverstatementNeverArises(fleet: Fleet, s: RuleEngine.State, steps: seq<Step>, k: CountKey)
    requires WellFormed(fleet) && AllFit(fleet, steps) && NothingOverstated(fleet, s.redis, k)
    ensures NothingOverstated(fleet, AfterAll(s, steps).redis, k)
    decreases |steps|
  {
    if steps != [] {
      var before, step := AfterAll(s, steps[..|steps| - 1]), steps[|steps| - 1];
      OverstatementNeverArises(fleet, s, steps[..|steps| - 1], k);
      assert Fits(fleet, step);
      StepIsARun(fleet, before, step);
      CoverageNeverOverstated(fleet, before.redis, EventsOf(before, step), k);
    }
  }

  lemma {:induction false} ExactnessStays(fleet: Fleet, s: RuleEngine.State, steps: seq<Step>)
    requires WellFormed(fleet) && AllFit(fleet, steps) && Exact(fleet, s.redis)
    requires forall step <- steps :: !step.Expiry?
    ensures Exact(fleet, AfterAll(s, steps).redis)
    decreases |steps|
  {
    if steps != [] {
      var before, step := AfterAll(s, steps[..|steps| - 1]), steps[|steps| - 1];
      ExactnessStays(fleet, s, steps[..|steps| - 1]);
      assert Fits(fleet, step);
      StepIsARun(fleet, before, step);
      ExactThroughout(fleet, before.redis, EventsOf(before, step));
    }
  }

  /** A Kafka message is a total loss exactly if it loses a covering sensor and leaves none. */
  lemma ConsumedLoss(fleet: Fleet, s: RuleEngine.State, step: Step, k: CountKey)
    requires WellFormed(fleet) && Fits(fleet, step) && step.Consume?
    ensures TotalLoss(fleet, s, step, k)
            <==> && step.raw.Some?
                 && EffectOn(fleet, s.redis, ReadingOf(s, step.raw.value, step.thresholds, step.id), k) == Lost
                 && Healthy(fleet, s.redis, k) == 1
  {
    if step.raw.Some? {
      ConsumeIsACall(fleet, s, step);
      LossStep(fleet, s.redis, ReadingOf(s, step.raw.value, step.thresholds, step.id), k);
    }
  }

  lemma LossStep(fleet: Fleet, r: Redis, e: Event, k: CountKey)
    requires WellFormed(fleet) && e.sensor in fleet
    ensures 0 < Healthy(fleet, r, k) && Healthy(fleet, Apply(fleet, r, e).redis, k) == 0
            <==> EffectOn(fleet, r, e, k) == Lost && Healthy(fleet, r, k) == 1
    ensures EffectOn(fleet, r, e, k) == Lost ==> 1 <= Healthy(fleet, r, k)
  {
    HealthyStep(fleet, r, e, k);
  }

  /**
   In every run of messages, scans and expiries that starts with counts that overstate nothing, a step that takes
   the last healthy sensor sends a priority alert for the key if and only if it is a Kafka message.
   */
  lemma TotalLossAnnouncedIffConsumed(fleet: Fleet, s: RuleEngine.State, steps: seq<Step>, step: Step, k: CountKey)
    requires WellFormed(fleet) && AllFit(fleet, steps) && Fits(fleet, step) && NothingOverstated(fleet, s.redis, k)
    requires TotalLoss(fleet, AfterAll(s, steps), step, k)
    ensures var before := AfterAll(s, steps);
            CountOf(After(before, step).emitted, Priority, k)
            == CountOf(before.emitted, Priority, k) + if step.Consume? then 1 else 0
  {
    OverstatementNeverArises(fleet, s, steps, k);
    StepSends(fleet, AfterAll(s, steps), step, k);
    if step.Consume? {
      ConsumedLoss(fleet, AfterAll(s, steps), step, k);
    }
  }

  /**
   From exact counts and without expiry, the priority alerts sent for a key over a whole run of messages and scans
   are as many as the times a Kafka message took its last healthy sensor; losses the watchdog found send none.
   */
  lemma {:induction false} PriorityAlertsAreKafkaLosses(fleet: Fleet, s: RuleEngine.State, steps: seq<Step>, k: CountKey)
    requires WellFormed(fleet) && AllFit(fleet, steps) && Exact(fleet, s.redis)
    requires forall step <- steps :: !step.Expiry?
    ensures CountOf(AfterAll(s, steps).emitted, Priority, k)
         == CountOf(s.emitted, Priority, k) + KafkaLosses(fleet, s, steps, k)
    decreases |steps|
  {
    if steps != [] {
      var before, step := AfterAll(s, steps[..|steps| - 1]), steps[|steps| - 1];
      PriorityAlertsAreKafkaLosses(fleet, s, steps[..|steps| - 1], k);
      ExactnessStays(fleet, s, steps[..|steps| - 1]);
      assert Fits(fleet, step) && before.redis.Count(k) == Healthy(fleet, before.redis, k);
      SendsIfExact(fleet, before, step, k);
    }
  }

  lemma SendsIfExact(fleet: Fleet, s: RuleEngine.State, step: Step, k: CountKey)
    requires WellFormed(fleet) && Fits(fleet, step) && s.redis.Count(k) == Healthy(fleet, s.redis, k)
    ensures CountOf(After(s, step).emitted, Priority, k)
         == CountOf(s.emitted, Priority, k) + if step.Consume? && TotalLoss(fleet, s, step, k) then 1 else 0
  {
    StepSends(fleet, s, step, k);
    if step.Consume? {
      ConsumedLoss(fleet, s, step, k);
      if step.raw.Some? {
        LossStep(fleet, s.redis, ReadingOf(s, step.raw.value, step.thresholds, step.id), k);
      }
    }
  }

  /** A message opens a fault episode of a sensor that covers `k`. */
  predicate LosesSensor(fleet: Fleet, s: RuleEngine.State, step: Step, k: CountKey) {
    && step.Consume? && step.raw.Some?
    && EffectOn(fleet, s.redis, ReadingOf(s, step.raw.value, step.thresholds, step.id), k) == Lost
  }

  /**
   In every run from counts that overstate nothing, a step sends a priority alert for a key if and only if it is a
   message that loses a covering sensor and leaves no more healthy sensors than the count falls short by, which
   initial shortfall, expiries and health determine.
   */
  lemma PrioritySentIff(fleet: Fleet, s: RuleEngine.State, steps: seq<Step>, step: Step, k: CountKey)
    requires WellFormed(fleet) && AllFit(fleet, steps) && Fits(fleet, step) && NothingOverstated(fleet, s.redis, k)
    requires Within(fleet, AllEvents(s, steps))
    ensures var before := AfterAll(s, steps);
            var sent := LosesSensor(fleet, before, step, k)
                        && Healthy(fleet, After(before, step).redis, k) <= ClosedForm(fleet, s.redis, AllEvents(s, steps), k);
            CountOf(After(before, step).emitted, Priority, k)
            == CountOf(before.emitted, Priority, k) + if sent then 1 else 0
  {
    var before := AfterAll(s, steps);
    StepsAreARun(fleet, s, steps);
    ShortfallClosedForm(fleet, s.redis, AllEvents(s, steps), k);
    OverstatementNeverArises(fleet, s, steps, k);
    SentByShortfall(fleet, before, step, k);
  }

  lemma SentByShortfall(fleet: Fleet, s: RuleEngine.State, step: Step, k: CountKey)
    requires WellFormed(fleet) && Fits(fleet, step) && NothingOverstated(fleet, s.redis, k)
    ensures var sent := LosesSensor(fleet, s, step, k)
                        && Healthy(fleet, After(s, step).redis, k) <= Shortfall(fleet, s.redis, k);
            CountOf(After(s, step).emitted, Priority, k) == CountOf(s.emitted, Priority, k) + if sent then 1 else 0
  {
    StepSends(fleet, s, step, k);
    if LosesSensor(fleet, s, step, k) {
      LossByMessage(fleet, s, step, k);
    }
  }

  lemma LossByMessage(fleet: Fleet, s: RuleEngine.State, step: Step, k: CountKey)
    requires WellFormed(fleet) && Fits(fleet, step) && LosesSensor(fleet, s, step, k)
    ensures Healthy(fleet, After(s, step).redis, k) == Healthy(fleet, s.redis, k) - 1
  {
    ConsumeIsACall(fleet, s, step);
    HealthyStep(fleet, s.redis, ReadingOf(s, step.raw.value, step.thresholds, step.id), k);
  }

  /**
   Once a key has been without healthy sensors, whoever noticed that, and as long as no covering fault expires after,
   its next priority alerts are sent exactly when a message takes the last healthy sensor again.
   */
  lemma NextAlertAfterLoss(fleet: Fleet, s: RuleEngine.State, steps: seq<Step>, step: Step, k: CountKey)
    requires WellFormed(fleet) && AllFit(fleet, steps) && Fits(fleet, step)
    requires s.redis.Count(k) == Healthy(fleet, s.redis, k) == 0
    requires Within(fleet, AllEvents(s, steps)) && Expiries(fleet, s.redis, AllEvents(s, steps), k) == 0
    ensures var before := AfterAll(s, steps);
            var again := step.Consume? && TotalLoss(fleet, before, step, k);
            CountOf(After(before, step).emitted, Priority, k)
            == CountOf(before.emitted, Priority, k) + if again then 1 else 0
  {
    var before := AfterAll(s, steps);
    PrioritySentIff(fleet, s, steps, step, k);
    assert ClosedForm(fleet, s.redis, AllEvents(s, steps), k) == 0;
    if step.Consume? {
      ConsumedLoss(fleet, before, step, k);
      if LosesSensor(fleet, before, step, k) {
        LossByMessage(fleet, before, step, k);
      }
    }
  }

  /** No sensor covering `k` is healthy at any moment of the run: none has recovered, or had its faults expire. */
  ghost predicate NeverCovered(fleet: Fleet, s: RuleEngine.State, steps: seq<Step>, k: CountKey) {
    forall n | 0 <= n <= |steps| :: Healthy(fleet, AfterAll(s, steps[..n]).redis, k) == 0
  }

  /** While no covering sensor is healthy nothing is announced, whatever the counts: a later faulty reading is swallowed. */
  lemma {:induction false} NothingSentWhileUncovered(fleet: Fleet, s: RuleEngine.State, steps: seq<Step>, k: CountKey)
    requires WellFormed(fleet) && AllFit(fleet, steps) && NeverCovered(fleet, s, steps, k)
    ensures CountOf(AfterAll(s, steps).emitted, Priority, k) == CountOf(s.emitted, Priority, k)
    decreases |steps|
  {
    if steps != [] {
      var front, step := steps[..|steps| - 1], steps[|steps| - 1];
      forall n | 0 <= n <= |front| ensures Healthy(fleet, AfterAll(s, front[..n]).redis, k) == 0 {
        assert front[..n] == steps[..n];
      }
      NothingSentWhileUncovered(fleet, s, front, k);
      assert Fits(fleet, step) && steps[..|front|] == front;
      StepSends(fleet, AfterAll(s, front), step, k);
      if step.Consume? && step.raw.Some? {
        LossStep(fleet, AfterAll(s, front).redis,
                 ReadingOf(AfterAll(s, front), step.raw.value, step.thresholds, step.id), k);
      }
    }
  }

  /**
   A total loss that the watchdog finds is announced neither then nor later, until some covering sensor recovers or
   its fault counter expires: the scan drops its alerts, and the counters it raised swallow further faulty readings.
   */
  lemma WatchdogLossIsNeverAnnounced(fleet: Fleet, s: RuleEngine.State, scan: Step, steps: seq<Step>, k: CountKey)
    requires WellFormed(fleet) && Fits(fleet, scan) && AllFit(fleet, steps)
    requires scan.Scan? && TotalLoss(fleet, s, scan, k) && NeverCovered(fleet, After(s, scan), steps, k)
    ensures CountOf(AfterAll(After(s, scan), steps).emitted, Priority, k) == CountOf(s.emitted, Priority, k)
  {
    NothingSentWhileUncovered(fleet, After(s, scan), steps, k);
  }

  /** One sensor that alone covers one parameter. */
  function LoneFleet(): Fleet {
    map["sensor" := Sensor("area", ["rainfall_mm_h"])]
  }

  const LONE_KEY := CountKey("area", "rainfall_mm_h")

  lemma LoneSensorHealth(r: Redis, k: CountKey)
    ensures Healthy(LoneFleet(), r, k) == if k == LONE_KEY && r.Faults("sensor") == 0 then 1 else 0
  {
    assert HealthySet(LoneFleet(), r, k) == if k == LONE_KEY && r.Faults("sensor") == 0 then {"sensor"} else {};
  }

  const STALE := SilenceWatchdog.Data(
    Some(SilenceWatchdog.Aware(0.0)), None, Some("sensor"), Some("area"), [("rainfall_mm_h", Some(1.0))])

  lemma StaleIsReported()
    ensures CallsIn(Scan(200.0, [[STALE]])) == [SilenceWatchdog.Call("sensor", "area", ["rainfall_mm_h"])]
  {
    var page := [STALE];
    assert SilenceWatchdog.Measured(STALE.measurements[..0]) == [];
    assert SilenceWatchdog.Measured(STALE.measurements) == ["rainfall_mm_h"];
    assert !SilenceWatchdog.Raises(page, 0) && !SilenceWatchdog.Raises(page, 1);
    assert SilenceWatchdog.PageCalls(200.0, page, 0) == [];
    assert SilenceWatchdog.ScanCalls(200.0, [page], 0) == [] && !SilenceWatchdog.ScanRaises([page], 0);
  }

  /** It happens: one scan takes the only sensor of an area, from exact counts, and nothing is sent. */
  lemma WatchdogLossHappens() returns (s: RuleEngine.State, scan: Step)
    ensures WellFormed(LoneFleet()) && Exact(LoneFleet(), s.redis) && Fits(LoneFleet(), scan)
    ensures scan.Scan? && TotalLoss(LoneFleet(), s, scan, LONE_KEY) && After(s, scan).emitted == s.emitted
  {
    s := RuleEngine.State(map[], Redis(map[LONE_KEY := 1], map[]), [], map[]);
    scan := Scan(200.0, [[STALE]]);
    StaleIsReported();
    var calls := CallsIn(scan);
    assert SilenceWatchdog.AfterCalls(s.redis, calls[..0]) == s.redis;
    assert After(s, scan).redis.Faults("sensor") == 1;
    LoneSensorHealth(After(s, scan).redis, LONE_KEY);
    forall k ensures s.redis.Count(k) == Healthy(LoneFleet(), s.redis, k) {
      LoneSensorHealth(s.redis, k);
    }
  }
}
