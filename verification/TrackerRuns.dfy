/**
 Whole runs of complete tracker calls. The yardstick is `Healthy`, the number of
 sensors covering a parameter whose fault counter is 0; the stored count is what
 the rule engine believes that number to be.
 */
module TrackerRuns {
  import opened Wrappers
  import opened Alerts
  import opened Redundancy

  /** Where a sensor stands and what it measures; both stay fixed over a run. */
  datatype Sensor = Sensor(area: string, parameters: seq<string>)
  type Fleet = map<string, Sensor>

  /** A complete call to the tracker, or Redis dropping a fault counter whose time to live is over. */
  datatype Event =
    | Reading(sensor: string, status: int, ts: string, id: nat)
    | Expire(sensor: string)

  ghost predicate WellFormed(fleet: Fleet) {
    forall sensor <- fleet :: Distinct(fleet[sensor].parameters)
  }

  ghost predicate Within(fleet: Fleet, events: seq<Event>) {
    forall e <- events :: e.sensor in fleet
  }

  function Covering(fleet: Fleet, k: CountKey): set<string> {
    set sensor | sensor in fleet && fleet[sensor].area == k.area && k.parameter in fleet[sensor].parameters
  }

  function HealthySet(fleet: Fleet, r: Redis, k: CountKey): set<string> {
    set sensor | sensor in Covering(fleet, k) && r.Faults(sensor) == 0
  }

  function Healthy(fleet: Fleet, r: Redis, k: CountKey): nat {
    |HealthySet(fleet, r, k)|
  }

  function Apply(fleet: Fleet, r: Redis, e: Event): CallResult
    requires e.sensor in fleet
  {
    match e
    case Reading(sensor, status, ts, id) =>
      AfterReading(r, sensor, fleet[sensor].area, fleet[sensor].parameters, status, ts, id)
    case Expire(sensor) =>
      CallResult(r.(faults := r.faults - {sensor}), [])
  }

  function Run(fleet: Fleet, r: Redis, events: seq<Event>): Redis
    requires Within(fleet, events)
    decreases |events|
  {
    if events == [] then r else
      var last := |events| - 1;
      Apply(fleet, Run(fleet, r, events[..last]), events[last]).redis
  }

  /// ## What one event does to one key

  datatype Effect = Lost | Regained | Forgotten | Unchanged

  function EffectOn(fleet: Fleet, r: Redis, e: Event, k: CountKey): Effect {
    if e.sensor !in Covering(fleet, k) then Unchanged
    else if e.Expire? then (if r.Faults(e.sensor) == 0 then Unchanged else Forgotten)
    else if e.status == 0 then (if r.Faults(e.sensor) == 0 then Lost else Unchanged)
    else (if r.Faults(e.sensor) == 0 then Unchanged else Regained)
  }

  lemma {:induction false} DecrementAllAt(counts: map<CountKey, int>, area: string, parameters: seq<string>, k: CountKey)
    requires Distinct(parameters)
    ensures Get(DecrementAll(counts, area, parameters), k)
         == if k.area == area && k.parameter in parameters then Clamped(Get(counts, k)) else Get(counts, k)
    decreases |parameters|
  {
    if parameters != [] {
      var last := |parameters| - 1;
      DecrementAllAt(counts, area, parameters[..last], k);
      assert parameters == parameters[..last] + [parameters[last]];
    }
  }

  lemma {:induction false} IncrementAllAt(counts: map<CountKey, int>, area: string, parameters: seq<string>, k: CountKey)
    requires Distinct(parameters)
    ensures Get(IncrementAll(counts, area, parameters), k)
         == Get(counts, k) + if k.area == area && k.parameter in parameters then 1 else 0
    decreases |parameters|
  {
    if parameters != [] {
      var last := |parameters| - 1;
      IncrementAllAt(counts, area, parameters[..last], k);
      assert parameters == parameters[..last] + [parameters[last]];
    }
  }

  /** When only one sensor's fault counter differs, the healthy sensors differ by that sensor at most. */
  lemma HealthyDiffersBy(fleet: Fleet, r: Redis, after: Redis, sensor: string, k: CountKey)
    requires forall other | other != sensor :: r.Faults(other) == after.Faults(other)
    ensures Healthy(fleet, after, k) - (if sensor in HealthySet(fleet, after, k) then 1 else 0)
         == Healthy(fleet, r, k) - (if sensor in HealthySet(fleet, r, k) then 1 else 0)
  {
    var before, now := HealthySet(fleet, r, k), HealthySet(fleet, after, k);
    assert now - {sensor} == before - {sensor};
    SizeWithout(before, sensor);
    SizeWithout(now, sensor);
  }

  lemma SizeWithout(s: set<string>, x: string)
    ensures |s - {x}| == |s| - if x in s then 1 else 0
  {
    assert x !in s ==> s - {x} == s;
  }

  lemma HealthyStep(fleet: Fleet, r: Redis, e: Event, k: CountKey)
    requires e.sensor in fleet
    ensures var healthy, after := Healthy(fleet, r, k), Healthy(fleet, Apply(fleet, r, e).redis, k);
            match EffectOn(fleet, r, e, k)
            case Lost => 1 <= healthy && after == healthy - 1
            case Unchanged => after == healthy
            case _ => after == healthy + 1
  {
    HealthyDiffersBy(fleet, r, Apply(fleet, r, e).redis, e.sensor, k);
  }

  /** One event moves the stored count and the healthy sensors of a key by its effect, and by nothing else. */
  lemma StepEffect(fleet: Fleet, r: Redis, e: Event, k: CountKey)
    requires WellFormed(fleet) && e.sensor in fleet
    ensures var after := Apply(fleet, r, e).redis;
            var healthy, count := Healthy(fleet, r, k), r.Count(k);
            match EffectOn(fleet, r, e, k)
            case Lost => 1 <= healthy && Healthy(fleet, after, k) == healthy - 1 && after.Count(k) == Clamped(count)
            case Regained => Healthy(fleet, after, k) == healthy + 1 && after.Count(k) == count + 1
            case Forgotten => Healthy(fleet, after, k) == healthy + 1 && after.Count(k) == count
            case Unchanged => Healthy(fleet, after, k) == healthy && after.Count(k) == count
  {
    HealthyStep(fleet, r, e, k);
    DecrementAllAt(r.counts, fleet[e.sensor].area, fleet[e.sensor].parameters, k);
    IncrementAllAt(r.counts, fleet[e.sensor].area, fleet[e.sensor].parameters, k);
  }

  /// ## Coverage is never overstated, and the shortfall has a closed form

  function Expiries(fleet: Fleet, r: Redis, events: seq<Event>, k: CountKey): nat
    requires Within(fleet, events)
    decreases |events|
  {
    if events == [] then 0 else
      var last := |events| - 1;
      Expiries(fleet, r, events[..last], k) +
      if ForgottenAt(fleet, r, events, last, k) then 1 else 0
  }

  /** As far as a count can be behind: no more than the healthy sensors of any moment plus the expiries since then. */
  function Ceiling(fleet: Fleet, r: Redis, events: seq<Event>, k: CountKey): nat
    requires Within(fleet, events)
    decreases |events|
  {
    if events == [] then Healthy(fleet, r, k) else
      var last := |events| - 1;
      Min(Ceiling(fleet, r, events[..last], k) + if ForgottenAt(fleet, r, events, last, k) then 1 else 0,
          Healthy(fleet, Run(fleet, r, events), k))
  }

  /** Event `n` is the expiry of a fault of a sensor covering `k`. */
  predicate ForgottenAt(fleet: Fleet, r: Redis, events: seq<Event>, n: nat, k: CountKey)
    requires Within(fleet, events) && n < |events|
  {
    EffectOn(fleet, Run(fleet, r, events[..n]), events[n], k) == Forgotten
  }

  function Shortfall(fleet: Fleet, r: Redis, k: CountKey): int {
    Healthy(fleet, r, k) - r.Count(k)
  }

  ghost predicate NoExpiry(events: seq<Event>) {
    forall e <- events :: e.Reading?
  }

  /** The stored count never overstates coverage, and falls short by at most one per expired fault counter. */
  lemma {:induction false} CoverageNeverOverstated(fleet: Fleet, r: Redis, events: seq<Event>, k: CountKey)
    requires WellFormed(fleet) && Within(fleet, events)
    requires 0 <= r.Count(k) <= Healthy(fleet, r, k)
    ensures 0 <= Run(fleet, r, events).Count(k) <= Healthy(fleet, Run(fleet, r, events), k)
    ensures Shortfall(fleet, Run(fleet, r, events), k) <= Shortfall(fleet, r, k) + Expiries(fleet, r, events, k)
    decreases |events|
  {
    if events != [] {
      var last := |events| - 1;
      CoverageNeverOverstated(fleet, r, events[..last], k);
      StepEffect(fleet, Run(fleet, r, events[..last]), events[last], k);
    }
  }

  lemma ShortfallStep(fleet: Fleet, r: Redis, e: Event, k: CountKey)
    requires WellFormed(fleet) && e.sensor in fleet
    requires 0 <= r.Count(k) <= Healthy(fleet, r, k)
    ensures var after := Apply(fleet, r, e).redis;
            var grown := Shortfall(fleet, r, k) + if EffectOn(fleet, r, e, k) == Forgotten then 1 else 0;
            Shortfall(fleet, after, k) == Min(grown, Healthy(fleet, after, k))
  {
    StepEffect(fleet, r, e, k);
  }

  lemma ClosedFormStep(fleet: Fleet, r: Redis, events: seq<Event>, k: CountKey)
    requires WellFormed(fleet) && Within(fleet, events) && events != []
    requires var now := Run(fleet, r, events[..|events| - 1]);
             && 0 <= now.Count(k) <= Healthy(fleet, now, k)
             && Shortfall(fleet, now, k) == ClosedForm(fleet, r, events[..|events| - 1], k)
    ensures Shortfall(fleet, Run(fleet, r, events), k) == ClosedForm(fleet, r, events, k)
  {
    ShortfallStep(fleet, Run(fleet, r, events[..|events| - 1]), events[|events| - 1], k);
  }

  function ClosedForm(fleet: Fleet, r: Redis, events: seq<Event>, k: CountKey): int
    requires Within(fleet, events)
  {
    Min(Shortfall(fleet, r, k) + Expiries(fleet, r, events, k), Ceiling(fleet, r, events, k))
  }

  /**
   In every run the shortfall is exactly the smaller of the initial shortfall plus the expiries, and the
   ceiling: only a near-total loss heals a count.
   */
  lemma {:induction false} ShortfallClosedForm(fleet: Fleet, r: Redis, events: seq<Event>, k: CountKey)
    requires WellFormed(fleet) && Within(fleet, events)
    requires 0 <= r.Count(k) <= Healthy(fleet, r, k)
    ensures Shortfall(fleet, Run(fleet, r, events), k) == ClosedForm(fleet, r, events, k)
    decreases |events|
  {
    if events != [] {
      var last := |events| - 1;
      ShortfallClosedForm(fleet, r, events[..last], k);
      CoverageNeverOverstated(fleet, r, events[..last], k);
      ClosedFormStep(fleet, r, events, k);
    }
  }

  lemma {:induction false} NoExpiriesToCount(fleet: Fleet, r: Redis, events: seq<Event>, k: CountKey)
    requires Within(fleet, events) && NoExpiry(events)
    ensures Expiries(fleet, r, events, k) == 0
    decreases |events|
  {
    if events != [] {
      NoExpiriesToCount(fleet, r, events[..|events| - 1], k);
      assert events[|events| - 1] in events;
    }
  }

  /// ## Alerts

  /** Alerts `j` and `j + 1` are the high malfunction for `k` and the priority alert that names it. */
  ghost predicate FullLossPairAt(alerts: seq<Alert>, j: nat, sensor: string, k: CountKey) {
    && j + 1 < |alerts|
    && alerts[j].kind == Malfunction && alerts[j + 1].kind == Priority
    && alerts[j + 1].context.originatingAlertId == Some(alerts[j].id)
    && forall i | j <= i <= j + 1 ::
         && alerts[i].severity == High && alerts[i].context.redundancyRemaining == Some(0)
         && alerts[i].sensor == sensor && alerts[i].area == k.area && alerts[i].parameter == k.parameter
  }

  lemma {:induction false} DecrementToZeroRaisesPair(
    counts: map<CountKey, int>, sensor: string, area: string, parameters: seq<string>, ts: string, id: nat, k: CountKey)
    requires Distinct(parameters) && k.area == area && k.parameter in parameters
    requires Clamped(Get(counts, k)) == 0
    ensures exists j: nat :: FullLossPairAt(DecrementAlerts(counts, sensor, area, parameters, ts, id), j, sensor, k)
    decreases |parameters|
  {
    var last := |parameters| - 1;
    var alerts := DecrementAlerts(counts, sensor, area, parameters, ts, id);
    var before := DecrementAlerts(counts, sensor, area, parameters[..last], ts, id);
    if parameters[last] == k.parameter {
      DecrementAllAt(counts, area, parameters, k);
      assert FullLossPairAt(alerts, |before|, sensor, k);
    } else {
      DecrementToZeroRaisesPair(counts, sensor, area, parameters[..last], ts, id, k);
      var j: nat :| FullLossPairAt(before, j, sensor, k);
      assert FullLossPairAt(alerts, j, sensor, k);
    }
  }

  /** Whatever counts a run started from and whatever expired, losing the last healthy sensor raises the pair. */
  lemma FullLossIsAlwaysRaised(fleet: Fleet, r: Redis, events: seq<Event>, e: Event, k: CountKey)
    requires WellFormed(fleet) && Within(fleet, events) && e.sensor in fleet
    requires 0 <= r.Count(k) <= Healthy(fleet, r, k)
    requires var now := Run(fleet, r, events);
             EffectOn(fleet, now, e, k) == Lost && Healthy(fleet, Apply(fleet, now, e).redis, k) == 0
    ensures exists j: nat :: FullLossPairAt(Apply(fleet, Run(fleet, r, events), e).alerts, j, e.sensor, k)
  {
    var now := Run(fleet, r, events);
    CoverageNeverOverstated(fleet, r, events, k);
    StepEffect(fleet, now, e, k);
    DecrementToZeroRaisesPair(now.counts, e.sensor, fleet[e.sensor].area, fleet[e.sensor].parameters, e.ts, e.id, k);
  }

  /** The alerts of a loss, told from the number of sensors that remain rather than from the counts. */
  function LossReport(fleet: Fleet, after: Redis, sensor: string, parameters: seq<string>, ts: string, id: nat): seq<Alert>
    requires sensor in fleet
    decreases |parameters|
  {
    if parameters == [] then [] else
      var last := |parameters| - 1;
      var before := LossReport(fleet, after, sensor, parameters[..last], ts, id);
      var area := fleet[sensor].area;
      var remaining := Healthy(fleet, after, CountKey(area, parameters[last]));
      before + LossAlerts(remaining, sensor, area, parameters[last], ts, id + |before|)
  }

  /** What one event should report: a loss report when it opens a fault episode, nothing otherwise. */
  function EventReport(fleet: Fleet, r: Redis, e: Event): seq<Alert>
    requires e.sensor in fleet
  {
    if e.Reading? && e.status == 0 && r.Faults(e.sensor) == 0 then
      LossReport(fleet, Apply(fleet, r, e).redis, e.sensor, fleet[e.sensor].parameters, e.ts, e.id)
    else
      []
  }

  ghost predicate Exact(fleet: Fleet, r: Redis) {
    forall k :: r.Count(k) == Healthy(fleet, r, k)
  }

  function Returned(fleet: Fleet, r: Redis, events: seq<Event>): seq<Alert>
    requires Within(fleet, events)
    decreases |events|
  {
    if events == [] then [] else
      var last := |events| - 1;
      Returned(fleet, r, events[..last]) + Apply(fleet, Run(fleet, r, events[..last]), events[last]).alerts
  }

  function Report(fleet: Fleet, r: Redis, events: seq<Event>): seq<Alert>
    requires Within(fleet, events)
    decreases |events|
  {
    if events == [] then [] else
      var last := |events| - 1;
      Report(fleet, r, events[..last]) + EventReport(fleet, Run(fleet, r, events[..last]), events[last])
  }

  lemma ExactThroughout(fleet: Fleet, r: Redis, events: seq<Event>)
    requires WellFormed(fleet) && Within(fleet, events) && NoExpiry(events) && Exact(fleet, r)
    ensures Exact(fleet, Run(fleet, r, events))
  {
    forall k ensures Run(fleet, r, events).Count(k) == Healthy(fleet, Run(fleet, r, events), k) {
      NoExpiriesToCount(fleet, r, events, k);
      CoverageNeverOverstated(fleet, r, events, k);
    }
  }

  ghost predicate LeavesHealthy(fleet: Fleet, counts: map<CountKey, int>, after: Redis, k: CountKey) {
    Clamped(Get(counts, k)) == Healthy(fleet, after, k)
  }

  lemma {:induction false} DecrementAlertsAreLossReport(
    fleet: Fleet, counts: map<CountKey, int>, after: Redis, sensor: string, parameters: seq<string>, ts: string, id: nat)
    requires sensor in fleet && Distinct(parameters)
    requires forall i | 0 <= i < |parameters| :: LeavesHealthy(fleet, counts, after, CountKey(fleet[sensor].area, parameters[i]))
    ensures DecrementAlerts(counts, sensor, fleet[sensor].area, parameters, ts, id)
         == LossReport(fleet, after, sensor, parameters, ts, id)
    decreases |parameters|
  {
    if parameters != [] {
      var last := |parameters| - 1;
      assert LeavesHealthy(fleet, counts, after, CountKey(fleet[sensor].area, parameters[last]));
      DecrementAlertsAreLossReport(fleet, counts, after, sensor, parameters[..last], ts, id);
      DecrementAllAt(counts, fleet[sensor].area, parameters, CountKey(fleet[sensor].area, parameters[last]));
    }
  }

  lemma CallReturnsReport(fleet: Fleet, r: Redis, e: Event)
    requires WellFormed(fleet) && e.sensor in fleet && Exact(fleet, r)
    ensures Apply(fleet, r, e).alerts == EventReport(fleet, r, e)
  {
    if e.Reading? && e.status == 0 && r.Faults(e.sensor) == 0 {
      var after := Apply(fleet, r, e).redis;
      var area, parameters := fleet[e.sensor].area, fleet[e.sensor].parameters;
      forall i | 0 <= i < |parameters| ensures LeavesHealthy(fleet, r.counts, after, CountKey(area, parameters[i])) {
        var k := CountKey(area, parameters[i]);
        StepEffect(fleet, r, e, k);
        assert r.Count(k) == Healthy(fleet, r, k);
      }
      DecrementAlertsAreLossReport(fleet, r.counts, after, e.sensor, parameters, e.ts, e.id);
    }
  }

  /**
   From exact counts, the alerts of a whole run are told by sensor health alone: for each
   fault episode and covered parameter a malfunction with the healthy sensors left,
   followed by its priority alert exactly when none is left.
   */
  lemma {:induction false} AlertsTellHealth(fleet: Fleet, r: Redis, events: seq<Event>)
    requires WellFormed(fleet) && Within(fleet, events) && NoExpiry(events) && Exact(fleet, r)
    ensures Returned(fleet, r, events) == Report(fleet, r, events)
    decreases |events|
  {
    if events != [] {
      var last := |events| - 1;
      AlertsTellHealth(fleet, r, events[..last]);
      ExactThroughout(fleet, r, events[..last]);
      CallReturnsReport(fleet, Run(fleet, r, events[..last]), events[last]);
    }
  }

  function CountOf(alerts: seq<Alert>, kind: Kind, k: CountKey): nat {
    if alerts == [] then 0 else
      var last := alerts[|alerts| - 1];
      CountOf(alerts[..|alerts| - 1], kind, k) +
      if last.kind == kind && last.area == k.area && last.parameter == k.parameter then 1 else 0
  }

  /** Fault episodes of sensors covering `k`, and those among them that leave no healthy sensor. */
  function Losses(fleet: Fleet, r: Redis, events: seq<Event>, k: CountKey, onlyTotal: bool): nat
    requires Within(fleet, events)
    decreases |events|
  {
    if events == [] then 0 else
      var last := |events| - 1;
      Losses(fleet, r, events[..last], k, onlyTotal) +
      if EffectOn(fleet, Run(fleet, r, events[..last]), events[last], k) == Lost
         && (onlyTotal ==> Healthy(fleet, Run(fleet, r, events), k) == 0)
      then 1 else 0
  }

  lemma {:induction false} CountOfAppend(a: seq<Alert>, b: seq<Alert>, kind: Kind, k: CountKey)
    ensures CountOf(a + b, kind, k) == CountOf(a, kind, k) + CountOf(b, kind, k)
    decreases |b|
  {
    if b == [] {
      assert a + b == a;
    } else {
      CountOfAppend(a, b[..|b| - 1], kind, k);
      assert (a + b)[..|a + b| - 1] == a + b[..|b| - 1];
    }
  }

  lemma LossAlertsCounts(
    remaining: int, sensor: string, area: string, parameter: string, ts: string, id: nat, kind: Kind, k: CountKey)
    ensures CountOf(LossAlerts(remaining, sensor, area, parameter, ts, id), kind, k)
         == if CountKey(area, parameter) == k && (kind == Malfunction || (kind == Priority && remaining == 0)) then 1 else 0
  {
    var alerts := LossAlerts(remaining, sensor, area, parameter, ts, id);
    var first := [alerts[0]];
    assert first[..0] == [];
    assert alerts[..|alerts| - 1] == if |alerts| == 2 then first else [];
    assert CountOf(first, kind, k) == if kind == Malfunction && CountKey(area, parameter) == k then 1 else 0;
    assert |alerts| == 1 ==> alerts == first;
  }

  lemma LossReportGrows(
    fleet: Fleet, after: Redis, sensor: string, parameters: seq<string>, ts: string, id: nat, kind: Kind, k: CountKey)
    requires sensor in fleet && parameters != []
    ensures var p := parameters[|parameters| - 1];
            var before := LossReport(fleet, after, sensor, parameters[..|parameters| - 1], ts, id);
            var own := CountKey(fleet[sensor].area, p);
            var added := if own == k && (kind == Malfunction || (kind == Priority && Healthy(fleet, after, own) == 0))
                         then 1 else 0;
            CountOf(LossReport(fleet, after, sensor, parameters, ts, id), kind, k) == CountOf(before, kind, k) + added
  {
    var area, p := fleet[sensor].area, parameters[|parameters| - 1];
    var remaining := Healthy(fleet, after, CountKey(area, p));
    var before := LossReport(fleet, after, sensor, parameters[..|parameters| - 1], ts, id);
    var tail := LossAlerts(remaining, sensor, area, p, ts, id + |before|);
    assert LossReport(fleet, after, sensor, parameters, ts, id) == before + tail;
    LossAlertsCounts(remaining, sensor, area, p, ts, id + |before|, kind, k);
    CountOfAppend(before, tail, kind, k);
  }

  lemma {:induction false} LossReportCounts(
    fleet: Fleet, after: Redis, sensor: string, parameters: seq<string>, ts: string, id: nat, kind: Kind, k: CountKey)
    requires sensor in fleet && Distinct(parameters)
    ensures CountOf(LossReport(fleet, after, sensor, parameters, ts, id), kind, k)
         == if fleet[sensor].area == k.area && k.parameter in parameters
               && (kind == Malfunction || (kind == Priority && Healthy(fleet, after, k) == 0)) then 1 else 0
    decreases |parameters|
  {
    if parameters != [] {
      var last := |parameters| - 1;
      LossReportCounts(fleet, after, sensor, parameters[..last], ts, id, kind, k);
      LossReportGrows(fleet, after, sensor, parameters, ts, id, kind, k);
      assert parameters == parameters[..last] + [parameters[last]];
    }
  }

  /** One malfunction per fault episode of a covering sensor; one priority alert per step from 1 to 0. */
  lemma {:induction false} OneAlertPerLoss(fleet: Fleet, r: Redis, events: seq<Event>, k: CountKey)
    requires WellFormed(fleet) && Within(fleet, events) && NoExpiry(events) && Exact(fleet, r)
    ensures CountOf(Returned(fleet, r, events), Malfunction, k) == Losses(fleet, r, events, k, false)
    ensures CountOf(Returned(fleet, r, events), Priority, k) == Losses(fleet, r, events, k, true)
    decreases |events|
  {
    if events != [] {
      var last := |events| - 1;
      var now, e := Run(fleet, r, events[..last]), events[last];
      OneAlertPerLoss(fleet, r, events[..last], k);
      ExactThroughout(fleet, r, events[..last]);
      CallCounts(fleet, now, e, Malfunction, k);
      CallCounts(fleet, now, e, Priority, k);
      CountOfAppend(Returned(fleet, r, events[..last]), Apply(fleet, now, e).alerts, Malfunction, k);
      CountOfAppend(Returned(fleet, r, events[..last]), Apply(fleet, now, e).alerts, Priority, k);
    }
  }

  lemma CallCounts(fleet: Fleet, r: Redis, e: Event, kind: Kind, k: CountKey)
    requires WellFormed(fleet) && e.sensor in fleet && Exact(fleet, r) && kind != Threshold
    ensures var call := Apply(fleet, r, e);
            CountOf(call.alerts, kind, k)
            == if EffectOn(fleet, r, e, k) == Lost && (kind == Malfunction || Healthy(fleet, call.redis, k) == 0)
               then 1 else 0
  {
    CallReturnsReport(fleet, r, e);
    if e.Reading? && e.status == 0 && r.Faults(e.sensor) == 0 {
      LossReportCounts(fleet, Apply(fleet, r, e).redis, e.sensor, fleet[e.sensor].parameters, e.ts, e.id, kind, k);
    }
  }

  /** Severity is high exactly when nothing remains, and only then is there a priority alert. */
  ghost predicate GradedByRemaining(alert: Alert) {
    && alert.context.redundancyRemaining.Some?
    && 0 <= alert.context.redundancyRemaining.value
    && (alert.severity == High <==> alert.context.redundancyRemaining.value == 0)
    && (alert.severity == Low <==> alert.context.redundancyRemaining.value > 0)
    && (alert.kind == Priority ==> alert.severity == High && alert.context.originatingAlertId.Some?)
    && (alert.kind == Malfunction || alert.kind == Priority)
  }

  lemma {:induction false} DecrementAlertsAreGraded(
    counts: map<CountKey, int>, sensor: string, area: string, parameters: seq<string>, ts: string, id: nat)
    requires Distinct(parameters)
    ensures forall alert <- DecrementAlerts(counts, sensor, area, parameters, ts, id) :: GradedByRemaining(alert)
    decreases |parameters|
  {
    if parameters != [] {
      var last := |parameters| - 1;
      DecrementAlertsAreGraded(counts, sensor, area, parameters[..last], ts, id);
      DecrementAllAt(counts, area, parameters, CountKey(area, parameters[last]));
    }
  }

  /** From any counts whatsoever, also wrong ones, every alert of a run is graded by the remainder it reports. */
  lemma {:induction false} ReturnedAlertsAreGraded(fleet: Fleet, r: Redis, events: seq<Event>)
    requires WellFormed(fleet) && Within(fleet, events)
    ensures forall alert <- Returned(fleet, r, events) :: GradedByRemaining(alert)
    decreases |events|
  {
    if events != [] {
      var last := |events| - 1;
      var e := events[last];
      ReturnedAlertsAreGraded(fleet, r, events[..last]);
      if e.Reading? {
        DecrementAlertsAreGraded(Run(fleet, r, events[..last]).counts, e.sensor, fleet[e.sensor].area,
                                 fleet[e.sensor].parameters, e.ts, e.id);
      }
    }
  }

  /// ## Replay

  /** The status of the sensor's last reading. */
  function LastStatus(events: seq<Event>, sensor: string): Option<int> {
    if events == [] then None else
      var e := events[|events| - 1];
      if e.Reading? && e.sensor == sensor then Some(e.status) else LastStatus(events[..|events| - 1], sensor)
  }

  predicate Faulted(r: Redis, sensor: string) {
    r.Faults(sensor) != 0
  }

  lemma {:induction false} FaultedIsLastStatus(fleet: Fleet, r: Redis, events: seq<Event>, sensor: string)
    requires Within(fleet, events) && NoExpiry(events)
    ensures Faulted(Run(fleet, r, events), sensor)
        <==> match LastStatus(events, sensor) { case None => Faulted(r, sensor) case Some(status) => status == 0 }
    decreases |events|
  {
    if events != [] {
      FaultedIsLastStatus(fleet, r, events[..|events| - 1], sensor);
    }
  }

  /** The faulted sensors and all counts depend only on each sensor's last status. */
  lemma StateDependsOnLastStatus(fleet: Fleet, r: Redis, a: seq<Event>, b: seq<Event>)
    requires WellFormed(fleet) && Exact(fleet, r)
    requires Within(fleet, a) && Within(fleet, b) && NoExpiry(a) && NoExpiry(b)
    requires forall sensor :: (LastStatus(a, sensor) == Some(0)) == (LastStatus(b, sensor) == Some(0))
                           && LastStatus(a, sensor).None? == LastStatus(b, sensor).None?
    ensures forall sensor :: Faulted(Run(fleet, r, a), sensor) == Faulted(Run(fleet, r, b), sensor)
    ensures forall k :: Run(fleet, r, a).Count(k) == Run(fleet, r, b).Count(k)
  {
    var ra, rb := Run(fleet, r, a), Run(fleet, r, b);
    forall sensor ensures Faulted(ra, sensor) == Faulted(rb, sensor) {
      FaultedIsLastStatus(fleet, r, a, sensor);
      FaultedIsLastStatus(fleet, r, b, sensor);
      assert (LastStatus(a, sensor) == Some(0)) == (LastStatus(b, sensor) == Some(0));
    }
    ExactThroughout(fleet, r, a);
    ExactThroughout(fleet, r, b);
    forall k ensures ra.Count(k) == rb.Count(k) {
      assert HealthySet(fleet, ra, k) == HealthySet(fleet, rb, k) by {
        forall sensor <- Covering(fleet, k) ensures (ra.Faults(sensor) == 0) == (rb.Faults(sensor) == 0) {
          assert Faulted(ra, sensor) == Faulted(rb, sensor);
        }
      }
      assert ra.Count(k) == Healthy(fleet, ra, k) && rb.Count(k) == Healthy(fleet, rb, k);
    }
  }

  lemma {:induction false} LastStatusAppend(a: seq<Event>, b: seq<Event>, sensor: string)
    ensures LastStatus(a + b, sensor)
         == if LastStatus(b, sensor).Some? then LastStatus(b, sensor) else LastStatus(a, sensor)
    decreases |b|
  {
    if b == [] {
      assert a + b == a;
    } else {
      LastStatusAppend(a, b[..|b| - 1], sensor);
      assert (a + b)[..|a + b| - 1] == a + b[..|b| - 1];
    }
  }

  /** Redelivering any tail of the stream, as Kafka may after a restart, changes no count and no faulted sensor. */
  lemma RedeliveryIsHarmless(fleet: Fleet, r: Redis, head: seq<Event>, tail: seq<Event>)
    requires WellFormed(fleet) && Exact(fleet, r)
    requires Within(fleet, head) && Within(fleet, tail) && NoExpiry(head) && NoExpiry(tail)
    ensures var once, again := Run(fleet, r, head + tail), Run(fleet, r, head + tail + tail);
            && (forall sensor :: Faulted(once, sensor) == Faulted(again, sensor))
            && (forall k :: once.Count(k) == again.Count(k))
  {
    forall sensor ensures LastStatus(head + tail, sensor) == LastStatus(head + tail + tail, sensor) {
      LastStatusAppend(head, tail, sensor);
      LastStatusAppend(head + tail, tail, sensor);
    }
    StateDependsOnLastStatus(fleet, r, head + tail, head + tail + tail);
  }

  /** Neighbouring events of different sensors may arrive in either order. */
  lemma ReorderingIsHarmless(fleet: Fleet, r: Redis, head: seq<Event>, x: Event, y: Event, tail: seq<Event>)
    requires WellFormed(fleet) && Exact(fleet, r) && x.sensor != y.sensor
    requires Within(fleet, head + [x, y] + tail) && NoExpiry(head + [x, y] + tail)
    ensures Within(fleet, head + [y, x] + tail)
    ensures var one, other := Run(fleet, r, head + [x, y] + tail), Run(fleet, r, head + [y, x] + tail);
            && (forall sensor :: Faulted(one, sensor) == Faulted(other, sensor))
            && (forall k :: one.Count(k) == other.Count(k))
  {
    forall e <- head + [y, x] + tail ensures e in head + [x, y] + tail {}
    forall sensor
      ensures LastStatus(head + [x, y] + tail, sensor) == LastStatus(head + [y, x] + tail, sensor)
    {
      assert [x, y] == [x] + [y] && [y, x] == [y] + [x];
      LastStatusAppend([x], [y], sensor);
      LastStatusAppend([y], [x], sensor);
      LastStatusAppend(head, [x, y], sensor);
      LastStatusAppend(head, [y, x], sensor);
      LastStatusAppend(head + [x, y], tail, sensor);
      LastStatusAppend(head + [y, x], tail, sensor);
    }
    StateDependsOnLastStatus(fleet, r, head + [x, y] + tail, head + [y, x] + tail);
  }

  /** At moment `n` no sensor covering `k` was healthy, and none of their faults expired since. */
  ghost predicate FullLossSince(fleet: Fleet, r: Redis, events: seq<Event>, n: nat, k: CountKey)
    requires Within(fleet, events) && n <= |events|
  {
    && Healthy(fleet, Run(fleet, r, events[..n]), k) == 0
    && forall m | n <= m < |events| :: !ForgottenAt(fleet, r, events, m, k)
  }

  /**
   The documented rebuild deletes every count and consumes the stream again. The rebuilt count is right exactly
   when, at some moment of the replay after which no fault expired, no sensor covering the key was healthy.
   */
  lemma RebuildIsExactIffFullLossSeen(fleet: Fleet, r: Redis, events: seq<Event>, k: CountKey)
    requires WellFormed(fleet) && Within(fleet, events)
    ensures var start := r.(counts := map[]);
            var rebuilt := Run(fleet, start, events);
            rebuilt.Count(k) == Healthy(fleet, rebuilt, k)
            <==> exists n | 0 <= n <= |events| :: FullLossSince(fleet, start, events, n, k)
  {
    var start := r.(counts := map[]);
    ShortfallFromNothing(fleet, start, events, k);
    CeilingIsZeroIff(fleet, start, events, k);
  }

  lemma ShortfallFromNothing(fleet: Fleet, r: Redis, events: seq<Event>, k: CountKey)
    requires WellFormed(fleet) && Within(fleet, events) && r.Count(k) == 0
    ensures Shortfall(fleet, Run(fleet, r, events), k) == Ceiling(fleet, r, events, k)
  {
    ShortfallClosedForm(fleet, r, events, k);
    CeilingIsReachable(fleet, r, events, k);
  }

  /** The ceiling is never above what the whole run can have cost. */
  lemma {:induction false} CeilingIsReachable(fleet: Fleet, r: Redis, events: seq<Event>, k: CountKey)
    requires Within(fleet, events)
    ensures Ceiling(fleet, r, events, k) <= Healthy(fleet, r, k) + Expiries(fleet, r, events, k)
    decreases |events|
  {
    if events != [] {
      CeilingIsReachable(fleet, r, events[..|events| - 1], k);
    }
  }

  lemma {:induction false} CeilingIsZeroIff(fleet: Fleet, r: Redis, events: seq<Event>, k: CountKey)
    requires Within(fleet, events)
    ensures Ceiling(fleet, r, events, k) == 0
            <==> exists n | 0 <= n <= |events| :: FullLossSince(fleet, r, events, n, k)
    decreases |events|
  {
    assert events[..|events|] == events;
    if events == [] {
      assert FullLossSince(fleet, r, events, 0, k) <==> Healthy(fleet, r, k) == 0;
    } else {
      var front := events[..|events| - 1];
      CeilingIsZeroIff(fleet, r, front, k);
      CeilingStep(fleet, r, events, k);
      forall n: nat | n < |events|
        ensures FullLossSince(fleet, r, events, n, k)
                <==> FullLossSince(fleet, r, front, n, k) && !ForgottenAt(fleet, r, events, |events| - 1, k)
      {
        FullLossSinceStep(fleet, r, events, n, k);
      }
      assert FullLossSince(fleet, r, events, |events|, k) <==> Healthy(fleet, Run(fleet, r, events), k) == 0;
    }
  }

  lemma CeilingStep(fleet: Fleet, r: Redis, events: seq<Event>, k: CountKey)
    requires Within(fleet, events) && events != []
    ensures Ceiling(fleet, r, events, k) == 0
            <==> || Healthy(fleet, Run(fleet, r, events), k) == 0
                 || (Ceiling(fleet, r, events[..|events| - 1], k) == 0 && !ForgottenAt(fleet, r, events, |events| - 1, k))
  {
  }

  lemma FullLossSinceStep(fleet: Fleet, r: Redis, events: seq<Event>, n: nat, k: CountKey)
    requires Within(fleet, events) && n < |events|
    ensures FullLossSince(fleet, r, events, n, k)
            <==> FullLossSince(fleet, r, events[..|events| - 1], n, k) && !ForgottenAt(fleet, r, events, |events| - 1, k)
  {
    var front := events[..|events| - 1];
    assert front[..n] == events[..n];
    forall m: nat | m < |front| ensures ForgottenAt(fleet, r, front, m, k) == ForgottenAt(fleet, r, events, m, k) {
      assert front[..m] == events[..m];
    }
  }

  /// ## The clamped counter on its own

  /** Running sums of a sequence of decrements (`true`) and increments (`false`). */
  function Sum(start: int, ops: seq<bool>): int {
    if ops == [] then start else
      Sum(start, ops[..|ops| - 1]) + if ops[|ops| - 1] then -1 else 1
  }

  /** The deepest the running sum, taken without clamping, ever falls below 0. */
  function Deepest(start: int, ops: seq<bool>): int {
    if ops == [] then Max(0, -start) else
      Max(Deepest(start, ops[..|ops| - 1]), -Sum(start, ops))
  }

  function Stored(counts: map<CountKey, int>, k: CountKey, ops: seq<bool>): map<CountKey, int> {
    if ops == [] then counts else
      var before := Stored(counts, k, ops[..|ops| - 1]);
      before[k := if ops[|ops| - 1] then Clamped(Get(before, k)) else Get(before, k) + 1]
  }

  /** After any calls to `decrement` and `increment` the stored value is the plain sum lifted by its deepest point. */
  lemma {:induction false} ClampedCounterClosedForm(counts: map<CountKey, int>, k: CountKey, ops: seq<bool>)
    requires 0 <= Get(counts, k)
    ensures Get(Stored(counts, k, ops), k) == Sum(Get(counts, k), ops) + Deepest(Get(counts, k), ops)
    decreases |ops|
  {
    if ops != [] {
      ClampedCounterClosedForm(counts, k, ops[..|ops| - 1]);
    }
  }
}
