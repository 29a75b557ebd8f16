/** What the alerts of the tracker say, field by field, and what the fault counter counts. */
module TrackerAlerts {
  import opened Wrappers
  import opened Alerts
  import opened Redundancy
  import opened TrackerRuns

  /** A tracker alert about a parameter of a sensor, with so many sensors remaining. */
  ghost predicate TellsLoss(alert: Alert, id: nat, sensor: string, k: CountKey, ts: string, remaining: int) {
    && alert.id == id && alert.sensor == sensor && alert.tsEvent == ts
    && alert.area == k.area && alert.parameter == k.parameter
    && alert.context.redundancyRemaining == Some(remaining)
    && alert.value.None? && alert.threshold.None? && alert.context.trend.None?
  }

  /** A malfunction stands on its own; a priority alert follows the malfunction of its parameter and names it. */
  ghost predicate NamesOrigin(alerts: seq<Alert>, j: nat)
    requires j < |alerts|
  {
    if alerts[j].kind == Malfunction then alerts[j].context.originatingAlertId.None?
    else
      && alerts[j].kind == Priority && j > 0 && alerts[j - 1].kind == Malfunction
      && alerts[j - 1].parameter == alerts[j].parameter
      && alerts[j].context.originatingAlertId == Some(alerts[j - 1].id)
  }

  /** Alert `j` is about parameter `at[j]`, and the alerts come in the order of the parameters. */
  ghost predicate FollowParameters(alerts: seq<Alert>, parameters: seq<string>, at: seq<nat>) {
    && |at| == |alerts|
    && (forall j | 0 <= j < |at| :: at[j] < |parameters| && alerts[j].parameter == parameters[at[j]])
    && (forall i, j | 0 <= i < j < |at| :: at[i] <= at[j])
  }

  ghost predicate AllTellLoss(
    alerts: seq<Alert>, id: nat, sensor: string, area: string, ts: string, counts: map<CountKey, int>)
  {
    forall j | 0 <= j < |alerts| ::
      && TellsLoss(alerts[j], id + j, sensor, CountKey(area, alerts[j].parameter), ts,
                   Get(counts, CountKey(area, alerts[j].parameter)))
      && NamesOrigin(alerts, j)
  }

  lemma OneParameterTells(remaining: int, sensor: string, k: CountKey, ts: string, id: nat)
    ensures var alerts := LossAlerts(remaining, sensor, k.area, k.parameter, ts, id);
            forall j | 0 <= j < |alerts| ::
              TellsLoss(alerts[j], id + j, sensor, k, ts, remaining) && NamesOrigin(alerts, j)
  {
  }

  lemma {:induction false} DecrementAlertsTell(
    counts: map<CountKey, int>, sensor: string, area: string, parameters: seq<string>, ts: string, id: nat)
    returns (at: seq<nat>)
    requires Distinct(parameters)
    ensures var alerts := DecrementAlerts(counts, sensor, area, parameters, ts, id);
            && AllTellLoss(alerts, id, sensor, area, ts, DecrementAll(counts, area, parameters))
            && FollowParameters(alerts, parameters, at)
    decreases |parameters|
  {
    if parameters == [] {
      at := [];
    } else {
      var last := |parameters| - 1;
      var k := CountKey(area, parameters[last]);
      var before := DecrementAlerts(counts, sensor, area, parameters[..last], ts, id);
      var remaining := Get(DecrementAll(counts, area, parameters), k);
      at := DecrementAlertsTell(counts, sensor, area, parameters[..last], ts, id);
      OneParameterTells(remaining, sensor, k, ts, id + |before|);
      var added := LossAlerts(remaining, sensor, area, parameters[last], ts, id + |before|);
      EarlierCountsStay(counts, area, parameters, before, at);
      TellsAppend(before, added, id, sensor, area, parameters[last], ts,
                  DecrementAll(counts, area, parameters[..last]), DecrementAll(counts, area, parameters));
      at := OrderAppend(before, added, parameters, at);
    }
  }

  /** Decrementing the last parameter changes no count that an earlier alert reported. */
  lemma EarlierCountsStay(
    counts: map<CountKey, int>, area: string, parameters: seq<string>, before: seq<Alert>, at: seq<nat>)
    requires Distinct(parameters) && parameters != [] && FollowParameters(before, parameters[..|parameters| - 1], at)
    ensures forall j | 0 <= j < |before| ::
              Get(DecrementAll(counts, area, parameters), CountKey(area, before[j].parameter))
              == Get(DecrementAll(counts, area, parameters[..|parameters| - 1]), CountKey(area, before[j].parameter))
  {
  }

  lemma TellsAppend(
    before: seq<Alert>, added: seq<Alert>, id: nat, sensor: string, area: string, parameter: string, ts: string,
    earlier: map<CountKey, int>, counts: map<CountKey, int>)
    requires AllTellLoss(before, id, sensor, area, ts, earlier)
    requires forall j | 0 <= j < |before| ::
               Get(counts, CountKey(area, before[j].parameter)) == Get(earlier, CountKey(area, before[j].parameter))
    requires forall j | 0 <= j < |added| ::
               && TellsLoss(added[j], id + |before| + j, sensor, CountKey(area, parameter), ts,
                            Get(counts, CountKey(area, parameter)))
               && NamesOrigin(added, j)
    ensures AllTellLoss(before + added, id, sensor, area, ts, counts)
  {
    var all := before + added;
    forall j | 0 <= j < |all|
      ensures TellsLoss(all[j], id + j, sensor, CountKey(area, all[j].parameter), ts,
                        Get(counts, CountKey(area, all[j].parameter)))
              && NamesOrigin(all, j)
    {
      if j < |before| {
        assert TellsLoss(before[j], id + j, sensor, CountKey(area, before[j].parameter), ts,
                         Get(earlier, CountKey(area, before[j].parameter)));
        assert NamesOrigin(before, j);
      } else {
        assert all[j] == added[j - |before|];
        assert NamesOrigin(added, j - |before|);
      }
    }
  }

  lemma OrderAppend(before: seq<Alert>, added: seq<Alert>, parameters: seq<string>, at: seq<nat>) returns (all: seq<nat>)
    requires parameters != [] && FollowParameters(before, parameters[..|parameters| - 1], at)
    requires forall j | 0 <= j < |added| :: added[j].parameter == parameters[|parameters| - 1]
    ensures FollowParameters(before + added, parameters, all)
  {
    all := at + seq(|added|, _ => |parameters| - 1);
  }

  /**
   Whatever the counts, every alert that a call returns names the reading's sensor and time, the sensor's area and a
   parameter of it, and as remaining the count the call leaves for that key; the alerts are numbered through, come
   in the order of the parameters, and each priority alert follows the malfunction it names.
   */
  lemma CallTells(fleet: Fleet, r: Redis, e: Event) returns (at: seq<nat>)
    requires WellFormed(fleet) && e.sensor in fleet
    ensures var call := Apply(fleet, r, e);
            && (e.Expire? ==> call.alerts == [])
            && (e.Reading? ==> AllTellLoss(call.alerts, e.id, e.sensor, fleet[e.sensor].area, e.ts, call.redis.counts))
            && FollowParameters(call.alerts, fleet[e.sensor].parameters, at)
  {
    at := [];
    if e.Reading? && e.status == 0 && r.Faults(e.sensor) == 0 {
      at := DecrementAlertsTell(r.counts, e.sensor, fleet[e.sensor].area, fleet[e.sensor].parameters, e.ts, e.id);
    }
  }

  /**
   From exact counts, over every run: each alert that an event returns for `k` names the event's sensor and time, a
   parameter that the sensor covers, and as remaining the number of healthy sensors that the event leaves.
   */
  lemma AlertsReportHealth(fleet: Fleet, r: Redis, events: seq<Event>, e: Event, k: CountKey, alert: Alert)
    requires WellFormed(fleet) && Within(fleet, events) && NoExpiry(events) && Exact(fleet, r)
    requires e.Reading? && e.sensor in fleet
    requires alert in Apply(fleet, Run(fleet, r, events), e).alerts && alert.area == k.area && alert.parameter == k.parameter
    ensures e.sensor in Covering(fleet, k) && alert.sensor == e.sensor && alert.tsEvent == e.ts
    ensures alert.context.redundancyRemaining
         == Some(Healthy(fleet, Apply(fleet, Run(fleet, r, events), e).redis, k))
  {
    var now := Run(fleet, r, events);
    var at := CallTells(fleet, now, e);
    var call := Apply(fleet, now, e);
    var j :| 0 <= j < |call.alerts| && call.alerts[j] == alert;
    assert TellsLoss(alert, e.id + j, e.sensor, CountKey(fleet[e.sensor].area, alert.parameter), e.ts, call.redis.Count(k));
    ExactThroughout(fleet, r, events);
    assert [e][..0] == [];
    ExactThroughout(fleet, now, [e]);
    assert call.redis == Run(fleet, now, [e]);
    assert call.redis.Count(k) == Healthy(fleet, call.redis, k);
  }

  /// ## The fault counter

  /** Consecutive faults of a sensor up to the end of a run, its own or before it. */
  function ConsecutiveFaults(before: nat, events: seq<Event>, sensor: string): nat {
    if events == [] then before else
      var e := events[|events| - 1];
      var faults := ConsecutiveFaults(before, events[..|events| - 1], sensor);
      if e.sensor != sensor then faults
      else if e.Reading? && e.status == 0 then faults + 1
      else 0
  }

  /** The fault counter is the number of faults since the sensor's last healthy reading or expiry. */
  lemma {:induction false} CounterCountsFaults(fleet: Fleet, r: Redis, events: seq<Event>, sensor: string)
    requires Within(fleet, events)
    ensures Run(fleet, r, events).Faults(sensor) == ConsecutiveFaults(r.Faults(sensor), events, sensor)
    decreases |events|
  {
    if events != [] {
      CounterCountsFaults(fleet, r, events[..|events| - 1], sensor);
    }
  }
}
