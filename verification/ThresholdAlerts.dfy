/** What threshold alerts say, field by field, and what a trend means on every history. */
module ThresholdAlerts {
  import opened Wrappers
  import opened Alerts
  import opened ThresholdEvaluator

  /// ## The threshold in force

  /** The threshold is configured for the parameter, and none after it is. */
  ghost predicate InForce(thresholds: seq<AreaThreshold>, parameter: string, t: AreaThreshold) {
    exists i | 0 <= i < |thresholds| ::
      && thresholds[i] == t && t.parameter == parameter
      && forall j | i < j < |thresholds| :: thresholds[j].parameter != parameter
  }

  lemma {:induction false} LastIsInForce(thresholds: seq<AreaThreshold>, parameter: string)
    ensures LastFor(thresholds, parameter).Some? <==> exists t <- thresholds :: t.parameter == parameter
    ensures LastFor(thresholds, parameter).Some? ==> InForce(thresholds, parameter, LastFor(thresholds, parameter).value)
    decreases |thresholds|
  {
    if thresholds != [] {
      var n := |thresholds| - 1;
      var front := thresholds[..n];
      if thresholds[n].parameter == parameter {
        assert InForce(thresholds, parameter, thresholds[n]);
      } else {
        LastIsInForce(front, parameter);
        assert thresholds == front + [thresholds[n]];
        if LastFor(front, parameter).Some? {
          var i :| 0 <= i < n && front[i] == LastFor(front, parameter).value
                   && forall j | i < j < n :: front[j].parameter != parameter;
          assert thresholds[i] == front[i];
        }
      }
    }
  }

  lemma InForceIsOne(thresholds: seq<AreaThreshold>, parameter: string, t: AreaThreshold, u: AreaThreshold)
    requires InForce(thresholds, parameter, t) && InForce(thresholds, parameter, u)
    ensures t == u
  {
  }

  /// ## The bound crossed

  ghost predicate AboveBound(bound: Option<real>, value: real) {
    bound.Some? && value > bound.value
  }

  ghost predicate BelowBound(bound: Option<real>, value: real) {
    bound.Some? && value < bound.value
  }

  ghost predicate BeyondSome(t: AreaThreshold, value: real) {
    || AboveBound(t.criticalHi, value) || AboveBound(t.warningHi, value)
    || BelowBound(t.criticalLo, value) || BelowBound(t.warningLo, value)
  }

  /**
   The value lies beyond `bound`, which is a critical bound for high and a warning bound for medium severity. Upper
   bounds are tested before lower ones, and on each side the critical one first.
   */
  ghost predicate Crosses(t: AreaThreshold, value: real, severity: Severity, bound: real) {
    var critical, upper := severity == High, value > bound;
    && (critical || severity == Medium)
    && (if upper then Some(bound) == (if critical then t.criticalHi else t.warningHi)
        else value < bound && Some(bound) == (if critical then t.criticalLo else t.warningLo))
    && (upper <==> AboveBound(t.criticalHi, value) || AboveBound(t.warningHi, value))
    && (upper ==> (critical <==> AboveBound(t.criticalHi, value)))
    && (!upper ==> (critical <==> BelowBound(t.criticalLo, value)))
  }

  lemma CrossingMeans(t: AreaThreshold, value: real)
    ensures Crossing(t, value).Some? <==> BeyondSome(t, value)
    ensures Crossing(t, value).Some? ==> Crosses(t, value, Crossing(t, value).value.0, Crossing(t, value).value.1)
  {
  }

  /// ## The alerts of one message

  /** The parameter has a threshold in force, and the value lies beyond one of its bounds. */
  ghost predicate Exceeds(thresholds: seq<AreaThreshold>, measurement: (string, real)) {
    exists t :: InForce(thresholds, measurement.0, t) && BeyondSome(t, measurement.1)
  }

  /** The alert that reports one measurement of the message. */
  ghost predicate TellsCrossing(
    alert: Alert, id: nat, msg: Message, measurement: (string, real), thresholds: seq<AreaThreshold>, trend: Trend)
  {
    && alert.id == id && alert.kind == Threshold
    && alert.area == msg.areaId && alert.sensor == msg.sensorId && alert.tsEvent == msg.ts
    && alert.parameter == measurement.0 && alert.value == Some(measurement.1)
    && alert.context.trend == Some(trend)
    && alert.context.redundancyRemaining.None? && alert.context.originatingAlertId.None?
    && exists t :: InForce(thresholds, measurement.0, t) && alert.threshold.Some?
                   && Crosses(t, measurement.1, alert.severity, alert.threshold.value)
  }

  lemma OneMeasurementTells(
    msg: Message, measurement: (string, real), thresholds: seq<AreaThreshold>, trend: Trend, id: nat)
    ensures var alerts := AlertsFor(msg, measurement, thresholds, trend, id);
            && (alerts != [] <==> Exceeds(thresholds, measurement))
            && (alerts != [] ==> TellsCrossing(alerts[0], id, msg, measurement, thresholds, trend))
  {
    var (parameter, value) := measurement;
    LastIsInForce(thresholds, parameter);
    if LastFor(thresholds, parameter).Some? {
      var t := LastFor(thresholds, parameter).value;
      CrossingMeans(t, value);
      forall u | InForce(thresholds, parameter, u) ensures u == t {
        InForceIsOne(thresholds, parameter, t, u);
      }
    }
  }

  /** Alert `j` reports measurement `at[j]`, in the order of the message; every measurement that exceeds is reported. */
  ghost predicate AllTellCrossing(
    alerts: seq<Alert>, at: seq<nat>, id: nat, msg: Message, thresholds: seq<AreaThreshold>, trends: seq<Trend>, n: nat)
    requires n <= |msg.measurements| == |trends|
  {
    && |at| == |alerts| && Increasing(at, n)
    && (forall j | 0 <= j < |alerts| ::
          TellsCrossing(alerts[j], id + j, msg, msg.measurements[at[j]], thresholds, trends[at[j]]))
    && (forall i: nat | i < n :: i in at <==> Exceeds(thresholds, msg.measurements[i]))
  }

  lemma {:induction false} ScanTells(msg: Message, thresholds: seq<AreaThreshold>, trends: seq<Trend>, id: nat, n: nat)
    returns (at: seq<nat>)
    requires n <= |msg.measurements| == |trends|
    ensures AllTellCrossing(PlainScan(msg, thresholds, trends, id, n), at, id, msg, thresholds, trends, n)
  {
    if n == 0 {
      at := [];
    } else {
      var alerts := PlainScan(msg, thresholds, trends, id, n - 1);
      var before := ScanTells(msg, thresholds, trends, id, n - 1);
      OneMeasurementTells(msg, msg.measurements[n - 1], thresholds, trends[n - 1], id + |alerts|);
      at := OneMoreTells(alerts, AlertsFor(msg, msg.measurements[n - 1], thresholds, trends[n - 1], id + |alerts|),
                         before, id, msg, thresholds, trends, n);
    }
  }

  lemma OneMoreTells(
    alerts: seq<Alert>, added: seq<Alert>, before: seq<nat>, id: nat, msg: Message, thresholds: seq<AreaThreshold>,
    trends: seq<Trend>, n: nat)
    returns (at: seq<nat>)
    requires 0 < n <= |msg.measurements| == |trends| && |added| <= 1
    requires AllTellCrossing(alerts, before, id, msg, thresholds, trends, n - 1)
    requires added != [] <==> Exceeds(thresholds, msg.measurements[n - 1])
    requires added != [] ==>
               TellsCrossing(added[0], id + |alerts|, msg, msg.measurements[n - 1], thresholds, trends[n - 1])
    ensures AllTellCrossing(alerts + added, at, id, msg, thresholds, trends, n)
  {
    at := before + if added == [] then [] else [n - 1];
    assert forall i :: i in at <==> i in before || (added != [] && i == n - 1);
  }

  /**
   The alerts that evaluation returns report exactly the measurements beyond a bound of the threshold in force for
   them, once each and in order, with the value, the bound and the severity that belongs to it, and the trend.
   */
  lemma ThresholdAlertsTell(
    msg: Message, thresholds: seq<AreaThreshold>, histories: map<string, seq<real>>, id: nat) returns (at: seq<nat>)
    ensures AllTellCrossing(PlainScan(msg, thresholds, Trends(msg, histories), id, |msg.measurements|), at, id, msg,
                            thresholds, Trends(msg, histories), |msg.measurements|)
  {
    at := ScanTells(msg, thresholds, Trends(msg, histories), id, |msg.measurements|);
  }

  /// ## Trends

  /** The value the trend compares with: the oldest of the last five, the current one included. */
  function Oldest(all: seq<real>): real
    requires all != []
  {
    if |all| <= 5 then all[0] else all[|all| - 5]
  }

  function Magnitude(x: real): real {
    if x < 0.0 then -x else x
  }

  /**
   On every history: a single value is stable; any change from 0 counts as rising; otherwise the trend is whether the
   relative change exceeds 1 % upwards or downwards.
   */
  lemma TrendIsRelativeChange(history: seq<real>, current: real)
    ensures var trend, oldest := ComputeTrend(history, current), Oldest(history + [current]);
            if history == [] then trend == Stable
            else if oldest == 0.0 then trend == if current == 0.0 then Stable else Rising
            else
              && (trend == Rising <==> (current - oldest) / Magnitude(oldest) > 0.01)
              && (trend == Falling <==> (current - oldest) / Magnitude(oldest) < -0.01)
  {
    var all := history + [current];
    var window := LastOf(all, TREND_WINDOW);
    assert window == if |all| <= 5 then all else all[|all| - 5..];
    assert window[0] == Oldest(all) && window[|window| - 1] == current;
    if Oldest(all) != 0.0 {
      MarginIsRelativeChange(Oldest(all), current);
    }
  }
}
