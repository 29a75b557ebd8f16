/** Threshold evaluation of one telemetry message, and the trend of a short window of readings. */
module ThresholdEvaluator {
  import opened Wrappers
  import opened Alerts

  const TREND_WINDOW: nat := 5

  datatype AreaThreshold = AreaThreshold(
    parameter: string,
    warningLo: Option<real>, warningHi: Option<real>, criticalLo: Option<real>, criticalHi: Option<real>)

  /** A telemetry message; `measurements` are the fields that are present, in declaration order. */
  datatype Message = Message(
    sensorId: string, areaId: string, ts: string, status: int, measurements: seq<(string, real)>)

  function LastOf<T>(s: seq<T>, n: nat): (r: seq<T>)
    ensures |r| <= n && |r| <= |s|
  {
    if |s| <= n then s else s[|s| - n..]
  }

  function Abs(x: real): real {
    if x < 0.0 then -x else x
  }

  /** The change over the window exceeds 1 % of its oldest value. Multiplying out avoids the division. */
  function ComputeTrend(history: seq<real>, current: real): Trend {
    var window := LastOf(history + [current], TREND_WINDOW);
    if |window| < 2 then Stable else
      var oldest, newest := window[0], window[|window| - 1];
      var margin := 0.01 * Abs(oldest);
      if oldest == 0.0 then (if newest == 0.0 then Stable else Rising)
      else if newest - oldest > margin then Rising
      else if newest - oldest < -margin then Falling
      else Stable
  }

  /** The program's own test divides the change by the absolute oldest value. */
  lemma MarginIsRelativeChange(oldest: real, newest: real)
    requires oldest != 0.0
    ensures (newest - oldest) / Abs(oldest) > 0.01 <==> newest - oldest > 0.01 * Abs(oldest)
    ensures (newest - oldest) / Abs(oldest) < -0.01 <==> newest - oldest < -0.01 * Abs(oldest)
  {
    CompareRatio(newest - oldest, Abs(oldest), 0.01);
    CompareRatio(newest - oldest, Abs(oldest), -0.01);
  }

  lemma CompareRatio(change: real, scale: real, limit: real)
    requires 0.0 < scale
    ensures change / scale > limit <==> change > limit * scale
    ensures change / scale < limit <==> change < limit * scale
  {
    var ratio := change / scale;
    assert ratio * scale == change;
    assert (ratio - limit) * scale == ratio * scale - limit * scale;
  }

  /** Sensor readings are never negative; on them the trend is a plain comparison with a 1 % margin. */
  lemma TrendMeaning(history: seq<real>, current: real)
    requires history != [] && 0.0 <= current && forall x <- history :: 0.0 <= x
    ensures var oldest := LastOf(history + [current], TREND_WINDOW)[0];
            && (ComputeTrend(history, current) == Rising <==> current > 1.01 * oldest)
            && (ComputeTrend(history, current) == Falling <==> current < 0.99 * oldest)
  {
    var window := LastOf(history + [current], TREND_WINDOW);
    assert window[|window| - 1] == current;
    assert window[0] in history;
  }

  /** The severity and the bound crossed: upper bounds first, critical before warning. */
  function Crossing(t: AreaThreshold, value: real): Option<(Severity, real)> {
    if t.criticalHi.Some? && value > t.criticalHi.value then Some((High, t.criticalHi.value))
    else if t.warningHi.Some? && value > t.warningHi.value then Some((Medium, t.warningHi.value))
    else if t.criticalLo.Some? && value < t.criticalLo.value then Some((High, t.criticalLo.value))
    else if t.warningLo.Some? && value < t.warningLo.value then Some((Medium, t.warningLo.value))
    else None
  }

  /** The last threshold configured for a parameter. */
  function LastFor(thresholds: seq<AreaThreshold>, parameter: string): Option<AreaThreshold> {
    if thresholds == [] then None else
      var last := thresholds[|thresholds| - 1];
      if last.parameter == parameter then Some(last) else LastFor(thresholds[..|thresholds| - 1], parameter)
  }

  function HistoryOf(histories: map<string, seq<real>>, parameter: string): seq<real> {
    if parameter in histories then histories[parameter] else []
  }

  /** At most one alert for one measurement. */
  function AlertsFor(
    msg: Message, measurement: (string, real), thresholds: seq<AreaThreshold>, trend: Trend, id: nat): (alerts: seq<Alert>)
    ensures |alerts| <= 1
  {
    var (parameter, value) := measurement;
    match LastFor(thresholds, parameter)
    case None => []
    case Some(t) =>
      match Crossing(t, value)
      case None => []
      case Some((severity, bound)) =>
        [Alert(id, Threshold, severity, msg.areaId, msg.sensorId, parameter, Some(value), Some(bound), msg.ts,
               Context(None, Some(trend), None))]
  }

  /** The trend of each measurement against the history handed in for its parameter. */
  function Trends(msg: Message, histories: map<string, seq<real>>): (trends: seq<Trend>)
    ensures |trends| == |msg.measurements|
  {
    seq(|msg.measurements|, i requires 0 <= i < |msg.measurements| =>
      ComputeTrend(HistoryOf(histories, msg.measurements[i].0), msg.measurements[i].1))
  }

  /** The plain scan: the first `n` measurements in order, each against the last threshold configured for it. */
  function PlainScan(msg: Message, thresholds: seq<AreaThreshold>, trends: seq<Trend>, id: nat, n: nat): seq<Alert>
    requires n <= |msg.measurements| == |trends|
  {
    if n == 0 then [] else
      var before := PlainScan(msg, thresholds, trends, id, n - 1);
      before + AlertsFor(msg, msg.measurements[n - 1], thresholds, trends[n - 1], id + |before|)
  }

  /** These are the alerts of the first `n` measurements. */
  ghost predicate Scanned(
    msg: Message, thresholds: seq<AreaThreshold>, histories: map<string, seq<real>>, id: nat, n: nat, alerts: seq<Alert>)
    requires n <= |msg.measurements|
  {
    alerts == PlainScan(msg, thresholds, Trends(msg, histories), id, n)
  }

  lemma ScanGrows(
    msg: Message, thresholds: seq<AreaThreshold>, histories: map<string, seq<real>>, id: nat, i: nat,
    alerts: seq<Alert>, raised: seq<Alert>)
    requires i < |msg.measurements| && Scanned(msg, thresholds, histories, id, i, alerts)
    requires var (parameter, value) := msg.measurements[i];
             raised == AlertsFor(msg, msg.measurements[i], thresholds, ComputeTrend(HistoryOf(histories, parameter), value),
                                 id + |alerts|)
    ensures Scanned(msg, thresholds, histories, id, i + 1, alerts + raised)
  {
  }

  lemma {:induction false} NoThresholdsNoAlerts(msg: Message, trends: seq<Trend>, id: nat, n: nat)
    requires n <= |msg.measurements| == |trends|
    ensures PlainScan(msg, [], trends, id, n) == []
  {
    if n > 0 {
      NoThresholdsNoAlerts(msg, trends, id, n - 1);
    }
  }

  predicate Indexed(thresholds: seq<AreaThreshold>, byParameter: map<string, AreaThreshold>, parameter: string) {
    LastFor(thresholds, parameter) == if parameter in byParameter then Some(byParameter[parameter]) else None
  }

  method IndexByParameter(thresholds: seq<AreaThreshold>) returns (byParameter: map<string, AreaThreshold>)
    ensures forall p: string :: Indexed(thresholds, byParameter, p)
  {
    byParameter := map[];
    for i := 0 to |thresholds|
      invariant forall p: string :: Indexed(thresholds[..i], byParameter, p)
    {
      assert thresholds[..i + 1][..i] == thresholds[..i];
      ghost var before, seen := byParameter, thresholds[..i + 1];
      byParameter := byParameter[thresholds[i].parameter := thresholds[i]];
      forall p: string ensures Indexed(seen, byParameter, p) {
        assert Indexed(thresholds[..i], before, p);
      }
    }
    assert thresholds[..|thresholds|] == thresholds;
  }

  method EvaluateMeasurement(
    msg: Message, measurement: (string, real), byParameter: map<string, AreaThreshold>,
    histories: map<string, seq<real>>, id: nat, ghost thresholds: seq<AreaThreshold>)
    returns (alerts: seq<Alert>)
    requires Indexed(thresholds, byParameter, measurement.0)
    ensures alerts
         == AlertsFor(msg, measurement, thresholds, ComputeTrend(HistoryOf(histories, measurement.0), measurement.1), id)
  {
    var (parameter, value) := measurement;
    if parameter !in byParameter {
      return [];
    }
    var t := byParameter[parameter];
    var severity: Option<Severity> := None;
    var crossed := 0.0;
    if t.criticalHi.Some? && value > t.criticalHi.value {
      severity, crossed := Some(High), t.criticalHi.value;
    } else if t.warningHi.Some? && value > t.warningHi.value {
      severity, crossed := Some(Medium), t.warningHi.value;
    } else if t.criticalLo.Some? && value < t.criticalLo.value {
      severity, crossed := Some(High), t.criticalLo.value;
    } else if t.warningLo.Some? && value < t.warningLo.value {
      severity, crossed := Some(Medium), t.warningLo.value;
    }
    if severity.None? {
      return [];
    }
    var trend := ComputeTrend(HistoryOf(histories, parameter), value);
    alerts := [Alert(id, Threshold, severity.value, msg.areaId, msg.sensorId, parameter, Some(value), Some(crossed),
                     msg.ts, Context(None, Some(trend), None))];
  }

  method EvaluateThresholds(
    msg: Message, thresholds: seq<AreaThreshold>, histories: map<string, seq<real>>, firstId: nat)
    returns (alerts: seq<Alert>)
    ensures alerts == PlainScan(msg, thresholds, Trends(msg, histories), firstId, |msg.measurements|)
  {
    alerts := [];
    if thresholds == [] {
      NoThresholdsNoAlerts(msg, Trends(msg, histories), firstId, |msg.measurements|);
      return;
    }
    var byParameter := IndexByParameter(thresholds);
    for i := 0 to |msg.measurements|
      invariant Scanned(msg, thresholds, histories, firstId, i, alerts)
    {
      assert Indexed(thresholds, byParameter, msg.measurements[i].0);
      var raised := EvaluateMeasurement(msg, msg.measurements[i], byParameter, histories, firstId + |alerts|, thresholds);
      ScanGrows(msg, thresholds, histories, firstId, i, alerts, raised);
      alerts := alerts + raised;
    }
  }

  /// ## How severity depends on the value

  function Rank(t: AreaThreshold, value: real): nat {
    match Crossing(t, value)
    case None => 0
    case Some((Medium, _)) => 1
    case Some(_) => 2
  }

  /**
   For every configuration, sensible or not, severity is a valley: a value between two
   others is never graded worse than both of them.
   */
  lemma SeverityIsAValley(t: AreaThreshold, x: real, y: real, z: real)
    requires x <= y <= z
    ensures Rank(t, y) <= Max(Rank(t, x), Rank(t, z))
  {
  }

  /** Moving away from any value that raises no alert, in either direction, never lowers severity. */
  lemma SeverityGrowsAwayFromSafety(t: AreaThreshold, safe: real, near: real, far: real)
    requires Crossing(t, safe).None?
    requires safe <= near <= far || far <= near <= safe
    ensures Rank(t, near) <= Rank(t, far)
  {
  }

  /** Of the bounds that are set: critical_lo <= warning_lo <= warning_hi <= critical_hi. */
  predicate Ordered(t: AreaThreshold) {
    && InOrder(t.criticalLo, t.warningLo) && InOrder(t.warningLo, t.warningHi) && InOrder(t.warningHi, t.criticalHi)
    && InOrder(t.criticalLo, t.warningHi) && InOrder(t.criticalLo, t.criticalHi) && InOrder(t.warningLo, t.criticalHi)
  }

  predicate InOrder(a: Option<real>, b: Option<real>) {
    a.Some? && b.Some? ==> a.value <= b.value
  }

  /** Ordered bounds leave a safe value, so severity grows away from the safe band on both sides. */
  lemma OrderedBoundsHaveSafeBand(t: AreaThreshold) returns (safe: real)
    requires Ordered(t)
    ensures Crossing(t, safe).None?
  {
    safe :=
      if t.warningLo.Some? then t.warningLo.value
      else if t.criticalLo.Some? then t.criticalLo.value
      else if t.warningHi.Some? then t.warningHi.value
      else if t.criticalHi.Some? then t.criticalHi.value
      else 0.0;
  }

  predicate BeyondCritical(t: AreaThreshold, value: real) {
    (t.criticalHi.Some? && value > t.criticalHi.value) || (t.criticalLo.Some? && value < t.criticalLo.value)
  }

  /** The upper warning is tested before the lower critical bound; this is when that can hide a critical value. */
  predicate WarningHidesCritical(t: AreaThreshold) {
    && t.warningHi.Some? && t.criticalLo.Some? && t.warningHi.value < t.criticalLo.value
    && (t.criticalHi.Some? ==> t.warningHi.value < t.criticalHi.value)
  }

  /** Every value beyond a critical bound is graded high if and only if no warning hides it. */
  lemma CriticalIsHighIff(t: AreaThreshold)
    ensures (forall value: real :: BeyondCritical(t, value) <==> Rank(t, value) == 2) <==> !WarningHidesCritical(t)
  {
    if WarningHidesCritical(t) {
      var top := if t.criticalHi.Some? && t.criticalHi.value < t.criticalLo.value then t.criticalHi.value else t.criticalLo.value;
      var hidden := (t.warningHi.value + top) / 2.0;
      assert BeyondCritical(t, hidden) && Rank(t, hidden) == 1;
    }
  }
}
