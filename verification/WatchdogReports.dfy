/** What the watchdog reports about one snapshot: when, of which sensor, and which parameters. */
module WatchdogReports {
  import opened Wrappers
  import opened SilenceWatchdog

  /** The names at the given positions are exactly those whose value is present, in the order of the snapshot. */
  ghost predicate PresentAt(names: seq<string>, measurements: seq<(string, Option<real>)>, at: seq<nat>) {
    && |at| == |names| && Increasing(at, |measurements|)
    && (forall i | 0 <= i < |at| :: measurements[at[i]].0 == names[i])
    && (forall n: nat | n < |measurements| :: n in at <==> measurements[n].1.Some?)
  }

  lemma {:induction false} MeasuredArePresent(measurements: seq<(string, Option<real>)>) returns (at: seq<nat>)
    ensures PresentAt(Measured(measurements), measurements, at)
    decreases |measurements|
  {
    if measurements == [] {
      at := [];
    } else {
      var front, last := measurements[..|measurements| - 1], measurements[|measurements| - 1];
      var before := MeasuredArePresent(front);
      at := OneMoreMeasurement(Measured(front), front, last, before);
      assert measurements == front + [last];
    }
  }

  lemma OneMoreMeasurement(
    names: seq<string>, front: seq<(string, Option<real>)>, last: (string, Option<real>), before: seq<nat>)
    returns (at: seq<nat>)
    requires PresentAt(names, front, before)
    ensures PresentAt(names + if last.1.Some? then [last.0] else [], front + [last], at)
  {
    at := before + if last.1.Some? then [|front|] else [];
    assert forall n :: n in at <==> n in before || (last.1.Some? && n == |front|);
  }

  /** A name is reported exactly if the snapshot holds a value for it. */
  lemma ReportedIffMeasured(measurements: seq<(string, Option<real>)>, name: string)
    ensures name in Measured(measurements) <==> exists value: real :: (name, Some(value)) in measurements
  {
    var at := MeasuredArePresent(measurements);
    var names := Measured(measurements);
    if name in names {
      var i :| 0 <= i < |names| && names[i] == name;
      var n := at[i];
      assert n in at;
      var value := measurements[n].1.value;
      assert measurements[n] == (name, Some(value)) && (name, Some(value)) in measurements;
    }
    if value: real :| (name, Some(value)) in measurements {
      var n :| 0 <= n < |measurements| && measurements[n] == (name, Some(value));
      assert n in at;
      var i :| 0 <= i < |at| && at[i] == n;
      assert names[i] == name;
    }
  }

  /** The age of a snapshot counts from its ingestion; only one that does not say so counts from its own time. */
  ghost predicate TakenAt(f: Fetched, t: real) {
    f.Data? && (f.ingestedAt == Some(Aware(t)) || (f.ingestedAt.None? && f.ts == Some(Aware(t))))
  }

  ghost predicate OverAge(now: real, f: Fetched) {
    exists t: real :: TakenAt(f, t) && now - t > 180.0
  }

  /**
   A snapshot leads to a fault call exactly if it is over-age and names a sensor, an area and at least one measured
   parameter; the call is the only one, and is for that sensor and area and the parameters that have a value.
   */
  lemma ReportedCall(now: real, f: Fetched) returns (at: seq<nat>)
    ensures var calls := CallsFor(now, f);
            && (calls != [] <==>
                  && OverAge(now, f)
                  && f.sensorId.Some? && f.sensorId != Some("") && f.areaId.Some? && f.areaId != Some("")
                  && exists m <- f.measurements :: m.1.Some?)
            && (calls != [] ==>
                  && |calls| == 1 && Some(calls[0].sensor) == f.sensorId && Some(calls[0].area) == f.areaId
                  && PresentAt(calls[0].parameters, f.measurements, at))
  {
    at := [];
    if f.Data? {
      at := MeasuredArePresent(f.measurements);
      SomethingIsMeasured(f.measurements, at);
      if StampOf(f).Some? && StampOf(f).value.Aware? {
        assert TakenAt(f, StampOf(f).value.instant);
      }
    }
  }

  lemma SomethingIsMeasured(measurements: seq<(string, Option<real>)>, at: seq<nat>)
    requires PresentAt(Measured(measurements), measurements, at)
    ensures Measured(measurements) != [] <==> exists m <- measurements :: m.1.Some?
  {
    if Measured(measurements) != [] {
      assert at[0] in at && measurements[at[0]] in measurements;
    }
    if m :| m in measurements && m.1.Some? {
      var n :| 0 <= n < |measurements| && measurements[n] == m;
      assert n in at;
    }
  }

  /** As many parameters are reported as have a value. */
  lemma ReportedCount(measurements: seq<(string, Option<real>)>)
    ensures |Measured(measurements)| == |set n: nat | n < |measurements| && measurements[n].1.Some?|
  {
    var at := MeasuredArePresent(measurements);
    IncreasingHasSize(at, |measurements|);
    assert Elements(at) == set n: nat | n < |measurements| && measurements[n].1.Some?;
  }

  function Elements(at: seq<nat>): set<nat> {
    set n | n in at
  }

  lemma {:induction false} IncreasingHasSize(at: seq<nat>, length: nat)
    requires Increasing(at, length)
    ensures |Elements(at)| == |at|
    decreases |at|
  {
    if at == [] {
      assert Elements(at) == {};
    } else {
      var front, last := at[..|at| - 1], at[|at| - 1];
      LastIsNew(at, length);
      IncreasingHasSize(front, length);
      ElementsAppend(front, last);
      assert at == front + [last];
    }
  }

  lemma LastIsNew(at: seq<nat>, length: nat)
    requires Increasing(at, length) && at != []
    ensures Increasing(at[..|at| - 1], length) && at[|at| - 1] !in at[..|at| - 1]
  {
  }

  lemma ElementsAppend(front: seq<nat>, last: nat)
    ensures Elements(front + [last]) == Elements(front) + {last}
  {
  }
}
