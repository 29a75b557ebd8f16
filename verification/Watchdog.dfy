/** The silence watchdog: what one scan does to the tracker, and when it is sure to see a silent sensor. */
module SilenceWatchdog {
  import opened Wrappers
  import opened Redundancy
  import opened TrackerRuns

  const SILENCE_TIMEOUT_S := 180.0
  const RULE_ENGINE_TTL_S := 2.0 * SILENCE_TIMEOUT_S
  const HOT_STATE_TTL_S := 120.0
  const FAULT_COUNT_TTL_S := 3600.0

  /** A timestamp text: subtracting one without an offset from `now` raises. */
  datatype Stamp = Aware(instant: real) | Naive | Unreadable

  /** What GET returns for one key of the scan. */
  datatype Fetched =
    | Missing
    | NotJson
    | NotObject  // JSON, but a list, text or number
    | Data(ingestedAt: Option<Stamp>, ts: Option<Stamp>, sensorId: Option<string>, areaId: Option<string>,
           measurements: seq<(string, Option<real>)>)

  datatype Call = Call(sensor: string, area: string, parameters: seq<string>)

  function StampOf(f: Fetched): Option<Stamp>
    requires f.Data?
  {
    if f.ingestedAt.Some? then f.ingestedAt else f.ts
  }

  function Measured(measurements: seq<(string, Option<real>)>): seq<string> {
    if measurements == [] then [] else
      Measured(measurements[..|measurements| - 1]) +
      var last := measurements[|measurements| - 1];
      if last.1.Some? then [last.0] else []
  }

  /** JSON that is no object, or a timestamp without an offset, ends the whole scan with an exception. */
  predicate Aborts(f: Fetched) {
    f.NotObject? || (f.Data? && StampOf(f) == Some(Naive))
  }

  /** The tracker calls, at most one, made for one key. */
  function CallsFor(now: real, f: Fetched): seq<Call> {
    if f.Data? && StampOf(f).Some? && StampOf(f).value.Aware?
       && now - StampOf(f).value.instant > SILENCE_TIMEOUT_S
       && f.sensorId.Some? && f.sensorId.value != "" && f.areaId.Some? && f.areaId.value != ""
       && Measured(f.measurements) != []
    then [Call(f.sensorId.value, f.areaId.value, Measured(f.measurements))]
    else []
  }

  /** One of the first `n` keys of a page raises. */
  predicate Raises(keys: seq<Fetched>, n: nat)
    requires n <= |keys|
  {
    n > 0 && (Raises(keys, n - 1) || Aborts(keys[n - 1]))
  }

  /** The tracker calls made for the first `n` keys of a page: none after a key that raises. */
  function PageCalls(now: real, keys: seq<Fetched>, n: nat): seq<Call>
    requires n <= |keys|
  {
    if n == 0 then [] else
      PageCalls(now, keys, n - 1) + if Raises(keys, n) then [] else CallsFor(now, keys[n - 1])
  }

  /** One of the first `n` pages raises. */
  predicate ScanRaises(pages: seq<seq<Fetched>>, n: nat)
    requires n <= |pages|
  {
    n > 0 && (ScanRaises(pages, n - 1) || Raises(pages[n - 1], |pages[n - 1]|))
  }

  /** The tracker calls of the first `n` pages of a scan: none after a page that raises. */
  function ScanCalls(now: real, pages: seq<seq<Fetched>>, n: nat): seq<Call>
    requires n <= |pages|
  {
    if n == 0 then [] else
      ScanCalls(now, pages, n - 1) +
      if ScanRaises(pages, n - 1) then [] else PageCalls(now, pages[n - 1], |pages[n - 1]|)
  }

  lemma {:induction false} NoCallsAfterRaise(now: real, keys: seq<Fetched>, n: nat, m: nat)
    requires n <= m <= |keys| && Raises(keys, n)
    ensures Raises(keys, m) && PageCalls(now, keys, m) == PageCalls(now, keys, n)
  {
    if n < m {
      NoCallsAfterRaise(now, keys, n, m - 1);
    }
  }

  lemma {:induction false} NoPagesAfterRaise(now: real, pages: seq<seq<Fetched>>, n: nat, m: nat)
    requires n <= m <= |pages| && ScanRaises(pages, n)
    ensures ScanRaises(pages, m) && ScanCalls(now, pages, m) == ScanCalls(now, pages, n)
  {
    if n < m {
      NoPagesAfterRaise(now, pages, n, m - 1);
    }
  }

  function AfterCalls(r: Redis, calls: seq<Call>): Redis {
    if calls == [] then r else
      var c := calls[|calls| - 1];
      AfterReading(AfterCalls(r, calls[..|calls| - 1]), c.sensor, c.area, c.parameters, 0, "", 0).redis
  }

  class SensorWatchdog {
    const tracker: RedundancyTracker

    constructor (tracker: RedundancyTracker)
      ensures this.tracker == tracker
    {
      this.tracker := tracker;
    }

    /** One key of a scan: a sensor that is over-age is reported to the tracker, whose alerts are dropped. */
    method CheckKey(now: real, f: Fetched) returns (silent: nat, raised: bool)
      modifies tracker
      ensures tracker.State() == AfterCalls(old(tracker.State()), CallsFor(now, f))
      ensures silent == |CallsFor(now, f)| && raised == Aborts(f)
    {
      silent, raised := 0, false;
      if f.Missing? || f.NotJson? {
        return;
      }
      if f.NotObject? {
        raised := true;
        return;
      }
      if StampOf(f).None? || StampOf(f).value.Unreadable? {
        return;
      }
      if StampOf(f).value.Naive? {
        raised := true;
        return;
      }
      if now - StampOf(f).value.instant > SILENCE_TIMEOUT_S {
        var parameters := Measured(f.measurements);
        if f.sensorId.Some? && f.sensorId.value != "" && f.areaId.Some? && f.areaId.value != "" && parameters != [] {
          var _ := tracker.OnSensorReading(f.sensorId.value, f.areaId.value, parameters, 0, "", 0);
          silent := 1;
        }
      }
    }

    /** The keys of one reply of SCAN, in order, up to the first that raises. */
    method CheckPage(now: real, keys: seq<Fetched>) returns (silentCount: nat, raised: bool)
      modifies tracker
      ensures tracker.State() == AfterCalls(old(tracker.State()), PageCalls(now, keys, |keys|))
      ensures silentCount == |PageCalls(now, keys, |keys|)|
      ensures raised == Raises(keys, |keys|)
    {
      silentCount, raised := 0, false;
      ghost var r := tracker.State();
      var i := 0;
      while i < |keys|
        invariant 0 <= i <= |keys| && !Raises(keys, i) && !raised
        invariant silentCount == |PageCalls(now, keys, i)| && tracker.State() == AfterCalls(r, PageCalls(now, keys, i))
      {
        var silent;
        silent, raised := CheckKey(now, keys[i]);
        if raised {
          PageStops(now, keys, i);
          return;
        }
        PageGoesOn(now, keys, i, r);
        silentCount := silentCount + silent;
        i := i + 1;
      }
    }

    /** One scan: SCAN is repeated with the cursor it returned until the cursor is 0. */
    method Scan(now: real, pages: seq<seq<Fetched>>) returns (silentCount: nat)
      modifies tracker
      ensures tracker.State() == AfterCalls(old(tracker.State()), ScanCalls(now, pages, |pages|))
      ensures silentCount == |ScanCalls(now, pages, |pages|)|
    {
      silentCount := 0;
      ghost var r := tracker.State();
      var cursor := 0;
      while cursor < |pages|
        invariant 0 <= cursor <= |pages| && !ScanRaises(pages, cursor)
        invariant silentCount == |ScanCalls(now, pages, cursor)|
        invariant tracker.State() == AfterCalls(r, ScanCalls(now, pages, cursor))
      {
        ScanGoesOn(now, pages, cursor, r);
        var silent, raised := CheckPage(now, pages[cursor]);
        silentCount := silentCount + silent;
        cursor := cursor + 1;
        if raised {
          NoPagesAfterRaise(now, pages, cursor, |pages|);
          return;
        }
      }
    }
  }

  lemma PageStops(now: real, keys: seq<Fetched>, i: nat)
    requires i < |keys| && Aborts(keys[i])
    ensures Raises(keys, |keys|) && PageCalls(now, keys, |keys|) == PageCalls(now, keys, i)
  {
    assert PageCalls(now, keys, i + 1) == PageCalls(now, keys, i);
    NoCallsAfterRaise(now, keys, i + 1, |keys|);
  }

  lemma PageGoesOn(now: real, keys: seq<Fetched>, i: nat, r: Redis)
    requires i < |keys| && !Aborts(keys[i]) && !Raises(keys, i)
    ensures !Raises(keys, i + 1)
    ensures |PageCalls(now, keys, i + 1)| == |PageCalls(now, keys, i)| + |CallsFor(now, keys[i])|
    ensures AfterCalls(r, PageCalls(now, keys, i + 1)) == AfterCalls(AfterCalls(r, PageCalls(now, keys, i)), CallsFor(now, keys[i]))
  {
    AfterCallsAppend(r, PageCalls(now, keys, i), CallsFor(now, keys[i]));
  }

  lemma ScanGoesOn(now: real, pages: seq<seq<Fetched>>, i: nat, r: Redis)
    requires i < |pages| && !ScanRaises(pages, i)
    ensures var page := PageCalls(now, pages[i], |pages[i]|);
            && |ScanCalls(now, pages, i + 1)| == |ScanCalls(now, pages, i)| + |page|
            && AfterCalls(r, ScanCalls(now, pages, i + 1)) == AfterCalls(AfterCalls(r, ScanCalls(now, pages, i)), page)
  {
    AfterCallsAppend(r, ScanCalls(now, pages, i), PageCalls(now, pages[i], |pages[i]|));
  }

  lemma {:induction false} AfterCallsAppend(r: Redis, made: seq<Call>, calls: seq<Call>)
    ensures AfterCalls(AfterCalls(r, made), calls) == AfterCalls(r, made + calls)
    decreases |calls|
  {
    if calls == [] {
      assert made + calls == made;
    } else {
      AfterCallsAppend(r, made, calls[..|calls| - 1]);
      assert (made + calls)[..|made + calls| - 1] == made + calls[..|calls| - 1];
    }
  }

  /// ## A silence is counted once

  ghost predicate Matches(fleet: Fleet, c: Call) {
    c.sensor in fleet && c.area == fleet[c.sensor].area && c.parameters == fleet[c.sensor].parameters
  }

  function EventsOf(calls: seq<Call>): seq<Event> {
    seq(|calls|, i requires 0 <= i < |calls| => Reading(calls[i].sensor, 0, "", 0))
  }

  /** What scans do to the tracker is a run of watchdog faults. */
  lemma {:induction false} CallsAreARun(fleet: Fleet, r: Redis, calls: seq<Call>)
    requires forall c <- calls :: Matches(fleet, c)
    ensures Within(fleet, EventsOf(calls))
    ensures AfterCalls(r, calls) == Run(fleet, r, EventsOf(calls))
    decreases |calls|
  {
    if calls != [] {
      var front := calls[..|calls| - 1];
      CallsAreARun(fleet, r, front);
      assert EventsOf(calls)[..|calls| - 1] == EventsOf(front);
      assert Matches(fleet, calls[|calls| - 1]);
    }
  }

  /** How often a sensor's own events decrement the count of `k`. */
  function LossesBy(fleet: Fleet, r: Redis, events: seq<Event>, sensor: string, k: CountKey): nat
    requires Within(fleet, events)
    decreases |events|
  {
    if events == [] then 0 else
      var last := |events| - 1;
      LossesBy(fleet, r, events[..last], sensor, k) +
      if events[last].sensor == sensor && EffectOn(fleet, Run(fleet, r, events[..last]), events[last], k) == Lost
      then 1 else 0
  }

  predicate IsReport(e: Event, sensor: string) {
    e.Reading? && e.sensor == sensor
  }

  /** The sensor sends no healthy reading. */
  ghost predicate StaysSilent(events: seq<Event>, sensor: string) {
    forall e <- events :: IsReport(e, sensor) ==> e.status == 0
  }

  ghost predicate Noticed(events: seq<Event>, sensor: string) {
    exists e <- events :: IsReport(e, sensor)
  }

  /** A report of the sensor, and later the expiry of its fault counter. */
  ghost predicate Forgets(events: seq<Event>, sensor: string) {
    exists i, j | 0 <= i < j < |events| :: IsReport(events[i], sensor) && events[j] == Expire(sensor)
  }

  /** No report comes after the fault counter of an earlier one has expired. */
  ghost predicate ForgetsLast(events: seq<Event>, sensor: string) {
    forall n | 0 <= n < |events| && IsReport(events[n], sensor) :: !Forgets(events[..n], sensor)
  }

  /**
   However often scans report a silent sensor, and whatever other sensors do meanwhile, each of
   its parameters is decremented exactly once, provided the silence was noticed at all.
   */
  lemma {:induction false} SilenceIsCountedOnce(fleet: Fleet, r: Redis, events: seq<Event>, sensor: string, k: CountKey)
    requires Within(fleet, events) && StaysSilent(events, sensor) && ForgetsLast(events, sensor)
    requires sensor in Covering(fleet, k) && r.Faults(sensor) == 0
    ensures LossesBy(fleet, r, events, sensor, k) == if Noticed(events, sensor) then 1 else 0
    ensures Run(fleet, r, events).Faults(sensor) != 0 <==> Noticed(events, sensor) && !Forgets(events, sensor)
    decreases |events|
  {
    if events != [] {
      var last := |events| - 1;
      forall n | 0 <= n < last && IsReport(events[..last][n], sensor) ensures !Forgets(events[..last][..n], sensor) {
        assert events[..last][..n] == events[..n];
      }
      SilenceIsCountedOnce(fleet, r, events[..last], sensor, k);
      NoticedStep(events, sensor);
      SilenceStep(fleet, Run(fleet, r, events[..last]), events[last], sensor, k);
    }
  }

  lemma SilenceStep(fleet: Fleet, r: Redis, e: Event, sensor: string, k: CountKey)
    requires e.sensor in fleet && sensor in Covering(fleet, k) && (IsReport(e, sensor) ==> e.status == 0)
    ensures e.sensor == sensor && EffectOn(fleet, r, e, k) == Lost <==> IsReport(e, sensor) && r.Faults(sensor) == 0
    ensures Apply(fleet, r, e).redis.Faults(sensor) != 0
            <==> IsReport(e, sensor) || (r.Faults(sensor) != 0 && e != Expire(sensor))
  {
  }

  lemma NoticedStep(events: seq<Event>, sensor: string)
    requires events != []
    ensures var front, e := events[..|events| - 1], events[|events| - 1];
            && (Noticed(events, sensor) <==> Noticed(front, sensor) || IsReport(e, sensor))
            && (Forgets(events, sensor) <==> Forgets(front, sensor) || (Noticed(front, sensor) && e == Expire(sensor)))
  {
    var front, e := events[..|events| - 1], events[|events| - 1];
    assert forall x :: x in events <==> x in front || x == e;
    if Forgets(front, sensor) {
      var i, j :| 0 <= i < j < |front| && IsReport(front[i], sensor) && front[j] == Expire(sensor);
      assert events[i] == front[i] && events[j] == front[j];
    }
    if Noticed(front, sensor) && e == Expire(sensor) {
      var x :| x in front && IsReport(x, sensor);
      var i :| 0 <= i < |front| && front[i] == x;
      assert IsReport(events[i], sensor) && events[|front|] == e;
    }
  }

  /// ## A silence is noticed

  /**
   A write of `sensor:{id}:latest`: when it was made, how long it lives, the ingestion time it carries, and
   what is read as long as it lives.
   */
  datatype Write = Write(at: real, ttl: real, ingestedAt: real, snapshot: Fetched)

  ghost predicate Present(w: Write, t: real) {
    w.at <= t < w.at + w.ttl
  }

  /** A scan reads the key of a sensor. */
  datatype Visit = Visit(key: string, at: real, reply: Fetched)

  /** One scan with its pages: what it reads, and when. */
  datatype ScanRun = ScanRun(start: real, end: real, pages: seq<seq<Visit>>)

  function Joined<T>(pages: seq<seq<T>>, n: nat): seq<T>
    requires n <= |pages|
  {
    if n == 0 then [] else Joined(pages, n - 1) + pages[n - 1]
  }

  function Visits(scan: ScanRun): seq<Visit> {
    Joined(scan.pages, |scan.pages|)
  }

  function Replies(visits: seq<Visit>): seq<Fetched> {
    seq(|visits|, i requires 0 <= i < |visits| => visits[i].reply)
  }

  function PageReplies(pages: seq<seq<Visit>>): seq<seq<Fetched>> {
    seq(|pages|, i requires 0 <= i < |pages| => Replies(pages[i]))
  }

  /** The tracker calls of a scan, and whether an exception ends it early. */
  function CallsOf(scan: ScanRun): seq<Call> {
    ScanCalls(scan.start, PageReplies(scan.pages), |scan.pages|)
  }

  predicate Aborted(scan: ScanRun) {
    ScanRaises(PageReplies(scan.pages), |scan.pages|)
  }

  lemma {:induction false} RaisesInFront(a: seq<Fetched>, b: seq<Fetched>, n: nat)
    requires n <= |a|
    ensures Raises(a + b, n) == Raises(a, n)
  {
    if n > 0 {
      RaisesInFront(a, b, n - 1);
    }
  }

  lemma {:induction false} PageCallsInFront(now: real, a: seq<Fetched>, b: seq<Fetched>, n: nat)
    requires n <= |a|
    ensures PageCalls(now, a + b, n) == PageCalls(now, a, n)
  {
    if n > 0 {
      PageCallsInFront(now, a, b, n - 1);
      RaisesInFront(a, b, n);
    }
  }

  lemma {:induction false} RaisesBehind(a: seq<Fetched>, b: seq<Fetched>, n: nat)
    requires n <= |b|
    ensures Raises(a + b, |a| + n) == (Raises(a, |a|) || Raises(b, n))
  {
    if n == 0 {
      RaisesInFront(a, b, |a|);
    } else {
      RaisesBehind(a, b, n - 1);
    }
  }

  lemma {:induction false} PageCallsBehind(now: real, a: seq<Fetched>, b: seq<Fetched>, n: nat)
    requires n <= |b|
    ensures PageCalls(now, a + b, |a| + n)
         == PageCalls(now, a, |a|) + if Raises(a, |a|) then [] else PageCalls(now, b, n)
  {
    if n == 0 {
      PageCallsInFront(now, a, b, |a|);
    } else {
      PageCallsBehind(now, a, b, n - 1);
      RaisesBehind(a, b, n);
      assert (a + b)[|a| + n - 1] == b[n - 1];
    }
  }

  /** How SCAN cuts the keys into pages plays no role. */
  lemma {:induction false} PagingIsIrrelevant(now: real, pages: seq<seq<Fetched>>, n: nat)
    requires n <= |pages|
    ensures var keys := Joined(pages, n);
            && ScanRaises(pages, n) == Raises(keys, |keys|)
            && ScanCalls(now, pages, n) == PageCalls(now, keys, |keys|)
  {
    if n > 0 {
      var front, page := Joined(pages, n - 1), pages[n - 1];
      PagingIsIrrelevant(now, pages, n - 1);
      PageCallsBehind(now, front, page, |page|);
      RaisesBehind(front, page, |page|);
      assert |front + page| == |front| + |page|;
      OnePageMore(now, pages, n);
    }
  }

  lemma OnePageMore(now: real, pages: seq<seq<Fetched>>, n: nat)
    requires 0 < n <= |pages|
    ensures Joined(pages, n) == Joined(pages, n - 1) + pages[n - 1]
    ensures ScanRaises(pages, n) == (ScanRaises(pages, n - 1) || Raises(pages[n - 1], |pages[n - 1]|))
    ensures ScanCalls(now, pages, n)
         == ScanCalls(now, pages, n - 1) +
            if ScanRaises(pages, n - 1) then [] else PageCalls(now, pages[n - 1], |pages[n - 1]|)
  {
  }

  lemma {:induction false} RepliesOfJoined(pages: seq<seq<Visit>>, n: nat)
    requires n <= |pages|
    ensures Joined(PageReplies(pages), n) == Replies(Joined(pages, n))
  {
    if n > 0 {
      RepliesOfJoined(pages, n - 1);
    }
  }

  lemma ScanIsItsVisits(scan: ScanRun)
    ensures var keys := Replies(Visits(scan));
            Aborted(scan) == Raises(keys, |keys|) && CallsOf(scan) == PageCalls(scan.start, keys, |keys|)
  {
    PagingIsIrrelevant(scan.start, PageReplies(scan.pages), |scan.pages|);
    RepliesOfJoined(scan.pages, |scan.pages|);
  }

  /**
   What is known of a scan, or of the rest of one under way when the key was written: it reads the write of the
   sensor while it lives and nothing after; other keys hold data of other sensors; and SCAN, if it gets to its
   end, returns a key at least once that is present all the time.
   */
  ghost predicate HonestScan(scan: ScanRun, sensor: string, w: Write) {
    && scan.start <= scan.end
    && (forall v <- Visits(scan) :: scan.start <= v.at <= scan.end && HonestVisit(v, sensor, w))
    && (!Aborted(scan) && Present(w, scan.start) && Present(w, scan.end) ==> exists v <- Visits(scan) :: v.key == sensor)
  }

  ghost predicate HonestVisit(v: Visit, sensor: string, w: Write) {
    && w.at <= v.at
    && if v.key == sensor then v.reply == if Present(w, v.at) then w.snapshot else Missing
       else v.reply.Data? ==> v.reply.sensorId != Some(sensor)
  }

  /** The visit at `i` meets the key of the sensor while it exists, and nothing has raised before. */
  ghost predicate Meets(visits: seq<Visit>, i: nat, sensor: string, w: Write)
    requires i < |visits|
  {
    visits[i].key == sensor && Present(w, visits[i].at) && !Raises(Replies(visits), i)
  }

  /** One of the first `n` visits meets the key. */
  ghost predicate MeetsBefore(visits: seq<Visit>, n: nat, sensor: string, w: Write)
    requires n <= |visits|
  {
    exists i | 0 <= i < n :: Meets(visits, i, sensor, w)
  }

  /** The scan reads the key while it exists and finds it older than the timeout. */
  ghost predicate Notices(scan: ScanRun, sensor: string, w: Write) {
    scan.start - w.ingestedAt > SILENCE_TIMEOUT_S && MeetsBefore(Visits(scan), |Visits(scan)|, sensor, w)
  }

  ghost predicate AnyNotices(scans: seq<ScanRun>, sensor: string, w: Write) {
    exists scan <- scans :: Notices(scan, sensor, w)
  }

  /** From when on a scan that starts later finds the sensor over-age. */
  function OverAgeFrom(w: Write): real {
    if w.ingestedAt + SILENCE_TIMEOUT_S < w.at then w.at else w.ingestedAt + SILENCE_TIMEOUT_S
  }

  ghost predicate AllHonest(scans: seq<ScanRun>, sensor: string, w: Write, duration: real) {
    forall scan <- scans :: HonestScan(scan, sensor, w) && scan.end - scan.start <= duration
  }

  /** Scans that follow each other closely, from when the sensor becomes over-age until its key is gone. */
  ghost predicate Schedule(scans: seq<ScanRun>, sensor: string, w: Write, gap: real, duration: real) {
    && scans != []
    && AllHonest(scans, sensor, w, duration)
    && (forall i | 0 < i < |scans| :: scans[i - 1].start <= scans[i].start <= scans[i - 1].start + gap)
    && scans[0].start <= OverAgeFrom(w) + gap
    && w.at + RULE_ENGINE_TTL_S <= scans[|scans| - 1].start
  }

  ghost predicate NoneAborted(scans: seq<ScanRun>) {
    forall scan <- scans :: !Aborted(scan)
  }

  /** The last telemetry record of the sensor was ingested, then processed by the rule engine, then nothing came. */
  ghost predicate LastWriteByRuleEngine(w: Write) {
    w.ttl == RULE_ENGINE_TTL_S && w.ingestedAt <= w.at
  }

  lemma {:induction false} FirstAfter(scans: seq<ScanRun>, t: real) returns (i: nat)
    requires scans != [] && t < scans[|scans| - 1].start
    ensures i < |scans| && t < scans[i].start && (i > 0 ==> scans[i - 1].start <= t)
    decreases |scans|
  {
    i := |scans| - 1;
    if i > 0 && scans[i - 1].start > t {
      i := FirstAfter(scans[..i], t);
    }
  }

  /** If no scan is cut short by an exception, the silence is noticed before the key expires. */
  lemma SilenceIsNoticed(scans: seq<ScanRun>, sensor: string, w: Write, gap: real, duration: real)
    requires LastWriteByRuleEngine(w) && Schedule(scans, sensor, w, gap, duration) && NoneAborted(scans)
    requires gap + duration < SILENCE_TIMEOUT_S
    ensures AnyNotices(scans, sensor, w)
  {
    var i := FirstAfter(scans, OverAgeFrom(w));
    var scan := scans[i];
    assert HonestScan(scan, sensor, w) && scan in scans;
    assert scan.end < w.at + w.ttl;
    MeetsPresentKey(scan, sensor, w);
    assert Notices(scan, sensor, w);
  }

  lemma MeetsPresentKey(scan: ScanRun, sensor: string, w: Write)
    requires HonestScan(scan, sensor, w) && !Aborted(scan) && Present(w, scan.start) && Present(w, scan.end)
    ensures MeetsBefore(Visits(scan), |Visits(scan)|, sensor, w)
  {
    var visits := Visits(scan);
    ScanIsItsVisits(scan);
    var v :| v in visits && v.key == sensor;
    var i :| 0 <= i < |visits| && visits[i] == v;
    if Raises(Replies(visits), i) {
      NoCallsAfterRaise(0.0, Replies(visits), i, |visits|);
    }
    assert HonestVisit(v, sensor, w);
    assert Meets(visits, i, sensor, w);
  }

  /// ## From a silence to one decrement

  /** The write is the snapshot of a sensor of the fleet. */
  ghost predicate Describes(w: Write, fleet: Fleet, sensor: string) {
    var f := w.snapshot;
    && f.Data? && StampOf(f) == Some(Aware(w.ingestedAt))
    && sensor in fleet && sensor != "" && f.sensorId == Some(sensor)
    && fleet[sensor].area != "" && f.areaId == Some(fleet[sensor].area)
    && Measured(f.measurements) == fleet[sensor].parameters != []
  }

  function CallsAbout(calls: seq<Call>, sensor: string): seq<Call> {
    if calls == [] then [] else
      var last := calls[|calls| - 1];
      CallsAbout(calls[..|calls| - 1], sensor) + if last.sensor == sensor then [last] else []
  }

  /** What scans report of one sensor. */
  function Reports(scans: seq<ScanRun>, sensor: string): seq<Call>
    decreases |scans|
  {
    if scans == [] then [] else
      Reports(scans[..|scans| - 1], sensor) + CallsAbout(CallsOf(scans[|scans| - 1]), sensor)
  }

  lemma {:induction false} CallsAboutAppend(a: seq<Call>, b: seq<Call>, sensor: string)
    ensures CallsAbout(a + b, sensor) == CallsAbout(a, sensor) + CallsAbout(b, sensor)
    decreases |b|
  {
    if b == [] {
      assert a + b == a;
    } else {
      CallsAboutAppend(a, b[..|b| - 1], sensor);
      assert (a + b)[..|a + b| - 1] == a + b[..|b| - 1];
    }
  }

  ghost predicate AllOwn(calls: seq<Call>, fleet: Fleet, sensor: string) {
    forall c <- calls :: c.sensor == sensor && Matches(fleet, c)
  }

  /** One visit reports the sensor exactly if it meets its key and the snapshot is over-age. */
  lemma VisitReports(fleet: Fleet, sensor: string, now: real, v: Visit, w: Write)
    requires Describes(w, fleet, sensor) && HonestVisit(v, sensor, w)
    ensures v.key == sensor ==> !Aborts(v.reply)
    ensures var own := CallsAbout(CallsFor(now, v.reply), sensor);
            && (own != [] <==> now - w.ingestedAt > SILENCE_TIMEOUT_S && v.key == sensor && Present(w, v.at))
            && AllOwn(own, fleet, sensor)
  {
    var calls := CallsFor(now, v.reply);
    if calls != [] {
      assert calls[..0] == [];
      assert CallsAbout(calls, sensor) == if calls[0].sensor == sensor then calls else [];
    }
  }

  /** The calls made at each key: none once a key has raised. */
  function CallsAt(now: real, keys: seq<Fetched>): seq<seq<Call>> {
    seq(|keys|, i requires 0 <= i < |keys| => if Raises(keys, i + 1) then [] else CallsFor(now, keys[i]))
  }

  lemma {:induction false} PageCallsAreJoined(now: real, keys: seq<Fetched>, n: nat)
    requires n <= |keys|
    ensures PageCalls(now, keys, n) == Joined(CallsAt(now, keys), n)
  {
    if n > 0 {
      PageCallsAreJoined(now, keys, n - 1);
      assert CallsAt(now, keys)[n - 1] == if Raises(keys, n) then [] else CallsFor(now, keys[n - 1]);
    }
  }

  /** From each of several lists, the calls about the sensor. */
  function AboutEach(lists: seq<seq<Call>>, sensor: string): seq<seq<Call>> {
    seq(|lists|, i requires 0 <= i < |lists| => CallsAbout(lists[i], sensor))
  }

  lemma {:induction false} AboutJoined(lists: seq<seq<Call>>, n: nat, sensor: string)
    requires n <= |lists|
    ensures CallsAbout(Joined(lists, n), sensor) == Joined(AboutEach(lists, sensor), n)
  {
    if n > 0 {
      AboutJoined(lists, n - 1, sensor);
      CallsAboutAppend(Joined(lists, n - 1), lists[n - 1], sensor);
    }
  }

  lemma {:induction false} JoinedHolds<T>(pages: seq<seq<T>>, n: nat)
    requires n <= |pages|
    ensures Joined(pages, n) != [] <==> exists i | 0 <= i < n :: pages[i] != []
    ensures forall x <- Joined(pages, n) :: exists i | 0 <= i < n :: x in pages[i]
  {
    if n > 0 {
      JoinedHolds(pages, n - 1);
    }
  }

  lemma VisitReportsAt(fleet: Fleet, sensor: string, now: real, visits: seq<Visit>, w: Write, i: nat)
    requires Describes(w, fleet, sensor) && i < |visits| && HonestVisit(visits[i], sensor, w)
    ensures var own := CallsAbout(CallsAt(now, Replies(visits))[i], sensor);
            && (own != [] <==> now - w.ingestedAt > SILENCE_TIMEOUT_S && Meets(visits, i, sensor, w))
            && AllOwn(own, fleet, sensor)
  {
    VisitReports(fleet, sensor, now, visits[i], w);
  }

  lemma VisitsReport(fleet: Fleet, sensor: string, now: real, visits: seq<Visit>, w: Write)
    requires Describes(w, fleet, sensor) && forall v <- visits :: HonestVisit(v, sensor, w)
    ensures var own := Joined(AboutEach(CallsAt(now, Replies(visits)), sensor), |visits|);
            && (own != [] <==> now - w.ingestedAt > SILENCE_TIMEOUT_S && MeetsBefore(visits, |visits|, sensor, w))
            && AllOwn(own, fleet, sensor)
  {
    var calls := AboutEach(CallsAt(now, Replies(visits)), sensor);
    forall i | 0 <= i < |visits|
      ensures calls[i] != [] <==> now - w.ingestedAt > SILENCE_TIMEOUT_S && Meets(visits, i, sensor, w)
      ensures AllOwn(calls[i], fleet, sensor)
    {
      VisitReportsAt(fleet, sensor, now, visits, w, i);
    }
    JoinedHolds(calls, |visits|);
  }

  lemma ScanReports(fleet: Fleet, sensor: string, scan: ScanRun, w: Write)
    requires Describes(w, fleet, sensor) && HonestScan(scan, sensor, w)
    ensures CallsAbout(CallsOf(scan), sensor) != [] <==> Notices(scan, sensor, w)
    ensures AllOwn(CallsAbout(CallsOf(scan), sensor), fleet, sensor)
  {
    ScanIsItsVisits(scan);
    VisitsReport(fleet, sensor, scan.start, Visits(scan), w);
    PageCallsAreJoined(scan.start, Replies(Visits(scan)), |Visits(scan)|);
    AboutJoined(CallsAt(scan.start, Replies(Visits(scan))), |Visits(scan)|, sensor);
  }

  /** Scans report a sensor exactly if one of them notices it, and they report nothing but its own parameters. */
  lemma {:induction false} ReportedIffNoticed(fleet: Fleet, sensor: string, scans: seq<ScanRun>, w: Write)
    requires Describes(w, fleet, sensor) && forall scan <- scans :: HonestScan(scan, sensor, w)
    ensures Reports(scans, sensor) != [] <==> AnyNotices(scans, sensor, w)
    ensures AllOwn(Reports(scans, sensor), fleet, sensor)
    decreases |scans|
  {
    if scans != [] {
      var front, scan := scans[..|scans| - 1], scans[|scans| - 1];
      ReportedIffNoticed(fleet, sensor, front, w);
      ScanReports(fleet, sensor, scan, w);
      AnyNoticesStep(scans, sensor, w);
    }
  }

  lemma AnyNoticesStep(scans: seq<ScanRun>, sensor: string, w: Write)
    requires scans != []
    ensures AnyNotices(scans, sensor, w)
            <==> AnyNotices(scans[..|scans| - 1], sensor, w) || Notices(scans[|scans| - 1], sensor, w)
  {
    var front, scan := scans[..|scans| - 1], scans[|scans| - 1];
    assert forall other :: other in scans <==> other in front || other == scan;
  }

  function ReportsIn(events: seq<Event>, sensor: string): seq<Event> {
    if events == [] then [] else
      var last := events[|events| - 1];
      ReportsIn(events[..|events| - 1], sensor) + if IsReport(last, sensor) then [last] else []
  }

  lemma {:induction false} ReportsInMembers(events: seq<Event>, sensor: string)
    ensures forall e :: e in ReportsIn(events, sensor) <==> e in events && IsReport(e, sensor)
  {
    if events != [] {
      ReportsInMembers(events[..|events| - 1], sensor);
      assert events == events[..|events| - 1] + [events[|events| - 1]];
    }
  }

  /** At time `t` one of the scans reads the key of the sensor and reports it. */
  ghost predicate ReportedAt(scans: seq<ScanRun>, sensor: string, t: real) {
    exists scan <- scans, v <- Visits(scan) :: v.key == sensor && v.at == t && CallsFor(scan.start, v.reply) != []
  }

  /**
   When the events happen: in order, reports of the sensor when a scan reads its key, and the expiry of its fault
   counter no sooner than 3600 s after each report before, since every report renews it.
   */
  ghost predicate Chronicle(events: seq<Event>, times: seq<real>, scans: seq<ScanRun>, sensor: string) {
    && |times| == |events|
    && (forall i, j | 0 <= i < j < |times| :: times[i] <= times[j])
    && (forall i | 0 <= i < |events| && IsReport(events[i], sensor) :: ReportedAt(scans, sensor, times[i]))
    && (forall i, j | 0 <= i < j < |events| && IsReport(events[i], sensor) && events[j] == Expire(sensor) ::
          times[i] + FAULT_COUNT_TTL_S <= times[j])
  }

  /** The fault counter outlives the snapshot, so it expires only after the last report. */
  lemma CounterOutlivesReports(
    fleet: Fleet, events: seq<Event>, times: seq<real>, scans: seq<ScanRun>, sensor: string, w: Write)
    requires Describes(w, fleet, sensor) && w.ttl <= FAULT_COUNT_TTL_S
    requires forall scan <- scans :: HonestScan(scan, sensor, w)
    requires Chronicle(events, times, scans, sensor)
    ensures ForgetsLast(events, sensor)
  {
    ReportsComeWhilePresent(fleet, events, times, scans, sensor, w);
    forall n | 0 <= n < |events| && IsReport(events[n], sensor) ensures !Forgets(events[..n], sensor) {
      assert Present(w, times[n]);
    }
  }

  lemma ReportsComeWhilePresent(
    fleet: Fleet, events: seq<Event>, times: seq<real>, scans: seq<ScanRun>, sensor: string, w: Write)
    requires Describes(w, fleet, sensor) && forall scan <- scans :: HonestScan(scan, sensor, w)
    requires Chronicle(events, times, scans, sensor)
    ensures forall n | 0 <= n < |events| && IsReport(events[n], sensor) :: Present(w, times[n])
  {
    forall n | 0 <= n < |events| && IsReport(events[n], sensor) ensures Present(w, times[n]) {
      assert ReportedAt(scans, sensor, times[n]);
      var scan, v :| scan in scans && v in Visits(scan) && v.key == sensor && v.at == times[n]
                     && CallsFor(scan.start, v.reply) != [];
      assert HonestVisit(v, sensor, w);
    }
  }

  /**
   Among whatever other sensors do, a sensor of which the tracker hears only what scans report costs each
   of its parameters exactly one decrement if some scan notices the silence, and none if no scan does.
   */
  lemma SilenceCostsOneIffNoticed(
    fleet: Fleet, r: Redis, events: seq<Event>, times: seq<real>, sensor: string, k: CountKey,
    scans: seq<ScanRun>, w: Write)
    requires Describes(w, fleet, sensor) && w.ttl <= FAULT_COUNT_TTL_S
    requires forall scan <- scans :: HonestScan(scan, sensor, w)
    requires Within(fleet, events) && Chronicle(events, times, scans, sensor)
    requires ReportsIn(events, sensor) == EventsOf(Reports(scans, sensor))
    requires sensor in Covering(fleet, k) && r.Faults(sensor) == 0
    ensures LossesBy(fleet, r, events, sensor, k) == if AnyNotices(scans, sensor, w) then 1 else 0
  {
    CounterOutlivesReports(fleet, events, times, scans, sensor, w);
    ReportsInMembers(events, sensor);
    ReportedIffNoticed(fleet, sensor, scans, w);
    var reports := EventsOf(Reports(scans, sensor));
    forall e <- events | IsReport(e, sensor) ensures e.status == 0 {
      assert e in reports;
    }
    if reports != [] {
      assert reports[0] in ReportsIn(events, sensor);
    }
    SilenceIsCountedOnce(fleet, r, events, sensor, k);
  }

  /**
   With scans close enough together and not cut short, a sensor whose last snapshot is the rule engine's and which
   then stays silent costs each of its parameters exactly one decrement, however often SCAN repeats its key
   and even if the silence outlives the fault counter.
   */
  lemma SilentSensorIsDecrementedOnce(
    fleet: Fleet, r: Redis, events: seq<Event>, times: seq<real>, sensor: string, k: CountKey,
    scans: seq<ScanRun>, w: Write, gap: real, duration: real)
    requires LastWriteByRuleEngine(w) && Schedule(scans, sensor, w, gap, duration) && NoneAborted(scans)
    requires gap + duration < SILENCE_TIMEOUT_S
    requires Describes(w, fleet, sensor)
    requires Within(fleet, events) && Chronicle(events, times, scans, sensor)
    requires ReportsIn(events, sensor) == EventsOf(Reports(scans, sensor))
    requires sensor in Covering(fleet, k) && r.Faults(sensor) == 0
    ensures LossesBy(fleet, r, events, sensor, k) == 1
  {
    SilenceIsNoticed(scans, sensor, w, gap, duration);
    SilenceCostsOneIffNoticed(fleet, r, events, times, sensor, k, scans, w);
  }

  /// ## How close scans must be, and which write must be last

  /** Scans this close together are sure to notice every silence if and only if gap plus duration is below the timeout. */
  lemma NoticedForSureIff(sensor: string, gap: real, duration: real)
    requires 0.0 < gap && 0.0 <= duration
    ensures (forall scans: seq<ScanRun>, w: Write ::
               LastWriteByRuleEngine(w) && Schedule(scans, sensor, w, gap, duration) && NoneAborted(scans)
               ==> AnyNotices(scans, sensor, w))
            <==> gap + duration < SILENCE_TIMEOUT_S
  {
    if gap + duration < SILENCE_TIMEOUT_S {
      forall scans: seq<ScanRun>, w: Write
        | LastWriteByRuleEngine(w) && Schedule(scans, sensor, w, gap, duration) && NoneAborted(scans)
        ensures AnyNotices(scans, sensor, w)
      {
        SilenceIsNoticed(scans, sensor, w, gap, duration);
      }
    } else {
      var scans := BlindSchedule(sensor, gap, duration);
    }
  }

  /** With gap plus duration of 180 s or more, scans can miss a silence. */
  lemma BlindSchedule(sensor: string, gap: real, duration: real) returns (scans: seq<ScanRun>)
    requires 0.0 < gap && 0.0 <= duration && SILENCE_TIMEOUT_S <= gap + duration
    ensures var w := BlindWrite(sensor);
            && LastWriteByRuleEngine(w) && Schedule(scans, sensor, w, gap, duration) && NoneAborted(scans)
            && !AnyNotices(scans, sensor, w)
  {
    var n := LateStart(gap);
    scans := BlindScans(sensor, gap, duration, n);
    BlindSpacing(sensor, gap, duration, n);
    AllMiss(scans, sensor, gap, duration);
    IsSchedule(scans, sensor, BlindWrite(sensor), gap, duration);
  }

  lemma IsSchedule(scans: seq<ScanRun>, sensor: string, w: Write, gap: real, duration: real)
    requires scans != [] && AllHonest(scans, sensor, w, duration)
    requires forall i | 0 < i < |scans| :: scans[i - 1].start <= scans[i].start <= scans[i - 1].start + gap
    requires scans[0].start <= OverAgeFrom(w) + gap && w.at + RULE_ENGINE_TTL_S <= scans[|scans| - 1].start
    ensures Schedule(scans, sensor, w, gap, duration)
  {
  }

  lemma LateStart(gap: real) returns (n: nat)
    requires 0.0 < gap
    ensures RULE_ENGINE_TTL_S <= Start(gap, n)
  {
    n := EnoughSteps(gap, SILENCE_TIMEOUT_S);
    StartGrows(gap, n);
  }

  lemma BlindSpacing(sensor: string, gap: real, duration: real, n: nat)
    requires 0.0 < gap
    ensures var scans := BlindScans(sensor, gap, duration, n);
            && scans[0].start == SILENCE_TIMEOUT_S && scans[n].start == Start(gap, n)
            && (forall i | 0 < i < |scans| :: scans[i - 1].start <= scans[i].start <= scans[i - 1].start + gap)
            && forall scan <- scans :: Blind(scan, sensor, gap, duration)
  {
    BlindScansFollow(sensor, gap, duration, n);
    var scans := BlindScans(sensor, gap, duration, n);
    forall i | 0 < i < |scans| ensures scans[i].start == scans[i - 1].start + gap {
      assert Start(gap, i) == Start(gap, i - 1) + gap;
    }
  }

  /** A scan of no more than the duration that does its work and does not notice the sensor. */
  ghost predicate Misses(scan: ScanRun, sensor: string, w: Write, duration: real) {
    HonestScan(scan, sensor, w) && scan.end - scan.start <= duration && !Aborted(scan) && !Notices(scan, sensor, w)
  }

  lemma AllMiss(scans: seq<ScanRun>, sensor: string, gap: real, duration: real)
    requires forall scan <- scans :: Blind(scan, sensor, gap, duration)
    requires 0.0 <= duration && SILENCE_TIMEOUT_S <= gap + duration
    ensures NoneAborted(scans) && !AnyNotices(scans, sensor, BlindWrite(sensor))
    ensures AllHonest(scans, sensor, BlindWrite(sensor), duration)
  {
    forall scan <- scans ensures Misses(scan, sensor, BlindWrite(sensor), duration) {
      BlindScanMisses(scan, sensor, gap, duration);
    }
  }

  lemma EnoughSteps(gap: real, distance: real) returns (n: nat)
    requires 0.0 < gap && 0.0 <= distance
    ensures distance <= n as real * gap
  {
    var ratio := distance / gap;
    n := ratio.Floor + 1;
    assert ratio * gap == distance;
    ProductNotNegative(n as real - ratio, gap);
    assert (n as real - ratio) * gap == n as real * gap - ratio * gap;
  }

  lemma ProductNotNegative(x: real, y: real)
    requires 0.0 <= x && 0.0 <= y
    ensures 0.0 <= x * y
  {
  }

  /** The start of the `n`th scan after the one at the very moment of the timeout. */
  function Start(gap: real, n: nat): real {
    if n == 0 then SILENCE_TIMEOUT_S else Start(gap, n - 1) + gap
  }

  lemma {:induction false} StartGrows(gap: real, n: nat)
    requires 0.0 < gap
    ensures Start(gap, n) == SILENCE_TIMEOUT_S + n as real * gap
    ensures n > 0 ==> SILENCE_TIMEOUT_S + gap <= Start(gap, n)
  {
    if n > 0 {
      StartGrows(gap, n - 1);
      assert (n - 1) as real * gap + gap == n as real * gap;
    }
  }

  /** A snapshot ingested and written at time 0. */
  function BlindWrite(sensor: string): Write {
    Write(0.0, RULE_ENGINE_TTL_S, 0.0, Data(Some(Aware(0.0)), None, Some(sensor), Some("area"), [("p", Some(1.0))]))
  }

  /** A scan at one moment that reads one key. */
  function MomentaryScan(t: real, sensor: string, w: Write): ScanRun {
    ScanRun(t, t, [[Visit(sensor, t, w.snapshot)]])
  }

  lemma MomentaryScanVisits(t: real, sensor: string, w: Write)
    ensures Visits(MomentaryScan(t, sensor, w)) == [Visit(sensor, t, w.snapshot)]
  {
    var pages := MomentaryScan(t, sensor, w).pages;
    assert Joined(pages, 1) == Joined(pages, 0) + pages[0];
  }

  /** The scan meets the key at the very moment of the timeout, or the key vanishes under it. */
  predicate Blind(scan: ScanRun, sensor: string, gap: real, duration: real) {
    || scan == MomentaryScan(SILENCE_TIMEOUT_S, sensor, BlindWrite(sensor))
    || (SILENCE_TIMEOUT_S + gap <= scan.start && scan.end == scan.start + duration && scan.pages == [])
  }

  lemma BlindScanMisses(scan: ScanRun, sensor: string, gap: real, duration: real)
    requires Blind(scan, sensor, gap, duration) && 0.0 <= duration && SILENCE_TIMEOUT_S <= gap + duration
    ensures Misses(scan, sensor, BlindWrite(sensor), duration)
  {
    ScanIsItsVisits(scan);
    if scan.pages != [] {
      MomentaryScanMisses(sensor, duration);
    } else {
      assert Visits(scan) == [];
    }
  }

  lemma MomentaryScanMisses(sensor: string, duration: real)
    requires 0.0 <= duration
    ensures Misses(MomentaryScan(SILENCE_TIMEOUT_S, sensor, BlindWrite(sensor)), sensor, BlindWrite(sensor), duration)
  {
    var scan := MomentaryScan(SILENCE_TIMEOUT_S, sensor, BlindWrite(sensor));
    ScanIsItsVisits(scan);
    MomentaryScanVisits(SILENCE_TIMEOUT_S, sensor, BlindWrite(sensor));
    assert Visits(scan)[0].key == sensor;
    assert !Raises(Replies(Visits(scan)), 0);
    assert !Raises(Replies(Visits(scan)), 1);
  }

  /** A scan at the very moment of the timeout, then `n` scans under each of which the key vanishes. */
  function BlindScans(sensor: string, gap: real, duration: real, n: nat): (scans: seq<ScanRun>)
    ensures |scans| == n + 1
  {
    if n == 0 then
      [MomentaryScan(SILENCE_TIMEOUT_S, sensor, BlindWrite(sensor))]
    else
      BlindScans(sensor, gap, duration, n - 1) + [ScanRun(Start(gap, n), Start(gap, n) + duration, [])]
  }

  lemma {:induction false} BlindScansFollow(sensor: string, gap: real, duration: real, n: nat)
    requires 0.0 < gap
    ensures forall i | 0 <= i <= n :: BlindScans(sensor, gap, duration, n)[i].start == Start(gap, i)
    ensures forall scan <- BlindScans(sensor, gap, duration, n) :: Blind(scan, sensor, gap, duration)
  {
    if n > 0 {
      BlindScansFollow(sensor, gap, duration, n - 1);
      StartGrows(gap, n);
    }
  }

  /** When any moment exists at which some scan could notice the sensor. */
  lemma NoticeableIff(sensor: string, w: Write)
    requires w.ingestedAt <= w.at && 0.0 < w.ttl
    ensures (exists scan: ScanRun :: HonestScan(scan, sensor, w) && Notices(scan, sensor, w))
            <==> w.ingestedAt + SILENCE_TIMEOUT_S < w.at + w.ttl
  {
    if w.ingestedAt + SILENCE_TIMEOUT_S < w.at + w.ttl {
      var t := (OverAgeFrom(w) + w.at + w.ttl) / 2.0;
      var scan := MomentaryScan(t, sensor, w);
      MomentaryScanVisits(t, sensor, w);
      assert Visits(scan)[0].key == sensor;
      assert Meets(Visits(scan), 0, sensor, w);
      assert HonestScan(scan, sensor, w) && Notices(scan, sensor, w);
    }
    forall scan: ScanRun | HonestScan(scan, sensor, w) && Notices(scan, sensor, w)
      ensures w.ingestedAt + SILENCE_TIMEOUT_S < w.at + w.ttl
    {
      var i :| 0 <= i < |Visits(scan)| && Meets(Visits(scan), i, sensor, w);
      assert HonestVisit(Visits(scan)[i], sensor, w);
    }
  }

  /** If the hot-state write is the last one and was made within 60 s of ingestion, the silence is never noticed. */
  lemma HotStateHidesSilence(sensor: string, w: Write, scan: ScanRun)
    requires w.ttl == HOT_STATE_TTL_S && w.ingestedAt <= w.at <= w.ingestedAt + 60.0
    requires HonestScan(scan, sensor, w)
    ensures !Notices(scan, sensor, w)
  {
    NoticeableIff(sensor, w);
  }

  /** The write a reader sees at `t`: the later of the two made by then, unless its time to live is over. */
  ghost function Visible(rule: Write, hot: Write, t: real): Option<Write> {
    var last := if hot.at <= t && (rule.at < hot.at || t < rule.at) then hot else rule;
    if Present(last, t) then Some(last) else None
  }

  /**
   Two services write the same key for the last message of a sensor: the rule engine, and the telemetry
   service within 60 s of ingestion. Its silence can be noticed if and only if the rule engine writes last.
   */
  lemma LastWriterDecides(rule: Write, hot: Write)
    requires LastWriteByRuleEngine(rule) && hot.ttl == HOT_STATE_TTL_S && hot.at != rule.at
    requires rule.ingestedAt == hot.ingestedAt <= hot.at <= hot.ingestedAt + 60.0
    ensures (exists start: real, visit: real :: start <= visit && SeenOverAge(rule, hot, start, visit)) <==> hot.at < rule.at
  {
    if hot.at < rule.at {
      var t := (OverAgeFrom(rule) + rule.at + rule.ttl) / 2.0;
      assert Visible(rule, hot, t) == Some(rule);
      assert t <= t && SeenOverAge(rule, hot, t, t);
    }
  }

  /** A scan started at `start` reads the key at `visit` and finds it over-age. */
  ghost predicate SeenOverAge(rule: Write, hot: Write, start: real, visit: real) {
    var seen := Visible(rule, hot, visit);
    seen.Some? && start - seen.value.ingestedAt > SILENCE_TIMEOUT_S
  }
}
