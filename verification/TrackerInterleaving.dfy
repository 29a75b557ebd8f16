/**
 The tracker as it really runs: two asyncio tasks, the Kafka consumer and the
 watchdog, interleave single Redis commands. Each command is one atomic step.
 An action that is not enabled changes nothing.
 */
module TrackerInterleaving {
  import opened Wrappers
  import opened Redundancy
  import opened TrackerRuns

  /** The two tasks. */
  datatype Source = Kafka | Watchdog

  /** Where a task stands: the Redis command it will issue next, and the parameters still to visit. */
  datatype Task =
    | Idle
    | Bump(sensor: string)                      // INCR fault counter
    | Renew(sensor: string, faults: nat)        // EXPIRE fault counter, after INCR returned `faults`
    | Dec(sensor: string, todo: seq<string>)    // DECR count of todo[0]
    | Clamp(sensor: string, todo: seq<string>)  // SET count of todo[0] to 0, after DECR went negative
    | Probe(sensor: string)                     // GET fault counter
    | Clear(sensor: string)                     // DEL fault counter
    | Inc(sensor: string, todo: seq<string>)    // INCR count of todo[0]

  datatype State = State(redis: Redis, consumer: Task, watchdog: Task) {
    function TaskOf(who: Source): Task {
      if who == Kafka then consumer else watchdog
    }

    function Put(who: Source, redis: Redis, task: Task): State {
      if who == Kafka then State(redis, task, watchdog) else State(redis, consumer, task)
    }
  }

  datatype Action =
    | Begin(who: Source, sensor: string, status: int)
    | Advance(who: Source)
    | Elapse(sensor: string)  // the fault counter's time to live ends

  ghost predicate TaskOk(fleet: Fleet, t: Task) {
    && (t.Idle? || t.sensor in fleet)
    && (t.Dec? || t.Clamp? || t.Inc? ==>
          t.todo != [] && Distinct(t.todo) && forall p <- t.todo :: p in fleet[t.sensor].parameters)
  }

  /** Both tasks are well-formed, and the watchdog never recovers a sensor. */
  ghost predicate Valid(fleet: Fleet, s: State) {
    && WellFormed(fleet)
    && TaskOk(fleet, s.consumer) && TaskOk(fleet, s.watchdog)
    && !s.watchdog.Probe? && !s.watchdog.Clear? && !s.watchdog.Inc?
  }

  function NextDec(sensor: string, todo: seq<string>): Task {
    if todo == [] then Idle else Dec(sensor, todo)
  }

  function NextInc(sensor: string, todo: seq<string>): Task {
    if todo == [] then Idle else Inc(sensor, todo)
  }

  function SetCount(r: Redis, k: CountKey, count: int): Redis {
    r.(counts := r.counts[k := count])
  }

  /** Issue the next command of a task. */
  function Issue(fleet: Fleet, r: Redis, t: Task): (Redis, Task)
    requires TaskOk(fleet, t)
  {
    match t
    case Idle => (r, Idle)
    case Bump(sensor) =>
      var faults := r.Faults(sensor) + 1;
      (r.(faults := r.faults[sensor := faults]), Renew(sensor, faults))
    case Renew(sensor, faults) =>
      (r, if faults != 1 then Idle else NextDec(sensor, fleet[sensor].parameters))
    case Dec(sensor, todo) =>
      var k := CountKey(fleet[sensor].area, todo[0]);
      var count := r.Count(k) - 1;
      (SetCount(r, k, count), if count < 0 then Clamp(sensor, todo) else NextDec(sensor, todo[1..]))
    case Clamp(sensor, todo) =>
      (SetCount(r, CountKey(fleet[sensor].area, todo[0]), 0), NextDec(sensor, todo[1..]))
    case Probe(sensor) =>
      (r, if r.Faults(sensor) == 0 then Idle else Clear(sensor))
    case Clear(sensor) =>
      (r.(faults := r.faults - {sensor}), NextInc(sensor, fleet[sensor].parameters))
    case Inc(sensor, todo) =>
      var k := CountKey(fleet[sensor].area, todo[0]);
      (SetCount(r, k, r.Count(k) + 1), NextInc(sensor, todo[1..]))
  }

  function Step(fleet: Fleet, s: State, a: Action): State
    requires Valid(fleet, s)
  {
    match a
    case Begin(who, sensor, status) =>
      if !s.TaskOf(who).Idle? || sensor !in fleet || (who == Watchdog && status != 0) then s
      else s.Put(who, s.redis, if status == 0 then Bump(sensor) else Probe(sensor))
    case Advance(who) =>
      var (redis, task) := Issue(fleet, s.redis, s.TaskOf(who));
      s.Put(who, redis, task)
    case Elapse(sensor) =>
      s.(redis := s.redis.(faults := s.redis.faults - {sensor}))
  }

  lemma StepStaysValid(fleet: Fleet, s: State, a: Action)
    requires Valid(fleet, s)
    ensures Valid(fleet, Step(fleet, s, a))
  {
    if a.Advance? {
      var t := s.TaskOf(a.who);
      if t.Dec? || t.Clamp? || t.Inc? {
        assert forall p <- t.todo[1..] :: p in t.todo;
      }
    }
  }

  function Run(fleet: Fleet, s: State, actions: seq<Action>): State
    requires Valid(fleet, s)
    decreases |actions|
  {
    StepStaysValid(fleet, s, if actions == [] then Advance(Kafka) else actions[0]);
    if actions == [] then s else Run(fleet, Step(fleet, s, actions[0]), actions[1..])
  }

  /// ## The ledger: an exact account of every interleaving

  /** Decrements a task has still to make for `k`, less the increments it has still to make. */
  function Owed(fleet: Fleet, t: Task, k: CountKey): int
    requires TaskOk(fleet, t)
  {
    if t.Idle? || fleet[t.sensor].area != k.area then 0
    else
      match t
      case Renew(sensor, 1) => if k.parameter in fleet[sensor].parameters then 1 else 0
      case Dec(_, todo) => if k.parameter in todo then 1 else 0
      case Clamp(_, todo) => if k.parameter in todo[1..] then 1 else 0
      case Inc(_, todo) => if k.parameter in todo then -1 else 0
      case _ => 0
  }

  /** How far the stored count is above what health and unfinished work account for. */
  function Balance(fleet: Fleet, s: State, k: CountKey): int
    requires Valid(fleet, s)
  {
    s.redis.Count(k) - Healthy(fleet, s.redis, k) - Owed(fleet, s.consumer, k) - Owed(fleet, s.watchdog, k)
  }

  /**
   The three steps that make the count drift downwards: a clamp throws away the value it
   overwrites, an expiry makes a sensor look healthy without an increment, and a DEL that finds
   the counter already gone makes up for one such expiry.
   */
  function Drift(fleet: Fleet, s: State, a: Action, k: CountKey): int
    requires Valid(fleet, s)
  {
    match a
    case Begin(_, _, _) => 0
    case Elapse(sensor) => if sensor in Covering(fleet, k) && s.redis.Faults(sensor) != 0 then 1 else 0
    case Advance(who) =>
      match s.TaskOf(who)
      case Clamp(sensor, todo) => if CountKey(fleet[sensor].area, todo[0]) == k then s.redis.Count(k) else 0
      case Clear(sensor) => if sensor in Covering(fleet, k) && s.redis.Faults(sensor) == 0 then -1 else 0
      case _ => 0
  }

  /** Count less health less debt, from one task's point of view. */
  function OwnBalance(fleet: Fleet, r: Redis, t: Task, k: CountKey): int
    requires TaskOk(fleet, t)
  {
    r.Count(k) - Healthy(fleet, r, k) - Owed(fleet, t, k)
  }

  lemma IssueFaultCommand(fleet: Fleet, s: State, who: Source, k: CountKey)
    requires Valid(fleet, s) && !s.TaskOf(who).Dec? && !s.TaskOf(who).Clamp? && !s.TaskOf(who).Inc?
    ensures var (redis, task) := Issue(fleet, s.redis, s.TaskOf(who));
            TaskOk(fleet, task) &&
            OwnBalance(fleet, redis, task, k)
            == OwnBalance(fleet, s.redis, s.TaskOf(who), k) - Drift(fleet, s, Advance(who), k)
  {
    StepStaysValid(fleet, s, Advance(who));
    var t := s.TaskOf(who);
    var redis := Issue(fleet, s.redis, t).0;
    if t.Bump? || t.Clear? {
      HealthyDiffersBy(fleet, s.redis, redis, t.sensor, k);
    }
  }

  lemma IssueCountCommand(fleet: Fleet, s: State, who: Source, k: CountKey)
    requires Valid(fleet, s) && (s.TaskOf(who).Dec? || s.TaskOf(who).Clamp? || s.TaskOf(who).Inc?)
    ensures var (redis, task) := Issue(fleet, s.redis, s.TaskOf(who));
            TaskOk(fleet, task) &&
            OwnBalance(fleet, redis, task, k)
            == OwnBalance(fleet, s.redis, s.TaskOf(who), k) - Drift(fleet, s, Advance(who), k)
  {
    StepStaysValid(fleet, s, Advance(who));
    var t := s.TaskOf(who);
    HeadAndTail(t.todo, k.parameter);
    SameFaultsSameHealth(fleet, s.redis, Issue(fleet, s.redis, t).0, k);
  }

  lemma SameFaultsSameHealth(fleet: Fleet, r: Redis, after: Redis, k: CountKey)
    requires r.faults == after.faults
    ensures Healthy(fleet, after, k) == Healthy(fleet, r, k)
  {
    assert HealthySet(fleet, after, k) == HealthySet(fleet, r, k);
  }

  lemma HeadAndTail(todo: seq<string>, p: string)
    requires todo != [] && Distinct(todo)
    ensures p in todo <==> p == todo[0] || p in todo[1..]
    ensures todo[0] !in todo[1..]
  {
    assert todo == [todo[0]] + todo[1..];
  }

  lemma StepLedger(fleet: Fleet, s: State, a: Action, k: CountKey)
    requires Valid(fleet, s)
    ensures Valid(fleet, Step(fleet, s, a))
    ensures Balance(fleet, Step(fleet, s, a), k) == Balance(fleet, s, k) - Drift(fleet, s, a, k)
  {
    StepStaysValid(fleet, s, a);
    match a
    case Begin(_, _, _) =>
    case Advance(who) =>
      var t := s.TaskOf(who);
      if t.Dec? || t.Clamp? || t.Inc? {
        IssueCountCommand(fleet, s, who, k);
      } else {
        IssueFaultCommand(fleet, s, who, k);
      }
    case Elapse(sensor) => HealthyDiffersBy(fleet, s.redis, Step(fleet, s, a).redis, sensor, k);
  }

  function TotalDrift(fleet: Fleet, s: State, actions: seq<Action>, k: CountKey): int
    requires Valid(fleet, s)
    decreases |actions|
  {
    if actions == [] then 0 else
      StepStaysValid(fleet, s, actions[0]);
      Drift(fleet, s, actions[0], k) + TotalDrift(fleet, Step(fleet, s, actions[0]), actions[1..], k)
  }

  /** Over every interleaving, from any counts and with expiries, the count misses health by exactly the drift. */
  lemma {:induction false} RunLedger(fleet: Fleet, s: State, actions: seq<Action>, k: CountKey)
    requires Valid(fleet, s)
    ensures Valid(fleet, Run(fleet, s, actions))
    ensures Balance(fleet, Run(fleet, s, actions), k) == Balance(fleet, s, k) - TotalDrift(fleet, s, actions, k)
    decreases |actions|
  {
    if actions != [] {
      StepLedger(fleet, s, actions[0], k);
      RunLedger(fleet, Step(fleet, s, actions[0]), actions[1..], k);
    }
  }

  ghost predicate Quiet(s: State) {
    s.consumer.Idle? && s.watchdog.Idle?
  }

  /** Whenever both tasks rest, an exact start has stayed exact if and only if nothing drifted. */
  lemma ExactAtRestIffNoDrift(fleet: Fleet, s: State, actions: seq<Action>, k: CountKey)
    requires Valid(fleet, s) && Quiet(s) && s.redis.Count(k) == Healthy(fleet, s.redis, k)
    requires Quiet(Run(fleet, s, actions))
    ensures var end := Run(fleet, s, actions).redis;
            end.Count(k) == Healthy(fleet, end, k) <==> TotalDrift(fleet, s, actions, k) == 0
  {
    RunLedger(fleet, s, actions, k);
  }

  /// ## When nothing drifts

  /** The watchdog opens a fault on the very sensor whose recovery the consumer has not finished. */
  predicate OpensFaultDuringRecovery(s: State, a: Action) {
    && a == Advance(Watchdog) && s.watchdog.Bump?
    && s.consumer.Inc? && s.consumer.sensor == s.watchdog.sensor
  }

  predicate Guarded(fleet: Fleet, s: State, actions: seq<Action>)
    requires Valid(fleet, s)
    decreases |actions|
  {
    actions != [] ==>
      && !actions[0].Elapse? && !OpensFaultDuringRecovery(s, actions[0])
      && (StepStaysValid(fleet, s, actions[0]); Guarded(fleet, Step(fleet, s, actions[0]), actions[1..]))
  }

  /** Every count is health plus unfinished work, and no DECR has gone negative. */
  ghost predicate Safe(fleet: Fleet, s: State) {
    && Valid(fleet, s)
    && (forall k :: Balance(fleet, s, k) == 0)
    && !s.consumer.Clamp? && !s.watchdog.Clamp?
    && (s.consumer.Inc? ==> s.redis.Faults(s.consumer.sensor) == 0)
    && (s.consumer.Clear? ==> s.redis.Faults(s.consumer.sensor) != 0)
  }

  lemma OwedIsAtLeastMinusHealthy(fleet: Fleet, s: State, k: CountKey)
    requires Safe(fleet, s)
    ensures 0 <= Owed(fleet, s.watchdog, k)
    ensures 0 <= Healthy(fleet, s.redis, k) + Owed(fleet, s.consumer, k)
  {
    if Owed(fleet, s.consumer, k) < 0 {
      assert s.consumer.sensor in HealthySet(fleet, s.redis, k);
    }
  }

  lemma DecStaysNonNegative(fleet: Fleet, s: State, who: Source)
    requires Safe(fleet, s) && s.TaskOf(who).Dec?
    ensures !Issue(fleet, s.redis, s.TaskOf(who)).1.Clamp?
  {
    var t := s.TaskOf(who);
    var k := CountKey(fleet[t.sensor].area, t.todo[0]);
    assert Balance(fleet, s, k) == 0;
    assert Owed(fleet, t, k) == 1;
    OwedIsAtLeastMinusHealthy(fleet, s, k);
  }

  lemma StepStaysSafe(fleet: Fleet, s: State, a: Action)
    requires Safe(fleet, s) && !a.Elapse? && !OpensFaultDuringRecovery(s, a)
    ensures Safe(fleet, Step(fleet, s, a))
  {
    StepStaysValid(fleet, s, a);
    forall k ensures Balance(fleet, Step(fleet, s, a), k) == 0 {
      StepLedger(fleet, s, a, k);
      assert Balance(fleet, s, k) == 0;
    }
    if a.Advance? && s.TaskOf(a.who).Dec? {
      DecStaysNonNegative(fleet, s, a.who);
    }
  }

  lemma {:induction false} RunStaysSafe(fleet: Fleet, s: State, actions: seq<Action>)
    requires Safe(fleet, s) && Guarded(fleet, s, actions)
    ensures Safe(fleet, Run(fleet, s, actions))
    decreases |actions|
  {
    if actions != [] {
      StepStaysSafe(fleet, s, actions[0]);
      RunStaysSafe(fleet, Step(fleet, s, actions[0]), actions[1..]);
    }
  }

  /**
   In every interleaving without expiry in which the watchdog never opens a fault on a sensor
   between the consumer's DEL and its last INCR for that sensor, counts are health plus pending
   decrements less pending increments, are never negative, and equal health at rest.
   */
  lemma GuardedInterleavingIsExact(fleet: Fleet, s: State, actions: seq<Action>, k: CountKey)
    requires Valid(fleet, s) && Quiet(s) && Exact(fleet, s.redis) && Guarded(fleet, s, actions)
    ensures var end := Run(fleet, s, actions);
            && Valid(fleet, end)
            && end.redis.Count(k) == Healthy(fleet, end.redis, k) + Owed(fleet, end.consumer, k) + Owed(fleet, end.watchdog, k)
            && 0 <= end.redis.Count(k)
            && (Quiet(end) ==> end.redis.Count(k) == Healthy(fleet, end.redis, k))
  {
    forall k ensures Balance(fleet, s, k) == 0 {
      assert s.redis.Count(k) == Healthy(fleet, s.redis, k);
    }
    RunStaysSafe(fleet, s, actions);
    var end := Run(fleet, s, actions);
    assert Balance(fleet, end, k) == 0;
    OwedIsAtLeastMinusHealthy(fleet, end, k);
  }

  /**
   What a fault alert then reports as remaining is the number of healthy sensors plus what the other
   task still owes for that parameter; it is that number itself once the other task owes nothing.
   */
  lemma ReportedRemainder(fleet: Fleet, s: State, actions: seq<Action>, who: Source)
    requires Valid(fleet, s) && Quiet(s) && Exact(fleet, s.redis) && Guarded(fleet, s, actions)
    requires Run(fleet, s, actions).TaskOf(who).Dec?
    ensures var now := Run(fleet, s, actions);
            var t, other := now.TaskOf(who), now.TaskOf(if who == Kafka then Watchdog else Kafka);
            Valid(fleet, now) &&
            var k, after := CountKey(fleet[t.sensor].area, t.todo[0]), Issue(fleet, now.redis, t);
            after.1 == NextDec(t.sensor, t.todo[1..])
            && after.0.Count(k) == Healthy(fleet, after.0, k) + Owed(fleet, other, k)
  {
    forall k ensures Balance(fleet, s, k) == 0 {
      assert s.redis.Count(k) == Healthy(fleet, s.redis, k);
    }
    RunStaysSafe(fleet, s, actions);
    var now := Run(fleet, s, actions);
    var t := now.TaskOf(who);
    var k := CountKey(fleet[t.sensor].area, t.todo[0]);
    DecStaysNonNegative(fleet, now, who);
    assert Balance(fleet, now, k) == 0;
    HeadAndTail(t.todo, k.parameter);
    SameFaultsSameHealth(fleet, now.redis, Issue(fleet, now.redis, t).0, k);
  }

  /**
   Under the guard, a decrement of the consumer reports 0, and so announces a total loss, if and only if no covering
   sensor is healthy and the watchdog owes the key no decrement.
   */
  lemma ConsumerReportsZeroIff(fleet: Fleet, s: State, actions: seq<Action>)
    requires Valid(fleet, s) && Quiet(s) && Exact(fleet, s.redis) && Guarded(fleet, s, actions)
    requires Run(fleet, s, actions).consumer.Dec?
    ensures var now := Run(fleet, s, actions);
            Valid(fleet, now) &&
            var t := now.consumer;
            var k, after := CountKey(fleet[t.sensor].area, t.todo[0]), Issue(fleet, now.redis, t).0;
            after.Count(k) == 0 <==> Healthy(fleet, after, k) == 0 && Owed(fleet, now.watchdog, k) == 0
  {
    ReportedRemainder(fleet, s, actions, Kafka);
  }

  /**
   So a total loss can go unannounced although messages and scans both find a loss and the guard holds: the
   watchdog has counted the fault of `b` but not yet decremented when the consumer takes `a`. The consumer's DECR
   gives 1; the 0 comes from the watchdog's, whose alerts are dropped.
   */
  lemma SplitLossGoesUnannounced(a: string, b: string, k: CountKey)
    returns (fleet: Fleet, s: State, before: seq<Action>, after: seq<Action>)
    requires a != b
    ensures Valid(fleet, s) && Quiet(s) && Exact(fleet, s.redis) && Guarded(fleet, s, before + after)
    ensures var now := Run(fleet, s, before);
            && Valid(fleet, now) && now.consumer == Dec(a, [k.parameter]) && CountKey(fleet[a].area, k.parameter) == k
            && Healthy(fleet, now.redis, k) == 0
            && Issue(fleet, now.redis, now.consumer).0.Count(k) == 1
    ensures |after| > 0 && after[0] == Advance(Kafka)
    ensures var end := Run(fleet, s, before + after);
            Quiet(end) && end.redis.Count(k) == 0 && Healthy(fleet, end.redis, k) == 0
  {
    var own := Sensor(k.area, [k.parameter]);
    fleet := map[a := own, b := own];
    s := State(Redis(map[k := 2], map[]), Idle, Idle);
    TwoSensorHealth(fleet, a, b, k);
    forall other ensures s.redis.Count(other) == Healthy(fleet, s.redis, other) {
      assert HealthySet(fleet, s.redis, other) == if other == k then {a, b} else {};
    }
    before := BothFaultsCounted(fleet, a, b, k);
    after := BothDecrement(fleet, a, b, k);
    var now := BothFaulted(a, b, k);
    RunAppends(fleet, s, before, after);
    assert HealthySet(fleet, now.redis, k) == {};
  }

  /** Both faults are counted, and neither task has decremented. */
  function BothFaulted(a: string, b: string, k: CountKey): State {
    State(Redis(map[k := 2], map[b := 1, a := 1]), Dec(a, [k.parameter]), Renew(b, 1))
  }

  lemma BothFaultsCounted(fleet: Fleet, a: string, b: string, k: CountKey) returns (actions: seq<Action>)
    requires a != b && fleet == map[a := Sensor(k.area, [k.parameter]), b := Sensor(k.area, [k.parameter])]
    ensures var s := State(Redis(map[k := 2], map[]), Idle, Idle);
            && Valid(fleet, s) && Guarded(fleet, s, actions)
            && Run(fleet, s, actions) == BothFaulted(a, b, k)
  {
    var two := map[k := 2];
    actions := ConsumerCounts(fleet, a, b, k);
    assert map[][b := 1] == map[b := 1];
    actions := GuardedPrepend(fleet, State(Redis(two, map[]), Idle, Bump(b)), Advance(Watchdog), actions);
    actions := GuardedPrepend(fleet, State(Redis(two, map[]), Idle, Idle), Begin(Watchdog, b, 0), actions);
  }

  lemma ConsumerCounts(fleet: Fleet, a: string, b: string, k: CountKey) returns (actions: seq<Action>)
    requires a != b && fleet == map[a := Sensor(k.area, [k.parameter]), b := Sensor(k.area, [k.parameter])]
    ensures var s := State(Redis(map[k := 2], map[b := 1]), Idle, Renew(b, 1));
            && Valid(fleet, s) && Guarded(fleet, s, actions)
            && Run(fleet, s, actions) == BothFaulted(a, b, k)
  {
    var one, both := Redis(map[k := 2], map[b := 1]), Redis(map[k := 2], map[b := 1, a := 1]);
    actions := GuardedPrepend(fleet, State(both, Renew(a, 1), Renew(b, 1)), Advance(Kafka), []);
    assert one.faults[a := 1] == both.faults;
    actions := GuardedPrepend(fleet, State(one, Bump(a), Renew(b, 1)), Advance(Kafka), actions);
    actions := GuardedPrepend(fleet, State(one, Idle, Renew(b, 1)), Begin(Kafka, a, 0), actions);
  }

  lemma BothDecrement(fleet: Fleet, a: string, b: string, k: CountKey) returns (actions: seq<Action>)
    requires a != b && fleet == map[a := Sensor(k.area, [k.parameter]), b := Sensor(k.area, [k.parameter])]
    ensures Valid(fleet, BothFaulted(a, b, k)) && Guarded(fleet, BothFaulted(a, b, k), actions)
    ensures |actions| > 0 && actions[0] == Advance(Kafka)
    ensures Run(fleet, BothFaulted(a, b, k), actions)
         == State(Redis(map[k := 0], map[b := 1, a := 1]), Idle, Idle)
  {
    var faults, todo := map[b := 1, a := 1], [k.parameter];
    assert todo[1..] == [];
    assert map[k := 1][k := 0] == map[k := 0] && map[k := 2][k := 1] == map[k := 1];
    actions := GuardedPrepend(fleet, State(Redis(map[k := 1], faults), Idle, Dec(b, todo)), Advance(Watchdog), []);
    actions := GuardedPrepend(fleet, State(Redis(map[k := 1], faults), Idle, Renew(b, 1)), Advance(Watchdog), actions);
    actions := GuardedPrepend(fleet, BothFaulted(a, b, k), Advance(Kafka), actions);
  }

  lemma GuardedPrepend(fleet: Fleet, s: State, a: Action, rest: seq<Action>) returns (actions: seq<Action>)
    requires Valid(fleet, s) && !a.Elapse? && !OpensFaultDuringRecovery(s, a)
    requires Valid(fleet, Step(fleet, s, a)) ==> Guarded(fleet, Step(fleet, s, a), rest)
    ensures actions == [a] + rest
    ensures Valid(fleet, Step(fleet, s, a)) && Guarded(fleet, s, actions)
    ensures Run(fleet, s, actions) == Run(fleet, Step(fleet, s, a), rest)
  {
    StepStaysValid(fleet, s, a);
    actions := [a] + rest;
    assert actions[1..] == rest;
  }

  lemma {:induction false} RunAppends(fleet: Fleet, s: State, a: seq<Action>, b: seq<Action>)
    requires Valid(fleet, s) && Guarded(fleet, s, a)
    requires Valid(fleet, Run(fleet, s, a)) ==> Guarded(fleet, Run(fleet, s, a), b)
    ensures Valid(fleet, Run(fleet, s, a)) && Guarded(fleet, s, a + b)
    ensures Run(fleet, s, a + b) == Run(fleet, Run(fleet, s, a), b)
    decreases |a|
  {
    if a == [] {
      assert a + b == b;
    } else {
      StepStaysValid(fleet, s, a[0]);
      RunAppends(fleet, Step(fleet, s, a[0]), a[1..], b);
      assert (a + b)[1..] == a[1..] + b;
    }
  }

  lemma TwoSensorHealth(fleet: Fleet, a: string, b: string, k: CountKey)
    requires a != b && fleet == map[a := Sensor(k.area, [k.parameter]), b := Sensor(k.area, [k.parameter])]
    ensures WellFormed(fleet)
    ensures forall other :: Covering(fleet, other) == if other == k then {a, b} else {}
  {
    forall other ensures Covering(fleet, other) == if other == k then {a, b} else {} {
      assert other == k <==> other.area == k.area && other.parameter == k.parameter;
    }
  }

  /**
   The guard cannot be dropped. One sensor recovers; after the consumer's DEL the watchdog opens
   a fault, decrements 0 to -1 and clamps; the consumer's INCR then leaves the count at 1
   although no sensor is healthy.
   */
  lemma UnguardedRaceOverstates(sensor: string, k: CountKey) returns (fleet: Fleet, s: State, actions: seq<Action>)
    ensures Valid(fleet, s) && Quiet(s) && Exact(fleet, s.redis)
    ensures forall a <- actions :: !a.Elapse?
    ensures Quiet(Run(fleet, s, actions))
    ensures Run(fleet, s, actions).redis.Count(k) == 1
    ensures Healthy(fleet, Run(fleet, s, actions).redis, k) == 0
  {
    fleet := map[sensor := Sensor(k.area, [k.parameter])];
    var r := Redis(map[k := 0], map[sensor := 1]);
    s := State(r, Idle, Idle);
    forall other ensures r.Count(other) == Healthy(fleet, r, other) {
      assert HealthySet(fleet, r, other) == {};
    }
    var one := [k.parameter];
    var healed := Redis(map[k := 0], map[]);
    actions := WatchdogOvertakes(fleet, sensor, k);
    assert r.faults - {sensor} == map[];
    actions := Prepend(fleet, State(r, Clear(sensor), Idle), Advance(Kafka), actions);
    actions := Prepend(fleet, State(r, Probe(sensor), Idle), Advance(Kafka), actions);
    actions := Prepend(fleet, s, Begin(Kafka, sensor, 1), actions);
    assert HealthySet(fleet, Run(fleet, s, actions).redis, k) == {};
  }

  /** Between the consumer's DEL and its INCR the watchdog opens a fault, decrements and clamps. */
  lemma WatchdogOvertakes(fleet: Fleet, sensor: string, k: CountKey) returns (actions: seq<Action>)
    requires fleet == map[sensor := Sensor(k.area, [k.parameter])]
    ensures forall a <- actions :: !a.Elapse?
    ensures var s := State(Redis(map[k := 0], map[]), Inc(sensor, [k.parameter]), Idle);
            && Valid(fleet, s)
            && Run(fleet, s, actions) == State(Redis(map[k := 1], map[sensor := 1]), Idle, Idle)
  {
    var one := [k.parameter];
    var inc := Inc(sensor, one);
    var healed := Redis(map[k := 0], map[]);
    var reopened := Redis(map[k := 0], map[sensor := 1]);
    actions := ClampThenIncrement(fleet, sensor, k);
    actions := Prepend(fleet, State(reopened, inc, Renew(sensor, 1)), Advance(Watchdog), actions);
    assert healed.faults[sensor := 1] == reopened.faults;
    actions := Prepend(fleet, State(healed, inc, Bump(sensor)), Advance(Watchdog), actions);
    actions := Prepend(fleet, State(healed, inc, Idle), Begin(Watchdog, sensor, 0), actions);
  }

  lemma ClampThenIncrement(fleet: Fleet, sensor: string, k: CountKey) returns (actions: seq<Action>)
    requires fleet == map[sensor := Sensor(k.area, [k.parameter])]
    ensures forall a <- actions :: !a.Elapse?
    ensures var s := State(Redis(map[k := 0], map[sensor := 1]), Inc(sensor, [k.parameter]), Dec(sensor, [k.parameter]));
            && Valid(fleet, s)
            && Run(fleet, s, actions) == State(Redis(map[k := 1], map[sensor := 1]), Idle, Idle)
  {
    var one := [k.parameter];
    var inc := Inc(sensor, one);
    var reopened := Redis(map[k := 0], map[sensor := 1]);
    var below := Redis(map[k := -1], map[sensor := 1]);
    assert one[1..] == [];
    assert Step(fleet, State(reopened, inc, Idle), Advance(Kafka)) == State(Redis(map[k := 1], map[sensor := 1]), Idle, Idle);
    actions := Prepend(fleet, State(reopened, inc, Idle), Advance(Kafka), []);
    assert below.counts[k := 0] == reopened.counts;
    actions := Prepend(fleet, State(below, inc, Clamp(sensor, one)), Advance(Watchdog), actions);
    assert reopened.counts[k := -1] == below.counts;
    actions := Prepend(fleet, State(reopened, inc, Dec(sensor, one)), Advance(Watchdog), actions);
  }

  lemma Prepend(fleet: Fleet, s: State, a: Action, rest: seq<Action>) returns (actions: seq<Action>)
    requires Valid(fleet, s)
    ensures actions == [a] + rest
    ensures Valid(fleet, Step(fleet, s, a))
    ensures Run(fleet, s, actions) == Run(fleet, Step(fleet, s, a), rest)
  {
    StepStaysValid(fleet, s, a);
    actions := [a] + rest;
    assert actions[1..] == rest;
  }

  /// ## One task alone makes the atomic call

  /** The state once `todo[0]` has been decremented, and clamped if need be. */
  function AfterVisit(fleet: Fleet, s: State, who: Source): State
    requires Valid(fleet, s) && s.TaskOf(who).Dec?
  {
    var t := s.TaskOf(who);
    var k := CountKey(fleet[t.sensor].area, t.todo[0]);
    s.Put(who, SetCount(s.redis, k, Clamped(s.redis.Count(k))), NextDec(t.sensor, t.todo[1..]))
  }

  lemma VisitStaysValid(fleet: Fleet, s: State, who: Source)
    requires Valid(fleet, s) && s.TaskOf(who).Dec?
    ensures Valid(fleet, AfterVisit(fleet, s, who))
  {
    assert forall p <- s.TaskOf(who).todo[1..] :: p in s.TaskOf(who).todo;
  }

  lemma VisitDec(fleet: Fleet, s: State, who: Source, rest: seq<Action>) returns (actions: seq<Action>)
    requires Valid(fleet, s) && s.TaskOf(who).Dec?
    requires forall a <- rest :: a == Advance(who)
    ensures Valid(fleet, AfterVisit(fleet, s, who))
    ensures forall a <- actions :: a == Advance(who)
    ensures Run(fleet, s, actions) == Run(fleet, AfterVisit(fleet, s, who), rest)
  {
    VisitStaysValid(fleet, s, who);
    StepStaysValid(fleet, s, Advance(who));
    var next := Step(fleet, s, Advance(who));
    actions := rest;
    if next.TaskOf(who).Clamp? {
      var t, redis := s.TaskOf(who), s.redis;
      var k := CountKey(fleet[t.sensor].area, t.todo[0]);
      assert redis.counts[k := redis.Count(k) - 1][k := 0] == redis.counts[k := 0];
      assert Step(fleet, next, Advance(who)) == AfterVisit(fleet, s, who);
      actions := Prepend(fleet, next, Advance(who), actions);
    }
    actions := Prepend(fleet, s, Advance(who), actions);
  }

  lemma SplitAt(parameters: seq<string>, done: nat)
    requires done < |parameters|
    ensures parameters[done..][0] == parameters[done] && parameters[done..][1..] == parameters[done + 1..]
    ensures parameters[..done + 1][..done] == parameters[..done]
  {
  }

  lemma {:induction false} FinishDec(
    fleet: Fleet, s: State, who: Source, sensor: string, counts: map<CountKey, int>, done: nat)
    returns (actions: seq<Action>)
    requires Valid(fleet, s) && sensor in fleet && done <= |fleet[sensor].parameters|
    requires s.TaskOf(who) == NextDec(sensor, fleet[sensor].parameters[done..])
    requires s.redis.counts == DecrementAll(counts, fleet[sensor].area, fleet[sensor].parameters[..done])
    ensures forall a <- actions :: a == Advance(who)
    ensures Run(fleet, s, actions)
         == s.Put(who, Redis(DecrementAll(counts, fleet[sensor].area, fleet[sensor].parameters), s.redis.faults), Idle)
    decreases |fleet[sensor].parameters| - done
  {
    var parameters := fleet[sensor].parameters;
    if done == |parameters| {
      assert parameters[..done] == parameters;
      actions := [];
    } else {
      SplitAt(parameters, done);
      var next := AfterVisit(fleet, s, who);
      VisitStaysValid(fleet, s, who);
      actions := FinishDec(fleet, next, who, sensor, counts, done + 1);
      actions := VisitDec(fleet, s, who, actions);
    }
  }

  lemma {:induction false} FinishInc(
    fleet: Fleet, s: State, who: Source, sensor: string, counts: map<CountKey, int>, done: nat)
    returns (actions: seq<Action>)
    requires Valid(fleet, s) && sensor in fleet && done <= |fleet[sensor].parameters|
    requires s.TaskOf(who) == NextInc(sensor, fleet[sensor].parameters[done..])
    requires s.redis.counts == IncrementAll(counts, fleet[sensor].area, fleet[sensor].parameters[..done])
    ensures forall a <- actions :: a == Advance(who)
    ensures Run(fleet, s, actions)
         == s.Put(who, Redis(IncrementAll(counts, fleet[sensor].area, fleet[sensor].parameters), s.redis.faults), Idle)
    decreases |fleet[sensor].parameters| - done
  {
    var parameters := fleet[sensor].parameters;
    if done == |parameters| {
      assert parameters[..done] == parameters;
      actions := [];
    } else {
      SplitAt(parameters, done);
      StepStaysValid(fleet, s, Advance(who));
      actions := FinishInc(fleet, Step(fleet, s, Advance(who)), who, sensor, counts, done + 1);
      actions := Prepend(fleet, s, Advance(who), actions);
    }
  }

  /** A call whose commands are not interrupted by the other task is the atomic call. */
  lemma UninterruptedCallIsAtomic(fleet: Fleet, s: State, who: Source, sensor: string, status: int, ts: string, id: nat)
    returns (actions: seq<Action>)
    requires Valid(fleet, s) && s.TaskOf(who).Idle? && sensor in fleet && (who == Watchdog ==> status == 0)
    ensures forall a <- actions :: a == Begin(who, sensor, status) || a == Advance(who)
    ensures Run(fleet, s, actions)
         == s.Put(who, AfterReading(s.redis, sensor, fleet[sensor].area, fleet[sensor].parameters, status, ts, id).redis, Idle)
  {
    StepStaysValid(fleet, s, Begin(who, sensor, status));
    var begun := Step(fleet, s, Begin(who, sensor, status));
    if status == 0 {
      actions := FaultIsAtomic(fleet, s, begun, who, sensor, ts, id);
    } else {
      actions := RecoveryIsAtomic(fleet, s, begun, who, sensor);
    }
    actions := Prepend(fleet, s, Begin(who, sensor, status), actions);
  }

  lemma FaultIsAtomic(fleet: Fleet, s: State, begun: State, who: Source, sensor: string, ts: string, id: nat)
    returns (actions: seq<Action>)
    requires Valid(fleet, begun) && sensor in fleet && begun == s.Put(who, s.redis, Bump(sensor))
    ensures forall a <- actions :: a == Advance(who)
    ensures Run(fleet, begun, actions)
         == s.Put(who, AfterFault(s.redis, sensor, fleet[sensor].area, fleet[sensor].parameters, ts, id).redis, Idle)
  {
    var parameters := fleet[sensor].parameters;
    StepStaysValid(fleet, begun, Advance(who));
    var bumped := Step(fleet, begun, Advance(who));
    StepStaysValid(fleet, bumped, Advance(who));
    var renewed := Step(fleet, bumped, Advance(who));
    assert parameters[0..] == parameters && parameters[..0] == [];
    if s.redis.Faults(sensor) == 0 {
      actions := FinishDec(fleet, renewed, who, sensor, s.redis.counts, 0);
    } else {
      actions := [];
    }
    actions := Prepend(fleet, bumped, Advance(who), actions);
    actions := Prepend(fleet, begun, Advance(who), actions);
  }

  lemma RecoveryIsAtomic(fleet: Fleet, s: State, begun: State, who: Source, sensor: string)
    returns (actions: seq<Action>)
    requires Valid(fleet, begun) && sensor in fleet && begun == s.Put(who, s.redis, Probe(sensor))
    ensures forall a <- actions :: a == Advance(who)
    ensures Run(fleet, begun, actions)
         == s.Put(who, AfterRecovery(s.redis, sensor, fleet[sensor].area, fleet[sensor].parameters).redis, Idle)
  {
    var parameters := fleet[sensor].parameters;
    StepStaysValid(fleet, begun, Advance(who));
    var probed := Step(fleet, begun, Advance(who));
    actions := [];
    if s.redis.Faults(sensor) != 0 {
      StepStaysValid(fleet, probed, Advance(who));
      assert parameters[0..] == parameters && parameters[..0] == [];
      actions := FinishInc(fleet, Step(fleet, probed, Advance(who)), who, sensor, s.redis.counts, 0);
      actions := Prepend(fleet, probed, Advance(who), actions);
    }
    actions := Prepend(fleet, begun, Advance(who), actions);
  }
}
