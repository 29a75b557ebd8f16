/**
 The ingestion gateway: every MQTT message is a task of its own. A task gives up control
 while the sensor cache queries Postgres and while Kafka takes the record, so lookups of
 many messages, also of the same sensor, overlap.
 */
module IngestionGateway {
  import opened Wrappers

  /** The active binding of a sensor, as Postgres holds it at each instant. */
  type Bindings = (real, string) -> Option<string>

  datatype Envelope = Envelope(sensorId: string, areaId: string, body: string)

  /** An MQTT payload: bytes that are no text raise outside the handler; bad JSON and bad schema are rejected. */
  datatype Payload = NotText | Invalid | Valid(envelope: Envelope)

  /** A cache entry; `sampled` is a history variable, the instant the query saw. */
  datatype Entry = Entry(value: Option<string>, expiresAt: real, sampled: real)

  datatype Task =
    | Queued(payload: Payload)
    | Looking(envelope: Envelope, since: real)
    | Producing(record: Record)

  /** A Kafka record: its key, its payload, when the binding was answered, and the instant that answer was sampled. */
  datatype Record = Record(key: string, envelope: Envelope, answeredAt: real, sampled: real)

  /** What the sensor cache told a task, and when; `sampled` as in its entry. */
  datatype Answer = Answer(sensor: string, binding: Option<string>, answeredAt: real, sampled: real)

  datatype State = State(
    clock: real, store: map<string, Entry>, tasks: map<nat, Task>, answers: seq<Answer>, records: seq<Record>,
    received: nat, accepted: nat, rejected: nat, produceErrors: nat, crashed: nat)

  const START := State(0.0, map[], map[], [], [], 0, 0, 0, 0, 0)

  datatype Action =
    | Receive(payload: Payload)
    | Start(id: nat, now: real)
    | Fetched(id: nat, now: real, sampled: real, ok: bool)
    | Sent(id: nat, ok: bool)

  datatype Config = Config(ttl: real, latency: real, bindings: Bindings)

  ghost predicate Enabled(c: Config, s: State, a: Action) {
    match a
    case Receive(_) => true
    case Start(id, now) => id in s.tasks && s.tasks[id].Queued? && s.clock <= now
    case Fetched(id, now, sampled, _) =>
      && id in s.tasks && s.tasks[id].Looking? && s.clock <= now
      && s.tasks[id].since <= sampled <= now <= s.tasks[id].since + c.latency
    case Sent(id, _) => id in s.tasks && s.tasks[id].Producing?
  }

  function Ended(s: State, id: nat): State {
    s.(tasks := s.tasks - {id})
  }

  function Rejected(s: State, id: nat): State {
    Ended(s, id).(rejected := s.rejected + 1)
  }

  /** What the pipeline does with the answer of the cache. */
  function Answered(s: State, id: nat, envelope: Envelope, binding: Option<string>, now: real, sampled: real): State {
    var told := s.(answers := s.answers + [Answer(envelope.sensorId, binding, now, sampled)]);
    if binding.None? || binding.value != envelope.areaId then Rejected(told, id)
    else told.(tasks := s.tasks[id := Producing(Record(binding.value, envelope, now, sampled))])
  }

  function Step(c: Config, s: State, a: Action): State
    requires Enabled(c, s, a)
  {
    match a
    case Receive(payload) =>
      s.(received := s.received + 1, tasks := s.tasks[s.received := Queued(payload)])
    case Start(id, now) =>
      var s' := s.(clock := now);
      (match s.tasks[id].payload
       case NotText => Ended(s', id).(crashed := s.crashed + 1)
       case Invalid => Rejected(s', id)
       case Valid(envelope) =>
         if envelope.sensorId in s.store && s.store[envelope.sensorId].expiresAt > now then
           var entry := s.store[envelope.sensorId];
           Answered(s', id, envelope, entry.value, now, entry.sampled)
         else
           s'.(tasks := s.tasks[id := Looking(envelope, now)]))
    case Fetched(id, now, sampled, ok) =>
      var envelope := s.tasks[id].envelope;
      var binding := if ok then c.bindings(sampled, envelope.sensorId) else None;
      var stored := s.store[envelope.sensorId := Entry(binding, now + c.ttl, sampled)];
      Answered(s.(clock := now, store := stored), id, envelope, binding, now, sampled)
    case Sent(id, ok) =>
      if ok then Ended(s, id).(accepted := s.accepted + 1, records := s.records + [s.tasks[id].record])
      else Ended(s, id).(produceErrors := s.produceErrors + 1)
  }

  /** The states some interleaving leads to. */
  ghost predicate Reaches(c: Config, s: State, actions: seq<Action>, t: State)
    decreases |actions|
  {
    if actions == [] then s == t else
      var last := |actions| - 1;
      exists u :: Reaches(c, s, actions[..last], u) && Enabled(c, u, actions[last]) && Step(c, u, actions[last]) == t
  }

  /// ## The program

  class SensorCache {
    const ttl: real
    var store: map<string, Entry>

    constructor (ttl: real)
      ensures this.ttl == ttl && store == map[]
    {
      this.ttl := ttl;
      store := map[];
    }

    /** The part of `get_area_id` before the query: a live entry answers at once. */
    method Lookup(sensor: string, now: real) returns (live: Option<Entry>)
      ensures live == if sensor in store && store[sensor].expiresAt > now then Some(store[sensor]) else None
    {
      if sensor in store && store[sensor].expiresAt > now {
        return Some(store[sensor]);
      }
      return None;
    }

    /** The part after the query: whatever it gave, also the None of an error, is cached. */
    method Fill(sensor: string, value: Option<string>, now: real, sampled: real)
      modifies this
      ensures store == old(store)[sensor := Entry(value, now + ttl, sampled)]
    {
      store := store[sensor := Entry(value, now + ttl, sampled)];
    }
  }

  class Gateway {
    const cache: SensorCache
    var clock: real
    var tasks: map<nat, Task>
    ghost var answers: seq<Answer>
    var records: seq<Record>
    var received: nat
    var accepted: nat
    var rejected: nat
    var produceErrors: nat
    var crashed: nat

    ghost function View(): State
      reads this, cache
    {
      State(clock, cache.store, tasks, answers, records, received, accepted, rejected, produceErrors, crashed)
    }

    constructor (cache: SensorCache)
      requires cache.store == map[]
      ensures this.cache == cache && View() == START
    {
      this.cache := cache;
      clock, tasks, answers, records := 0.0, map[], [], [];
      received, accepted, rejected, produceErrors, crashed := 0, 0, 0, 0, 0;
    }

    method OnMessage(payload: Payload)
      modifies this`received, this`tasks
      ensures forall c :: View() == Step(c, old(View()), Receive(payload))
    {
      tasks := tasks[received := Queued(payload)];
      received := received + 1;
    }

    method Reject(id: nat)
      modifies this`tasks, this`rejected
      ensures View() == Rejected(old(View()), id)
    {
      rejected := rejected + 1;
      tasks := tasks - {id};
    }

    /** Steps 4 to 6 of the pipeline: unknown sensor, area mismatch, or a record for Kafka. */
    method CheckBinding(id: nat, envelope: Envelope, binding: Option<string>, now: real, sampled: real)
      modifies this`tasks, this`answers, this`rejected
      ensures View() == Answered(old(View()), id, envelope, binding, now, sampled)
    {
      answers := answers + [Answer(envelope.sensorId, binding, now, sampled)];
      if binding.None? {
        Reject(id);
        return;
      }
      if envelope.areaId != binding.value {
        Reject(id);
        return;
      }
      tasks := tasks[id := Producing(Record(binding.value, envelope, now, sampled))];
    }

    method StartProcess(id: nat, now: real, ghost c: Config)
      requires Enabled(c, View(), Start(id, now))
      modifies this
      ensures View() == Step(c, old(View()), Start(id, now))
    {
      clock := now;
      match tasks[id].payload
      case NotText =>
        crashed := crashed + 1;
        tasks := tasks - {id};
      case Invalid =>
        Reject(id);
      case Valid(envelope) =>
        var live := cache.Lookup(envelope.sensorId, now);
        if live.Some? {
          CheckBinding(id, envelope, live.value.value, now, live.value.sampled);
        } else {
          tasks := tasks[id := Looking(envelope, now)];
        }
    }

    /** The query returns a row, no row, or an error, which reads as no row. */
    method FinishLookup(id: nat, now: real, sampled: real, ok: bool, row: Option<string>, ghost c: Config)
      requires Enabled(c, View(), Fetched(id, now, sampled, ok)) && c.ttl == cache.ttl
      requires ok ==> row == c.bindings(sampled, tasks[id].envelope.sensorId)
      modifies this, cache
      ensures View() == Step(c, old(View()), Fetched(id, now, sampled, ok))
    {
      var envelope := tasks[id].envelope;
      var binding := if ok then row else None;
      clock := now;
      cache.Fill(envelope.sensorId, binding, now, sampled);
      CheckBinding(id, envelope, binding, now, sampled);
    }

    method FinishSend(id: nat, ok: bool, ghost c: Config)
      requires Enabled(c, View(), Sent(id, ok))
      modifies this
      ensures View() == Step(c, old(View()), Sent(id, ok))
    {
      if ok {
        records := records + [tasks[id].record];
        accepted := accepted + 1;
      } else {
        produceErrors := produceErrors + 1;
      }
      tasks := tasks - {id};
    }
  }

  /// ## Staleness and accounting

  /** The entry's value was the stored binding when sampled, and it expires soon enough after that. */
  ghost predicate FreshEntry(c: Config, clock: real, sensor: string, e: Entry) {
    e.value.Some? ==> c.bindings(e.sampled, sensor) == e.value && e.expiresAt <= e.sampled + c.ttl + c.latency && e.sampled <= clock
  }

  /** The key is the payload's area and was the sensor's binding less than ttl + latency before the answer. */
  ghost predicate Bound(c: Config, r: Record) {
    && r.key == r.envelope.areaId
    && c.bindings(r.sampled, r.envelope.sensorId) == Some(r.key)
    && r.sampled <= r.answeredAt < r.sampled + c.ttl + c.latency
  }

  /** An area that was answered was the sensor's binding less than ttl + latency before the answer. */
  ghost predicate Recent(c: Config, a: Answer) {
    a.binding.Some? ==>
      && c.bindings(a.sampled, a.sensor) == a.binding
      && a.sampled <= a.answeredAt < a.sampled + c.ttl + c.latency
  }

  ghost predicate Invariant(c: Config, s: State) {
    && (forall sensor <- s.store :: FreshEntry(c, s.clock, sensor, s.store[sensor]))
    && (forall id <- s.tasks :: id < s.received && (s.tasks[id].Producing? ==> Bound(c, s.tasks[id].record)))
    && (forall a <- s.answers :: Recent(c, a))
    && (forall r <- s.records :: Bound(c, r))
    && s.received == s.accepted + s.rejected + s.produceErrors + s.crashed + |s.tasks|
  }

  lemma ReplaceOne(tasks: map<nat, Task>, id: nat, task: Task)
    ensures |tasks[id := task]| == if id in tasks then |tasks| else |tasks| + 1
  {
  }

  lemma AnsweredKeepsInvariant(
    c: Config, s: State, id: nat, envelope: Envelope, binding: Option<string>, now: real, sampled: real)
    requires Invariant(c, s) && id in s.tasks
    requires binding.Some? ==>
               c.bindings(sampled, envelope.sensorId) == binding && sampled <= now < sampled + c.ttl + c.latency
    ensures Invariant(c, Answered(s, id, envelope, binding, now, sampled))
  {
  }

  lemma EndedKeepsOthers(c: Config, s: State, id: nat)
    requires Invariant(c, s) && id in s.tasks
    ensures |Ended(s, id).tasks| == |s.tasks| - 1
    ensures forall other <- Ended(s, id).tasks :: other in s.tasks && Ended(s, id).tasks[other] == s.tasks[other]
  {
  }

  lemma StartKeepsInvariant(c: Config, s: State, id: nat, now: real)
    requires 0.0 < c.ttl && Invariant(c, s) && Enabled(c, s, Start(id, now))
    ensures Invariant(c, Step(c, s, Start(id, now)))
  {
    var ticked := s.(clock := now);
    assert Invariant(c, ticked) by {
      forall sensor <- s.store ensures FreshEntry(c, now, sensor, s.store[sensor]) {
        assert FreshEntry(c, s.clock, sensor, s.store[sensor]);
      }
    }
    match s.tasks[id].payload
    case NotText => EndedKeepsOthers(c, ticked, id);
    case Invalid => EndedKeepsOthers(c, ticked, id);
    case Valid(envelope) =>
      if envelope.sensorId in s.store && s.store[envelope.sensorId].expiresAt > now {
        var entry := s.store[envelope.sensorId];
        assert FreshEntry(c, s.clock, envelope.sensorId, entry);
        AnsweredKeepsInvariant(c, ticked, id, envelope, entry.value, now, entry.sampled);
      } else {
        ReplaceOne(s.tasks, id, Looking(envelope, now));
      }
  }

  lemma FetchedKeepsInvariant(c: Config, s: State, a: Action)
    requires 0.0 < c.ttl && Invariant(c, s) && a.Fetched? && Enabled(c, s, a)
    ensures Invariant(c, Step(c, s, a))
  {
  }

  lemma StepKeepsInvariant(c: Config, s: State, a: Action)
    requires 0.0 < c.ttl && Invariant(c, s) && Enabled(c, s, a)
    ensures Invariant(c, Step(c, s, a))
  {
    match a
    case Receive(payload) => ReplaceOne(s.tasks, s.received, Queued(payload));
    case Start(id, now) => StartKeepsInvariant(c, s, id, now);
    case Fetched(_, _, _, _) => FetchedKeepsInvariant(c, s, a);
    case Sent(id, _) => EndedKeepsOthers(c, s, id);
  }

  lemma {:induction false} ReachableKeepsInvariant(c: Config, actions: seq<Action>, s: State)
    requires 0.0 < c.ttl && Reaches(c, START, actions, s)
    ensures Invariant(c, s)
    decreases |actions|
  {
    if actions != [] {
      var last := |actions| - 1;
      var u :| Reaches(c, START, actions[..last], u) && Enabled(c, u, actions[last]) && Step(c, u, actions[last]) == s;
      ReachableKeepsInvariant(c, actions[..last], u);
      StepKeepsInvariant(c, u, actions[last]);
    }
  }

  /**
   However lookups overlap, with queries that take at most `latency`: every record's key is its payload's
   area and was the sensor's stored binding at an instant less than ttl + latency before the answer.
   */
  lemma RecordsCarryRecentBindings(c: Config, actions: seq<Action>, s: State)
    requires 0.0 < c.ttl && Reaches(c, START, actions, s)
    ensures forall r <- s.records :: Bound(c, r)
  {
    ReachableKeepsInvariant(c, actions, s);
  }

  /** The same bound holds for every area the cache answers, also where a message is then rejected for naming another. */
  lemma AnswersAreRecent(c: Config, actions: seq<Action>, s: State)
    requires 0.0 < c.ttl && Reaches(c, START, actions, s)
    ensures forall a <- s.answers :: Recent(c, a)
  {
    ReachableKeepsInvariant(c, actions, s);
  }

  /** Every message received is accepted, rejected, a produce error, in flight, or was no text at all. */
  lemma EveryMessageIsAccountedFor(c: Config, actions: seq<Action>, s: State)
    requires 0.0 < c.ttl && Reaches(c, START, actions, s)
    ensures s.received == s.accepted + s.rejected + s.produceErrors + |s.tasks| + s.crashed
  {
    ReachableKeepsInvariant(c, actions, s);
  }

  /// ## How long an answer lasts

  /** The query that action `a` ends was for the sensor. */
  ghost predicate EndsQueryFor(s: State, a: Action, sensor: string) {
    a.Fetched? && a.id in s.tasks && s.tasks[a.id].Looking? && s.tasks[a.id].envelope.sensorId == sensor
  }

  /** The states some interleaving leads to in which no query for the sensor returns. */
  ghost predicate ReachesWithout(c: Config, s: State, actions: seq<Action>, t: State, sensor: string)
    decreases |actions|
  {
    if actions == [] then s == t else
      var last := |actions| - 1;
      exists u ::
        && ReachesWithout(c, s, actions[..last], u, sensor)
        && Enabled(c, u, actions[last]) && !EndsQueryFor(u, actions[last], sensor) && Step(c, u, actions[last]) == t
  }

  lemma {:induction false} EntryStays(c: Config, s: State, actions: seq<Action>, t: State, sensor: string)
    requires sensor in s.store && ReachesWithout(c, s, actions, t, sensor)
    ensures sensor in t.store && t.store[sensor] == s.store[sensor]
    decreases |actions|
  {
    if actions != [] {
      var last := |actions| - 1;
      var u :| && ReachesWithout(c, s, actions[..last], u, sensor)
               && Enabled(c, u, actions[last]) && !EndsQueryFor(u, actions[last], sensor) && Step(c, u, actions[last]) == t;
      EntryStays(c, s, actions[..last], u, sensor);
    }
  }

  /** A waiting message of the sensor may start in `t` at `now`. */
  ghost predicate MayStart(c: Config, t: State, id: nat, now: real, sensor: string) {
    && Enabled(c, t, Start(id, now))
    && t.tasks[id].payload.Valid? && t.tasks[id].payload.envelope.sensorId == sensor
  }

  /// ## What becomes of a message

  /**
   What a message gets once its sensor's binding is answered: it becomes a record for Kafka exactly if the binding is
   the area it names, and is rejected otherwise; the answer is noted either way, and nothing else happens.
   */
  ghost predicate Decided(
    s: State, after: State, id: nat, envelope: Envelope, binding: Option<string>, now: real, sampled: real)
  {
    && (if binding == Some(envelope.areaId)
        then after.tasks == s.tasks[id := Producing(Record(envelope.areaId, envelope, now, sampled))]
             && after.rejected == s.rejected
        else after.tasks == s.tasks - {id} && after.rejected == s.rejected + 1)
    && after.answers == s.answers + [Answer(envelope.sensorId, binding, now, sampled)]
    && after.clock == now && after.records == s.records
    && after.received == s.received && after.accepted == s.accepted
    && after.produceErrors == s.produceErrors && after.crashed == s.crashed
  }

  /** The message whose query returns is decided by the row found, an error counting as none, which is cached for the ttl. */
  lemma QueryDecides(c: Config, s: State, a: Action)
    requires a.Fetched? && Enabled(c, s, a)
    ensures var envelope := s.tasks[a.id].envelope;
            var found := if a.ok then c.bindings(a.sampled, envelope.sensorId) else None;
            && Decided(s, Step(c, s, a), a.id, envelope, found, a.now, a.sampled)
            && Step(c, s, a).store == s.store[envelope.sensorId := Entry(found, a.now + c.ttl, a.sampled)]
  {
  }

  /**
   A message that starts: bytes that are no text raise and are counted apart, an invalid payload is rejected, a live
   cache entry decides at once, and otherwise the message waits for a query. The cache is not changed.
   */
  lemma StartDecides(c: Config, s: State, id: nat, now: real)
    requires Enabled(c, s, Start(id, now))
    ensures var after, payload := Step(c, s, Start(id, now)), s.tasks[id].payload;
            && after.store == s.store
            && match payload
               case NotText => after == s.(clock := now, tasks := s.tasks - {id}, crashed := s.crashed + 1)
               case Invalid => after == s.(clock := now, tasks := s.tasks - {id}, rejected := s.rejected + 1)
               case Valid(envelope) =>
                 if envelope.sensorId in s.store && now < s.store[envelope.sensorId].expiresAt then
                   var entry := s.store[envelope.sensorId];
                   Decided(s, after, id, envelope, entry.value, now, entry.sampled)
                 else
                   after == s.(clock := now, tasks := s.tasks[id := Looking(envelope, now)])
  {
  }

  function Count(actions: seq<Action>, counts: Action -> bool): nat {
    if actions == [] then 0 else
      Count(actions[..|actions| - 1], counts) + if counts(actions[|actions| - 1]) then 1 else 0
  }

  /**
   Over every interleaving the counters tell what happened: messages received, records Kafka took, which are the
   records it holds, and failed sends.
   */
  lemma {:induction false} CountersTell(c: Config, actions: seq<Action>, s: State)
    requires Reaches(c, START, actions, s)
    ensures s.received == Count(actions, (a: Action) => a.Receive?)
    ensures s.accepted == Count(actions, (a: Action) => a.Sent? && a.ok) == |s.records|
    ensures s.produceErrors == Count(actions, (a: Action) => a.Sent? && !a.ok)
    decreases |actions|
  {
    if actions != [] {
      var last := |actions| - 1;
      var u :| Reaches(c, START, actions[..last], u) && Enabled(c, u, actions[last]) && Step(c, u, actions[last]) == s;
      CountersTell(c, actions[..last], u);
      StepCounts(c, u, actions[last]);
    }
  }

  lemma StepCounts(c: Config, s: State, a: Action)
    requires Enabled(c, s, a)
    ensures var after := Step(c, s, a);
            && after.received == s.received + (if a.Receive? then 1 else 0)
            && after.accepted == s.accepted + (if a.Sent? && a.ok then 1 else 0)
            && |after.records| == |s.records| + (if a.Sent? && a.ok then 1 else 0)
            && after.produceErrors == s.produceErrors + (if a.Sent? && !a.ok then 1 else 0)
  {
  }

  /** Kafka taking a record appends just that record to its log. */
  lemma SendDelivers(c: Config, s: State, id: nat, ok: bool)
    requires Enabled(c, s, Sent(id, ok))
    ensures var after := Step(c, s, Sent(id, ok));
            && after.records == s.records + (if ok then [s.tasks[id].record] else [])
            && after.tasks == s.tasks - {id} && after.store == s.store && after.answers == s.answers
  {
  }

  /** What a message gets that starts when `a` was the last query for its sensor to return. */
  lemma LastAnswerDecides(c: Config, s: State, a: Action, actions: seq<Action>, t: State, id: nat, now: real)
    requires a.Fetched? && Enabled(c, s, a)
    requires var sensor := s.tasks[a.id].envelope.sensorId;
             ReachesWithout(c, Step(c, s, a), actions, t, sensor) && MayStart(c, t, id, now, sensor)
    ensures var envelope := t.tasks[id].payload.envelope;
            var answer := if a.ok then c.bindings(a.sampled, envelope.sensorId) else None;
            if now < a.now + c.ttl then Decided(t, Step(c, t, Start(id, now)), id, envelope, answer, now, a.sampled)
            else Step(c, t, Start(id, now)) == t.(clock := now, tasks := t.tasks[id := Looking(envelope, now)])
  {
    EntryStays(c, Step(c, s, a), actions, t, s.tasks[a.id].envelope.sensorId);
    StartDecides(c, t, id, now);
  }

  /**
   A database error is cached like an unknown sensor, whatever the comment in the program says. Whatever else goes
   on: as long as no other query for the sensor returns, its messages are rejected without a query if and only
   if they start within the ttl of the error, and otherwise query again.
   */
  lemma DatabaseErrorIsCached(c: Config, s: State, a: Action, actions: seq<Action>, t: State, id: nat, now: real)
    requires a.Fetched? && !a.ok && Enabled(c, s, a)
    requires var sensor := s.tasks[a.id].envelope.sensorId;
             ReachesWithout(c, Step(c, s, a), actions, t, sensor) && MayStart(c, t, id, now, sensor)
    ensures var after := Step(c, t, Start(id, now));
            && (now < a.now + c.ttl <==> id !in after.tasks && after.rejected == t.rejected + 1)
            && (now < a.now + c.ttl <==> !(id in after.tasks && after.tasks[id].Looking?))
  {
    LastAnswerDecides(c, s, a, actions, t, id, now);
  }

  /**
   An overlapping query for the sensor that returns later ends this: its messages pass if they start within the
   ttl of that query and name the area it found.
   */
  lemma LaterAnswerEndsRejection(
    c: Config, s: State, error: Action, between: seq<Action>, u: State, found: Action, actions: seq<Action>, t: State,
    id: nat, now: real)
    requires error.Fetched? && !error.ok && Enabled(c, s, error)
    requires var sensor := s.tasks[error.id].envelope.sensorId;
             && ReachesWithout(c, Step(c, s, error), between, u, sensor)
             && EndsQueryFor(u, found, sensor) && Enabled(c, u, found) && found.ok
             && c.bindings(found.sampled, sensor).Some?
             && ReachesWithout(c, Step(c, u, found), actions, t, sensor)
             && MayStart(c, t, id, now, sensor) && now < found.now + c.ttl
    ensures var envelope := t.tasks[id].payload.envelope;
            var after := Step(c, t, Start(id, now));
            Some(envelope.areaId) == c.bindings(found.sampled, envelope.sensorId)
            <==> id in after.tasks && after.tasks[id] == Producing(Record(envelope.areaId, envelope, now, found.sampled))
  {
    LastAnswerDecides(c, u, found, actions, t, id, now);
  }
}
