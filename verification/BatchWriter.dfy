/**
 The batched telemetry writer. `run` gives up control only while it waits for the
 flush event and while an insert is under way; everything between two such points
 happens in one step, and `enqueue` may run at any of them.
 */
module BatchWriting {
  import opened Wrappers

  /** A timestamp text: a wall clock with an optional UTC offset, or something `fromisoformat` refuses. */
  datatype Stamp = Clock(clock: int, offset: Option<int>) | Malformed

  /** A clock without an offset is taken as UTC. */
  function ParseDt(s: Stamp): Option<int> {
    match s
    case Clock(clock, None) => Some(clock)
    case Clock(clock, Some(offset)) => Some(clock - offset)
    case Malformed => None
  }

  datatype Measurements = Measurements(
    waterLevel: Option<real>, flowVelocity: Option<real>, rainfall: Option<real>,
    soilSaturation: Option<real>, windSpeed: Option<real>, windDirection: Option<real>)

  datatype Message = Message(
    ts: Stamp, sensorId: string, areaId: string, status: int, mode: string,
    measurements: Measurements, ingestedAt: Stamp)

  datatype Row = Row(
    ts: int, sensorId: string, areaId: string, status: int, mode: string,
    waterLevel: Option<real>, flowVelocity: Option<real>, rainfall: Option<real>,
    soilSaturation: Option<real>, windSpeed: Option<real>, windDirection: Option<real>, ingestedAt: int)

  /** The twelve parallel arrays of the INSERT. */
  datatype Columns = Columns(
    ts: seq<int>, sensorId: seq<string>, areaId: seq<string>, status: seq<int>, mode: seq<string>,
    waterLevel: seq<Option<real>>, flowVelocity: seq<Option<real>>, rainfall: seq<Option<real>>,
    soilSaturation: seq<Option<real>>, windSpeed: seq<Option<real>>, windDirection: seq<Option<real>>,
    ingestedAt: seq<int>)
  {
    predicate OfLength(n: nat) {
      && |ts| == |sensorId| == |areaId| == |status| == |mode| == n
      && |waterLevel| == |flowVelocity| == |rainfall| == |soilSaturation| == |windSpeed| == |windDirection| == n
      && |ingestedAt| == n
    }

    /** What UNNEST makes of arrays of one length. */
    function Unnest(): seq<Row>
      requires OfLength(|ts|)
    {
      seq(|ts|, i requires 0 <= i < |ts| =>
        Row(ts[i], sensorId[i], areaId[i], status[i], mode[i], waterLevel[i], flowVelocity[i], rainfall[i],
            soilSaturation[i], windSpeed[i], windDirection[i], ingestedAt[i]))
    }
  }

  predicate Parsable(msg: Message) {
    ParseDt(msg.ts).Some? && ParseDt(msg.ingestedAt).Some?
  }

  predicate AllParsable(batch: seq<Message>) {
    forall msg <- batch :: Parsable(msg)
  }

  function RowOf(msg: Message): Row
    requires Parsable(msg)
  {
    var m := msg.measurements;
    Row(ParseDt(msg.ts).value, msg.sensorId, msg.areaId, msg.status, msg.mode, m.waterLevel, m.flowVelocity,
        m.rainfall, m.soilSaturation, m.windSpeed, m.windDirection, ParseDt(msg.ingestedAt).value)
  }

  function Rows(batch: seq<Message>): seq<Row>
    requires AllParsable(batch)
  {
    seq(|batch|, i requires 0 <= i < |batch| => RowOf(batch[i]))
  }

  /**
   Timestamps are instants: a clock without an offset is UTC, an offset of 0 changes nothing, and a clock that is ahead
   by its offset shows the same instant.
   */
  lemma OffsetsAreAhead(clock: int, offset: int, ahead: int)
    ensures ParseDt(Clock(clock, None)) == ParseDt(Clock(clock, Some(0))) == Some(clock)
    ensures ParseDt(Clock(clock + ahead, Some(offset + ahead))) == ParseDt(Clock(clock, Some(offset)))
  {
  }

  /** Unnesting takes each value of a row from the array of its name. */
  lemma UnnestByName(columns: Columns, i: nat)
    requires columns.OfLength(|columns.ts|) && i < |columns.ts|
    ensures var row := columns.Unnest()[i];
            && row.ts == columns.ts[i] && row.ingestedAt == columns.ingestedAt[i]
            && row.sensorId == columns.sensorId[i] && row.areaId == columns.areaId[i]
            && row.status == columns.status[i] && row.mode == columns.mode[i]
            && row.waterLevel == columns.waterLevel[i] && row.flowVelocity == columns.flowVelocity[i]
            && row.rainfall == columns.rainfall[i] && row.soilSaturation == columns.soilSaturation[i]
            && row.windSpeed == columns.windSpeed[i] && row.windDirection == columns.windDirection[i]
  {
  }

  /** The row written for a message holds each of its fields under the field's own name. */
  lemma RowHoldsFields(msg: Message)
    requires Parsable(msg)
    ensures var row, m := RowOf(msg), msg.measurements;
            && Some(row.ts) == ParseDt(msg.ts) && Some(row.ingestedAt) == ParseDt(msg.ingestedAt)
            && row.sensorId == msg.sensorId && row.areaId == msg.areaId && row.status == msg.status && row.mode == msg.mode
            && row.waterLevel == m.waterLevel && row.flowVelocity == m.flowVelocity && row.rainfall == m.rainfall
            && row.soilSaturation == m.soilSaturation && row.windSpeed == m.windSpeed
            && row.windDirection == m.windDirection
  {
  }

  /** Transposing a batch into columns and back gives its rows; one bad timestamp anywhere raises. */
  method BuildColumns(batch: seq<Message>) returns (columns: Option<Columns>)
    ensures columns.Some? <==> AllParsable(batch)
    ensures columns.Some? ==> columns.value.OfLength(|batch|) && columns.value.Unnest() == Rows(batch)
  {
    var ts, sensorId, areaId, status, mode := [], [], [], [], [];
    var waterLevel, flowVelocity, rainfall := [], [], [];
    var soilSaturation, windSpeed, windDirection := [], [], [];
    var ingestedAt := [];
    for i := 0 to |batch|
      invariant AllParsable(batch[..i])
      invariant Columns(ts, sensorId, areaId, status, mode, waterLevel, flowVelocity, rainfall,
                        soilSaturation, windSpeed, windDirection, ingestedAt).OfLength(i)
      invariant forall j | 0 <= j < i ::
                  Row(ts[j], sensorId[j], areaId[j], status[j], mode[j], waterLevel[j], flowVelocity[j], rainfall[j],
                      soilSaturation[j], windSpeed[j], windDirection[j], ingestedAt[j]) == RowOf(batch[..i][j])
    {
      var msg := batch[i];
      var tsParsed, ingestedAtParsed := ParseDt(msg.ts), ParseDt(msg.ingestedAt);
      if tsParsed.None? || ingestedAtParsed.None? {
        assert msg in batch && !Parsable(msg);
        return None;
      }
      ts := ts + [tsParsed.value];
      sensorId := sensorId + [msg.sensorId];
      areaId := areaId + [msg.areaId];
      status := status + [msg.status];
      mode := mode + [msg.mode];
      var m := msg.measurements;
      waterLevel := waterLevel + [m.waterLevel];
      flowVelocity := flowVelocity + [m.flowVelocity];
      rainfall := rainfall + [m.rainfall];
      soilSaturation := soilSaturation + [m.soilSaturation];
      windSpeed := windSpeed + [m.windSpeed];
      windDirection := windDirection + [m.windDirection];
      ingestedAt := ingestedAt + [ingestedAtParsed.value];
      assert batch[..i + 1] == batch[..i] + [msg];
    }
    assert batch[..|batch|] == batch;
    columns := Some(Columns(ts, sensorId, areaId, status, mode, waterLevel, flowVelocity, rainfall,
                            soilSaturation, windSpeed, windDirection, ingestedAt));
  }

  /// ## The writer as a state machine

  datatype Phase =
    | Waiting                            // in `wait_for`
    | Inserting(batch: seq<Message>)     // in `execute`
    | Dead                               // `run` has ended with an exception

  datatype State = State(buffer: seq<Message>, flushEvent: bool, phase: Phase, written: seq<Message>, lost: seq<Message>) {
    function InFlight(): seq<Message> {
      if phase.Inserting? then phase.batch else []
    }

    /** Everything the writer has ever been given, where it is now. */
    function Account(): seq<Message> {
      written + lost + InFlight() + buffer
    }
  }

  const START := State([], false, Waiting, [], [])

  datatype Action =
    | Enqueue(msg: Message)
    | Wake(timeout: bool)  // the wait ends: the interval is over, or the flush event is set
    | InsertOk
    | InsertFail

  function Step(batchMaxSize: int, s: State, a: Action): State {
    match a
    case Enqueue(msg) =>
      var buffer := s.buffer + [msg];
      s.(buffer := buffer, flushEvent := s.flushEvent || batchMaxSize <= |buffer|)
    case Wake(timeout) =>
      if !s.phase.Waiting? || !(timeout || s.flushEvent) then s
      else if s.buffer == [] then s.(flushEvent := false)
      else if AllParsable(s.buffer) then s.(buffer := [], flushEvent := false, phase := Inserting(s.buffer))
      else s.(buffer := [], flushEvent := false, phase := Dead, lost := s.lost + s.buffer)
    case InsertOk =>
      if !s.phase.Inserting? then s else s.(phase := Waiting, written := s.written + s.phase.batch)
    case InsertFail =>
      if !s.phase.Inserting? then s else s.(phase := Dead, buffer := s.phase.batch + s.buffer)
  }

  function Run(batchMaxSize: int, s: State, actions: seq<Action>): State
    decreases |actions|
  {
    if actions == [] then s else
      Step(batchMaxSize, Run(batchMaxSize, s, actions[..|actions| - 1]), actions[|actions| - 1])
  }

  function Enqueued(actions: seq<Action>): seq<Message> {
    if actions == [] then [] else
      var last := actions[|actions| - 1];
      Enqueued(actions[..|actions| - 1]) + if last.Enqueue? then [last.msg] else []
  }

  class BatchWriter {
    const batchMaxSize: int
    var buffer: seq<Message>
    var flushEvent: bool
    var running: bool
    var batch: seq<Message>         // the batch of the pending insert
    var pending: Option<Columns>    // its arguments
    var table: seq<Row>
    ghost var written: seq<Message>
    ghost var lost: seq<Message>

    ghost predicate Valid()
      reads this
    {
      && AllParsable(written) && table == Rows(written)
      && (pending.Some? ==>
            && running && AllParsable(batch)
            && pending.value.OfLength(|batch|) && pending.value.Unnest() == Rows(batch))
    }

    ghost function View(): State
      reads this
    {
      State(buffer, flushEvent,
            if !running then Dead else if pending.Some? then Inserting(batch) else Waiting, written, lost)
    }

    constructor (batchMaxSize: int)
      ensures Valid() && View() == START && this.batchMaxSize == batchMaxSize && table == []
    {
      this.batchMaxSize := batchMaxSize;
      buffer, flushEvent, running, batch, pending, table := [], false, true, [], None, [];
      written, lost := [], [];
    }

    method EnqueueMessage(msg: Message)
      requires Valid()
      modifies this`buffer, this`flushEvent
      ensures Valid() && View() == Step(batchMaxSize, old(View()), Enqueue(msg))
    {
      buffer := buffer + [msg];
      if batchMaxSize <= |buffer| {
        flushEvent := true;
      }
    }

    /** From the end of the wait to the insert: clear the event, swap the buffer out, build the columns. */
    method WakeAndSwap(timeout: bool)
      requires Valid() && View().phase.Waiting? && (timeout || flushEvent)
      modifies this
      ensures Valid() && table == old(table)
      ensures View() == Step(batchMaxSize, old(View()), Wake(timeout))
    {
      flushEvent := false;
      if buffer == [] {
        return;
      }
      batch, buffer := buffer, [];
      pending := BuildColumns(batch);
      if pending.None? {
        running := false;
        lost := lost + batch;
      }
    }

    /** The insert comes back. On failure the batch goes back in front and the exception ends `run`. */
    method FinishInsert(ok: bool)
      requires Valid() && View().phase.Inserting?
      modifies this
      ensures Valid() && View() == Step(batchMaxSize, old(View()), if ok then InsertOk else InsertFail)
      ensures table == old(table) + if ok then old(pending).value.Unnest() else []
    {
      if ok {
        table := table + pending.value.Unnest();
        written := written + batch;
      } else {
        buffer := batch + buffer;
        running := false;
      }
      pending := None;
    }
  }

  /// ## Conservation and order

  lemma StepConserves(batchMaxSize: int, s: State, a: Action)
    requires s.phase.Dead? || s.lost == []
    ensures Step(batchMaxSize, s, a).Account() == s.Account() + if a.Enqueue? then [a.msg] else []
    ensures Step(batchMaxSize, s, a).phase.Dead? || Step(batchMaxSize, s, a).lost == []
  {
  }

  /** In every interleaving, what was written, lost, in flight and buffered is what was enqueued, in order. */
  lemma {:induction false} NothingIsReorderedOrDuplicated(batchMaxSize: int, actions: seq<Action>)
    ensures var s := Run(batchMaxSize, START, actions);
            s.Account() == Enqueued(actions) && (s.phase.Dead? || s.lost == [])
    decreases |actions|
  {
    if actions != [] {
      var front := actions[..|actions| - 1];
      NothingIsReorderedOrDuplicated(batchMaxSize, front);
      StepConserves(batchMaxSize, Run(batchMaxSize, START, front), actions[|actions| - 1]);
    }
  }

  /** What is written or in flight was readable; what is lost, if anything is, was not. */
  lemma {:induction false} LostIsUnreadable(batchMaxSize: int, actions: seq<Action>)
    ensures var s := Run(batchMaxSize, START, actions);
            && AllParsable(s.written + s.InFlight())
            && (s.lost == [] || !AllParsable(s.lost))
            && (s.phase.Dead? || s.lost == [])
    decreases |actions|
  {
    if actions != [] {
      LostIsUnreadable(batchMaxSize, actions[..|actions| - 1]);
      var before, s := Run(batchMaxSize, START, actions[..|actions| - 1]), Run(batchMaxSize, START, actions);
      if s.lost == before.lost {
        forall msg <- s.written + s.InFlight() ensures msg in before.written + before.InFlight() || msg in before.buffer {}
      }
    }
  }

  lemma ReadableStreamIsSafe(batchMaxSize: int, actions: seq<Action>)
    requires AllParsable(Enqueued(actions))
    ensures Run(batchMaxSize, START, actions).lost == []
  {
    var s := Run(batchMaxSize, START, actions);
    NothingIsReorderedOrDuplicated(batchMaxSize, actions);
    LostIsUnreadable(batchMaxSize, actions);
    assert forall msg <- s.lost :: msg in s.Account();
  }

  /** With readable timestamps: written, then in flight, then buffered, is exactly the stream enqueued. */
  lemma {:induction false} Conservation(batchMaxSize: int, actions: seq<Action>)
    requires AllParsable(Enqueued(actions))
    ensures var s := Run(batchMaxSize, START, actions);
            s.written + s.InFlight() + s.buffer == Enqueued(actions)
  {
    var s := Run(batchMaxSize, START, actions);
    NothingIsReorderedOrDuplicated(batchMaxSize, actions);
    ReadableStreamIsSafe(batchMaxSize, actions);
  }

  /**
   A stream of messages is safe from loss, whatever the interleaving and whichever inserts fail, if and only if
   every timestamp in it is readable. If one is not, the first flush may lose the whole stream.
   */
  lemma NothingLostIffParsable(batchMaxSize: int, messages: seq<Message>)
    ensures (forall actions | Enqueued(actions) == messages :: Run(batchMaxSize, START, actions).lost == [])
            <==> AllParsable(messages)
  {
    if AllParsable(messages) {
      forall actions | Enqueued(actions) == messages ensures Run(batchMaxSize, START, actions).lost == [] {
        ReadableStreamIsSafe(batchMaxSize, actions);
      }
    } else {
      var actions := FirstFlushLosesAll(batchMaxSize, messages);
    }
  }

  lemma FirstFlushLosesAll(batchMaxSize: int, messages: seq<Message>) returns (actions: seq<Action>)
    requires !AllParsable(messages)
    ensures Enqueued(actions) == messages && Run(batchMaxSize, START, actions).lost == messages
  {
    var enqueues := Enqueues(messages);
    actions := enqueues + [Wake(true)];
    assert actions[..|enqueues|] == enqueues;
    EnqueuedByEnqueues(messages);
    EnqueuesOnlyFill(batchMaxSize, START, messages);
  }

  function Enqueues(messages: seq<Message>): seq<Action> {
    seq(|messages|, i requires 0 <= i < |messages| => Enqueue(messages[i]))
  }

  lemma {:induction false} EnqueuedByEnqueues(messages: seq<Message>)
    ensures Enqueued(Enqueues(messages)) == messages
    decreases |messages|
  {
    if messages != [] {
      var front := messages[..|messages| - 1];
      EnqueuedByEnqueues(front);
      assert Enqueues(messages)[..|messages| - 1] == Enqueues(front);
    }
  }

  lemma {:induction false} EnqueuesOnlyFill(batchMaxSize: int, s: State, messages: seq<Message>)
    ensures var t := Run(batchMaxSize, s, Enqueues(messages));
            t.buffer == s.buffer + messages && t.phase == s.phase && t.written == s.written && t.lost == s.lost
    decreases |messages|
  {
    if messages != [] {
      var front := messages[..|messages| - 1];
      EnqueuesOnlyFill(batchMaxSize, s, front);
      assert Enqueues(messages)[..|messages| - 1] == Enqueues(front);
      assert messages == front + [messages[|messages| - 1]];
    }
  }

  /// ## Wake-up

  ghost predicate WakeUpDue(batchMaxSize: int, s: State) {
    s.phase.Waiting? && batchMaxSize <= |s.buffer|
  }

  /** As long as the loop lives, the event is set exactly while the buffer is full, so no flush comes early either. */
  lemma {:induction false} FullBufferHasEvent(batchMaxSize: int, actions: seq<Action>)
    requires 1 <= batchMaxSize
    ensures var s := Run(batchMaxSize, START, actions);
            && (!s.phase.Dead? && batchMaxSize <= |s.buffer| ==> s.flushEvent)
            && (s.flushEvent ==> batchMaxSize <= |s.buffer|)
    decreases |actions|
  {
    if actions != [] {
      FullBufferHasEvent(batchMaxSize, actions[..|actions| - 1]);
    }
  }

  /** No wake-up is lost, in any run, if and only if the configured batch size is positive. */
  lemma NoLostWakeUp(batchMaxSize: int)
    ensures (forall actions :: WakeUpDue(batchMaxSize, Run(batchMaxSize, START, actions))
                               ==> Run(batchMaxSize, START, actions).flushEvent)
            <==> 1 <= batchMaxSize
  {
    if 1 <= batchMaxSize {
      forall actions | WakeUpDue(batchMaxSize, Run(batchMaxSize, START, actions))
        ensures Run(batchMaxSize, START, actions).flushEvent
      {
        FullBufferHasEvent(batchMaxSize, actions);
      }
    } else {
      var none: seq<Action> := [];
      assert Run(batchMaxSize, START, none) == START;
      assert WakeUpDue(batchMaxSize, Run(batchMaxSize, START, none)) && !Run(batchMaxSize, START, none).flushEvent;
    }
  }

  /** A full buffer needs no timeout: one successful flush writes all of it, whatever arrives meanwhile. */
  lemma FullBufferIsFlushed(batchMaxSize: int, actions: seq<Action>, meanwhile: seq<Message>)
    requires 1 <= batchMaxSize && AllParsable(Enqueued(actions))
    requires WakeUpDue(batchMaxSize, Run(batchMaxSize, START, actions))
    ensures var woken := Step(batchMaxSize, Run(batchMaxSize, START, actions), Wake(false));
            var done := Step(batchMaxSize, Run(batchMaxSize, woken, Enqueues(meanwhile)), InsertOk);
            done.written == Enqueued(actions) && done.buffer == meanwhile && done.phase.Waiting?
  {
    var s := Run(batchMaxSize, START, actions);
    FullBufferHasEvent(batchMaxSize, actions);
    Conservation(batchMaxSize, actions);
    forall msg <- s.buffer ensures Parsable(msg) {
      assert msg in s.written + s.InFlight() + s.buffer;
    }
    EnqueuesOnlyFill(batchMaxSize, Step(batchMaxSize, s, Wake(false)), meanwhile);
  }

  /// ## The end of `run`

  /** The step raises out of `run`: an insert fails, or a wait ends over a buffer with an unreadable timestamp. */
  predicate Raises(s: State, a: Action) {
    || (a.InsertFail? && s.phase.Inserting?)
    || (a.Wake? && s.phase.Waiting? && (a.timeout || s.flushEvent) && !AllParsable(s.buffer))
  }

  ghost predicate RaisesAt(batchMaxSize: int, actions: seq<Action>, n: nat)
    requires n < |actions|
  {
    Raises(Run(batchMaxSize, START, actions[..n]), actions[n])
  }

  /** `run` is over exactly when some step has raised. */
  lemma {:induction false} RunIsOverIff(batchMaxSize: int, actions: seq<Action>)
    ensures Run(batchMaxSize, START, actions).phase.Dead?
            <==> exists n | 0 <= n < |actions| :: RaisesAt(batchMaxSize, actions, n)
    decreases |actions|
  {
    if actions != [] {
      var last := |actions| - 1;
      var front := actions[..last];
      RunIsOverIff(batchMaxSize, front);
      forall n: nat | n < last ensures RaisesAt(batchMaxSize, front, n) == RaisesAt(batchMaxSize, actions, n) {
        assert front[..n] == actions[..n];
      }
      assert Run(batchMaxSize, START, actions).phase.Dead?
             <==> Run(batchMaxSize, START, front).phase.Dead? || RaisesAt(batchMaxSize, actions, last);
    }
  }

  /** Once a step has raised nothing is ever written again, and whatever is enqueued piles up. */
  lemma FailureStopsWritingForGood(batchMaxSize: int, before: seq<Action>, failing: Action, after: seq<Action>)
    requires Raises(Run(batchMaxSize, START, before), failing)
    ensures var s := Run(batchMaxSize, START, before + [failing]);
            var t := Run(batchMaxSize, START, before + [failing] + after);
            && t.written == s.written == Run(batchMaxSize, START, before).written
            && t.buffer == s.buffer + Enqueued(after)
            && t.phase.Dead? && t.lost == s.lost
  {
    assert (before + [failing])[..|before|] == before;
    RunOfAppend(batchMaxSize, START, before + [failing], after);
    DeadStaysDead(batchMaxSize, Run(batchMaxSize, START, before + [failing]), after);
  }

  lemma {:induction false} RunOfAppend(batchMaxSize: int, s: State, a: seq<Action>, b: seq<Action>)
    ensures Run(batchMaxSize, s, a + b) == Run(batchMaxSize, Run(batchMaxSize, s, a), b)
    decreases |b|
  {
    if b == [] {
      assert a + b == a;
    } else {
      RunOfAppend(batchMaxSize, s, a, b[..|b| - 1]);
      assert (a + b)[..|a + b| - 1] == a + b[..|b| - 1];
    }
  }

  lemma {:induction false} DeadStaysDead(batchMaxSize: int, s: State, actions: seq<Action>)
    requires s.phase.Dead?
    ensures Run(batchMaxSize, s, actions) == s.(buffer := s.buffer + Enqueued(actions),
                                                flushEvent := Run(batchMaxSize, s, actions).flushEvent)
    decreases |actions|
  {
    if actions != [] {
      DeadStaysDead(batchMaxSize, s, actions[..|actions| - 1]);
    }
  }
}
