/** The alert service: deduplicated persistence, then fan-out over Redis channels, and acknowledgement. */
module AlertStore {
  import opened Wrappers
  import opened Alerts

  datatype Ack = Ack(at: int, user: string, reason: string)
  datatype Row = Row(alert: Alert, acknowledged: Option<Ack>)

  datatype State = State(table: map<nat, Row>, areaChannels: map<string, seq<Alert>>, highChannel: seq<Alert>) {
    function AreaChannel(area: string): seq<Alert> {
      if area in areaChannels then areaChannels[area] else []
    }
  }

  const EMPTY := State(map[], map[], [])

  datatype Action =
    /** A Kafka message, `None` when it does not decode, and whether Redis takes each of the two publishes. */
    | Deliver(raw: Option<Alert>, areaUp: bool, highUp: bool)
    | Acknowledge(id: nat, ack: Ack)

  function Published(s: State, alert: Alert, areaUp: bool, highUp: bool): State {
    State(
      s.table,
      if areaUp then s.areaChannels[alert.area := s.AreaChannel(alert.area) + [alert]] else s.areaChannels,
      if alert.severity == High && highUp then s.highChannel + [alert] else s.highChannel)
  }

  function Step(s: State, a: Action): State {
    match a
    case Deliver(None, _, _) => s
    case Deliver(Some(alert), areaUp, highUp) =>
      if alert.id in s.table then s
      else Published(s.(table := s.table[alert.id := Row(alert, None)]), alert, areaUp, highUp)
    case Acknowledge(id, ack) =>
      if Acknowledges(s, a) then s.(table := s.table[id := s.table[id].(acknowledged := Some(ack))]) else s
  }

  /** The acknowledgement changes a row: it exists and has none yet. */
  predicate Acknowledges(s: State, a: Action) {
    a.Acknowledge? && a.id in s.table && s.table[a.id].acknowledged.None?
  }

  function Run(s: State, actions: seq<Action>): State {
    if actions == [] then s else Step(Run(s, actions[..|actions| - 1]), actions[|actions| - 1])
  }

  class AlertService {
    var table: map<nat, Row>
    var areaChannels: map<string, seq<Alert>>
    var highChannel: seq<Alert>

    ghost function View(): State
      reads this
    {
      State(table, areaChannels, highChannel)
    }

    constructor ()
      ensures View() == EMPTY
    {
      table, areaChannels, highChannel := map[], map[], [];
    }

    /** INSERT ... ON CONFLICT (alert_id) DO NOTHING. */
    method InsertAlert(alert: Alert) returns (inserted: bool)
      modifies this`table
      ensures inserted <==> alert.id !in old(table)
      ensures table == if inserted then old(table)[alert.id := Row(alert, None)] else old(table)
    {
      inserted := alert.id !in table;
      if inserted {
        table := table[alert.id := Row(alert, None)];
      }
    }

    /** Publish errors are swallowed, one channel at a time. */
    method Publish(alert: Alert, areaUp: bool, highUp: bool)
      modifies this`areaChannels, this`highChannel
      ensures View() == Published(old(View()), alert, areaUp, highUp)
    {
      if areaUp {
        var sent := if alert.area in areaChannels then areaChannels[alert.area] else [];
        areaChannels := areaChannels[alert.area := sent + [alert]];
      }
      if alert.severity == High {
        if highUp {
          highChannel := highChannel + [alert];
        }
      }
    }

    method Handle(raw: Option<Alert>, areaUp: bool, highUp: bool)
      modifies this
      ensures View() == Step(old(View()), Deliver(raw, areaUp, highUp))
    {
      if raw.None? {
        return;
      }
      var inserted := InsertAlert(raw.value);
      if !inserted {
        return;
      }
      Publish(raw.value, areaUp, highUp);
    }

    method AcknowledgeAlert(id: nat, ack: Ack) returns (updated: bool)
      modifies this`table
      ensures updated == Acknowledges(old(View()), Acknowledge(id, ack))
      ensures View() == Step(old(View()), Acknowledge(id, ack))
    {
      updated := id in table && table[id].acknowledged.None?;
      if updated {
        table := table[id := table[id].(acknowledged := Some(ack))];
      }
    }
  }

  /// ## The stream, without a table

  predicate Delivers(a: Action, id: nat) {
    a.Deliver? && a.raw.Some? && a.raw.value.id == id
  }

  predicate Delivered(actions: seq<Action>, id: nat) {
    exists a <- actions :: Delivers(a, id)
  }

  /** The stable deduplication of the stream: the first delivery of every alert id, in order. */
  function FirstDeliveries(actions: seq<Action>): seq<Action> {
    if actions == [] then [] else
      var front, last := actions[..|actions| - 1], actions[|actions| - 1];
      FirstDeliveries(front) +
      if last.Deliver? && last.raw.Some? && !Delivered(front, last.raw.value.id) then [last] else []
  }

  function ToArea(deliveries: seq<Action>, area: string): seq<Alert> {
    if deliveries == [] then [] else
      var d := deliveries[|deliveries| - 1];
      ToArea(deliveries[..|deliveries| - 1], area) +
      if d.Deliver? && d.raw.Some? && d.areaUp && d.raw.value.area == area then [d.raw.value] else []
  }

  function ToHigh(deliveries: seq<Action>): seq<Alert> {
    if deliveries == [] then [] else
      var d := deliveries[|deliveries| - 1];
      ToHigh(deliveries[..|deliveries| - 1]) +
      if d.Deliver? && d.raw.Some? && d.highUp && d.raw.value.severity == High then [d.raw.value] else []
  }

  function FirstDelivery(actions: seq<Action>, id: nat): (first: Option<Action>)
    ensures first.Some? ==> Delivers(first.value, id)
  {
    if actions == [] then None else
      var first := FirstDelivery(actions[..|actions| - 1], id);
      var last := actions[|actions| - 1];
      if first.None? && Delivers(last, id) then Some(last) else first
  }

  /** The first acknowledgement of an alert that comes after its first delivery. */
  function FirstAck(actions: seq<Action>, id: nat): Option<Ack> {
    if actions == [] then None else
      var front, last := actions[..|actions| - 1], actions[|actions| - 1];
      if FirstAck(front, id).None? && last.Acknowledge? && last.id == id && Delivered(front, id)
      then Some(last.ack) else FirstAck(front, id)
  }

  function SuccessfulAcks(actions: seq<Action>, id: nat): nat {
    if actions == [] then 0 else
      var front, last := actions[..|actions| - 1], actions[|actions| - 1];
      SuccessfulAcks(front, id) + if last.Acknowledge? && last.id == id && Acknowledges(Run(EMPTY, front), last) then 1 else 0
  }

  lemma DeliveredGrows(actions: seq<Action>, id: nat)
    requires actions != []
    ensures var front, last := actions[..|actions| - 1], actions[|actions| - 1];
            Delivered(actions, id) <==> Delivered(front, id) || Delivers(last, id)
  {
    assert actions == actions[..|actions| - 1] + [actions[|actions| - 1]];
  }

  /** The table holds exactly the first valid alert of each id, with its first acknowledgement. */
  lemma {:induction false} TableIsFirsts(actions: seq<Action>, id: nat)
    ensures var table := Run(EMPTY, actions).table;
            && (id in table <==> Delivered(actions, id))
            && (id in table <==> FirstDelivery(actions, id).Some?)
            && (id in table ==> Some(table[id].alert) == FirstDelivery(actions, id).value.raw)
            && (id in table ==> table[id].acknowledged == FirstAck(actions, id))
            && (id !in table ==> FirstAck(actions, id).None?)
    decreases |actions|
  {
    if actions != [] {
      TableIsFirsts(actions[..|actions| - 1], id);
      DeliveredGrows(actions, id);
    }
  }

  lemma ToAppend(deliveries: seq<Action>, d: Action, area: string)
    ensures ToArea(deliveries + [d], area)
         == ToArea(deliveries, area) +
            if d.Deliver? && d.raw.Some? && d.areaUp && d.raw.value.area == area then [d.raw.value] else []
    ensures ToHigh(deliveries + [d])
         == ToHigh(deliveries) +
            if d.Deliver? && d.raw.Some? && d.highUp && d.raw.value.severity == High then [d.raw.value] else []
  {
    assert (deliveries + [d])[..|deliveries|] == deliveries;
  }

  /** Each channel carries the stable deduplication of the stream, less what Redis refused on first delivery. */
  lemma {:induction false} ChannelsCarryDedup(actions: seq<Action>, area: string)
    ensures Run(EMPTY, actions).AreaChannel(area) == ToArea(FirstDeliveries(actions), area)
    ensures Run(EMPTY, actions).highChannel == ToHigh(FirstDeliveries(actions))
    decreases |actions|
  {
    if actions != [] {
      var front, last := actions[..|actions| - 1], actions[|actions| - 1];
      ChannelsCarryDedup(front, area);
      StepSends(Run(EMPTY, front), last, area);
      FirstDeliveriesGrow(actions);
      if last.Deliver? && last.raw.Some? {
        TableIsFirsts(front, last.raw.value.id);
        ToAppend(FirstDeliveries(front), last, area);
      }
    }
  }

  lemma FirstDeliveriesGrow(actions: seq<Action>)
    requires actions != []
    ensures var front, last := actions[..|actions| - 1], actions[|actions| - 1];
            FirstDeliveries(actions)
            == if last.Deliver? && last.raw.Some? && !Delivered(front, last.raw.value.id)
               then FirstDeliveries(front) + [last] else FirstDeliveries(front)
  {
  }

  /** A step appends to each channel at most the alert it delivers, if that is new. */
  lemma StepSends(s: State, a: Action, area: string)
    ensures var isNew := a.Deliver? && a.raw.Some? && a.raw.value.id !in s.table;
            && Step(s, a).AreaChannel(area)
               == s.AreaChannel(area) + (if isNew && a.areaUp && a.raw.value.area == area then [a.raw.value] else [])
            && Step(s, a).highChannel
               == s.highChannel + (if isNew && a.highUp && a.raw.value.severity == High then [a.raw.value] else [])
  {
  }

  /** Redelivering any alerts already delivered, even altered ones, changes neither the table nor any channel. */
  lemma {:induction false} ReplayChangesNothing(actions: seq<Action>, replay: seq<Action>)
    requires forall a <- replay :: a.Deliver? && (a.raw.Some? ==> Delivered(actions, a.raw.value.id))
    ensures Run(EMPTY, actions + replay) == Run(EMPTY, actions)
    decreases |replay|
  {
    if replay == [] {
      assert actions + replay == actions;
    } else {
      var front, last := replay[..|replay| - 1], replay[|replay| - 1];
      assert (actions + replay)[..|actions + replay| - 1] == actions + front;
      ReplayChangesNothing(actions, front);
      if last.raw.Some? {
        TableIsFirsts(actions, last.raw.value.id);
      }
    }
  }

  ghost predicate Carries(channel: seq<Alert>, id: nat) {
    exists sent <- channel :: sent.id == id
  }

  /**
   An alert is on a channel if and only if the channel was the right one, and up, at its first delivery:
   what later deliveries find or say changes nothing.
   */
  lemma {:induction false} OnChannelIffFirstPublished(actions: seq<Action>, id: nat, area: string)
    ensures var first, s := FirstDelivery(actions, id), Run(EMPTY, actions);
            && (Carries(s.AreaChannel(area), id)
                <==> first.Some? && first.value.areaUp && first.value.raw.value.area == area)
            && (Carries(s.highChannel, id)
                <==> first.Some? && first.value.highUp && first.value.raw.value.severity == High)
    decreases |actions|
  {
    if actions != [] {
      var front, last := actions[..|actions| - 1], actions[|actions| - 1];
      OnChannelIffFirstPublished(front, id, area);
      TableIsFirsts(front, id);
      StepSends(Run(EMPTY, front), last, area);
    }
  }

  lemma {:induction false} FirstDeliveryStays(actions: seq<Action>, d: Action, more: seq<Action>, id: nat)
    requires !Delivered(actions, id) && Delivers(d, id)
    ensures FirstDelivery(actions + [d] + more, id) == Some(d)
    decreases |more|
  {
    if more == [] {
      assert actions + [d] + more == actions + [d];
      assert (actions + [d])[..|actions|] == actions;
      TableIsFirsts(actions, id);
    } else {
      FirstDeliveryStays(actions, d, more[..|more| - 1], id);
      assert (actions + [d] + more)[..|actions| + |more|] == actions + [d] + more[..|more| - 1];
    }
  }

  /** Whether an alert is ever on its area channel is decided once: a first publish that fails is not repaired. */
  lemma FailedPublishIsNeverRepaired(actions: seq<Action>, d: Action, more: seq<Action>)
    requires d.Deliver? && d.raw.Some? && !Delivered(actions, d.raw.value.id)
    ensures Carries(Run(EMPTY, actions + [d] + more).AreaChannel(d.raw.value.area), d.raw.value.id) <==> d.areaUp
  {
    FirstDeliveryStays(actions, d, more, d.raw.value.id);
    OnChannelIffFirstPublished(actions + [d] + more, d.raw.value.id, d.raw.value.area);
  }

  /** Exactly one acknowledgement succeeds, once there is one after the alert arrived, and none otherwise. */
  lemma {:induction false} OneAckSucceeds(actions: seq<Action>, id: nat)
    ensures SuccessfulAcks(actions, id) == if FirstAck(actions, id).Some? then 1 else 0
    decreases |actions|
  {
    if actions != [] {
      OneAckSucceeds(actions[..|actions| - 1], id);
      TableIsFirsts(actions[..|actions| - 1], id);
    }
  }

  /** Once acknowledged, a row is never altered, whatever is delivered or acknowledged later. */
  lemma {:induction false} AcknowledgedRowIsFinal(actions: seq<Action>, more: seq<Action>, id: nat)
    requires id in Run(EMPTY, actions).table && Run(EMPTY, actions).table[id].acknowledged.Some?
    ensures id in Run(EMPTY, actions + more).table
    ensures Run(EMPTY, actions + more).table[id] == Run(EMPTY, actions).table[id]
    decreases |more|
  {
    if more == [] {
      assert actions + more == actions;
    } else {
      assert (actions + more)[..|actions + more| - 1] == actions + more[..|more| - 1];
      AcknowledgedRowIsFinal(actions, more[..|more| - 1], id);
    }
  }
}
