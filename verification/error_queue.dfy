/** The error-queue client (`ErrorQueueClient`): a drain bounded by a count
    snapshot, applying one of three per-message callbacks. */
module ErrorQueue {
  import opened Wrappers
  import opened Errors
  import opened PyValue
  import opened Broker

  /** A message waiting in the error queue: its body and its headers. */
  datatype ErrorMessage = ErrorMessage(body: Json, headers: Json)

  /** What one `drain_events(timeout=1)` call yields: a message (with what its
      `ack()` would do), a timeout, or any other exception. */
  datatype Delivery =
    | Deliver(message: ErrorMessage, ack: Outcome<Error>)
    | TimedOut
    | Broken(error: Error)

  /** The three callbacks: `on_error_message_retrieve`, `_requeue` and `_delete`. */
  datatype Action = Retrieve | Requeue | Delete

  /** What a drain does to the broker besides reading: republish a body, ack a message. */
  datatype QueueEffect = Republished(publication: Publication) | Acked(message: ErrorMessage)

  /** The working queue that requeued messages return to, and the error queue. */
  datatype ErrorQueueClient = ErrorQueueClient(queueName: string, errorQueueName: string)

  /** The effects a callback or a drain performed, and its value or exception. */
  datatype Drain = Drain(effects: seq<QueueEffect>, result: Result<seq<ErrorMessage>, Error>)

  /** Requeueing publishes the body to the default exchange, routed to the working queue. */
  function RequeuePublication(c: ErrorQueueClient, m: ErrorMessage): Publication {
    Publication(DefaultExchange, c.queueName, m.body, None, None)
  }

  /** One callback on one delivered message. On success the result is the one
      record the callback appended. */
  function OnErrorMessage(action: Action, c: ErrorQueueClient, publish: Publisher,
                          m: ErrorMessage, ack: Outcome<Error>): (d: Drain)
    ensures d.result.Ok? ==> d.result.value == [m]
    ensures action == Retrieve ==> d == Drain([], Ok([m]))
    ensures action == Delete ==> d.effects == (if ack.Pass? then [Acked(m)] else [])
    ensures action == Delete ==> (d.result.Ok? <==> ack.Pass?)
    ensures action == Requeue ==>
      && (publish(RequeuePublication(c, m)).Fail? ==> d.effects == [])
      && (publish(RequeuePublication(c, m)).Pass? && ack.Pass? ==>
            d.effects == [Republished(RequeuePublication(c, m)), Acked(m)])
      // a failed ack after the republish leaves the body in both queues
      && (publish(RequeuePublication(c, m)).Pass? && ack.Fail? ==>
            d == Drain([Republished(RequeuePublication(c, m))], Err(ack.error)))
      && (d.result.Ok? <==> publish(RequeuePublication(c, m)).Pass? && ack.Pass?)
    ensures Acked(m) in d.effects ==> action != Retrieve && ack.Pass?
  {
    match action
    case Retrieve => Drain([], Ok([m]))
    case Requeue =>
      var p := RequeuePublication(c, m);
      (match publish(p)
       case Fail(e) => Drain([], Err(e))
       case Pass =>
         match ack
         case Pass => Drain([Republished(p), Acked(m)], Ok([m]))
         case Fail(e) => Drain([Republished(p)], Err(e)))
    case Delete =>
      match ack
      case Pass => Drain([Acked(m)], Ok([m]))
      case Fail(e) => Drain([], Err(e))
  }

  /** The loop of `drain_messages` with `budget` iterations left; running out of
      deliveries reads as a timeout. */
  function Sweep(action: Action, c: ErrorQueueClient, publish: Publisher,
                 budget: nat, events: seq<Delivery>): (d: Drain)
    ensures d.result.Ok? ==> |d.result.value| <= budget && |d.result.value| <= |events|
    decreases budget
  {
    if budget == 0 || |events| == 0 then Drain([], Ok([]))
    else
      match events[0]
      case TimedOut => Drain([], Ok([]))
      case Broken(e) => Drain([], Err(e))
      case Deliver(m, ack) =>
        var step := OnErrorMessage(action, c, publish, m, ack);
        if step.result.Err? then step
        else
          var rest := Sweep(action, c, publish, budget - 1, events[1..]);
          Drain(step.effects + rest.effects,
                if rest.result.Ok? then Ok(step.result.value + rest.result.value) else rest.result)
  }

  /** `drain_messages`: snapshot the error queue's count, then sweep at most that
      many deliveries, starting from an empty result list. */
  function DrainMessages(c: ErrorQueueClient, action: Action, count: QueueCounter,
                         publish: Publisher, events: seq<Delivery>): (d: Drain)
    ensures count(c.errorQueueName).Err? ==> d == Drain([], Err(count(c.errorQueueName).error))
    ensures d.result.Ok? ==>
      count(c.errorQueueName).Ok? && |d.result.value| <= count(c.errorQueueName).value
  {
    match count(c.errorQueueName)
    case Err(e) => Drain([], Err(e))
    case Ok(n) => Sweep(action, c, publish, n, events)
  }

  // ---------------------------------------------------------------------------
  // A reference reading of a sweep: the leading deliveries it reaches.

  /** The number of leading `Deliver` events, capped at `budget`. */
  function Reach(budget: nat, events: seq<Delivery>): (k: nat)
    ensures k <= budget && k <= |events|
    ensures forall j :: 0 <= j < k ==> events[j].Deliver?
    ensures k < budget && k < |events| ==> !events[k].Deliver?
  {
    if budget == 0 || |events| == 0 || !events[0].Deliver? then 0
    else 1 + Reach(budget - 1, events[1..])
  }

  function Messages(events: seq<Delivery>): (ms: seq<ErrorMessage>)
    requires forall j :: 0 <= j < |events| ==> events[j].Deliver?
    ensures |ms| == |events|
    ensures forall j :: 0 <= j < |events| ==> ms[j] == events[j].message
  {
    if |events| == 0 then [] else [events[0].message] + Messages(events[1..])
  }

  /** The sweep stops on a broken delivery within reach of the budget. */
  predicate BrokenAtReach(budget: nat, events: seq<Delivery>) {
    var k := Reach(budget, events);
    k < budget && k < |events| && events[k].Broken?
  }

  /** Retrieve records, in delivery order, exactly the leading deliveries within
      the budget, and never acks or publishes. */
  lemma {:induction false} RetrieveSweep(c: ErrorQueueClient, publish: Publisher, budget: nat, events: seq<Delivery>)
    ensures var k := Reach(budget, events);
      Sweep(Retrieve, c, publish, budget, events)
        == if BrokenAtReach(budget, events) then Drain([], Err(events[k].error))
           else Drain([], Ok(Messages(events[..k])))
  {
    if budget == 0 || |events| == 0 || !events[0].Deliver? {
      assert events[..0] == [];
    } else {
      RetrieveSweep(c, publish, budget - 1, events[1..]);
      MessagesCons(events, Reach(budget - 1, events[1..]));
    }
  }

  predicate AllAcksPass(events: seq<Delivery>) {
    forall j :: 0 <= j < |events| && events[j].Deliver? ==> events[j].ack.Pass?
  }

  lemma AllAcksPassTail(events: seq<Delivery>)
    requires |events| > 0 && AllAcksPass(events)
    ensures AllAcksPass(events[1..])
  {
    forall j | 0 <= j < |events[1..]| && events[1..][j].Deliver?
      ensures events[1..][j].ack.Pass?
    {
      assert events[1..][j] == events[j + 1];
    }
  }

  lemma MessagesCons(events: seq<Delivery>, k: nat)
    requires k < |events| && forall j :: 0 <= j <= k ==> events[j].Deliver?
    ensures Messages(events[..k + 1]) == [events[0].message] + Messages(events[1..][..k])
  {
    assert events[..k + 1][1..] == events[1..][..k];
  }

  function AckAll(ms: seq<ErrorMessage>): (es: seq<QueueEffect>)
    ensures |es| == |ms|
    ensures forall j :: 0 <= j < |ms| ==> es[j] == Acked(ms[j])
  {
    if |ms| == 0 then [] else [Acked(ms[0])] + AckAll(ms[1..])
  }

  /** Delete records the leading deliveries within the budget and acks each of
      them once, in the same order, publishing nothing. */
  lemma {:induction false} DeleteSweep(c: ErrorQueueClient, publish: Publisher, budget: nat, events: seq<Delivery>)
    requires AllAcksPass(events)
    ensures var k := Reach(budget, events);
      Sweep(Delete, c, publish, budget, events)
        == if BrokenAtReach(budget, events) then Drain(AckAll(Messages(events[..k])), Err(events[k].error))
           else Drain(AckAll(Messages(events[..k])), Ok(Messages(events[..k])))
  {
    if budget == 0 || |events| == 0 || !events[0].Deliver? {
      assert events[..0] == [];
    } else {
      AllAcksPassTail(events);
      DeleteSweep(c, publish, budget - 1, events[1..]);
      var k := Reach(budget - 1, events[1..]);
      MessagesCons(events, k);
      var m := events[0].message;
      assert OnErrorMessage(Delete, c, publish, m, events[0].ack) == Drain([Acked(m)], Ok([m]));
      assert AckAll(Messages(events[..k + 1])) == [Acked(m)] + AckAll(Messages(events[1..][..k]));
    }
  }

  function RequeueAll(c: ErrorQueueClient, ms: seq<ErrorMessage>): (es: seq<QueueEffect>)
    ensures |es| == 2 * |ms|
    ensures forall j :: 0 <= j < |ms| ==>
      es[2 * j] == Republished(RequeuePublication(c, ms[j])) && es[2 * j + 1] == Acked(ms[j])
  {
    if |ms| == 0 then []
    else [Republished(RequeuePublication(c, ms[0])), Acked(ms[0])] + RequeueAll(c, ms[1..])
  }

  /** With a working broker, requeue republishes then acks each leading delivery
      within the budget, in order, and records them in the same order. */
  lemma {:induction false} RequeueSweep(c: ErrorQueueClient, publish: Publisher, budget: nat, events: seq<Delivery>)
    requires AllAcksPass(events)
    requires forall m :: publish(RequeuePublication(c, m)).Pass?
    ensures var k := Reach(budget, events);
      Sweep(Requeue, c, publish, budget, events)
        == if BrokenAtReach(budget, events) then Drain(RequeueAll(c, Messages(events[..k])), Err(events[k].error))
           else Drain(RequeueAll(c, Messages(events[..k])), Ok(Messages(events[..k])))
  {
    if budget == 0 || |events| == 0 || !events[0].Deliver? {
      assert events[..0] == [];
    } else {
      AllAcksPassTail(events);
      RequeueSweep(c, publish, budget - 1, events[1..]);
      var k := Reach(budget - 1, events[1..]);
      MessagesCons(events, k);
      var m := events[0].message;
      assert OnErrorMessage(Requeue, c, publish, m, events[0].ack)
          == Drain([Republished(RequeuePublication(c, m)), Acked(m)], Ok([m]));
    }
  }

  /** In every drain, an error message is acked only right after its body was
      republished (requeue) or with no publish at all (delete); retrieve never acks. */
  predicate AckDiscipline(action: Action, c: ErrorQueueClient, effects: seq<QueueEffect>) {
    && (action == Retrieve ==> effects == [])
    && (action == Delete ==> forall j :: 0 <= j < |effects| ==> effects[j].Acked?)
    && (action == Requeue ==>
          forall j :: 0 <= j < |effects| && effects[j].Acked? ==>
            j > 0 && effects[j - 1] == Republished(RequeuePublication(c, effects[j].message)))
  }

  lemma {:induction false} SweepAckDiscipline(action: Action, c: ErrorQueueClient, publish: Publisher,
                                              budget: nat, events: seq<Delivery>)
    ensures AckDiscipline(action, c, Sweep(action, c, publish, budget, events).effects)
  {
    if budget == 0 || |events| == 0 || !events[0].Deliver? {
    } else {
      var step := OnErrorMessage(action, c, publish, events[0].message, events[0].ack);
      if step.result.Ok? {
        SweepAckDiscipline(action, c, publish, budget - 1, events[1..]);
        var rest := Sweep(action, c, publish, budget - 1, events[1..]);
        var all := step.effects + rest.effects;
        if action == Requeue {
          assert |step.effects| == 2;
          forall j | 0 <= j < |all| && all[j].Acked?
            ensures j > 0 && all[j - 1] == Republished(RequeuePublication(c, all[j].message))
          {
            if j >= 2 {
              assert all[j] == rest.effects[j - 2];
              assert all[j - 1] == rest.effects[j - 3];
            }
          }
        }
      }
    }
  }

  /** The ack discipline holds of every drain, whatever the count snapshot says;
      in particular a retrieve drain has no effect on the broker. */
  lemma DrainAckDiscipline(c: ErrorQueueClient, action: Action, count: QueueCounter,
                           publish: Publisher, events: seq<Delivery>)
    ensures AckDiscipline(action, c, DrainMessages(c, action, count, publish, events).effects)
  {
    if count(c.errorQueueName).Ok? {
      SweepAckDiscipline(action, c, publish, count(c.errorQueueName).value, events);
    }
  }

  /** Deliveries beyond the budget (messages that arrived after the count snapshot)
      have no influence on the drain. */
  lemma {:induction false} SnapshotBound(action: Action, c: ErrorQueueClient, publish: Publisher,
                                         budget: nat, events: seq<Delivery>, later: seq<Delivery>)
    requires budget <= |events|
    ensures Sweep(action, c, publish, budget, events + later) == Sweep(action, c, publish, budget, events)
  {
    if budget == 0 {
    } else {
      assert (events + later)[0] == events[0];
      assert (events + later)[1..] == events[1..] + later;
      SnapshotBound(action, c, publish, budget - 1, events[1..], later);
    }
  }

  /** A timeout ends the drain normally with what was collected before it. */
  lemma {:induction false} TimeoutEndsDrain(c: ErrorQueueClient, action: Action, count: QueueCounter, publish: Publisher,
                         before: seq<Delivery>, after: seq<Delivery>)
    requires count(c.errorQueueName).Ok? && |before| < count(c.errorQueueName).value
    requires forall j :: 0 <= j < |before| ==> before[j].Deliver?
    // only delete and requeue ack, and only requeue publishes
    requires action != Retrieve ==> AllAcksPass(before)
    requires action == Requeue ==> forall m :: publish(RequeuePublication(c, m)).Pass?
    ensures DrainMessages(c, action, count, publish, before + [TimedOut] + after).result == Ok(Messages(before))
  {
    SweepUntilTimeout(action, c, publish, count(c.errorQueueName).value, before, after);
  }

  lemma {:induction false} SweepUntilTimeout(action: Action, c: ErrorQueueClient, publish: Publisher,
                                             budget: nat, before: seq<Delivery>, after: seq<Delivery>)
    requires |before| < budget
    requires forall j :: 0 <= j < |before| ==> before[j].Deliver?
    // only delete and requeue ack, and only requeue publishes
    requires action != Retrieve ==> AllAcksPass(before)
    requires action == Requeue ==> forall m :: publish(RequeuePublication(c, m)).Pass?
    ensures Sweep(action, c, publish, budget, before + [TimedOut] + after).result == Ok(Messages(before))
  {
    var events := before + [TimedOut] + after;
    if |before| == 0 {
      assert events[0] == TimedOut;
    } else {
      assert events[0] == before[0];
      assert events[1..] == before[1..] + [TimedOut] + after;
      if action != Retrieve {
        AllAcksPassTail(before);
      }
      SweepUntilTimeout(action, c, publish, budget - 1, before[1..], after);
    }
  }

  /** A drained record as the RPC result lists it: `{"body": ..., "headers": ...}`. */
  function RecordJson(m: ErrorMessage): Json {
    JDict(map["body" := m.body, "headers" := m.headers])
  }

  function RecordsJson(ms: seq<ErrorMessage>): (j: Json)
    ensures j.JList? && |j.items| == |ms|
    ensures forall k :: 0 <= k < |ms| ==> j.items[k] == RecordJson(ms[k])
  {
    JList(seq(|ms|, k requires 0 <= k < |ms| => RecordJson(ms[k])))
  }
}
