/**
 * The event bus: events are stored as rows with a status, published to a
 * topic exchange with the event type as routing key, and delivered to the
 * handlers subscribed to that type. A processed-mark per event id (kept in
 * Redis by the system) makes delivery idempotent.
 *
 * The broker, the database and the cache are fields of one object here:
 * `sent` is what went to the exchange, `events` the event table,
 * `processed` the set of ids that carry a processed-mark.
 */
module EventBus {
  import opened PyValues

  /** A subscribed handler coroutine. */
  type HandlerId = nat

  const Pending := "pending"
  const Completed := "completed"
  const FailedStatus := "failed"

  /** A row of the `events` table. */
  datatype EventRow = EventRow(eventType: string, source: string, payload: Obj,
                               status: string, retryCount: nat, processedAt: Option<int>)

  /** A published message: its JSON body and its routing key. */
  datatype Message = Message(eventId: nat, eventType: string, source: string, payload: Obj,
                             timestamp: int, routingKey: string)

  /** What one delivery did: nothing (already processed), all handlers ran,
      or the handlers up to and including `invoked`'s last one ran and that
      one raised. */
  datatype Delivery = Duplicate | Handled(invoked: seq<HandlerId>) | Aborted(invoked: seq<HandlerId>)

  class Bus {
    var handlers: map<string, seq<HandlerId>>
    /** One consumer per `subscribe` call, named after the queue it reads. */
    var consumers: seq<string>
    var processed: set<nat>
    var events: map<nat, EventRow>
    var nextEventId: nat
    var sent: seq<Message>

    /** Ids are issued in increasing order, a row has one of the three
        statuses, a completed row carries its processed-mark and time, and
        a failed row has been retried at least once. */
    ghost predicate Valid()
      reads this
    {
      && 1 <= nextEventId
      && (forall id :: id in events ==> 1 <= id < nextEventId)
      && (forall id :: id in events ==> events[id].status in {Pending, Completed, FailedStatus})
      && (forall id :: id in events && events[id].status == Completed ==> id in processed)
      && (forall id :: id in events ==> (events[id].processedAt.Some? <==> events[id].status == Completed))
      && (forall id :: id in events && events[id].status == FailedStatus ==> events[id].retryCount > 0)
    }

    constructor ()
      ensures Valid()
      ensures handlers == map[] && consumers == [] && processed == {}
      ensures events == map[] && sent == []
    {
      handlers := map[];
      consumers := [];
      processed := {};
      events := map[];
      nextEventId := 1;
      sent := [];
    }

    /** `publish`: stores a pending event, then sends it with its type as
        routing key; returns the new id. `now` is the message timestamp. */
    method Publish(eventType: string, payload: Obj, source: string, now: int) returns (id: nat)
      requires Valid()
      modifies this`events, this`nextEventId, this`sent
      ensures Valid()
      ensures id == old(nextEventId) && id !in old(events)
      ensures events == old(events)[id := EventRow(eventType, source, payload, Pending, 0, None)]
      ensures sent == old(sent) + [Message(id, eventType, source, payload, now, eventType)]
    {
      id := nextEventId;
      events := events[id := EventRow(eventType, source, payload, Pending, 0, None)];
      nextEventId := nextEventId + 1;
      sent := sent + [Message(id, eventType, source, payload, now, eventType)];
    }

    /** `subscribe`: appends the handler to the type's list and starts one
        more consumer on the type's queue. */
    method Subscribe(eventType: string, h: HandlerId)
      modifies this`handlers, this`consumers
      ensures eventType in handlers
      ensures handlers == old(handlers)[eventType :=
                (if eventType in old(handlers) then old(handlers)[eventType] else []) + [h]]
      ensures consumers == old(consumers) + ["queue_" + eventType]
    {
      if eventType !in handlers {
        handlers := handlers[eventType := []];
      }
      handlers := handlers[eventType := handlers[eventType] + [h]];
      consumers := consumers + ["queue_" + eventType];
    }

    /** The consumer of `eventType`'s queue receiving `msg`. A handler that
        raises (`raises(h)`) stops the loop; the event is then marked
        failed and the exception propagates. `now` is the processing time. */
    method ProcessMessage(eventType: string, msg: Message, raises: HandlerId -> bool, now: int)
      returns (d: Delivery)
      requires Valid() && eventType in handlers
      modifies this`processed, this`events
      ensures Valid()
      ensures msg.eventId in old(processed) ==> d == Duplicate && unchanged(this)
      ensures msg.eventId !in old(processed) ==> !d.Duplicate?
      ensures d.Handled? <==> msg.eventId !in old(processed) && forall k :: 0 <= k < |handlers[eventType]| ==> !raises(handlers[eventType][k])
      ensures d.Handled? ==> d.invoked == handlers[eventType]
      ensures d.Aborted? ==> exists k :: 0 <= k < |handlers[eventType]| && d.invoked == handlers[eventType][..k + 1]
                                         && raises(handlers[eventType][k])
                                         && forall j :: 0 <= j < k ==> !raises(handlers[eventType][j])
      ensures d.Handled? ==> processed == old(processed) + {msg.eventId}
      ensures d.Handled? ==> events == if msg.eventId in old(events)
                                       then old(events)[msg.eventId := old(events)[msg.eventId].(status := Completed, processedAt := Some(now))]
                                       else old(events)
      ensures d.Aborted? ==> processed == old(processed)
      ensures d.Aborted? ==> events == if msg.eventId in old(events)
                                       then old(events)[msg.eventId := old(events)[msg.eventId].(status := FailedStatus, retryCount := old(events)[msg.eventId].retryCount + 1)]
                                       else old(events)
      ensures old(msg.eventId in events && events[msg.eventId].status == Completed) ==> d == Duplicate
    {
      var id := msg.eventId;
      if id in processed {
        return Duplicate;
      }
      var hs := handlers[eventType];
      var i := 0;
      while i < |hs|
        invariant 0 <= i <= |hs|
        invariant forall j :: 0 <= j < i ==> !raises(hs[j])
      {
        if raises(hs[i]) {
          MarkFailed(id);
          assert handlers[eventType][i] == hs[i];
          return Aborted(hs[..i + 1]);
        }
        i := i + 1;
      }
      MarkCompleted(id, now);
      d := Handled(hs);
    }

    /** The success path after the handlers: the processed-mark is set, and
        a stored event becomes completed at `now`. */
    method MarkCompleted(id: nat, now: int)
      requires Valid()
      modifies this`processed, this`events
      ensures Valid()
      ensures processed == old(processed) + {id}
      ensures events == if id in old(events)
                        then old(events)[id := old(events)[id].(status := Completed, processedAt := Some(now))]
                        else old(events)
    {
      processed := processed + {id};
      if id in events {
        events := events[id := events[id].(status := Completed, processedAt := Some(now))];
      }
    }

    /** The failure path for an event without a processed-mark: a stored
        event becomes failed with one more retry. */
    method MarkFailed(id: nat)
      requires Valid() && id !in processed
      modifies this`events
      ensures Valid()
      ensures events == if id in old(events)
                        then old(events)[id := old(events)[id].(status := FailedStatus, retryCount := old(events)[id].retryCount + 1)]
                        else old(events)
    {
      if id in events {
        events := events[id := events[id].(status := FailedStatus, retryCount := events[id].retryCount + 1)];
      }
    }
  }
}
