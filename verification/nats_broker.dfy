/** The NATS side of `publish`: send when the circuit allows it, fall back to the disk queue when it
    does not or when the send fails.  The circuit breaker is another crate, so its `allow()` is an
    arbitrary input and what this code tells it is recorded. */
module NatsBrokerModel {
  import opened DiskTables
  import opened DiskQueueModel

  datatype CircuitCall = OnSuccess | Trip

  class NatsBroker {
    const queue: DiskQueue
    var circuit: seq<CircuitCall>
    var sent: seq<Offer>

    constructor (queue: DiskQueue)
      ensures this.queue == queue && circuit == [] && sent == []
    {
      this.queue := queue;
      circuit, sent := [], [];
    }

    /** Never fails while the disk can be written: the event is on the wire or in the queue, and not both. */
    method Publish(topic: string, event: Event, allow: bool, accepted: bool, now: int)
      requires queue.Valid()
      modifies this, queue
      ensures queue.Valid() && queue.drainRunning == old(queue.drainRunning)
      ensures allow && accepted ==>
        sent == old(sent) + [Offer(topic, event)] && circuit == old(circuit) + [OnSuccess] && queue.tables == old(queue.tables)
      ensures !(allow && accepted) ==>
        && sent == old(sent)
        && event.id in PendingIds(queue.tables)
        && (event.id !in PendingIds(old(queue.tables)) ==>
              PendingRow(event.id, topic, Encoded(event), now, 0) in queue.tables.pending)
        && queue.tables == Enqueued(old(queue.tables), queue.maxPending, topic, event, now)
        && circuit == if allow then old(circuit) + [Trip] else old(circuit)
    {
      EnqueueRespectsTheCap(queue.tables, queue.maxPending, topic, event, now);
      if !allow {
        var _ := queue.Enqueue(topic, event, now);
        return;
      }
      if accepted {
        sent := sent + [Offer(topic, event)];
        circuit := circuit + [OnSuccess];
      } else {
        circuit := circuit + [Trip];
        var _ := queue.Enqueue(topic, event, now);
      }
    }
  }
}
