/** The sequential queue is the concurrent one left alone: a publisher or a drainer that nobody
    interrupts takes the protocol to exactly the tables the queue object computes. */
module QueueRefinement {
  import opened DiskTables
  import opened DiskQueueModel
  import opened QueueProtocol
  import opened Sets

  /** The awaits one enqueue passes when nobody else runs. */
  function EnqueueActions(s: State, t: Tid, now: int): seq<Action> {
    if |s.tables.pending| >= s.maxPending
    then [Count(t), TakeLock(t), Recount(t), Evict(t), Insert(t, now)]
    else [Count(t), Insert(t, now)]
  }

  lemma RunsCons(s: State, a: Action, rest: seq<Action>)
    requires Enabled(s, a) && Runs(Apply(s, a), rest)
    ensures Runs(s, [a] + rest) && Final(s, [a] + rest) == Final(Apply(s, a), rest)
  {
    RunsOne(s, a);
    RunsConcat(s, [a], rest);
  }

  lemma EvictionPath(s: State, t: Tid, now: int)
    requires t in s.publishers && s.publishers[t].AwaitingLock? && s.capLock == Nobody
    requires |s.tables.pending| >= s.maxPending
    ensures var acts := [TakeLock(t)] + ([Recount(t)] + ([Evict(t)] + [Insert(t, now)]));
      && Runs(s, acts)
      && Final(s, acts).tables == Enqueued(s.tables, s.maxPending, s.publishers[t].topic, s.publishers[t].event, now)
      && Final(s, acts).accepted == s.accepted + {s.publishers[t].event.id}
  {
    var s1 := Apply(s, TakeLock(t));
    var s2 := Apply(s1, Recount(t));
    var s3 := Apply(s2, Evict(t));
    RunsOne(s3, Insert(t, now));
    RunsCons(s2, Evict(t), [Insert(t, now)]);
    RunsCons(s1, Recount(t), [Evict(t)] + [Insert(t, now)]);
    RunsCons(s, TakeLock(t), [Recount(t)] + ([Evict(t)] + [Insert(t, now)]));
  }

  lemma LoneEnqueue(s: State, t: Tid, now: int)
    requires t in s.publishers && s.publishers[t].Counting? && s.capLock == Nobody
    ensures var acts := EnqueueActions(s, t, now);
      && Runs(s, acts)
      && Final(s, acts).tables == Enqueued(s.tables, s.maxPending, s.publishers[t].topic, s.publishers[t].event, now)
      && Final(s, acts).accepted == s.accepted + {s.publishers[t].event.id}
  {
    var s1 := Apply(s, Count(t));
    if |s.tables.pending| >= s.maxPending {
      EvictionPath(s1, t, now);
      RunsCons(s, Count(t), [TakeLock(t)] + ([Recount(t)] + ([Evict(t)] + [Insert(t, now)])));
      assert EnqueueActions(s, t, now) == [Count(t)] + ([TakeLock(t)] + ([Recount(t)] + ([Evict(t)] + [Insert(t, now)])));
    } else {
      RunsOne(s1, Insert(t, now));
      RunsCons(s, Count(t), [Insert(t, now)]);
      assert EnqueueActions(s, t, now) == [Count(t)] + [Insert(t, now)];
    }
  }

  function RowActions(d: Tid, row: PendingRow, reply: Reply): seq<Action> {
    [Handle(d, reply.accepted, reply.error)] +
    (if row.payload.Encoded? && reply.accepted then [Delete(d)] else [Settle(d, reply.at)])
  }

  function DrainActions(d: Tid, rows: seq<PendingRow>, k: nat, replies: nat -> Reply): seq<Action>
    requires k <= |rows|
    decreases |rows| - k
  {
    if k == |rows| then [Handle(d, false, "")]
    else RowActions(d, rows[k], replies(k)) + DrainActions(d, rows, k + 1, replies)
  }

  /** Where a drainer stands once the broker has answered for its next row. */
  function Answered(guarded: bool, rest: seq<PendingRow>, row: PendingRow, reply: Reply): Drainer {
    if row.payload.Garbled? then Settling(guarded, rest, "deserialize_error")
    else if reply.accepted then Deleting(guarded, rest)
    else Settling(guarded, rest, reply.error)
  }

  lemma HandledRow(s: State, d: Tid, rows: seq<PendingRow>, k: nat, reply: Reply)
    requires k < |rows| && d in s.drainers && s.drainers[d].Handling? && s.drainers[d].rows == rows[k..]
    ensures Enabled(s, Handle(d, reply.accepted, reply.error))
    ensures var s' := Apply(s, Handle(d, reply.accepted, reply.error));
      && s'.tables == s.tables && |s'.sentLog| == |s.sentLog| + Counted(rows[k], reply)
      && s'.drainRunning == s.drainRunning
      && d in s'.drainers && s'.drainers[d] == Answered(s.drainers[d].guarded, rows[k..], rows[k], reply)
  {
  }

  lemma SecondStep(s: State, d: Tid, rows: seq<PendingRow>, k: nat, reply: Reply)
    requires k < |rows| && d in s.drainers && !s.drainers[d].Parked?
    requires s.drainers[d] == Answered(s.drainers[d].guarded, rows[k..], rows[k], reply)
    ensures var second := if rows[k].payload.Encoded? && reply.accepted then Delete(d) else Settle(d, reply.at);
      && Enabled(s, second)
      && var s' := Apply(s, second);
         && s'.tables == AfterRow(s.tables, rows[k], reply) && s'.sentLog == s.sentLog
         && s'.drainRunning == s.drainRunning
         && d in s'.drainers && s'.drainers[d] == Handling(s.drainers[d].guarded, rows[k + 1..])
  {
    hide DeleteRow, MoveToDlq, UpdateAttempts;
    assert rows[k..][1..] == rows[k + 1..];
  }

  lemma LoneRow(s: State, d: Tid, rows: seq<PendingRow>, k: nat, reply: Reply)
    requires k < |rows| && d in s.drainers && s.drainers[d].Handling? && s.drainers[d].rows == rows[k..]
    ensures var acts := RowActions(d, rows[k], reply);
      && Runs(s, acts)
      && Final(s, acts).tables == AfterRow(s.tables, rows[k], reply)
      && |Final(s, acts).sentLog| == |s.sentLog| + Counted(rows[k], reply)
      && d in Final(s, acts).drainers
      && Final(s, acts).drainers[d] == Handling(s.drainers[d].guarded, rows[k + 1..])
      && Final(s, acts).drainRunning == s.drainRunning
  {
    hide DeleteRow, MoveToDlq, UpdateAttempts;
    var s1 := Apply(s, Handle(d, reply.accepted, reply.error));
    var second := if rows[k].payload.Encoded? && reply.accepted then Delete(d) else Settle(d, reply.at);
    HandledRow(s, d, rows, k, reply);
    SecondStep(s1, d, rows, k, reply);
    hide Apply, AfterRow, Counted;
    RunsOne(s1, second);
    RunsCons(s, Handle(d, reply.accepted, reply.error), [second]);
  }

  /** A drainer left alone publishes, deletes, bumps and dead-letters exactly as the queue object
      says, sends as many events as it counts, and leaves. */
  lemma {:induction false} LoneDrain(s: State, d: Tid, rows: seq<PendingRow>, k: nat, replies: nat -> Reply)
    requires k <= |rows| && d in s.drainers && s.drainers[d].Handling? && s.drainers[d].rows == rows[k..]
    ensures var acts := DrainActions(d, rows, k, replies);
      && Runs(s, acts)
      && Final(s, acts).tables == AfterRows(s.tables, rows, k, replies)
      && |Final(s, acts).sentLog| == |s.sentLog| + CountedFrom(rows, k, replies)
      && d in Final(s, acts).drainers && Final(s, acts).drainers[d].Parked?
      && Final(s, acts).drainRunning == (s.drainRunning && !s.drainers[d].guarded)
    decreases |rows| - k
  {
    if k == |rows| {
      RunsOne(s, Handle(d, false, ""));
    } else {
      LoneRow(s, d, rows, k, replies(k));
      var s1 := Final(s, RowActions(d, rows[k], replies(k)));
      LoneDrain(s1, d, rows, k + 1, replies);
      RunsConcat(s, RowActions(d, rows[k], replies(k)), DrainActions(d, rows, k + 1, replies));
    }
  }

  lemma FetchBatch(s: State, d: Tid)
    requires d in s.drainers && s.drainers[d].Parked? && !s.drainRunning
    ensures Runs(s, [BeginDrainNats(d)] + [Fetch(d)])
    ensures Final(s, [BeginDrainNats(d)] + [Fetch(d)])
         == s.(drainers := s.drainers[d := Handling(true, OldestBatch(s.tables))], drainRunning := true)
  {
    var s1 := Apply(s, BeginDrainNats(d));
    RunsOne(s, BeginDrainNats(d));
    RunsOne(s1, Fetch(d));
    RunsConcat(s, [BeginDrainNats(d)], [Fetch(d)]);
    Overwritten(s.drainers, d, Fetching(true), Handling(true, OldestBatch(s.tables)));
  }

  /** A whole undisturbed `drain_nats`, guard and fetch included, is the queue object's drain. */
  lemma LoneDrainNats(s: State, d: Tid, replies: nat -> Reply)
    requires d in s.drainers && s.drainers[d].Parked? && !s.drainRunning
    ensures var acts := ([BeginDrainNats(d)] + [Fetch(d)]) + DrainActions(d, OldestBatch(s.tables), 0, replies);
      && Runs(s, acts)
      && Final(s, acts).tables == Drained(s.tables, replies)
      && |Final(s, acts).sentLog| == |s.sentLog| + DrainCount(s.tables, replies)
      && d in Final(s, acts).drainers && Final(s, acts).drainers[d].Parked? && !Final(s, acts).drainRunning
  {
    var batch := OldestBatch(s.tables);
    FetchBatch(s, d);
    var s1 := Final(s, [BeginDrainNats(d)] + [Fetch(d)]);
    assert batch[0..] == batch;
    LoneDrain(s1, d, batch, 0, replies);
    RunsConcat(s, [BeginDrainNats(d)] + [Fetch(d)], DrainActions(d, batch, 0, replies));
  }

  /** An undisturbed replay is the queue object's. */
  lemma LoneReplay(s: State, r: Tid, id: EventId, now: int)
    requires r in s.replayers && s.replayers[r].Quiet? && KeyedById(s.tables) && id in s.tables.dead
    ensures var acts := [BeginReplay(r, id)] + ([Reinsert(r, now)] + [Unbury(r)]);
      && Runs(s, acts)
      && Final(s, acts).tables == Replayed(s.tables, id, now)
      && r in Final(s, acts).replayers && Final(s, acts).replayers[r].Quiet?
  {
    hide PlaceInOrder, Without;
    var s1 := Apply(s, BeginReplay(r, id));
    var s2 := Apply(s1, Reinsert(r, now));
    RunsOne(s2, Unbury(r));
    RunsCons(s1, Reinsert(r, now), [Unbury(r)]);
    RunsCons(s, BeginReplay(r, id), [Reinsert(r, now)] + [Unbury(r)]);
  }

  /** An undisturbed publish: on the wire when the circuit allows it and the client takes it, else an
      enqueue; either way accepted. */
  lemma LonePublish(s: State, t: Tid, topic: string, e: Event, allow: bool, taken: bool, now: int)
    requires t in s.publishers && s.publishers[t].Resting? && e.id !in s.used && s.capLock == Nobody
    ensures var begin, reply := [BeginPublish(t, topic, e, allow)], if allow then [BrokerReply(t, taken)] else [];
      && Runs(s, begin + reply)
      && var s1 := Final(s, begin + reply);
         if allow && taken then
           s1.sentLog == s.sentLog + [e.id] && s1.tables == s.tables && s1.accepted == s.accepted + {e.id}
         else
           && Runs(s1, EnqueueActions(s1, t, now))
           && Final(s1, EnqueueActions(s1, t, now)).tables == Enqueued(s.tables, s.maxPending, topic, e, now)
           && e.id in Final(s1, EnqueueActions(s1, t, now)).accepted
  {
    var s1 := Apply(s, BeginPublish(t, topic, e, allow));
    if allow {
      RunsOne(s1, BrokerReply(t, taken));
      RunsCons(s, BeginPublish(t, topic, e, allow), [BrokerReply(t, taken)]);
      if !taken { LoneEnqueue(Apply(s1, BrokerReply(t, taken)), t, now); }
    } else {
      RunsOne(s, BeginPublish(t, topic, e, allow));
      assert [BeginPublish(t, topic, e, allow)] + [] == [BeginPublish(t, topic, e, allow)];
      LoneEnqueue(s1, t, now);
    }
  }

  /** A failed delete in a plain drain leaves the sent row pending and goes on with the next one. */
  lemma FailedDeleteGoesOn(s: State, d: Tid, error: string)
    requires d in s.drainers && s.drainers[d].Handling? && !s.drainers[d].guarded
    requires s.drainers[d].rows != [] && s.drainers[d].rows[0].payload.Encoded?
    ensures var rows, acts := s.drainers[d].rows, [Handle(d, true, error)] + [DeleteFails(d)];
      && Runs(s, acts)
      && Final(s, acts).tables == s.tables && Final(s, acts).sentLog == s.sentLog + [rows[0].id]
      && d in Final(s, acts).drainers && Final(s, acts).drainers[d] == Handling(false, rows[1..])
  {
    RunsOne(Apply(s, Handle(d, true, error)), DeleteFails(d));
    RunsCons(s, Handle(d, true, error), [DeleteFails(d)]);
  }

  /** A failing statement ends its task where it stands: the tables stay, and lock and flag are let go. */
  lemma FailuresLetGo(s: State, t: Tid)
    ensures t in s.publishers && s.publishers[t] != Resting ==>
      var s' := Apply(s, FailPublish(t));
      && s'.tables == s.tables && s'.accepted == s.accepted && s'.publishers == s.publishers[t := Resting]
      && s'.capLock != Held(t) && (s.capLock != Held(t) ==> s'.capLock == s.capLock)
    ensures t in s.drainers && s.drainers[t] != Parked ==>
      var s' := Apply(s, FailDrain(t));
      && s'.tables == s.tables && s'.sentLog == s.sentLog && s'.drainers == s.drainers[t := Parked]
      && s'.drainRunning == (s.drainRunning && !s.drainers[t].guarded)
    ensures t in s.replayers && s.replayers[t] != Quiet ==>
      var s' := Apply(s, FailReplay(t));
      s'.tables == s.tables && s'.replayers == s.replayers[t := Quiet]
  {
  }

  /** A purge empties the dead letters and nothing else; a crash leaves both tables and stops everybody. */
  lemma PurgeAndCrash(s: State)
    ensures Apply(s, Purge).tables == Tables(s.tables.pending, map[])
    ensures var s' := Apply(s, Crash);
      && s'.tables == s.tables && s'.sentLog == s.sentLog && s'.capLock == Nobody && !s'.drainRunning
      && s'.publishers.Keys == s.publishers.Keys && s'.drainers.Keys == s.drainers.Keys
      && s'.replayers.Keys == s.replayers.Keys
      && (forall t :: t in s'.publishers ==> s'.publishers[t] == Resting)
      && (forall d :: d in s'.drainers ==> s'.drainers[d] == Parked)
      && (forall r :: r in s'.replayers ==> s'.replayers[r] == Quiet)
  {
  }
}
