/** `AgentRegistry`: the in-memory map, the FIFO queue and the cap, with every transition mirrored
    into the store.  Each method computes the state its operation in RegistrySpec describes. */
module Registry {
  import opened AgentTypes
  import opened Options
  import opened RegistryStore
  import Spec = RegistrySpec

  datatype AdmitOutcome = Admitted | Queued(position: nat) | Rejected

  class AgentRegistry {
    var inner: map<GoalId, Spec.Entry>
    var queue: seq<GoalId>
    var cap: nat
    const store: MemoryAgentRegistryStore

    ghost function State(): Spec.State
      reads this, store
    {
      Spec.State(inner, queue, cap, store.rows)
    }

    constructor (store: MemoryAgentRegistryStore, cap: nat)
      ensures State() == Spec.State(map[], [], cap, store.rows)
      ensures this.store == store
    {
      this.store := store;
      inner, queue, this.cap := map[], [], cap;
    }

    method SetCap(newCap: nat) returns (r: nat)
      modifies this
      ensures State() == Spec.After(old(State()), Spec.SetCap(newCap)) && r == newCap
    {
      cap := newCap;
      r := newCap;
    }

    method Persist(id: GoalId) returns (r: Result<()>)
      modifies store
      ensures State() == Spec.Persisted(old(State()), id)
      ensures r == if id in inner then Ok(()) else Err(NotFound(id))
    {
      if id !in inner {
        return Err(NotFound(id));
      }
      store.Upsert(Spec.HandleOf(id, inner[id]));
      r := Ok(());
    }

    method ClearSleepSnapshot(id: GoalId, now: Instant)
      modifies this`inner
      ensures inner == if id in old(inner) then old(inner)[id := Spec.SleepCleared(old(inner)[id], now)] else old(inner)
      ensures queue == old(queue) && cap == old(cap)
    {
      if id in inner {
        inner := inner[id := Spec.SleepCleared(inner[id], now)];
      }
    }

    /** The outcome says which branch was taken: rejected calls change nothing, queued goals stand
        last in the queue, admitted ones run. */
    method Admit(handle: AgentHandle, enqueue: bool) returns (outcome: AdmitOutcome)
      modifies this, store
      ensures State() == Spec.After(old(State()), Spec.Admit(handle, enqueue))
      ensures outcome.Rejected? <==> Spec.CountRunning(old(inner)) >= old(cap) && !enqueue
      ensures outcome.Rejected? ==> State() == old(State())
      ensures outcome.Admitted? ==>
        Spec.CountRunning(old(inner)) < old(cap) && inner[handle.goalId].status == Running && queue == old(queue)
      ensures outcome.Queued? ==>
        && inner[handle.goalId].status == AgentRunStatus.Queued
        && queue == old(queue) + [handle.goalId] && outcome.position == |queue|
    {
      var running := Spec.CountRunning(inner);
      outcome := Admitted;
      if running >= cap {
        if !enqueue {
          return Rejected;
        }
        queue := queue + [handle.goalId];
        outcome := AdmitOutcome.Queued(|queue|);
      }
      var status: AgentRunStatus := if outcome.Admitted? then Running else AgentRunStatus.Queued;
      var h := handle.(status := status, snapshot := handle.snapshot.(sleep := None));
      inner := inner[h.goalId := Spec.EntryOf(h)];
      store.Upsert(h);
    }

    method SetStatus(id: GoalId, status: AgentRunStatus, now: Instant) returns (r: Result<()>)
      modifies this, store
      ensures State() == Spec.After(old(State()), Spec.SetStatus(id, status, now))
      ensures r == if id in old(inner) then Ok(()) else Err(NotFound(id))
    {
      if id !in inner {
        return Err(NotFound(id));
      }
      var e := inner[id].(status := status);
      if status.IsTerminal() && e.finishedAt.None? {
        e := e.(finishedAt := Some(now));
      }
      inner := inner[id := e];
      if status != Sleeping {
        ClearSleepSnapshot(id, now);
      }
      r := Persist(id);
    }

    method PromoteQueued(id: GoalId, now: Instant) returns (r: Result<bool>)
      modifies this, store
      ensures State() == Spec.After(old(State()), Spec.Promote(id, now))
      ensures r == if id !in old(queue) then Ok(false) else if id in old(inner) then Ok(true) else Err(NotFound(id))
    {
      if id !in queue {
        return Ok(false);
      }
      queue := Spec.WithoutGoal(queue, id);
      var changed := SetStatus(id, Running, now);
      r := if changed.Ok? then Ok(true) else Err(changed.error);
    }

    method Release(id: GoalId, terminal: AgentRunStatus, now: Instant) returns (r: Result<Option<GoalId>>)
      modifies this, store
      ensures State() == Spec.After(old(State()), Spec.Release(id, terminal, now))
      ensures !terminal.IsTerminal() ==> r == Err(InvalidTransition(Running, terminal))
      ensures terminal.IsTerminal() && id !in old(inner) ==> r == Err(NotFound(id))
      ensures terminal.IsTerminal() && id in old(inner) ==>
        r == Ok(if old(queue) == [] then None else Some(old(queue)[0]))
      ensures terminal.IsTerminal() && id in old(inner) ==>
        && inner.Keys == old(inner).Keys && id in store.rows
        && inner[id].status == terminal && store.rows[id].status == terminal
        && inner[id].finishedAt == Some(now) && store.rows[id].finishedAt == Some(now)
        && inner[id].snapshot.sleep == None && store.rows[id].snapshot.sleep == None
        && (forall other :: other in old(inner) && other != id ==> inner[other] == old(inner)[other])
    {
      if !terminal.IsTerminal() {
        return Err(InvalidTransition(Running, terminal));
      }
      if id !in inner {
        return Err(NotFound(id));
      }
      MarkTerminal(id, terminal, now);
      var next := PopFront();
      r := Ok(next);
    }

    method MarkTerminal(id: GoalId, terminal: AgentRunStatus, now: Instant)
      requires id in inner
      modifies this`inner, store
      ensures var e := Spec.ReleasedEntry(old(inner)[id], terminal, now);
        inner == old(inner)[id := e] && store.rows == old(store.rows)[id := Spec.HandleOf(id, e)]
    {
      inner := inner[id := inner[id].(status := terminal, finishedAt := Some(now))];
      ClearSleepSnapshot(id, now);
      var _ := Persist(id);
    }

    method PopFront() returns (next: Option<GoalId>)
      modifies this`queue
      ensures next == if old(queue) == [] then None else Some(old(queue)[0])
      ensures queue == if old(queue) == [] then [] else old(queue)[1..]
    {
      next := None;
      if queue != [] {
        next := Some(queue[0]);
        queue := queue[1..];
      }
    }

    method SetSleeping(id: GoalId, sleep: AgentSleepState, now: Instant) returns (r: Result<()>)
      modifies this, store
      ensures State() == Spec.After(old(State()), Spec.SetSleeping(id, sleep, now))
      ensures r == if id in old(inner) then Ok(()) else Err(NotFound(id))
    {
      if id !in inner {
        return Err(NotFound(id));
      }
      inner := inner[id := inner[id].(status := Sleeping)];
      var cur := inner[id].snapshot;
      inner := inner[id := inner[id].(snapshot := cur.(sleep := Some(sleep), lastEventAt := now))];
      r := Persist(id);
    }

    method ClearSleeping(id: GoalId, now: Instant) returns (r: Result<()>)
      modifies this, store
      ensures State() == Spec.After(old(State()), Spec.ClearSleeping(id, now))
      ensures r == if id in old(inner) then Ok(()) else Err(NotFound(id))
    {
      if id !in inner {
        return Err(NotFound(id));
      }
      if inner[id].status == Sleeping {
        inner := inner[id := inner[id].(status := Running)];
      }
      ClearSleepSnapshot(id, now);
      r := Persist(id);
    }

    method SetAskPending(id: GoalId, pending: Option<AskPendingState>) returns (r: Result<()>)
      modifies this, store
      ensures State() == Spec.After(old(State()), Spec.SetAskPending(id, pending))
      ensures r == if id in old(inner) then Ok(()) else Err(NotFound(id))
    {
      if id !in inner {
        return Err(NotFound(id));
      }
      var snap := inner[id].snapshot;
      inner := inner[id := inner[id].(snapshot := snap.(askPending := pending))];
      r := Persist(id);
    }

    method ApplyAttempt(ev: AttemptResult, now: Instant) returns (r: Result<()>)
      modifies this, store
      ensures State() == Spec.After(old(State()), Spec.ApplyAttempt(ev, now))
      ensures r == if ev.goalId in old(inner) then Ok(()) else Err(NotFound(ev.goalId))
    {
      if ev.goalId !in inner {
        return Err(NotFound(ev.goalId));
      }
      var cur := inner[ev.goalId].snapshot;
      if ev.turnIndex < cur.turnIndex {
        return Ok(());
      }
      inner := inner[ev.goalId := inner[ev.goalId].(snapshot := Spec.NextSnapshot(cur, ev, now))];
      r := Persist(ev.goalId);
    }

    method SetMaxTurns(id: GoalId, maxTurns: nat)
      modifies this
      ensures State() == Spec.After(old(State()), Spec.SetMaxTurns(id, maxTurns))
    {
      if id in inner {
        inner := inner[id := inner[id].(snapshot := inner[id].snapshot.(maxTurns := maxTurns))];
      }
    }

    method SetAcceptance(id: GoalId, verdict: string, now: Instant)
      modifies this
      ensures State() == Spec.After(old(State()), Spec.SetAcceptance(id, verdict, now))
    {
      if id in inner {
        var snapshot := inner[id].snapshot.(lastAcceptance := Some(verdict), lastEventAt := now);
        inner := inner[id := inner[id].(snapshot := snapshot)];
      }
    }

    method FlushQueue(now: Instant) returns (r: Result<nat>)
      modifies this, store
      ensures State() == Spec.After(old(State()), Spec.FlushQueue(now)) && queue == []
      ensures var k := Spec.FirstUnknown(old(queue), old(inner));
        r == if k == |old(queue)| then Ok(k) else Err(NotFound(old(queue)[k]))
    {
      var drained := queue;
      queue := [];
      var k := 0;
      while k < |drained|
        invariant 0 <= k <= Spec.FirstUnknown(drained, old(inner)) && queue == []
        invariant inner.Keys == old(inner).Keys
        invariant Spec.AfterCancelling(State(), drained, k, now) == Spec.After(old(State()), Spec.FlushQueue(now))
      {
        var cancelled := SetStatus(drained[k], Cancelled, now);
        if cancelled.Err? {
          return Err(cancelled.error);
        }
        k := k + 1;
      }
      r := Ok(|drained|);
    }

    method EvictTerminalOlderThan(cutoff: Instant) returns (n: nat)
      modifies this, store
      ensures State() == Spec.After(old(State()), Spec.EvictTerminal(cutoff))
      ensures var inMemory, inStore := |Spec.Victims(old(inner), cutoff)|, |Spec.StoreVictims(old(store.rows), cutoff)|;
        n == if inMemory < inStore then inStore else inMemory
    {
      var victims := Spec.Victims(inner, cutoff);
      inner := inner - victims;
      var inStore := store.EvictTerminalOlderThan(cutoff);
      n := if |victims| < inStore then inStore else |victims|;
    }
  }
}
