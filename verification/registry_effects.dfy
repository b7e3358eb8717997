/** What each registry operation leaves behind, field by field, in memory and in the store. */
module RegistryEffects {
  import opened AgentTypes
  import opened Options
  import opened RegistrySpec

  const TERMINAL: set<AgentRunStatus> := {Done, Failed, Cancelled, LostOnRestart}
  const ACTIVE: set<AgentRunStatus> := {Running, Sleeping}

  /** The two classes of statuses, listed. */
  lemma StatusClasses(st: AgentRunStatus)
    ensures st.IsTerminal() <==> st in TERMINAL
    ensures st.IsActive() <==> st in ACTIVE
  {
  }

  /** The row a goal's memory entry is mirrored as. */
  predicate RowSays(row: AgentHandle, id: GoalId, e: Entry) {
    && row.goalId == id && row.phaseId == e.phaseId && row.status == e.status
    && row.origin == e.origin && row.dispatcher == e.dispatcher
    && row.startedAt == e.startedAt && row.finishedAt == e.finishedAt && row.snapshot == e.snapshot
    && row.planMode == None && row.kind == Interactive
  }

  /** Goal `id` has the entry `e` in memory, the same in its row, and no other goal, the cap or (but for
      `queue`) the queue has changed. */
  predicate NowHas(s: State, s': State, id: GoalId, e: Entry, queue: seq<GoalId>) {
    && s'.inner == s.inner[id := e] && s'.queue == queue && s'.cap == s.cap
    && s'.rows.Keys == s.rows.Keys + {id} && RowSays(s'.rows[id], id, e)
    && forall other :: other in s.rows && other != id ==> s'.rows[other] == s.rows[other]
  }

  /** The snapshot with its sleep data gone; dropping some counts as an event. */
  function Awake(snapshot: AgentSnapshot, now: Instant): AgentSnapshot {
    snapshot.(sleep := None, lastEventAt := if snapshot.sleep.Some? then now else snapshot.lastEventAt)
  }

  /** A released goal ends in the very status the caller gave, stamped now and awake, and the queue
      loses its head; a status that is not terminal, or an unknown goal, changes nothing. */
  lemma ReleaseEffect(s: State, id: GoalId, terminal: AgentRunStatus, now: Instant)
    ensures var s' := After(s, Release(id, terminal, now));
      if terminal in TERMINAL && id in s.inner then
        var e := s.inner[id];
        NowHas(s, s', id, e.(status := terminal, finishedAt := Some(now), snapshot := Awake(e.snapshot, now)),
               if s.queue == [] then [] else s.queue[1..])
      else s' == s
  {
    StatusClasses(terminal);
  }

  /** Below the cap a goal starts Running, at the cap it is Queued last or turned away; Running and
      Sleeping goals are the ones counted, and it arrives awake. */
  lemma AdmitEffect(s: State, h: AgentHandle, enqueue: bool)
    ensures var s' := After(s, Admit(h, enqueue));
      var full := |set id | id in s.inner && s.inner[id].status in ACTIVE| >= s.cap;
      var status := if full then AgentRunStatus.Queued else Running;
      if full && !enqueue then s' == s
      else
        && s'.inner == s.inner[h.goalId := Entry(h.phaseId, status, h.origin, h.dispatcher, h.startedAt,
                                                 h.finishedAt, h.snapshot.(sleep := None))]
        && s'.rows == s.rows[h.goalId := h.(status := status, snapshot := h.snapshot.(sleep := None))]
        && s'.queue == (if full then s.queue + [h.goalId] else s.queue) && s'.cap == s.cap
  {
    assert (set id | id in s.inner && s.inner[id].status in ACTIVE) == Active(s.inner);
  }

  /** A terminal status stamps the finish once, and any status but Sleeping drops the sleep data. */
  lemma SetStatusEffect(s: State, id: GoalId, status: AgentRunStatus, now: Instant)
    ensures var s' := After(s, SetStatus(id, status, now));
      if id in s.inner then
        var e := s.inner[id];
        NowHas(s, s', id,
               e.(status := status,
                  finishedAt := if status in TERMINAL && e.finishedAt == None then Some(now) else e.finishedAt,
                  snapshot := if status == Sleeping then e.snapshot else Awake(e.snapshot, now)),
               s.queue)
      else s' == s
  {
    StatusClasses(status);
  }

  lemma SetSleepingEffect(s: State, id: GoalId, sleep: AgentSleepState, now: Instant)
    ensures var s' := After(s, SetSleeping(id, sleep, now));
      if id in s.inner then
        var e := s.inner[id];
        NowHas(s, s', id, e.(status := Sleeping, snapshot := e.snapshot.(sleep := Some(sleep), lastEventAt := now)),
               s.queue)
      else s' == s
  {
  }

  lemma ClearSleepingEffect(s: State, id: GoalId, now: Instant)
    ensures var s' := After(s, ClearSleeping(id, now));
      if id in s.inner then
        var e := s.inner[id];
        NowHas(s, s', id, e.(status := if e.status == Sleeping then Running else e.status,
                             snapshot := Awake(e.snapshot, now)),
               s.queue)
      else s' == s
  {
  }

  lemma SetAskPendingEffect(s: State, id: GoalId, pending: Option<AskPendingState>)
    ensures var s' := After(s, SetAskPending(id, pending));
      if id in s.inner then
        var e := s.inner[id];
        NowHas(s, s', id, e.(snapshot := e.snapshot.(askPending := pending)), s.queue)
      else s' == s
  {
  }

  /** A turn not older than the last one replaces the snapshot; the budget, sleep data and pending
      question stay, and so do the diff statistics and the text when the turn reports none. */
  lemma ApplyAttemptEffect(s: State, ev: AttemptResult, now: Instant)
    ensures var s', id := After(s, ApplyAttempt(ev, now)), ev.goalId;
      if id in s.inner && s.inner[id].snapshot.turnIndex <= ev.turnIndex then
        var old' := s.inner[id].snapshot;
        var snapshot := AgentSnapshot(
          turnIndex := ev.turnIndex, maxTurns := old'.maxTurns, usage := ev.usageAfter,
          lastAcceptance := ev.acceptance, lastDecisionSummary := ev.decisionSummary, lastEventAt := now,
          lastDiffStat := if ev.diffStat != None then ev.diffStat else old'.lastDiffStat,
          lastProgressText := if ev.finalText != None then ev.finalText else old'.lastProgressText,
          sleep := old'.sleep, askPending := old'.askPending);
        NowHas(s, s', id, s.inner[id].(snapshot := snapshot), s.queue)
      else s' == s
  {
  }

  /** These two change memory only. */
  lemma UnsavedEffects(s: State, id: GoalId, maxTurns: nat, verdict: string, now: Instant)
    ensures After(s, SetMaxTurns(id, maxTurns)) ==
      if id !in s.inner then s
      else
        var e := s.inner[id];
        s.(inner := s.inner[id := e.(snapshot := e.snapshot.(maxTurns := maxTurns))])
    ensures After(s, SetAcceptance(id, verdict, now)) ==
      if id !in s.inner then s
      else
        var e := s.inner[id];
        s.(inner := s.inner[id := e.(snapshot := e.snapshot.(lastAcceptance := Some(verdict), lastEventAt := now))])
  {
  }

  /** A queued goal leaves the queue, wherever it stands in it, and runs; any other is refused. */
  lemma PromoteEffect(s: State, id: GoalId, now: Instant)
    ensures var s' := After(s, Promote(id, now));
      if id !in s.queue then s' == s
      else
        && s'.queue == WithoutGoal(s.queue, id) && s'.cap == s.cap
        && (id in s.inner ==>
              var e := s.inner[id];
              NowHas(s, s', id, e.(status := Running, snapshot := Awake(e.snapshot, now)), s'.queue))
        && (id !in s.inner ==> s'.inner == s.inner && s'.rows == s.rows)
  {
    StatusClasses(Running);
  }

  /** A queue that loses a goal keeps every other entry, in order: entry by entry, it is a filter. */
  lemma {:induction false} WithoutGoalFilters(front: seq<GoalId>, back: seq<GoalId>, g: GoalId, id: GoalId)
    ensures WithoutGoal([], id) == [] && WithoutGoal([g], id) == if g == id then [] else [g]
    ensures WithoutGoal(front + back, id) == WithoutGoal(front, id) + WithoutGoal(back, id)
  {
    assert [g][1..] == [];
    if front == [] {
      assert front + back == back;
    } else {
      WithoutGoalFilters(front[1..], back, g, id);
      assert (front + back)[1..] == front[1..] + back;
    }
  }

  /** What a flush makes of one entry. */
  predicate Cancels(e: Entry, e': Entry, now: Instant) {
    e' == e.(status := Cancelled, finishedAt := if e.finishedAt == None then Some(now) else e.finishedAt,
             snapshot := Awake(e.snapshot, now))
  }

  /** One goal before and after a flush that got as far as cancelling `touched`. */
  predicate FlushedGoal(s: State, s': State, id: GoalId, touched: bool, now: Instant) {
    && (id in s.inner <==> id in s'.inner)
    && (touched && id in s.inner ==>
          Cancels(s.inner[id], s'.inner[id], now) && id in s'.rows && RowSays(s'.rows[id], id, s'.inner[id]))
    && (!touched && id in s.inner ==> s'.inner[id] == s.inner[id])
    && (!touched ==> (id in s.rows <==> id in s'.rows) && (id in s.rows ==> s'.rows[id] == s.rows[id]))
  }

  lemma FlushedOnce(s: State, id: GoalId, g: GoalId, now: Instant)
    requires g in s.inner
    ensures FlushedGoal(s, AfterSetStatus(s, g, Cancelled, now), id, id == g, now)
  {
    SetStatusEffect(s, g, Cancelled, now);
  }

  lemma FlushedThen(s: State, s1: State, s2: State, id: GoalId, first: bool, later: bool, now: Instant)
    requires FlushedGoal(s, s1, id, first, now) && FlushedGoal(s1, s2, id, later, now)
    ensures FlushedGoal(s, s2, id, first || later, now)
  {
  }

  lemma {:induction false} CancellingEffect(s: State, drained: seq<GoalId>, k: nat, now: Instant, id: GoalId)
    requires k <= |drained|
    ensures var s', stop := AfterCancelling(s, drained, k, now), k + FirstUnknown(drained[k..], s.inner);
      s'.queue == s.queue && s'.cap == s.cap && FlushedGoal(s, s', id, id in drained[k..stop], now)
    decreases |drained| - k
  {
    hide FlushedGoal;
    hide AfterSetStatus;
    if k < |drained| && drained[k] in s.inner {
      var s1, s' := AfterSetStatus(s, drained[k], Cancelled, now), AfterCancelling(s, drained, k, now);
      FlushedOnce(s, id, drained[k], now);
      SetStatusFrame(s, drained[k], Cancelled, now);
      CancellingEffect(s1, drained, k + 1, now, id);
      var stop := k + FirstUnknown(drained[k..], s.inner);
      assert drained[k..][1..] == drained[k + 1..];
      SameUnknown(drained[k + 1..], s.inner, s1.inner);
      assert drained[k..stop] == [drained[k]] + drained[k + 1..stop];
      FlushedThen(s, s1, s', id, id == drained[k], id in drained[k + 1..stop], now);
    } else {
      assert drained[k..k] == [];
      Unflushed(s, id, now);
    }
  }

  lemma SetStatusFrame(s: State, id: GoalId, status: AgentRunStatus, now: Instant)
    ensures var s' := AfterSetStatus(s, id, status, now);
      s'.inner.Keys == s.inner.Keys && s'.queue == s.queue && s'.cap == s.cap
  {
  }

  lemma Unflushed(s: State, id: GoalId, now: Instant)
    ensures FlushedGoal(s, s, id, false, now)
  {
  }

  lemma {:induction false} SameUnknown(drained: seq<GoalId>, a: map<GoalId, Entry>, b: map<GoalId, Entry>)
    requires a.Keys == b.Keys
    ensures FirstUnknown(drained, a) == FirstUnknown(drained, b)
  {
    if drained != [] { SameUnknown(drained[1..], a, b); }
  }

  /** Every goal in the queue up to the first unknown one is Cancelled, in memory and store; all others
      are as they were, and the queue is empty. */
  lemma FlushEffect(s: State, now: Instant)
    ensures var s', stop := After(s, FlushQueue(now)), FirstUnknown(s.queue, s.inner);
      && s'.queue == [] && s'.cap == s.cap
      && forall id: GoalId :: FlushedGoal(s, s', id, id in s.queue[..stop], now)
  {
    assert s.queue[0..] == s.queue;
    var s0 := s.(queue := []);
    var s' := AfterCancelling(s0, s.queue, 0, now);
    CancellingEffect(s0, s.queue, 0, now, 0);
    forall id: GoalId ensures FlushedGoal(s, s', id, id in s.queue[..FirstUnknown(s.queue, s.inner)], now) {
      CancellingEffect(s0, s.queue, 0, now, id);
    }
  }

  /** Out go exactly the goals in a terminal status that finished before the cutoff; one that finished
      at the cutoff, or never, stays. Memory and store are each judged by their own fields. */
  lemma EvictEffect(s: State, cutoff: Instant)
    ensures var s' := After(s, EvictTerminal(cutoff));
      && s'.queue == s.queue && s'.cap == s.cap
      && s'.inner == (map id | id in s.inner &&
           !(s.inner[id].status in TERMINAL && exists at :: s.inner[id].finishedAt == Some(at) && at < cutoff) :: s.inner[id])
      && s'.rows == (map id | id in s.rows &&
           !(s.rows[id].status in TERMINAL && exists at :: s.rows[id].finishedAt == Some(at) && at < cutoff) :: s.rows[id])
  {
    forall st: AgentRunStatus ensures st.IsTerminal() <==> st in TERMINAL {}
  }
}
