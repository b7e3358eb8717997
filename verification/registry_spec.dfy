/** The agent registry as a state: the in-memory map, the queue, the cap and the rows of the
    persistent store.  Each operation is a function from state to state; the registry object is
    proved against these functions and the run-level properties are proved about them. */
module RegistrySpec {
  import opened AgentTypes
  import opened Options

  /** `HandleMeta` and the live snapshot of one goal. */
  datatype Entry = Entry(
    phaseId: string,
    status: AgentRunStatus,
    origin: Option<string>,
    dispatcher: Option<string>,
    startedAt: Instant,
    finishedAt: Option<Instant>,
    snapshot: AgentSnapshot)

  datatype State = State(
    inner: map<GoalId, Entry>,
    queue: seq<GoalId>,
    cap: nat,
    rows: map<GoalId, AgentHandle>)

  /** `handle()`: plan mode and kind are not kept in memory. */
  function HandleOf(id: GoalId, e: Entry): AgentHandle {
    AgentHandle(id, e.phaseId, e.status, e.origin, e.dispatcher, e.startedAt, e.finishedAt, e.snapshot,
                None, Interactive)
  }

  function EntryOf(h: AgentHandle): Entry {
    Entry(h.phaseId, h.status, h.origin, h.dispatcher, h.startedAt, h.finishedAt, h.snapshot)
  }

  function Active(inner: map<GoalId, Entry>): set<GoalId> {
    set id | id in inner && inner[id].status.IsActive()
  }

  function CountRunning(inner: map<GoalId, Entry>): nat {
    |Active(inner)|
  }

  // ---------------------------------------------------------------- operations

  datatype Op =
    | Admit(handle: AgentHandle, enqueue: bool)
    | Promote(id: GoalId, now: Instant)
    | Release(id: GoalId, terminal: AgentRunStatus, now: Instant)
    | SetStatus(id: GoalId, status: AgentRunStatus, now: Instant)
    | SetSleeping(id: GoalId, sleep: AgentSleepState, now: Instant)
    | ClearSleeping(id: GoalId, now: Instant)
    | SetAskPending(id: GoalId, pending: Option<AskPendingState>)
    | ApplyAttempt(ev: AttemptResult, now: Instant)
    | SetMaxTurns(id: GoalId, maxTurns: nat)
    | SetAcceptance(id: GoalId, verdict: string, now: Instant)
    | FlushQueue(now: Instant)
    | EvictTerminal(cutoff: Instant)
    | SetCap(cap: nat)

  function Persisted(s: State, id: GoalId): State {
    if id in s.inner then s.(rows := s.rows[id := HandleOf(id, s.inner[id])]) else s
  }

  /** Replaces one entry and mirrors it into the store. */
  function Stored(s: State, id: GoalId, e: Entry): State {
    Persisted(s.(inner := s.inner[id := e]), id)
  }

  function SleepCleared(e: Entry, now: Instant): Entry {
    if e.snapshot.sleep.Some? then e.(snapshot := e.snapshot.(sleep := None, lastEventAt := now)) else e
  }

  function AdmittedHandle(s: State, h: AgentHandle): AgentHandle {
    h.(status := if CountRunning(s.inner) >= s.cap then Queued else Running, snapshot := h.snapshot.(sleep := None))
  }

  function AfterAdmit(s: State, h: AgentHandle, enqueue: bool): State {
    var full := CountRunning(s.inner) >= s.cap;
    if full && !enqueue then s
    else
      var h' := AdmittedHandle(s, h);
      s.(inner := s.inner[h.goalId := EntryOf(h')],
         queue := if full then s.queue + [h.goalId] else s.queue,
         rows := s.rows[h.goalId := h'])
  }

  function WithStatus(e: Entry, status: AgentRunStatus, now: Instant): Entry {
    var stamped := e.(status := status,
                      finishedAt := if status.IsTerminal() && e.finishedAt.None? then Some(now) else e.finishedAt);
    if status == Sleeping then stamped else SleepCleared(stamped, now)
  }

  function AfterSetStatus(s: State, id: GoalId, status: AgentRunStatus, now: Instant): State {
    if id in s.inner then Stored(s, id, WithStatus(s.inner[id], status, now)) else s
  }

  function WithoutGoal(queue: seq<GoalId>, id: GoalId): seq<GoalId> {
    if queue == [] then []
    else if queue[0] == id then WithoutGoal(queue[1..], id)
    else [queue[0]] + WithoutGoal(queue[1..], id)
  }

  function AfterPromote(s: State, id: GoalId, now: Instant): State {
    if id in s.queue
    then AfterSetStatus(s.(queue := WithoutGoal(s.queue, id)), id, Running, now)
    else s
  }

  function ReleasedEntry(e: Entry, terminal: AgentRunStatus, now: Instant): Entry {
    SleepCleared(e.(status := terminal, finishedAt := Some(now)), now)
  }

  function AfterRelease(s: State, id: GoalId, terminal: AgentRunStatus, now: Instant): State {
    if !terminal.IsTerminal() || id !in s.inner then s
    else
      var s' := Stored(s, id, ReleasedEntry(s.inner[id], terminal, now));
      s'.(queue := if s.queue == [] then [] else s.queue[1..])
  }

  function AfterSetSleeping(s: State, id: GoalId, sleep: AgentSleepState, now: Instant): State {
    if id !in s.inner then s
    else
      var e := s.inner[id];
      Stored(s, id, e.(status := Sleeping, snapshot := e.snapshot.(sleep := Some(sleep), lastEventAt := now)))
  }

  function AfterClearSleeping(s: State, id: GoalId, now: Instant): State {
    if id !in s.inner then s
    else
      var e := s.inner[id];
      Stored(s, id, SleepCleared(e.(status := if e.status == Sleeping then Running else e.status), now))
  }

  function AfterSetAskPending(s: State, id: GoalId, pending: Option<AskPendingState>): State {
    if id !in s.inner then s
    else Stored(s, id, s.inner[id].(snapshot := s.inner[id].snapshot.(askPending := pending)))
  }

  function OrElse<T>(a: Option<T>, b: Option<T>): Option<T> { if a.Some? then a else b }

  function NextSnapshot(cur: AgentSnapshot, ev: AttemptResult, now: Instant): AgentSnapshot {
    AgentSnapshot(ev.turnIndex, cur.maxTurns, ev.usageAfter, ev.acceptance, ev.decisionSummary, now,
                  OrElse(ev.diffStat, cur.lastDiffStat), OrElse(ev.finalText, cur.lastProgressText),
                  cur.sleep, cur.askPending)
  }

  function AfterAttempt(s: State, ev: AttemptResult, now: Instant): State {
    if ev.goalId !in s.inner || ev.turnIndex < s.inner[ev.goalId].snapshot.turnIndex then s
    else
      var e := s.inner[ev.goalId];
      Stored(s, ev.goalId, e.(snapshot := NextSnapshot(e.snapshot, ev, now)))
  }

  function AfterSetMaxTurns(s: State, id: GoalId, maxTurns: nat): State {
    if id !in s.inner then s
    else s.(inner := s.inner[id := s.inner[id].(snapshot := s.inner[id].snapshot.(maxTurns := maxTurns))])
  }

  function AfterSetAcceptance(s: State, id: GoalId, verdict: string, now: Instant): State {
    if id !in s.inner then s
    else
      var snapshot := s.inner[id].snapshot.(lastAcceptance := Some(verdict), lastEventAt := now);
      s.(inner := s.inner[id := s.inner[id].(snapshot := snapshot)])
  }

  /** The goals drained from the queue are cancelled one by one; an unknown one stops the loop. */
  function AfterCancelling(s: State, drained: seq<GoalId>, k: nat, now: Instant): State
    requires k <= |drained|
    decreases |drained| - k
  {
    if k == |drained| || drained[k] !in s.inner then s
    else AfterCancelling(AfterSetStatus(s, drained[k], Cancelled, now), drained, k + 1, now)
  }

  /** The position of the first goal the registry does not know, or the length. */
  function FirstUnknown(drained: seq<GoalId>, inner: map<GoalId, Entry>): (k: nat)
    ensures k <= |drained|
    ensures k < |drained| ==> drained[k] !in inner
    ensures forall i :: 0 <= i < k ==> drained[i] in inner
  {
    if drained == [] || drained[0] !in inner then 0 else 1 + FirstUnknown(drained[1..], inner)
  }

  function AfterFlush(s: State, now: Instant): State {
    AfterCancelling(s.(queue := []), s.queue, 0, now)
  }

  predicate Expired(status: AgentRunStatus, finishedAt: Option<Instant>, cutoff: Instant) {
    status.IsTerminal() && finishedAt.Some? && finishedAt.value < cutoff
  }

  function Victims(inner: map<GoalId, Entry>, cutoff: Instant): set<GoalId> {
    set id | id in inner && Expired(inner[id].status, inner[id].finishedAt, cutoff)
  }

  function StoreVictims(rows: map<GoalId, AgentHandle>, cutoff: Instant): set<GoalId> {
    set id | id in rows && Expired(rows[id].status, rows[id].finishedAt, cutoff)
  }

  function AfterEvict(s: State, cutoff: Instant): State {
    s.(inner := s.inner - Victims(s.inner, cutoff), rows := s.rows - StoreVictims(s.rows, cutoff))
  }

  function After(s: State, op: Op): State {
    match op
    case Admit(h, enqueue) => AfterAdmit(s, h, enqueue)
    case Promote(id, now) => AfterPromote(s, id, now)
    case Release(id, terminal, now) => AfterRelease(s, id, terminal, now)
    case SetStatus(id, status, now) => AfterSetStatus(s, id, status, now)
    case SetSleeping(id, sleep, now) => AfterSetSleeping(s, id, sleep, now)
    case ClearSleeping(id, now) => AfterClearSleeping(s, id, now)
    case SetAskPending(id, pending) => AfterSetAskPending(s, id, pending)
    case ApplyAttempt(ev, now) => AfterAttempt(s, ev, now)
    case SetMaxTurns(id, n) => AfterSetMaxTurns(s, id, n)
    case SetAcceptance(id, verdict, now) => AfterSetAcceptance(s, id, verdict, now)
    case FlushQueue(now) => AfterFlush(s, now)
    case EvictTerminal(cutoff) => AfterEvict(s, cutoff)
    case SetCap(cap) => s.(cap := cap)
  }

  function AfterAll(s: State, ops: seq<Op>): State
    decreases |ops|
  {
    if ops == [] then s else AfterAll(After(s, ops[0]), ops[1..])
  }

  // ---------------------------------------------------------------- the mirror

  /** Equal but for the fields that `set_max_turns` and `set_acceptance` change without persisting. */
  predicate SameSnapshot(a: AgentSnapshot, b: AgentSnapshot) {
    a == b.(maxTurns := a.maxTurns, lastAcceptance := a.lastAcceptance, lastEventAt := a.lastEventAt)
  }

  predicate Mirrors(id: GoalId, e: Entry, h: AgentHandle) {
    && h.goalId == id && h.phaseId == e.phaseId && h.status == e.status
    && h.origin == e.origin && h.dispatcher == e.dispatcher
    && h.startedAt == e.startedAt && h.finishedAt == e.finishedAt
    && SameSnapshot(h.snapshot, e.snapshot)
  }

  /** Sleep metadata only on sleeping goals, an end time on every terminal one. */
  predicate Coherent(e: Entry) {
    && (e.snapshot.sleep.Some? ==> e.status == Sleeping)
    && (e.status.IsTerminal() ==> e.finishedAt.Some?)
  }

  predicate Good(s: State, id: GoalId)
    requires id in s.inner
  {
    id in s.rows && Mirrors(id, s.inner[id], s.rows[id]) && Coherent(s.inner[id])
  }

  ghost predicate Consistent(s: State) {
    forall id :: id in s.inner ==> Good(s, id)
  }

  lemma StoredIsConsistent(s: State, id: GoalId, e: Entry)
    requires Consistent(s) && Coherent(e)
    ensures Consistent(Stored(s, id, e))
  {
    var s' := Stored(s, id, e);
    forall x | x in s'.inner ensures Good(s', x) {
      if x != id { assert Good(s, x); }
    }
  }

  lemma AdmitIsConsistent(s: State, h: AgentHandle, enqueue: bool)
    requires Consistent(s)
    ensures Consistent(AfterAdmit(s, h, enqueue))
  {
    var s' := AfterAdmit(s, h, enqueue);
    forall x | x in s'.inner ensures Good(s', x) {
      if x in s.inner { assert Good(s, x); }
    }
  }

  lemma SetStatusIsConsistent(s: State, id: GoalId, status: AgentRunStatus, now: Instant)
    requires Consistent(s)
    ensures Consistent(AfterSetStatus(s, id, status, now))
  {
    if id in s.inner {
      assert Good(s, id);
      StoredIsConsistent(s, id, WithStatus(s.inner[id], status, now));
    }
  }

  lemma SameInnerIsConsistent(s: State, s': State)
    requires Consistent(s) && s'.inner == s.inner && s'.rows == s.rows
    ensures Consistent(s')
  {
    forall x | x in s'.inner ensures Good(s', x) { assert Good(s, x); }
  }

  lemma {:induction false} CancellingIsConsistent(s: State, drained: seq<GoalId>, k: nat, now: Instant)
    requires Consistent(s) && k <= |drained|
    ensures Consistent(AfterCancelling(s, drained, k, now))
    decreases |drained| - k
  {
    if k < |drained| && drained[k] in s.inner {
      SetStatusIsConsistent(s, drained[k], Cancelled, now);
      CancellingIsConsistent(AfterSetStatus(s, drained[k], Cancelled, now), drained, k + 1, now);
    }
  }

  lemma EvictIsConsistent(s: State, cutoff: Instant)
    requires Consistent(s)
    ensures Consistent(AfterEvict(s, cutoff))
  {
    var s' := AfterEvict(s, cutoff);
    forall x | x in s'.inner ensures Good(s', x) { assert Good(s, x); }
  }

  lemma UnsavedIsConsistent(s: State, id: GoalId, e: Entry)
    requires Consistent(s) && id in s.inner && Coherent(e)
    requires e == s.inner[id].(snapshot := e.snapshot) && SameSnapshot(s.inner[id].snapshot, e.snapshot)
    ensures Consistent(s.(inner := s.inner[id := e]))
  {
    var s' := s.(inner := s.inner[id := e]);
    assert Good(s, id);
    forall x | x in s'.inner ensures Good(s', x) { assert x in s.inner && Good(s, x); }
  }

  /** Every operation keeps memory and store in step. */
  lemma OperationsKeepTheMirror(s: State, op: Op)
    requires Consistent(s)
    ensures Consistent(After(s, op))
  {
    match op
    case Admit(h, enqueue) => AdmitIsConsistent(s, h, enqueue);
    case Promote(id, now) =>
      var s1 := s.(queue := WithoutGoal(s.queue, id));
      SameInnerIsConsistent(s, s1);
      SetStatusIsConsistent(s1, id, Running, now);
    case Release(id, terminal, now) =>
      if terminal.IsTerminal() && id in s.inner {
        var s1 := Stored(s, id, ReleasedEntry(s.inner[id], terminal, now));
        StoredIsConsistent(s, id, ReleasedEntry(s.inner[id], terminal, now));
        SameInnerIsConsistent(s1, After(s, op));
      }
    case SetStatus(id, status, now) => SetStatusIsConsistent(s, id, status, now);
    case SetSleeping(id, sleep, now) =>
      if id in s.inner {
        assert Good(s, id);
        var e := s.inner[id];
        StoredIsConsistent(s, id, e.(status := Sleeping, snapshot := e.snapshot.(sleep := Some(sleep), lastEventAt := now)));
      }
    case ClearSleeping(id, now) =>
      if id in s.inner {
        assert Good(s, id);
        var e := s.inner[id];
        StoredIsConsistent(s, id, SleepCleared(e.(status := if e.status == Sleeping then Running else e.status), now));
      }
    case SetAskPending(id, pending) =>
      if id in s.inner {
        assert Good(s, id);
        StoredIsConsistent(s, id, s.inner[id].(snapshot := s.inner[id].snapshot.(askPending := pending)));
      }
    case ApplyAttempt(ev, now) =>
      if ev.goalId in s.inner {
        assert Good(s, ev.goalId);
        var e := s.inner[ev.goalId];
        StoredIsConsistent(s, ev.goalId, e.(snapshot := NextSnapshot(e.snapshot, ev, now)));
      }
    case SetMaxTurns(id, n) =>
      if id in s.inner {
        assert Good(s, id);
        UnsavedIsConsistent(s, id, s.inner[id].(snapshot := s.inner[id].snapshot.(maxTurns := n)));
      }
    case SetAcceptance(id, verdict, now) =>
      if id in s.inner {
        assert Good(s, id);
        var snapshot := s.inner[id].snapshot.(lastAcceptance := Some(verdict), lastEventAt := now);
        UnsavedIsConsistent(s, id, s.inner[id].(snapshot := snapshot));
      }
    case FlushQueue(now) =>
      SameInnerIsConsistent(s, s.(queue := []));
      CancellingIsConsistent(s.(queue := []), s.queue, 0, now);
    case EvictTerminal(cutoff) => EvictIsConsistent(s, cutoff);
    case SetCap(cap) => SameInnerIsConsistent(s, s.(cap := cap));
  }

  /** Main result: after any run of operations, each goal in memory has a stored row with the same
      status, times, origin, sleep and ask-pending state; only fields left unsaved on purpose differ. */
  lemma {:induction false} RunsKeepTheMirror(s: State, ops: seq<Op>)
    requires Consistent(s)
    ensures Consistent(AfterAll(s, ops))
    decreases |ops|
  {
    if ops != [] {
      OperationsKeepTheMirror(s, ops[0]);
      RunsKeepTheMirror(After(s, ops[0]), ops[1..]);
    }
  }

  /** Applying the same turn again, at whatever later reading, moves the time of the last event, in
      memory and store, and changes nothing else; an older turn changes nothing at all. */
  lemma {:induction false} RepeatedAttemptOnlyRestamps(s: State, ev: AttemptResult, now: Instant, later: Instant)
    ensures var once := AfterAttempt(s, ev, now);
      var twice := AfterAttempt(once, ev, later);
      if ev.goalId !in s.inner || ev.turnIndex < s.inner[ev.goalId].snapshot.turnIndex then twice == s
      else
        var e, row := once.inner[ev.goalId], once.rows[ev.goalId];
        && twice == once.(
             inner := once.inner[ev.goalId := e.(snapshot := e.snapshot.(lastEventAt := later))],
             rows := once.rows[ev.goalId := row.(snapshot := row.snapshot.(lastEventAt := later))])
        && e.snapshot.lastEventAt == row.snapshot.lastEventAt == now
  {
    if ev.goalId in s.inner && ev.turnIndex >= s.inner[ev.goalId].snapshot.turnIndex {
      var once := AfterAttempt(s, ev, now);
      var e := once.inner[ev.goalId];
      assert NextSnapshot(e.snapshot, ev, later) == e.snapshot.(lastEventAt := later);
    }
  }

  lemma {:induction false} OlderAttemptsAreIgnored(s: State, ev: AttemptResult, now: Instant,
                                                   older: AttemptResult, t: Instant)
    requires older.goalId == ev.goalId && ev.goalId in s.inner
    requires s.inner[ev.goalId].snapshot.turnIndex <= ev.turnIndex && older.turnIndex < ev.turnIndex
    ensures AfterAttempt(AfterAttempt(s, ev, now), older, t) == AfterAttempt(s, ev, now)
  {
  }

  // ---------------------------------------------------------------- slots

  lemma ActiveAfterUpdate(inner: map<GoalId, Entry>, id: GoalId, e: Entry)
    ensures Active(inner[id := e]) == (Active(inner) - {id}) + (if e.status.IsActive() then {id} else {})
  {
  }

  /** `admit` takes a slot only while one is free: it never lifts the count over the cap. */
  lemma AdmitRespectsTheCap(s: State, h: AgentHandle, enqueue: bool)
    ensures var after := CountRunning(AfterAdmit(s, h, enqueue).inner);
      after <= s.cap || after <= CountRunning(s.inner)
  {
    ActiveAfterUpdate(s.inner, h.goalId, EntryOf(AdmittedHandle(s, h)));
  }

  /** Handing a slot over: a release frees it and surfaces the goal that has waited longest. */
  lemma {:induction false} ReleaseFreesASlot(s: State, id: GoalId, terminal: AgentRunStatus, now: Instant)
    requires terminal.IsTerminal() && id in s.inner
    ensures var s' := AfterRelease(s, id, terminal, now);
      && Active(s'.inner) == Active(s.inner) - {id}
      && (s.queue == [] ==> s'.queue == [])
      && (s.queue != [] ==> s.queue == [s.queue[0]] + s'.queue)
  {
    ActiveAfterUpdate(s.inner, id, ReleasedEntry(s.inner[id], terminal, now));
  }

  /** `release` has already taken the goal out of the queue, so promoting it afterwards, as the
      source's own comment asks the caller to, changes nothing, its status included, exactly unless
      the goal stands in the queue a second time. */
  lemma {:induction false} PromoteAfterReleaseIsRefusedExactlyWhen(s: State, id: GoalId, terminal: AgentRunStatus,
                                                                   now: Instant)
    requires terminal.IsTerminal() && id in s.inner && s.queue != []
    ensures var s', head := AfterRelease(s, id, terminal, now), s.queue[0];
      && (AfterPromote(s', head, now) == s' <==> head !in s.queue[1..])
      && (head != id && head in s.inner ==> s'.inner[head] == s.inner[head])
      && (head in s.queue[1..] && head in s.inner ==> AfterPromote(s', head, now).inner[head].status == Running)
  {
    var s', head := AfterRelease(s, id, terminal, now), s.queue[0];
    assert s'.queue == s.queue[1..];
    if head in s'.queue { WithoutGoalIsGone(s'.queue, head); }
  }

  lemma {:induction false} WithoutGoalIsGone(queue: seq<GoalId>, goal: GoalId)
    ensures goal !in WithoutGoal(queue, goal)
  {
    if queue != [] { WithoutGoalIsGone(queue[1..], goal); }
  }
}
