/** Boot-time reattach: rebuilds an empty registry from the rows an earlier process stored. */
module Reattach {
  import opened AgentTypes
  import opened Options
  import opened Spec = RegistrySpec
  import opened RegistryStore
  import opened Registry

  datatype ReattachOutcome =
    | Resume(handle: AgentHandle)
    | MarkedLost(handle: AgentHandle)
    | Requeued(handle: AgentHandle)
    | Sleeper(handle: AgentHandle)
    | Recorded(handle: AgentHandle)
    | Skipped(id: GoalId, status: AgentRunStatus)

  function TooOld(h: AgentHandle, cutoff: Instant): bool {
    h.finishedAt.Some? && h.finishedAt.value < cutoff
  }

  /** Terminal, and finished before the cutoff; at the cutoff is not too old. */
  predicate Dropped(h: AgentHandle, cutoff: Instant) {
    && h.status in {Done, Failed, Cancelled, LostOnRestart}
    && h.finishedAt != None && h.finishedAt.value < cutoff
  }

  // ---------------------------------------------------------------- one row

  function Lost(h: AgentHandle, now: Instant): AgentHandle {
    h.(status := LostOnRestart, finishedAt := Some(now))
  }

  function AfterRow(s: State, h: AgentHandle, resume: bool, cutoff: Instant, now: Instant): State {
    match h.status
    case Running =>
      if resume then AfterAdmit(s, h, true)
      else
        var lost := Lost(h, now);
        AfterSetStatus(AfterAdmit(s.(rows := s.rows[h.goalId := lost]), lost, true), h.goalId, LostOnRestart, now)
    case Sleeping =>
      var s1 := AfterAdmit(s, h, true);
      if h.snapshot.sleep.Some? then AfterSetSleeping(s1, h.goalId, h.snapshot.sleep.value, now)
      else AfterSetStatus(s1, h.goalId, Running, now)
    case Queued => AfterSetStatus(AfterAdmit(s, h, true), h.goalId, AgentRunStatus.Queued, now)
    case Paused => AfterSetStatus(AfterAdmit(s, h, true), h.goalId, Paused, now)
    case _ =>
      if TooOld(h, cutoff) then s.(rows := s.rows - {h.goalId})
      else AfterSetStatus(AfterAdmit(s, h, true), h.goalId, h.status, now)
  }

  function Outcome(s: State, h: AgentHandle, resume: bool, cutoff: Instant, now: Instant): ReattachOutcome {
    match h.status
    case Running =>
      if !resume then MarkedLost(Lost(h, now))
      else if CountRunning(s.inner) >= s.cap then Requeued(h)
      else Resume(h)
    case Sleeping => Sleeper(h)
    case Queued => Requeued(h)
    case Paused => Recorded(h)
    case _ => if TooOld(h, cutoff) then Skipped(h.goalId, h.status) else Recorded(h)
  }

  function AfterRows(s: State, rows: seq<AgentHandle>, k: nat, resume: bool, cutoff: Instant, now: Instant): State
    requires k <= |rows|
    decreases |rows| - k
  {
    if k == |rows| then s else AfterRows(AfterRow(s, rows[k], resume, cutoff, now), rows, k + 1, resume, cutoff, now)
  }

  function Outcomes(s: State, rows: seq<AgentHandle>, k: nat, resume: bool, cutoff: Instant, now: Instant)
    : seq<ReattachOutcome>
    requires k <= |rows|
    decreases |rows| - k
  {
    if k == |rows| then []
    else [Outcome(s, rows[k], resume, cutoff, now)]
         + Outcomes(AfterRow(s, rows[k], resume, cutoff, now), rows, k + 1, resume, cutoff, now)
  }

  // ---------------------------------------------------------------- the loop

  /** One outcome per stored row, newest first; the registry and the store end as AfterRows says. */
  method Reattach(registry: AgentRegistry, resume: bool, cutoff: Instant, now: Instant)
      returns (out: seq<ReattachOutcome>, ghost rows: seq<AgentHandle>)
    requires KeyedByGoal(registry.store.rows)
    modifies registry, registry.store
    ensures Lists(old(registry.store.rows), rows)
    ensures registry.State() == AfterRows(old(registry.State()), rows, 0, resume, cutoff, now)
    ensures out == Outcomes(old(registry.State()), rows, 0, resume, cutoff, now)
  {
    var stored := registry.store.List();
    rows := stored;
    out := ReattachRows(registry, stored, resume, cutoff, now);
  }

  method ReattachRows(registry: AgentRegistry, rows: seq<AgentHandle>, resume: bool, cutoff: Instant, now: Instant)
      returns (out: seq<ReattachOutcome>)
    modifies registry, registry.store
    ensures registry.State() == AfterRows(old(registry.State()), rows, 0, resume, cutoff, now)
    ensures out == Outcomes(old(registry.State()), rows, 0, resume, cutoff, now)
  {
    ghost var final := AfterRows(registry.State(), rows, 0, resume, cutoff, now);
    ghost var all := Outcomes(registry.State(), rows, 0, resume, cutoff, now);
    out := [];
    for k := 0 to |rows|
      invariant AfterRows(registry.State(), rows, k, resume, cutoff, now) == final
      invariant out + Outcomes(registry.State(), rows, k, resume, cutoff, now) == all
    {
      var outcome := ReattachRow(registry, rows[k], resume, cutoff, now);
      out := out + [outcome];
    }
  }

  method ReattachRow(registry: AgentRegistry, handle: AgentHandle, resume: bool, cutoff: Instant, now: Instant)
      returns (outcome: ReattachOutcome)
    modifies registry, registry.store
    ensures registry.State() == AfterRow(old(registry.State()), handle, resume, cutoff, now)
    ensures outcome == Outcome(old(registry.State()), handle, resume, cutoff, now)
  {
    hide AfterSetStatus;
    hide AfterSetSleeping;
    match handle.status {
      case Running =>
        if resume {
          var admit := registry.Admit(handle, true);
          if admit.Queued? {
            outcome := Requeued(handle);
          } else {
            outcome := Resume(handle.(status := Running));
          }
        } else {
          var lost := handle.(status := LostOnRestart, finishedAt := Some(now));
          registry.store.Upsert(lost);
          var _ := registry.Admit(lost, true);
          var _ := registry.SetStatus(lost.goalId, LostOnRestart, now);
          outcome := MarkedLost(lost);
        }
      case Sleeping =>
        var _ := registry.Admit(handle, true);
        if handle.snapshot.sleep.Some? {
          var _ := registry.SetSleeping(handle.goalId, handle.snapshot.sleep.value, now);
        } else {
          var _ := registry.SetStatus(handle.goalId, Running, now);
        }
        outcome := Sleeper(handle);
      case Queued =>
        var _ := registry.Admit(handle, true);
        var _ := registry.SetStatus(handle.goalId, AgentRunStatus.Queued, now);
        outcome := Requeued(handle);
      case Paused =>
        var _ := registry.Admit(handle, true);
        var _ := registry.SetStatus(handle.goalId, Paused, now);
        outcome := Recorded(handle);
      case _ =>
        if TooOld(handle, cutoff) {
          registry.store.Remove(handle.goalId);
          outcome := Skipped(handle.goalId, handle.status);
        } else {
          var _ := registry.Admit(handle, true);
          var _ := registry.SetStatus(handle.goalId, handle.status, now);
          outcome := Recorded(handle);
        }
    }
  }

  // ---------------------------------------------------------------- what one row does

  /** How a stored row comes back: its status, its sleep data, and everything else as it was. */
  ghost predicate ComesBackAs(h: AgentHandle, e: Entry, resume: bool) {
    && (match h.status
        case Running => if resume then e.status == Running || e.status == AgentRunStatus.Queued
                        else e.status == LostOnRestart && e.finishedAt != None
        case Sleeping =>
          if h.snapshot.sleep.Some? then e.status == Sleeping && e.snapshot.sleep == h.snapshot.sleep
          else e.status == Running
        case _ => e.status == h.status)
    && (h.status != Sleeping ==> e.snapshot.sleep == None)
    && e.phaseId == h.phaseId && e.origin == h.origin && e.dispatcher == h.dispatcher && e.startedAt == h.startedAt
    && e.snapshot.(sleep := None, lastEventAt := 0) == h.snapshot.(sleep := None, lastEventAt := 0)
    && (h.finishedAt != None && (h.status == Running ==> resume) ==> e.finishedAt == h.finishedAt)
  }

  function One(b: bool): nat { if b then 1 else 0 }

  lemma FreshEntry(inner: map<GoalId, Entry>, id: GoalId, e: Entry)
    requires id !in inner
    ensures CountRunning(inner[id := e]) == CountRunning(inner) + One(e.status.IsActive())
  {
    ActiveAfterUpdate(inner, id, e);
    assert id !in Active(inner);
  }

  /** `s'` is `s` with one more goal, in memory as `e` and somehow in the store. */
  ghost predicate Adds(s: State, s': State, id: GoalId, e: Entry) {
    s'.inner == s.inner[id := e] && s'.rows.Keys == s.rows.Keys + {id} && s'.cap == s.cap
  }

  lemma AdmitAdds(s: State, h: AgentHandle)
    ensures Adds(s, AfterAdmit(s, h, true), h.goalId, EntryOf(AdmittedHandle(s, h)))
  {
  }

  lemma StoredAdds(s: State, s1: State, id: GoalId, e1: Entry, e: Entry)
    requires Adds(s, s1, id, e1)
    ensures Adds(s, Stored(s1, id, e), id, e)
  {
    assert s1.inner[id := e] == s.inner[id := e];
  }

  lemma SetStatusAdds(s: State, s1: State, id: GoalId, e1: Entry, status: AgentRunStatus, now: Instant)
    requires Adds(s, s1, id, e1)
    ensures Adds(s, AfterSetStatus(s1, id, status, now), id, WithStatus(e1, status, now))
  {
    StoredAdds(s, s1, id, e1, WithStatus(e1, status, now));
  }

  /** The entry a kept row gets. */
  function EntryAfter(s: State, h: AgentHandle, resume: bool, now: Instant): Entry {
    var e := EntryOf(AdmittedHandle(s, h));
    match h.status
    case Running =>
      if resume then e else WithStatus(EntryOf(AdmittedHandle(s, Lost(h, now))), LostOnRestart, now)
    case Sleeping =>
      if h.snapshot.sleep.Some?
      then e.(status := Sleeping, snapshot := e.snapshot.(sleep := h.snapshot.sleep, lastEventAt := now))
      else WithStatus(e, Running, now)
    case _ => WithStatus(e, h.status, now)
  }

  /** A kept row lands in memory under its own id and leaves every other goal alone. */
  lemma KeptRow(s: State, h: AgentHandle, resume: bool, cutoff: Instant, now: Instant)
    requires !Dropped(h, cutoff)
    ensures Adds(s, AfterRow(s, h, resume, cutoff, now), h.goalId, EntryAfter(s, h, resume, now))
    ensures ComesBackAs(h, EntryAfter(s, h, resume, now), resume)
    ensures h.status == Running && resume ==>
      (EntryAfter(s, h, resume, now).status == Running <==> CountRunning(s.inner) < s.cap)
  {
    var s1, e1 := AfterAdmit(s, h, true), EntryOf(AdmittedHandle(s, h));
    AdmitAdds(s, h);
    if h.status == Running {
      if !resume {
        var lost := Lost(h, now);
        var s0 := s.(rows := s.rows[h.goalId := lost]);
        AdmitAdds(s0, lost);
        var e0 := EntryOf(AdmittedHandle(s0, lost));
        assert Adds(s, AfterAdmit(s0, lost, true), h.goalId, e0);
        SetStatusAdds(s, AfterAdmit(s0, lost, true), h.goalId, e0, LostOnRestart, now);
      }
    } else if h.status == Sleeping && h.snapshot.sleep.Some? {
      StoredAdds(s, s1, h.goalId, e1, EntryAfter(s, h, resume, now));
    } else {
      SetStatusAdds(s, s1, h.goalId, e1, if h.status == Sleeping then Running else h.status, now);
    }
  }

  lemma {:induction false} RowIsConsistent(s: State, h: AgentHandle, resume: bool, cutoff: Instant, now: Instant)
    requires Consistent(s) && h.goalId !in s.inner
    ensures Consistent(AfterRow(s, h, resume, cutoff, now))
  {
    var s1 := AfterAdmit(s, h, true);
    AdmitIsConsistent(s, h, true);
    match h.status
    case Running =>
      if !resume {
        var lost := Lost(h, now);
        var s0 := s.(rows := s.rows[h.goalId := lost]);
        forall x | x in s0.inner ensures Good(s0, x) { assert Good(s, x); }
        AdmitIsConsistent(s0, lost, true);
        SetStatusIsConsistent(AfterAdmit(s0, lost, true), h.goalId, LostOnRestart, now);
      }
    case Sleeping =>
      if h.snapshot.sleep.Some? {
        OperationsKeepTheMirror(s1, SetSleeping(h.goalId, h.snapshot.sleep.value, now));
      } else {
        SetStatusIsConsistent(s1, h.goalId, Running, now);
      }
    case Queued => SetStatusIsConsistent(s1, h.goalId, AgentRunStatus.Queued, now);
    case Paused => SetStatusIsConsistent(s1, h.goalId, Paused, now);
    case _ =>
      if TooOld(h, cutoff) {
        var s0 := s.(rows := s.rows - {h.goalId});
        forall x | x in s0.inner ensures Good(s0, x) { assert Good(s, x); }
      } else {
        SetStatusIsConsistent(s1, h.goalId, h.status, now);
      }
  }

  // ---------------------------------------------------------------- all rows

  function IdsFrom(rows: seq<AgentHandle>, k: nat): set<GoalId>
    requires k <= |rows|
    decreases |rows| - k
  {
    if k == |rows| then {} else {rows[k].goalId} + IdsFrom(rows, k + 1)
  }

  function KeptIds(rows: seq<AgentHandle>, k: nat, cutoff: Instant): set<GoalId>
    requires k <= |rows|
    decreases |rows| - k
  {
    if k == |rows| then {}
    else if Dropped(rows[k], cutoff) then KeptIds(rows, k + 1, cutoff)
    else {rows[k].goalId} + KeptIds(rows, k + 1, cutoff)
  }

  lemma {:induction false} IdsFromMembers(rows: seq<AgentHandle>, k: nat, cutoff: Instant)
    requires k <= |rows|
    ensures forall id :: id in IdsFrom(rows, k) <==> exists i :: k <= i < |rows| && rows[i].goalId == id
    ensures forall id :: id in KeptIds(rows, k, cutoff) <==>
      exists i :: k <= i < |rows| && rows[i].goalId == id && !Dropped(rows[i], cutoff)
    ensures KeptIds(rows, k, cutoff) <= IdsFrom(rows, k)
    decreases |rows| - k
  {
    if k < |rows| { IdsFromMembers(rows, k + 1, cutoff); }
  }

  lemma HeadIsNew(rows: seq<AgentHandle>, k: nat)
    requires k < |rows| && DistinctGoals(rows)
    ensures rows[k].goalId !in IdsFrom(rows, k + 1)
  {
    IdsFromMembers(rows, k + 1, 0);
  }

  function SleepersFrom(rows: seq<AgentHandle>, k: nat): nat
    requires k <= |rows|
    decreases |rows| - k
  {
    if k == |rows| then 0 else One(rows[k].status == Sleeping) + SleepersFrom(rows, k + 1)
  }

  function Resumes(out: seq<ReattachOutcome>): nat {
    if out == [] then 0 else One(out[0].Resume?) + Resumes(out[1..])
  }

  ghost predicate StillAsStored(s: State, s': State) {
    forall id :: id in s.inner ==> id in s'.inner && s'.inner[id] == s.inner[id]
  }

  ghost predicate Restored(s': State, rows: seq<AgentHandle>, k: nat, resume: bool, cutoff: Instant)
    requires k <= |rows|
  {
    forall i :: k <= i < |rows| && !Dropped(rows[i], cutoff) ==>
      rows[i].goalId in s'.inner && ComesBackAs(rows[i], s'.inner[rows[i].goalId], resume)
  }

  /** What one step of the loop does to the two key sets and to the other goals. */
  lemma {:induction false} RowKeys(s: State, h: AgentHandle, resume: bool, cutoff: Instant, now: Instant)
    ensures var s1 := AfterRow(s, h, resume, cutoff, now);
      && s1.cap == s.cap
      && s1.inner.Keys == s.inner.Keys + (if Dropped(h, cutoff) then {} else {h.goalId})
      && s1.rows.Keys == (s.rows.Keys - {h.goalId}) + (if Dropped(h, cutoff) then {} else {h.goalId})
      && (forall id :: id in s.inner && id != h.goalId ==> s1.inner[id] == s.inner[id])
      && (!Dropped(h, cutoff) ==> ComesBackAs(h, s1.inner[h.goalId], resume))
  {
    if !Dropped(h, cutoff) { KeptRow(s, h, resume, cutoff, now); }
  }

  lemma {:induction false} IdsAreRestored(s: State, rows: seq<AgentHandle>, k: nat,
                                          resume: bool, cutoff: Instant, now: Instant)
    requires k <= |rows| && DistinctGoals(rows)
    ensures var s' := AfterRows(s, rows, k, resume, cutoff, now);
      && s'.inner.Keys == s.inner.Keys + KeptIds(rows, k, cutoff)
      && s'.rows.Keys == (s.rows.Keys - IdsFrom(rows, k)) + KeptIds(rows, k, cutoff)
    decreases |rows| - k
  {
    if k < |rows| {
      HeadIsNew(rows, k);
      RowKeys(s, rows[k], resume, cutoff, now);
      IdsAreRestored(AfterRow(s, rows[k], resume, cutoff, now), rows, k + 1, resume, cutoff, now);
    }
  }

  lemma {:induction false} RestoredConsistently(s: State, rows: seq<AgentHandle>, k: nat,
                                                resume: bool, cutoff: Instant, now: Instant)
    requires k <= |rows| && DistinctGoals(rows) && Consistent(s) && s.inner.Keys !! IdsFrom(rows, k)
    ensures Consistent(AfterRows(s, rows, k, resume, cutoff, now))
    decreases |rows| - k
  {
    if k < |rows| {
      HeadIsNew(rows, k);
      RowIsConsistent(s, rows[k], resume, cutoff, now);
      RowKeys(s, rows[k], resume, cutoff, now);
      RestoredConsistently(AfterRow(s, rows[k], resume, cutoff, now), rows, k + 1, resume, cutoff, now);
    }
  }

  /** Every kept row is restored with its own status and sleep metadata, and goals already in
      memory are not touched. */
  lemma {:induction false} RowsAreRestored(s: State, rows: seq<AgentHandle>, k: nat,
                                           resume: bool, cutoff: Instant, now: Instant)
    requires k <= |rows| && DistinctGoals(rows) && s.inner.Keys !! IdsFrom(rows, k)
    ensures StillAsStored(s, AfterRows(s, rows, k, resume, cutoff, now))
    ensures Restored(AfterRows(s, rows, k, resume, cutoff, now), rows, k, resume, cutoff)
    decreases |rows| - k
  {
    if k < |rows| {
      var s1 := AfterRow(s, rows[k], resume, cutoff, now);
      HeadIsNew(rows, k);
      RowKeys(s, rows[k], resume, cutoff, now);
      RowsAreRestored(s1, rows, k + 1, resume, cutoff, now);
      FirstIsRestored(s, s1, AfterRows(s1, rows, k + 1, resume, cutoff, now), rows, k, resume, cutoff);
    }
  }

  lemma FirstIsRestored(s: State, s1: State, s': State, rows: seq<AgentHandle>, k: nat, resume: bool, cutoff: Instant)
    requires k < |rows| && rows[k].goalId !in s.inner
    requires StillAsStored(s1, s') && Restored(s', rows, k + 1, resume, cutoff)
    requires s.inner.Keys <= s1.inner.Keys
    requires forall id :: id in s.inner && id != rows[k].goalId ==> s1.inner[id] == s.inner[id]
    requires !Dropped(rows[k], cutoff) ==>
      rows[k].goalId in s1.inner && ComesBackAs(rows[k], s1.inner[rows[k].goalId], resume)
    ensures StillAsStored(s, s') && Restored(s', rows, k, resume, cutoff)
  {
  }

  /** Slots: a resumed goal always found a free one; only sleepers may go beyond the cap. */
  lemma {:induction false} SlotsAreRespected(s: State, rows: seq<AgentHandle>, k: nat, resumed: nat,
                                             cutoff: Instant, now: Instant)
    requires k <= |rows| && DistinctGoals(rows) && s.inner.Keys !! IdsFrom(rows, k)
    requires resumed <= s.cap && resumed <= CountRunning(s.inner)
    ensures resumed + Resumes(Outcomes(s, rows, k, true, cutoff, now)) <= s.cap
    ensures var s' := AfterRows(s, rows, k, true, cutoff, now);
      && s'.cap == s.cap
      && (CountRunning(s'.inner) <= s.cap + SleepersFrom(rows, k)
          || CountRunning(s'.inner) <= CountRunning(s.inner) + SleepersFrom(rows, k))
    decreases |rows| - k
  {
    if k < |rows| {
      var s1 := AfterRow(s, rows[k], true, cutoff, now);
      var first := Outcome(s, rows[k], true, cutoff, now);
      HeadIsNew(rows, k);
      RowKeys(s, rows[k], true, cutoff, now);
      RowSlots(s, rows[k], cutoff, now);
      SlotsAreRespected(s1, rows, k + 1, resumed + One(first.Resume?), cutoff, now);
      var rest := Outcomes(s1, rows, k + 1, true, cutoff, now);
      assert ([first] + rest)[1..] == rest;
    }
  }

  lemma RowSlots(s: State, h: AgentHandle, cutoff: Instant, now: Instant)
    requires h.goalId !in s.inner
    ensures var before, after := CountRunning(s.inner), CountRunning(AfterRow(s, h, true, cutoff, now).inner);
      var resumed := Outcome(s, h, true, cutoff, now).Resume?;
      && after >= before + One(resumed)
      && (resumed ==> before < s.cap)
      && (after <= before || after <= s.cap || (h.status == Sleeping && after <= before + 1))
  {
    if !Dropped(h, cutoff) {
      KeptRow(s, h, true, cutoff, now);
      FreshEntry(s.inner, h.goalId, EntryAfter(s, h, true, now));
    }
  }

  /** What is reported of one row. */
  ghost predicate Reports(h: AgentHandle, out: ReattachOutcome, resume: bool, cutoff: Instant, now: Instant) {
    match h.status
    case Running =>
      if resume then out == Resume(h) || out == Requeued(h)
      else out == MarkedLost(h.(status := LostOnRestart, finishedAt := Some(now)))
    case Sleeping => out == Sleeper(h)
    case Queued => out == Requeued(h)
    case Paused => out == Recorded(h)
    case _ => out == if Dropped(h, cutoff) then Skipped(h.goalId, h.status) else Recorded(h)
  }

  lemma {:induction false} OutcomesMatchRows(s: State, rows: seq<AgentHandle>, k: nat,
                                             resume: bool, cutoff: Instant, now: Instant)
    requires k <= |rows|
    ensures var out := Outcomes(s, rows, k, resume, cutoff, now);
      && |out| == |rows| - k
      && (forall i :: 0 <= i < |out| ==> Reports(rows[k + i], out[i], resume, cutoff, now))
    decreases |rows| - k
  {
    hide AfterRow;
    if k < |rows| {
      OutcomesMatchRows(AfterRow(s, rows[k], resume, cutoff, now), rows, k + 1, resume, cutoff, now);
    }
  }

  /** A running row is reported resumed exactly if a slot was free, and then it does run; otherwise it
      is reported requeued, stands last in the queue, and is Queued. */
  lemma ResumedExactlyWithinTheCap(s: State, h: AgentHandle, cutoff: Instant, now: Instant)
    requires h.status == Running
    ensures var s', out := AfterRow(s, h, true, cutoff, now), Outcome(s, h, true, cutoff, now);
      && h.goalId in s'.inner
      && if CountRunning(s.inner) < s.cap
         then out == Resume(h) && s'.inner[h.goalId].status == Running && s'.queue == s.queue
         else out == Requeued(h) && s'.inner[h.goalId].status == AgentRunStatus.Queued && s'.queue == s.queue + [h.goalId]
  {
  }

  /** Without resume a running row ends LostOnRestart, finished now, in memory and store, and takes no slot. */
  lemma RunningWithoutResumeIsLost(s: State, h: AgentHandle, cutoff: Instant, now: Instant)
    requires h.status == Running && h.goalId !in s.inner
    ensures var s' := AfterRow(s, h, false, cutoff, now);
      && h.goalId in s'.inner && h.goalId in s'.rows
      && s'.inner[h.goalId].status == LostOnRestart && s'.rows[h.goalId].status == LostOnRestart
      && s'.inner[h.goalId].finishedAt == Some(now) && s'.rows[h.goalId].finishedAt == Some(now)
      && CountRunning(s'.inner) == CountRunning(s.inner)
  {
    var s' := AfterRow(s, h, false, cutoff, now);
    assert h.goalId !in Active(s.inner);
    assert Active(s'.inner) == Active(s.inner);
  }

  function Empty(stored: map<GoalId, AgentHandle>, cap: nat): State {
    State(map[], [], cap, stored)
  }

  /** Main result: reattaching an empty registry brings back exactly the stored goals that are not
      too old, each with its own status and sleep metadata, in memory and in the store alike. */
  lemma ReattachRebuildsTheRegistry(stored: map<GoalId, AgentHandle>, cap: nat, rows: seq<AgentHandle>,
                                    resume: bool, cutoff: Instant, now: Instant)
    requires KeyedByGoal(stored) && Lists(stored, rows)
    ensures var s' := AfterRows(Empty(stored, cap), rows, 0, resume, cutoff, now);
      && (forall id :: id in s'.inner <==> id in stored && !Dropped(stored[id], cutoff))
      && s'.rows.Keys == s'.inner.Keys
      && (forall id :: id in s'.inner ==> ComesBackAs(stored[id], s'.inner[id], resume))
      && Consistent(s')
  {
    var s' := AfterRows(Empty(stored, cap), rows, 0, resume, cutoff, now);
    IdsAreRestored(Empty(stored, cap), rows, 0, resume, cutoff, now);
    RestoredConsistently(Empty(stored, cap), rows, 0, resume, cutoff, now);
    RowsAreRestored(Empty(stored, cap), rows, 0, resume, cutoff, now);
    StoredIdsAreListed(stored, rows, cutoff);
    forall id | id in s'.inner ensures ComesBackAs(stored[id], s'.inner[id], resume) {
      var i :| 0 <= i < |rows| && rows[i] == stored[id];
      assert rows[i].goalId == id;
    }
  }

  /** Main result: no restart oversubscribes.  Resumed goals never exceed the cap, goals holding a
      slot never exceed the cap plus the stored sleepers, and only running rows are resumed. */
  lemma ReattachHonoursTheCap(stored: map<GoalId, AgentHandle>, cap: nat, rows: seq<AgentHandle>,
                              cutoff: Instant, now: Instant)
    requires KeyedByGoal(stored) && Lists(stored, rows)
    ensures var s', out := AfterRows(Empty(stored, cap), rows, 0, true, cutoff, now),
                           Outcomes(Empty(stored, cap), rows, 0, true, cutoff, now);
      && Resumes(out) <= cap
      && CountRunning(s'.inner) <= cap + SleepersFrom(rows, 0)
      && |out| == |rows|
      && (forall i :: 0 <= i < |rows| ==> (out[i].Resume? ==> rows[i].status == Running))
  {
    assert Active(map[]) == {};
    SlotsAreRespected(Empty(stored, cap), rows, 0, 0, cutoff, now);
    OutcomesMatchRows(Empty(stored, cap), rows, 0, true, cutoff, now);
    hide *;
    OnlyRunningRowsResume(rows, Outcomes(Empty(stored, cap), rows, 0, true, cutoff, now), cutoff, now);
  }

  lemma OnlyRunningRowsResume(rows: seq<AgentHandle>, out: seq<ReattachOutcome>, cutoff: Instant, now: Instant)
    requires |out| == |rows|
    requires forall i :: 0 <= i < |out| ==> Reports(rows[0 + i], out[i], true, cutoff, now)
    ensures forall i :: 0 <= i < |rows| ==> (out[i].Resume? ==> rows[i].status == Running)
  {
    forall i | 0 <= i < |rows| && out[i].Resume? ensures rows[i].status == Running {
      assert Reports(rows[0 + i], out[i], true, cutoff, now);
    }
  }

  lemma StoredIdsAreListed(stored: map<GoalId, AgentHandle>, rows: seq<AgentHandle>, cutoff: Instant)
    requires KeyedByGoal(stored) && Lists(stored, rows)
    ensures IdsFrom(rows, 0) == stored.Keys
    ensures forall id :: id in KeptIds(rows, 0, cutoff) <==> id in stored && !Dropped(stored[id], cutoff)
  {
    IdsFromMembers(rows, 0, cutoff);
    forall id | id in stored ensures exists i :: 0 <= i < |rows| && rows[i].goalId == id && rows[i] == stored[id] {
      var i :| 0 <= i < |rows| && rows[i] == stored[id];
    }
    forall i | 0 <= i < |rows| ensures rows[i].goalId in stored && stored[rows[i].goalId] == rows[i] {
      assert rows[i] in rows;
    }
  }
}
