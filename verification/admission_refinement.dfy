/** An operation that nobody disturbs: the interleaved steps of `admission` end where the sequential
    registry's functions say. */
module AdmissionRefinement {
  import opened AgentTypes
  import opened Admission
  import Spec = RegistrySpec

  function Goals(q: seq<Entry>): seq<GoalId> {
    seq(|q|, i requires 0 <= i < |q| => q[i].goal)
  }

  /** The two registries hold the same goals with the same statuses, queue and cap. */
  ghost predicate SameRegistry(s: State, r: Spec.State) {
    && s.inner.Keys == r.inner.Keys && (forall id :: id in s.inner ==> s.inner[id] == r.inner[id].status)
    && Goals(s.queue) == r.queue && s.cap == r.cap
  }

  lemma SameActive(s: State, r: Spec.State)
    requires SameRegistry(s, r)
    ensures Active(s.inner) == Spec.Active(r.inner)
  {
  }

  lemma {:induction false} RunsConcat(s: State, a: seq<Action>, b: seq<Action>)
    requires Runs(s, a) && Runs(Final(s, a), b)
    ensures Runs(s, a + b) && Final(s, a + b) == Final(Final(s, a), b)
    decreases |a|
  {
    if a == [] {
      assert a + b == b;
    } else {
      RunsConcat(Apply(s, a[0]), a[1..], b);
      assert (a + b)[0] == a[0] && (a + b)[1..] == a[1..] + b;
    }
  }

  lemma RunOne(s: State, a: Action)
    requires Enabled(s, a)
    ensures Runs(s, [a]) && Final(s, [a]) == Apply(s, a)
  {
    assert [a][1..] == [];
    assert Runs(Apply(s, a), []);
  }

  lemma RunTwo(s: State, a: Action, b: Action)
    requires Enabled(s, a) && Enabled(Apply(s, a), b)
    ensures Runs(s, [a, b]) && Final(s, [a, b]) == Apply(Apply(s, a), b)
  {
    RunOne(s, a);
    RunOne(Apply(s, a), b);
    RunsConcat(s, [a], [b]);
    assert [a] + [b] == [a, b];
  }

  function Visits(t: Tid, ids: seq<GoalId>): seq<Action> {
    seq(|ids|, i requires 0 <= i < |ids| => Visit(t, ids[i]))
  }

  /** Each goal once, in some order. */
  ghost predicate Lists(ids: seq<GoalId>, goals: set<GoalId>) {
    && (forall i, j :: 0 <= i < j < |ids| ==> ids[i] != ids[j])
    && (forall id :: id in ids <==> id in goals)
  }

  lemma TailLists(ids: seq<GoalId>, goals: set<GoalId>)
    requires ids != [] && Lists(ids, goals)
    ensures ids[0] in goals && Lists(ids[1..], goals - {ids[0]})
  {
    forall id | id in goals - {ids[0]} ensures id in ids[1..] {
      var i :| 0 <= i < |ids| && ids[i] == id;
    }
    forall id | id in ids[1..] ensures id in goals - {ids[0]} {
      var i :| 1 <= i < |ids| && ids[i] == id;
    }
  }

  function AtScan(s: State, t: Tid, left: set<GoalId>, seen: nat): State
    requires t in s.admitters && s.admitters[t].Scanning?
  {
    s.(admitters := s.admitters[t := Scanning(s.admitters[t].goal, s.admitters[t].enqueue, left, seen)])
  }

  lemma RunsCons(s: State, a: Action, rest: seq<Action>)
    requires Enabled(s, a) && Runs(Apply(s, a), rest)
    ensures Runs(s, [a] + rest) && Final(s, [a] + rest) == Final(Apply(s, a), rest)
  {
    RunOne(s, a);
    RunsConcat(s, [a], rest);
  }

  lemma VisitStep(s: State, t: Tid, left: set<GoalId>, seen: nat, id: GoalId)
    requires t in s.admitters && s.admitters[t].Scanning? && id in left
    ensures Enabled(AtScan(s, t, left, seen), Visit(t, id))
    ensures Apply(AtScan(s, t, left, seen), Visit(t, id)) ==
      AtScan(s, t, left - {id}, if id in Active(s.inner) then seen + 1 else seen)
  {
    assert IsActiveAt(s.inner, id) <==> id in Active(s.inner);
  }

  lemma NothingLeft(s: State, t: Tid, left: set<GoalId>, seen: nat)
    requires t in s.admitters && s.admitters[t].Scanning? && Lists([], left)
    ensures Runs(AtScan(s, t, left, seen), Visits(t, []))
    ensures Final(AtScan(s, t, left, seen), Visits(t, [])) == AtScan(s, t, {}, seen + |Active(s.inner) * left|)
  {
    assert forall id :: id in left ==> id in [];
    assert left == {} && Active(s.inner) * {} == {};
    assert Visits(t, []) == [];
  }

  lemma VisitsHead(t: Tid, ids: seq<GoalId>)
    requires ids != []
    ensures Visits(t, ids) == [Visit(t, ids[0])] + Visits(t, ids[1..])
  {
  }

  /** A scan nobody disturbs counts the active goals, whatever the order of its visits. */
  lemma {:induction false} LoneScan(s: State, t: Tid, ids: seq<GoalId>, left: set<GoalId>, seen: nat)
    requires t in s.admitters && s.admitters[t].Scanning? && Lists(ids, left)
    ensures Runs(AtScan(s, t, left, seen), Visits(t, ids))
    ensures Final(AtScan(s, t, left, seen), Visits(t, ids)) == AtScan(s, t, {}, seen + |Active(s.inner) * left|)
    decreases |ids|
  {
    hide *;
    if ids == [] {
      NothingLeft(s, t, left, seen);
    } else {
      TailLists(ids, left);
      var id := ids[0];
      var seen' := if id in Active(s.inner) then seen + 1 else seen;
      VisitStep(s, t, left, seen, id);
      VisitCounts(Active(s.inner), left, id);
      LoneScan(s, t, ids[1..], left - {id}, seen');
      RunsCons(AtScan(s, t, left, seen), Visit(t, id), Visits(t, ids[1..]));
      VisitsHead(t, ids);
    }
  }

  lemma VisitCounts(active: set<GoalId>, left: set<GoalId>, id: GoalId)
    requires id in left
    ensures |active * left| == |active * (left - {id})| + if id in active then 1 else 0
  {
    assert active * left == active * (left - {id}) + if id in active then {id} else {};
  }

  function AdmitRun(t: Tid, goal: GoalId, enqueue: bool, ids: seq<GoalId>, full: bool): seq<Action> {
    ([Begin(t, goal, enqueue), TakeLock(t)] + Visits(t, ids)) + [Compare(t)]
    + (if full && !enqueue then [] else (if full then [Push(t)] else []) + [Insert(t), Store(t)])
  }

  ghost predicate Ready(s: State, t: Tid) {
    t in s.admitters && s.admitters[t].Idle? && s.lock == Nobody
  }

  /** Up to the comparison: the lock is held and the count is the true one. */
  lemma LoneCount(s: State, t: Tid, goal: GoalId, enqueue: bool, ids: seq<GoalId>)
    requires Ready(s, t) && Lists(ids, s.inner.Keys)
    ensures var acts := [Begin(t, goal, enqueue), TakeLock(t)] + Visits(t, ids);
      Runs(s, acts) && Final(s, acts) ==
      s.(admitters := s.admitters[t := Scanning(goal, enqueue, {}, |Active(s.inner)|)], lock := Held(t))
  {
    RunTwo(s, Begin(t, goal, enqueue), TakeLock(t));
    var s' := Apply(Apply(s, Begin(t, goal, enqueue)), TakeLock(t));
    LoneScan(s', t, ids, s.inner.Keys, 0);
    assert AtScan(s', t, s.inner.Keys, 0) == s';
    assert Active(s.inner) * s.inner.Keys == Active(s.inner);
    RunsConcat(s, [Begin(t, goal, enqueue), TakeLock(t)], Visits(t, ids));
    assert Final(s', Visits(t, ids)).admitters
        == s.admitters[t := Scanning(goal, enqueue, {}, |Active(s.inner)|)];
  }

  /** Where an undisturbed admission ends. */
  function Admitted(s: State, t: Tid, goal: GoalId, enqueue: bool): State {
    if |Active(s.inner)| < s.cap then s.(inner := s.inner[goal := Running])
    else if enqueue then
      s.(inner := s.inner[goal := Queued], queue := s.queue + [Entry(s.nextTicket, goal)], nextTicket := s.nextTicket + 1)
    else s
  }

  lemma LoneDecision(s: State, t: Tid, goal: GoalId, enqueue: bool, ids: seq<GoalId>)
    requires Ready(s, t) && Lists(ids, s.inner.Keys)
    ensures var acts := AdmitRun(t, goal, enqueue, ids, |Active(s.inner)| >= s.cap);
      Runs(s, acts) && Final(s, acts) == Admitted(s, t, goal, enqueue)
  {
    var counting := [Begin(t, goal, enqueue), TakeLock(t)] + Visits(t, ids);
    LoneCount(s, t, goal, enqueue, ids);
    var s' := Final(s, counting);
    RunOne(s', Compare(t));
    RunsConcat(s, counting, [Compare(t)]);
    var decided := Apply(s', Compare(t));
    LoneTail(s, decided, t, goal, enqueue);
    RunsConcat(s, counting + [Compare(t)],
      if |Active(s.inner)| >= s.cap && !enqueue then []
      else (if |Active(s.inner)| >= s.cap then [Push(t)] else []) + [Insert(t), Store(t)]);
  }

  lemma LoneTail(s: State, decided: State, t: Tid, goal: GoalId, enqueue: bool)
    requires Ready(s, t)
    requires var full := |Active(s.inner)| >= s.cap;
      decided == if full && !enqueue then s
                 else s.(admitters := s.admitters[t := if full then Pushing(goal) else Inserting(goal, Running)], lock := Held(t))
    ensures var full := |Active(s.inner)| >= s.cap;
      var acts := if full && !enqueue then [] else (if full then [Push(t)] else []) + [Insert(t), Store(t)];
      Runs(decided, acts) && Final(decided, acts) == Admitted(s, t, goal, enqueue)
  {
    if |Active(s.inner)| < s.cap {
      RunTwo(decided, Insert(t), Store(t));
      assert [] + [Insert(t), Store(t)] == [Insert(t), Store(t)];
    } else if enqueue {
      var pushed := Apply(decided, Push(t));
      RunOne(decided, Push(t));
      RunTwo(pushed, Insert(t), Store(t));
      RunsConcat(decided, [Push(t)], [Insert(t), Store(t)]);
    }
    assert s.admitters[t := Idle] == s.admitters;
  }

  /** Main result: an undisturbed `admit`, whatever the order of its scan, is the sequential one, and
      leaves lock and admitters as it found them. */
  lemma LoneAdmit(s: State, r: Spec.State, t: Tid, h: AgentHandle, enqueue: bool, ids: seq<GoalId>)
    requires SameRegistry(s, r) && Ready(s, t) && Lists(ids, s.inner.Keys)
    ensures var acts := AdmitRun(t, h.goalId, enqueue, ids, |Active(s.inner)| >= s.cap);
      Runs(s, acts) && SameRegistry(Final(s, acts), Spec.AfterAdmit(r, h, enqueue)) && Ready(Final(s, acts), t)
  {
    LoneDecision(s, t, h.goalId, enqueue, ids);
    SameActive(s, r);
    assert Goals(s.queue + [Entry(s.nextTicket, h.goalId)]) == Goals(s.queue) + [h.goalId];
  }

  /** Main result: an undisturbed `release` marks the goal and hands out the head of the queue, as the
      sequential one does, and records the ticket of that head. */
  lemma LoneRelease(s: State, r: Spec.State, rel: Tid, goal: GoalId, terminal: AgentRunStatus, now: Instant)
    requires SameRegistry(s, r) && rel in s.releasers && s.releasers[rel].Free? && goal in s.inner && terminal.IsTerminal()
    ensures var acts := [Mark(rel, goal, terminal), Pop(rel)];
      && Runs(s, acts) && SameRegistry(Final(s, acts), Spec.AfterRelease(r, goal, terminal, now))
      && Final(s, acts).handed == s.handed + (if s.queue == [] then [] else [s.queue[0].ticket])
  {
    RunTwo(s, Mark(rel, goal, terminal), Pop(rel));
    if s.queue != [] {
      assert Goals(s.queue[1..]) == Goals(s.queue)[1..];
    }
    assert s.handed + [] == s.handed;
  }

  lemma {:induction false} RetainIsWithout(q: seq<Entry>, goal: GoalId)
    ensures Goals(Retain(q, goal)) == Spec.WithoutGoal(Goals(q), goal)
  {
    if q != [] {
      assert Goals(q)[1..] == Goals(q[1..]);
      RetainIsWithout(q[1..], goal);
      if q[0].goal != goal {
        assert Goals([q[0]] + Retain(q[1..], goal)) == [q[0].goal] + Goals(Retain(q[1..], goal));
      }
    }
  }

  lemma StatusStep(s: State, r: Spec.State, goal: GoalId, status: AgentRunStatus, now: Instant)
    requires SameRegistry(s, r) && goal in s.inner
    ensures Enabled(s, SetStatus(goal, status))
    ensures SameRegistry(Apply(s, SetStatus(goal, status)), Spec.AfterSetStatus(r, goal, status, now))
    ensures Spec.AfterSetStatus(r, goal, status, now).inner.Keys == r.inner.Keys
  {
  }

  /** An undisturbed promotion takes every entry of the goal out of the queue and sets it Running. */
  lemma LonePromote(s: State, r: Spec.State, goal: GoalId, now: Instant)
    requires SameRegistry(s, r) && goal in Goals(s.queue)
    ensures var acts := [Promote(goal)] + if goal in s.inner then [SetStatus(goal, Running)] else [];
      Runs(s, acts) && SameRegistry(Final(s, acts), Spec.AfterPromote(r, goal, now))
  {
    RetainIsWithout(s.queue, goal);
    RunOne(s, Promote(goal));
    var s', r' := Apply(s, Promote(goal)), r.(queue := Spec.WithoutGoal(r.queue, goal));
    assert SameRegistry(s', r');
    hide Apply, Enabled, Runs, Final, Goals, Spec.AfterSetStatus;
    if goal in s.inner {
      StatusStep(s', r', goal, Running, now);
      RunOne(s', SetStatus(goal, Running));
      RunsConcat(s, [Promote(goal)], [SetStatus(goal, Running)]);
    } else {
      assert [Promote(goal)] + [] == [Promote(goal)];
    }
  }

  function Cancels(goals: seq<GoalId>): seq<Action> {
    seq(|goals|, i requires 0 <= i < |goals| => SetStatus(goals[i], Cancelled))
  }

  lemma CancelsHead(drained: seq<GoalId>, k: nat, known: nat)
    requires k < |drained| && k + known < |drained|
    ensures Cancels(drained[k..][..known + 1]) == [SetStatus(drained[k], Cancelled)] + Cancels(drained[k + 1..][..known])
  {
  }

  /** The cancelling loop from position `k` on, up to the first unknown goal. */
  lemma {:induction false} LoneCancels(s: State, r: Spec.State, drained: seq<GoalId>, k: nat, now: Instant)
    requires SameRegistry(s, r) && k <= |drained|
    ensures var known := Spec.FirstUnknown(drained[k..], r.inner);
      Runs(s, Cancels(drained[k..][..known]))
      && SameRegistry(Final(s, Cancels(drained[k..][..known])), Spec.AfterCancelling(r, drained, k, now))
    decreases |drained| - k
  {
    if k < |drained| && drained[k] in r.inner {
      hide Cancels, Apply, Enabled, Runs, Final, Goals, Spec.AfterSetStatus;
      var a := SetStatus(drained[k], Cancelled);
      var s', r' := Apply(s, a), Spec.AfterSetStatus(r, drained[k], Cancelled, now);
      StatusStep(s, r, drained[k], Cancelled, now);
      assert drained[k..][1..] == drained[k + 1..];
      var known := Spec.FirstUnknown(drained[k + 1..], r.inner);
      SameFirstUnknown(drained[k + 1..], r.inner, r'.inner);
      LoneCancels(s', r', drained, k + 1, now);
      RunsCons(s, a, Cancels(drained[k + 1..][..known]));
      CancelsHead(drained, k, known);
    } else {
      assert Cancels(drained[k..][..0]) == [];
    }
  }

  lemma {:induction false} SameFirstUnknown(drained: seq<GoalId>, a: map<GoalId, Spec.Entry>, b: map<GoalId, Spec.Entry>)
    requires a.Keys == b.Keys
    ensures Spec.FirstUnknown(drained, a) == Spec.FirstUnknown(drained, b)
  {
    if drained != [] { SameFirstUnknown(drained[1..], a, b); }
  }

  /** An undisturbed flush empties the queue and cancels its goals in order up to the first unknown one. */
  lemma LoneFlush(s: State, r: Spec.State, now: Instant)
    requires SameRegistry(s, r)
    ensures var drained := Goals(s.queue);
      var acts := [Flush] + Cancels(drained[..Spec.FirstUnknown(drained, r.inner)]);
      Runs(s, acts) && SameRegistry(Final(s, acts), Spec.AfterFlush(r, now))
  {
    var drained := Goals(s.queue);
    RunOne(s, Flush);
    assert drained[0..] == drained;
    LoneCancels(Apply(s, Flush), r.(queue := []), drained, 0, now);
    RunsConcat(s, [Flush], Cancels(drained[..Spec.FirstUnknown(drained, r.inner)]));
  }

  /** A cap change and a status change are single steps of both. */
  lemma LoneSingleSteps(s: State, r: Spec.State, goal: GoalId, status: AgentRunStatus, cap: nat, now: Instant)
    requires SameRegistry(s, r)
    ensures Enabled(s, SetCap(cap)) && SameRegistry(Apply(s, SetCap(cap)), Spec.After(r, Spec.SetCap(cap)))
    ensures goal in s.inner ==>
      && Enabled(s, SetStatus(goal, status))
      && SameRegistry(Apply(s, SetStatus(goal, status)), Spec.After(r, Spec.SetStatus(goal, status, now)))
  {
    if goal in s.inner { StatusStep(s, r, goal, status, now); }
  }

  function Evicts(ids: seq<GoalId>): seq<Action> {
    seq(|ids|, i requires 0 <= i < |ids| => Evict(ids[i]))
  }

  lemma {:induction false} LoneEvicts(s: State, r: Spec.State, ids: seq<GoalId>, victims: set<GoalId>)
    requires SameRegistry(s, r) && Lists(ids, victims) && victims <= s.inner.Keys
    requires forall id :: id in victims ==> s.inner[id].IsTerminal()
    ensures Runs(s, Evicts(ids)) && SameRegistry(Final(s, Evicts(ids)), r.(inner := r.inner - victims))
    decreases |ids|
  {
    if ids == [] {
      assert forall id :: id in victims ==> id in ids;
      assert victims == {} && r.inner - victims == r.inner;
    } else {
      TailLists(ids, victims);
      var id := ids[0];
      var s', r' := Apply(s, Evict(id)), r.(inner := r.inner - {id});
      LoneEvicts(s', r', ids[1..], victims - {id});
      assert r'.inner - (victims - {id}) == r.inner - victims;
      RunsCons(s, Evict(id), Evicts(ids[1..]));
      assert Evicts(ids) == [Evict(id)] + Evicts(ids[1..]);
    }
  }

  /** An undisturbed eviction drops the expired goals, in whatever order. */
  lemma LoneEvictTerminal(s: State, r: Spec.State, ids: seq<GoalId>, cutoff: Instant)
    requires SameRegistry(s, r) && Lists(ids, Spec.Victims(r.inner, cutoff))
    ensures Runs(s, Evicts(ids)) && SameRegistry(Final(s, Evicts(ids)), Spec.AfterEvict(r, cutoff))
  {
    LoneEvicts(s, r, ids, Spec.Victims(r.inner, cutoff));
  }
}
