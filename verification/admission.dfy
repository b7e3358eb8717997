/** Concurrent admission.  `admit` takes a lock, counts the active goals one map entry at a time,
    compares with the cap, pushes to the queue and inserts; releases, status changes, promotions,
    flushes and cap changes take no part in that lock and run in between.  One action is what is
    atomic in the code: a map access, a queue access, a cap access. */
module Admission {
  import opened AgentTypes
  import opened Options
  import opened Sets

  type Tid = nat

  datatype Admitter =
    | Idle
    | Waiting(goal: GoalId, enqueue: bool)                                    // awaiting admit_lock
    | Scanning(goal: GoalId, enqueue: bool, left: set<GoalId>, seen: nat)     // count_running under way
    | Pushing(goal: GoalId)                                                   // over the cap, about to queue
    | Inserting(goal: GoalId, status: AgentRunStatus)                         // about to insert the entry
    | Storing(goal: GoalId)                                                   // lock dropped, upsert awaited

  datatype Releaser = Free | Popping  // marked its goal terminal, about to pop the queue

  datatype Holder = Nobody | Held(tid: Tid)

  /** A queue entry; tickets number the pushes in admission order. */
  datatype Entry = Entry(ticket: nat, goal: GoalId)

  /** `handed`, `promoted` and `flushed` record who took which ticket, `peak` the highest cap so far. */
  datatype State = State(
    inner: map<GoalId, AgentRunStatus>,
    queue: seq<Entry>,
    cap: nat,
    lock: Holder,
    admitters: map<Tid, Admitter>,
    releasers: map<Tid, Releaser>,
    peak: nat,
    nextTicket: nat,
    handed: seq<nat>,
    promoted: set<nat>,
    flushed: set<nat>)

  datatype Action =
    | Begin(t: Tid, goal: GoalId, enqueue: bool)
    | TakeLock(t: Tid)
    | Visit(t: Tid, id: GoalId)
    | Compare(t: Tid)
    | Push(t: Tid)
    | Insert(t: Tid)
    | Store(t: Tid)
    | Mark(r: Tid, goal: GoalId, terminal: AgentRunStatus)
    | Pop(r: Tid)
    | SetStatus(goal: GoalId, status: AgentRunStatus)
    | Evict(goal: GoalId)
    | Promote(goal: GoalId)
    | Flush
    | SetCap(cap: nat)

  predicate Enabled(s: State, a: Action) {
    match a
    case Begin(t, _, _) => t in s.admitters && s.admitters[t].Idle?
    case TakeLock(t) => t in s.admitters && s.admitters[t].Waiting? && s.lock == Nobody
    case Visit(t, id) => t in s.admitters && s.admitters[t].Scanning? && id in s.admitters[t].left
    case Compare(t) => t in s.admitters && s.admitters[t].Scanning? && s.admitters[t].left == {}
    case Push(t) => t in s.admitters && s.admitters[t].Pushing?
    case Insert(t) => t in s.admitters && s.admitters[t].Inserting?
    case Store(t) => t in s.admitters && s.admitters[t].Storing?
    case Mark(r, g, st) => r in s.releasers && s.releasers[r].Free? && st.IsTerminal() && g in s.inner
    case Pop(r) => r in s.releasers && s.releasers[r].Popping?
    case SetStatus(g, _) => g in s.inner
    case Evict(g) => g in s.inner && s.inner[g].IsTerminal()
    case Promote(g) => true
    case Flush => true
    case SetCap(_) => true
  }

  function Tickets(q: seq<Entry>): set<nat> {
    set e | e in q :: e.ticket
  }

  function TicketsOf(q: seq<Entry>, goal: GoalId): set<nat> {
    set e | e in q && e.goal == goal :: e.ticket
  }

  /** The queue with every entry of one goal taken out. */
  function Retain(q: seq<Entry>, goal: GoalId): seq<Entry> {
    if q == [] then []
    else if q[0].goal == goal then Retain(q[1..], goal)
    else [q[0]] + Retain(q[1..], goal)
  }

  function IsActiveAt(inner: map<GoalId, AgentRunStatus>, id: GoalId): bool {
    id in inner && inner[id].IsActive()
  }

  function Apply(s: State, a: Action): State
    requires Enabled(s, a)
  {
    match a
    case Begin(t, g, enqueue) => s.(admitters := s.admitters[t := Waiting(g, enqueue)])
    case TakeLock(t) =>
      var pc := s.admitters[t];
      s.(admitters := s.admitters[t := Scanning(pc.goal, pc.enqueue, s.inner.Keys, 0)], lock := Held(t))
    case Visit(t, id) =>
      var pc := s.admitters[t];
      var seen := if IsActiveAt(s.inner, id) then pc.seen + 1 else pc.seen;
      s.(admitters := s.admitters[t := Scanning(pc.goal, pc.enqueue, pc.left - {id}, seen)])
    case Compare(t) =>
      var pc := s.admitters[t];
      if pc.seen < s.cap then s.(admitters := s.admitters[t := Inserting(pc.goal, Running)])
      else if pc.enqueue then s.(admitters := s.admitters[t := Pushing(pc.goal)])
      else s.(admitters := s.admitters[t := Idle], lock := Nobody)
    case Push(t) =>
      var g := s.admitters[t].goal;
      s.(admitters := s.admitters[t := Inserting(g, Queued)],
         queue := s.queue + [Entry(s.nextTicket, g)], nextTicket := s.nextTicket + 1)
    case Insert(t) =>
      var pc := s.admitters[t];
      s.(admitters := s.admitters[t := Storing(pc.goal)], inner := s.inner[pc.goal := pc.status], lock := Nobody)
    case Store(t) => s.(admitters := s.admitters[t := Idle])
    case Mark(r, g, st) => s.(releasers := s.releasers[r := Popping], inner := s.inner[g := st])
    case Pop(r) =>
      if s.queue == [] then s.(releasers := s.releasers[r := Free])
      else s.(releasers := s.releasers[r := Free], queue := s.queue[1..], handed := s.handed + [s.queue[0].ticket])
    case SetStatus(g, st) => s.(inner := s.inner[g := st])
    case Evict(g) => s.(inner := s.inner - {g})
    case Promote(g) => s.(queue := Retain(s.queue, g), promoted := s.promoted + TicketsOf(s.queue, g))
    case Flush => s.(queue := [], flushed := s.flushed + Tickets(s.queue))
    case SetCap(cap) => s.(cap := cap, peak := if cap > s.peak then cap else s.peak)
  }

  ghost predicate Runs(s: State, acts: seq<Action>)
    decreases |acts|
  {
    acts == [] || (Enabled(s, acts[0]) && Runs(Apply(s, acts[0]), acts[1..]))
  }

  function Final(s: State, acts: seq<Action>): State
    requires Runs(s, acts)
    decreases |acts|
  {
    if acts == [] then s else Final(Apply(s, acts[0]), acts[1..])
  }

  ghost predicate Initial(s: State) {
    && s.lock == Nobody && s.peak == s.cap
    && (forall t :: t in s.admitters ==> s.admitters[t].Idle?)
    && (forall r :: r in s.releasers ==> s.releasers[r].Free?)
    && s.queue == [] && s.nextTicket == 0 && s.handed == [] && s.promoted == {} && s.flushed == {}
  }

  // ---------------------------------------------------------------- the cap

  function Active(inner: map<GoalId, AgentRunStatus>): set<GoalId> {
    set id | id in inner && inner[id].IsActive()
  }

  predicate Critical(pc: Admitter) {
    pc.Scanning? || pc.Pushing? || pc.Inserting?
  }

  /** The count so far plus what is left to visit never falls behind the truth, and a goal about to
      be inserted as Running still finds its slot free. */
  ghost predicate CountIsSafe(s: State, pc: Admitter) {
    && (pc.Scanning? ==> |Active(s.inner)| <= pc.seen + |Active(s.inner) * pc.left|)
    && (pc.Inserting? && pc.status.IsActive() ==> |Active(s.inner)| + 1 <= s.peak)
  }

  ghost predicate Guarded(s: State) {
    && s.cap <= s.peak
    && (forall t :: t in s.admitters && Critical(s.admitters[t]) ==> s.lock == Held(t))
    && (forall t :: t in s.admitters ==> CountIsSafe(s, s.admitters[t]))
  }

  /** Neither a promotion's status change nor any other one gives a slot to a goal without one. */
  predicate TakesNoSlot(s: State, a: Action) {
    a.SetStatus? && a.status.IsActive() ==> IsActiveAt(s.inner, a.goal)
  }

  predicate NoSlotTaken(s: State, acts: seq<Action>)
    requires Runs(s, acts)
    decreases |acts|
  {
    acts == [] || (TakesNoSlot(s, acts[0]) && NoSlotTaken(Apply(s, acts[0]), acts[1..]))
  }

  /** When goals only leave the active set, a count under way stays safe: each one that leaves was
      either still to be visited or already counted. */
  lemma ShrinkingKeepsCount(before: set<GoalId>, after: set<GoalId>, left: set<GoalId>, seen: nat)
    requires after <= before && |before| <= seen + |before * left|
    ensures |after| <= seen + |after * left|
  {
    var gone := before - after;
    assert before == after + gone && after !! gone;
    assert before * left == (after * left) + (gone * left) && (after * left) !! (gone * left);
    assert |before| == |after| + |gone|;
    assert |before * left| == |after * left| + |gone * left|;
    SubsetSize(gone * left, gone);
  }

  lemma VisitKeepsCount(active: set<GoalId>, left: set<GoalId>, seen: nat, id: GoalId)
    requires id in left && |active| <= seen + |active * left|
    ensures |active| <= (if id in active then seen + 1 else seen) + |active * (left - {id})|
  {
    if id in active {
      assert active * left == (active * (left - {id})) + {id};
    } else {
      assert active * left == active * (left - {id});
    }
  }

  function SlotOf(pc: Admitter): set<GoalId> {
    if pc.Inserting? && pc.status.IsActive() then {pc.goal} else {}
  }

  /** No action but an insertion adds to the active set, and that one adds the inserted goal. */
  lemma ActiveOnlyGrowsByInsert(s: State, a: Action)
    requires Enabled(s, a) && TakesNoSlot(s, a)
    ensures !a.Insert? ==> Active(Apply(s, a).inner) <= Active(s.inner)
    ensures a.Insert? ==>
      Active(Apply(s, a).inner) <= Active(s.inner) + SlotOf(s.admitters[a.t])
  {
  }

  lemma LockStep(s: State, a: Action)
    requires Guarded(s) && Enabled(s, a)
    ensures var s' := Apply(s, a);
      && s'.cap <= s'.peak && s.peak <= s'.peak
      && forall t :: t in s'.admitters && Critical(s'.admitters[t]) ==> s'.lock == Held(t)
  {
    if a.TakeLock? { assert forall t :: t in s.admitters ==> !Critical(s.admitters[t]); }
  }

  lemma OwnCountStep(s: State, a: Action, t: Tid)
    requires Guarded(s) && Enabled(s, a) && (a == TakeLock(t) || (a.Visit? && a.t == t) || a == Compare(t))
    ensures CountIsSafe(Apply(s, a), Apply(s, a).admitters[t])
  {
    var pc, active := s.admitters[t], Active(s.inner);
    assert CountIsSafe(s, pc);
    if a.TakeLock? {
      assert active * s.inner.Keys == active;
    } else if a.Visit? {
      assert IsActiveAt(s.inner, a.id) <==> a.id in active;
      VisitKeepsCount(active, pc.left, pc.seen, a.id);
    } else {
      assert active * {} == {};
    }
  }

  /** Whoever stands in the critical section is alone there, so nobody else inserts meanwhile. */
  lemma AloneInside(s: State)
    requires Guarded(s)
    ensures forall t, u :: t in s.admitters && u in s.admitters && Critical(s.admitters[t]) && Critical(s.admitters[u]) ==>
      t == u
  {
    forall t, u | t in s.admitters && u in s.admitters && Critical(s.admitters[t]) && Critical(s.admitters[u])
      ensures t == u
    {
      assert s.lock == Held(t) && s.lock == Held(u);
    }
  }

  lemma OthersCountStep(s: State, a: Action, t: Tid)
    requires Guarded(s) && Enabled(s, a) && TakesNoSlot(s, a) && t in s.admitters
    requires Apply(s, a).admitters[t] == s.admitters[t] && Critical(s.admitters[t])
    ensures CountIsSafe(Apply(s, a), s.admitters[t])
  {
    var s', pc := Apply(s, a), s.admitters[t];
    assert CountIsSafe(s, pc);
    AloneInside(s);
    if !a.Insert? {
      ActiveOnlyGrowsByInsert(s, a);
      PeakNeverFalls(s, a);
      hide Apply;
      SubsetSize(Active(s'.inner), Active(s.inner));
      if pc.Scanning? { ShrinkingKeepsCount(Active(s.inner), Active(s'.inner), pc.left, pc.seen); }
    }
  }

  lemma PeakNeverFalls(s: State, a: Action)
    requires Enabled(s, a)
    ensures s.peak <= Apply(s, a).peak
  {
  }

  /** Any other move of an admitter leaves it with neither a count nor a slot. */
  lemma OtherMovesClaimNothing(s: State, a: Action, t: Tid)
    requires Enabled(s, a) && t in s.admitters && Apply(s, a).admitters[t] != s.admitters[t]
    requires a != TakeLock(t) && !(a.Visit? && a.t == t) && a != Compare(t)
    ensures !Apply(s, a).admitters[t].Scanning? && SlotOf(Apply(s, a).admitters[t]) == {}
  {
  }

  lemma CountStep(s: State, a: Action, t: Tid)
    requires Guarded(s) && Enabled(s, a) && TakesNoSlot(s, a) && t in s.admitters
    ensures CountIsSafe(Apply(s, a), Apply(s, a).admitters[t])
  {
    KeepsAdmitters(s, a);
    hide Apply;
    hide Guarded;
    if a == TakeLock(t) || (a.Visit? && a.t == t) || a == Compare(t) {
      OwnCountStep(s, a, t);
    } else if Apply(s, a).admitters[t] != s.admitters[t] {
      OtherMovesClaimNothing(s, a, t);
    } else if Critical(s.admitters[t]) {
      OthersCountStep(s, a, t);
    }
  }

  lemma KeepsAdmitters(s: State, a: Action)
    requires Enabled(s, a)
    ensures Apply(s, a).admitters.Keys == s.admitters.Keys
  {
  }

  lemma GuardedStep(s: State, a: Action)
    requires Guarded(s) && Enabled(s, a) && TakesNoSlot(s, a)
    ensures Guarded(Apply(s, a))
    ensures |Active(Apply(s, a).inner)| <= |Active(s.inner)| || |Active(Apply(s, a).inner)| <= Apply(s, a).peak
    ensures s.peak <= Apply(s, a).peak
  {
    var s' := Apply(s, a);
    LockStep(s, a);
    forall t | t in s'.admitters ensures CountIsSafe(s', s'.admitters[t]) { CountStep(s, a, t); }
    ActiveOnlyGrowsByInsert(s, a);
    if a.Insert? {
      var pc := s.admitters[a.t];
      assert CountIsSafe(s, pc);
      SubsetSize(Active(s'.inner), Active(s.inner) + SlotOf(pc));
    } else {
      SubsetSize(Active(s'.inner), Active(s.inner));
    }
  }

  lemma {:induction false} GuardedAlongRun(s: State, acts: seq<Action>, start: nat)
    requires Guarded(s) && Runs(s, acts) && NoSlotTaken(s, acts)
    requires |Active(s.inner)| <= start || |Active(s.inner)| <= s.peak
    ensures |Active(Final(s, acts).inner)| <= start || |Active(Final(s, acts).inner)| <= Final(s, acts).peak
    decreases |acts|
  {
    if acts != [] {
      GuardedStep(s, acts[0]);
      GuardedAlongRun(Apply(s, acts[0]), acts[1..], start);
    }
  }

  /** Main result: in every interleaving of concurrent admits with releases, evictions, flushes and
      cap changes, goals holding a slot never exceed the larger of the starting count and the
      highest cap so far. */
  lemma CapIsNeverOvershot(s: State, acts: seq<Action>)
    requires Initial(s) && Runs(s, acts) && NoSlotTaken(s, acts)
    ensures var s' := Final(s, acts);
      |Active(s'.inner)| <= if |Active(s.inner)| > s'.peak then |Active(s.inner)| else s'.peak
  {
    GuardedAlongRun(s, acts, |Active(s.inner)|);
  }

  // ---------------------------------------------------------------- the queue

  predicate Rising(ns: seq<nat>) {
    forall i, j :: 0 <= i < j < |ns| ==> ns[i] < ns[j]
  }

  function Numbers(q: seq<Entry>): seq<nat> {
    seq(|q|, i requires 0 <= i < |q| => q[i].ticket)
  }

  function Range(n: nat): (r: set<nat>)
    ensures forall k: nat :: k in r <==> k < n
  {
    if n == 0 then {} else Range(n - 1) + {n - 1}
  }

  function AsSet(ns: seq<nat>): set<nat> {
    set n | n in ns
  }

  /** Tickets handed out, then those still queued, rise; every ticket ever issued is in exactly one
      of the four places. */
  ghost predicate Orderly(s: State) {
    && Rising(s.handed + Numbers(s.queue))
    && Tickets(s.queue) + AsSet(s.handed) + s.promoted + s.flushed == Range(s.nextTicket)
    && Tickets(s.queue) !! AsSet(s.handed) !! s.promoted !! s.flushed
  }

  lemma TicketsAreNumbers(q: seq<Entry>)
    ensures Tickets(q) == AsSet(Numbers(q))
  {
    forall e | e in q ensures e.ticket in Numbers(q) {
      var i :| 0 <= i < |q| && q[i] == e;
      assert Numbers(q)[i] == e.ticket;
    }
    forall n | n in Numbers(q) ensures n in Tickets(q) {
      var i :| 0 <= i < |q| && Numbers(q)[i] == n;
      assert q[i] in q;
    }
  }

  lemma PushIsOrderly(s: State, t: Tid)
    requires Orderly(s) && Enabled(s, Push(t))
    ensures Orderly(Apply(s, Push(t)))
  {
    var s' := Apply(s, Push(t));
    var all, all' := s.handed + Numbers(s.queue), s'.handed + Numbers(s'.queue);
    assert all' == all + [s.nextTicket];
    TicketsAreNumbers(s.queue);
    forall i | 0 <= i < |all| ensures all[i] < s.nextTicket {
      assert all[i] in all;
      assert all[i] in s.handed || all[i] in Numbers(s.queue);
      assert all[i] in Range(s.nextTicket);
    }
    assert Tickets(s'.queue) == Tickets(s.queue) + {s.nextTicket};
  }

  lemma PopIsOrderly(s: State, r: Tid)
    requires Orderly(s) && Enabled(s, Pop(r))
    ensures Orderly(Apply(s, Pop(r)))
  {
    if s.queue != [] {
      var s' := Apply(s, Pop(r));
      var head := s.queue[0];
      assert s'.handed + Numbers(s'.queue) == s.handed + Numbers(s.queue);
      assert s.queue == [head] + s'.queue;
      assert Tickets(s.queue) == {head.ticket} + Tickets(s'.queue);
      assert AsSet(s'.handed) == AsSet(s.handed) + {head.ticket};
      HeadIsLeast(s);
    }
  }

  lemma HeadIsLeast(s: State)
    requires Rising(s.handed + Numbers(s.queue)) && s.queue != []
    ensures s.queue[0].ticket !in Tickets(s.queue[1..])
  {
    var all, n := s.handed + Numbers(s.queue), |s.handed|;
    assert all[n] == s.queue[0].ticket;
    forall e | e in s.queue[1..] ensures e.ticket > s.queue[0].ticket {
      var i :| 1 <= i < |s.queue| && s.queue[i] == e;
      assert all[n + i] == e.ticket;
    }
  }

  lemma {:induction false} RetainFacts(q: seq<Entry>, g: GoalId, front: seq<nat>)
    requires Rising(front + Numbers(q))
    ensures Rising(front + Numbers(Retain(q, g)))
    ensures forall e :: e in Retain(q, g) <==> e in q && e.goal != g
    decreases |q|
  {
    if q != [] {
      assert q == [q[0]] + q[1..];
      var head := [q[0].ticket];
      assert front + Numbers(q) == (front + head) + Numbers(q[1..]);
      RetainFacts(q[1..], g, front + head);
      if q[0].goal == g {
        var with, without := (front + head) + Numbers(Retain(q[1..], g)), front + Numbers(Retain(q[1..], g));
        forall i, j | 0 <= i < j < |without| ensures without[i] < without[j] {
          var i', j' := if i < |front| then i else i + 1, if j < |front| then j else j + 1;
          assert with[i'] == without[i] && with[j'] == without[j];
        }
      } else {
        assert front + Numbers(Retain(q, g)) == (front + head) + Numbers(Retain(q[1..], g));
      }
    }
  }

  lemma TicketsAreUnique(s: State, d: Entry, e: Entry)
    requires Rising(s.handed + Numbers(s.queue)) && d in s.queue && e in s.queue && d.ticket == e.ticket
    ensures d == e
  {
    var all, n := s.handed + Numbers(s.queue), |s.handed|;
    var i :| 0 <= i < |s.queue| && s.queue[i] == d;
    var j :| 0 <= j < |s.queue| && s.queue[j] == e;
    assert all[n + i] == d.ticket && all[n + j] == e.ticket;
  }

  lemma PromoteIsOrderly(s: State, g: GoalId)
    requires Orderly(s)
    ensures Orderly(Apply(s, Promote(g)))
  {
    var s' := Apply(s, Promote(g));
    RetainFacts(s.queue, g, s.handed);
    forall n ensures n in Tickets(s.queue) <==> n in Tickets(s'.queue) || n in TicketsOf(s.queue, g) {
      if n in Tickets(s.queue) {
        var e :| e in s.queue && e.ticket == n;
        assert e.goal == g || e in s'.queue;
      }
    }
    forall n | n in Tickets(s'.queue) ensures n !in TicketsOf(s.queue, g) {
      var e :| e in s'.queue && e.ticket == n;
      if n in TicketsOf(s.queue, g) {
        var d :| d in s.queue && d.goal == g && d.ticket == n;
        TicketsAreUnique(s, d, e);
      }
    }
  }

  lemma OrderlyStep(s: State, a: Action)
    requires Orderly(s) && Enabled(s, a)
    ensures Orderly(Apply(s, a))
  {
    match a
    case Push(t) => PushIsOrderly(s, t);
    case Pop(r) => PopIsOrderly(s, r);
    case Promote(g) => PromoteIsOrderly(s, g);
    case Flush =>
      assert forall i :: 0 <= i < |s.handed| ==> (s.handed + Numbers(s.queue))[i] == s.handed[i];
    case _ =>
  }

  lemma {:induction false} OrderlyAlongRun(s: State, acts: seq<Action>)
    requires Orderly(s) && Runs(s, acts)
    ensures Orderly(Final(s, acts))
    decreases |acts|
  {
    if acts != [] {
      OrderlyStep(s, acts[0]);
      OrderlyAlongRun(Apply(s, acts[0]), acts[1..]);
    }
  }

  /** Main result: racing releases hand queued goals out in admission order, and each queue entry
      goes to exactly one release, promotion or flush, or is still queued behind all that were handed out. */
  lemma QueueIsFifoAndExact(s: State, acts: seq<Action>)
    requires Initial(s) && Runs(s, acts)
    ensures Orderly(Final(s, acts))
    ensures Rising(Final(s, acts).handed)
  {
    OrderlyAlongRun(s, acts);
    var s' := Final(s, acts);
    assert forall i :: 0 <= i < |s'.handed| ==> s'.handed[i] == (s'.handed + Numbers(s'.queue))[i];
  }
}
