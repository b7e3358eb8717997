/** How far concurrent publishers can overshoot the hard cap, and how little an eviction takes. */
module QueueCapacity {
  import opened DiskTables
  import opened DiskQueueModel
  import opened QueueProtocol
  import opened Sets

  /** The publishers past the capacity check that have not inserted yet. */
  function Ready(s: State): set<Tid> {
    set t | t in s.publishers && s.publishers[t].Inserting?
  }

  function Load(s: State): nat {
    |s.tables.pending| + |Ready(s)|
  }

  /** `max_pending + T - 1`, where a zero `max_pending` still admits one row. */
  function Overshoot(s: State): int {
    HardCap(s.maxPending) + |s.publishers| - 1
  }

  lemma ReadyIsAmongPublishers(s: State)
    ensures |Ready(s)| <= |s.publishers|
    ensures (exists t :: t in s.publishers && !s.publishers[t].Inserting?) ==> |Ready(s)| < |s.publishers|
  {
    SubsetSize(Ready(s), s.publishers.Keys);
    if t :| t in s.publishers && !s.publishers[t].Inserting? {
      SubsetSize(Ready(s) + {t}, s.publishers.Keys);
    }
  }

  function One(b: bool): int { if b then 1 else 0 }

  lemma ReadyAfter(s: State, s': State, t: Tid)
    requires t in s.publishers && t in s'.publishers
    requires s'.publishers == s.publishers[t := s'.publishers[t]]
    ensures |Ready(s')| == |Ready(s)| + One(s'.publishers[t].Inserting?) - One(s.publishers[t].Inserting?)
  {
    assert Ready(s') - {t} == Ready(s) - {t};
    if s'.publishers[t].Inserting? {
      assert Ready(s') == (Ready(s) - {t}) + {t};
    }
    if s.publishers[t].Inserting? {
      assert Ready(s) == (Ready(s) - {t}) + {t};
    }
  }

  /** The first count and the recount let a publisher pass only below the cap. */
  lemma PassingTheCheck(s: State, a: Action, limit: int)
    requires (a.Count? || a.Recount?) && PublisherMay(s, a) && Load(s) <= limit && Overshoot(s) <= limit
    ensures Load(Publish(s, a)) <= limit
  {
    ReadyIsAmongPublishers(s);
    ReadyAfter(s, Publish(s, a), a.t);
  }

  lemma EvictingKeepsLoad(s: State, a: Action, limit: int)
    requires a.Evict? && PublisherMay(s, a) && Load(s) <= limit && Overshoot(s) <= limit
    ensures Load(Publish(s, a)) <= limit
  {
    ReadyIsAmongPublishers(s);
    ReadyAfter(s, Publish(s, a), a.t);
  }

  lemma InsertingKeepsLoad(s: State, a: Action)
    requires Sound(s) && a.Insert? && PublisherMay(s, a)
    ensures Load(Publish(s, a)) <= Load(s)
  {
    ReadyAfter(s, Publish(s, a), a.t);
    InsertOrIgnoreKeeps(s.tables, FreshRow(s.publishers[a.t].event, s.publishers[a.t].topic, a.now));
  }

  lemma PublishKeepsLoad(s: State, a: Action, limit: int)
    requires Sound(s) && PublisherMay(s, a) && Load(s) <= limit && Overshoot(s) <= limit
    ensures Load(Publish(s, a)) <= limit
  {
    if a.Count? || a.Recount? { PassingTheCheck(s, a, limit); }
    else if a.Evict? { EvictingKeepsLoad(s, a, limit); }
    else if a.Insert? { InsertingKeepsLoad(s, a); }
    else { ReadyAfter(s, Publish(s, a), a.t); }
  }

  lemma DrainKeepsLoad(s: State, a: Action)
    requires Sound(s) && DrainerMay(s, a)
    ensures Load(Drain(s, a)) <= Load(s)
  {
    var s' := Drain(s, a);
    assert Ready(s') == Ready(s);
    match a
    case Delete(d) => WithoutContents(s.tables.pending, s.drainers[d].rows[0].id);
    case Settle(d, now) => WithoutContents(s.tables.pending, s.drainers[d].rows[0].id);
    case _ =>
  }

  /** A replay inserts without looking at the cap. */
  lemma OperateKeepsLoad(s: State, a: Action)
    requires OperatorMay(s, a)
    ensures Load(Operate(s, a)) <= Load(s) + One(a.Reinsert?)
  {
    var s' := Operate(s, a);
    if a == Crash { assert Ready(s') == {}; } else { assert Ready(s') == Ready(s); }
    if a.Reinsert? {
      var d := s.replayers[a.r].letter;
      WithoutContents(s.tables.pending, d.id);
      PlaceInOrderContents(Without(s.tables.pending, d.id), PendingRow(d.id, d.topic, d.payload, a.now, 0));
    }
  }

  lemma LoadStep(s: State, a: Action, limit: int)
    requires Sound(s) && Enabled(s, a) && Load(s) <= limit && Overshoot(s) <= limit
    ensures Load(Apply(s, a)) <= limit + One(a.Reinsert?)
    ensures Overshoot(Apply(s, a)) == Overshoot(s)
  {
    hide Publish;
    hide Drain;
    hide Load;
    if PublisherMay(s, a) {
      PublishKeepsLoad(s, a, limit);
      PublishFrame(s, a);
      assert |Publish(s, a).publishers.Keys| == |s.publishers.Keys|;
    } else if DrainerMay(s, a) {
      DrainKeepsLoad(s, a);
      DrainFrame(s, a);
    } else {
      OperateKeepsLoad(s, a);
      assert Operate(s, a).publishers.Keys == s.publishers.Keys;
      assert |Operate(s, a).publishers.Keys| == |s.publishers.Keys|;
    }
  }

  function Reinserts(acts: seq<Action>): nat {
    if acts == [] then 0 else One(acts[0].Reinsert?) + Reinserts(acts[1..])
  }

  lemma {:induction false} LoadAlongRun(s: State, acts: seq<Action>, limit: int)
    requires Sound(s) && Runs(s, acts) && Load(s) <= limit && Overshoot(s) <= limit
    ensures Load(Final(s, acts)) <= limit + Reinserts(acts)
    decreases |acts|
  {
    if acts != [] {
      SoundStep(s, acts[0]);
      LoadStep(s, acts[0], limit);
      hide Apply;
      hide Load;
      hide Overshoot;
      LoadAlongRun(Apply(s, acts[0]), acts[1..], limit + One(acts[0].Reinsert?));
    }
  }

  /** Main result: in every run of T publishers with any drains, failures, purges and crashes in
      between, pending rows plus publishers past the check never exceed `max_pending + T - 1` (or
      what the opened file already held, if that was more), plus one for each row a replay inserted. */
  lemma {:induction false} CapacityBound(s: State, acts: seq<Action>)
    requires Initial(s) && Runs(s, acts)
    ensures var above := Load(Final(s, acts)) - Reinserts(acts);
      above <= Overshoot(s) || above <= |s.tables.pending|
  {
    assert Ready(s) == {};
    LoadAlongRun(s, acts, if Overshoot(s) < |s.tables.pending| then |s.tables.pending| else Overshoot(s));
  }

  // ---------------------------------------------------------------- the bound is exact

  function Arrival(t: nat, base: nat): Event { Event(base + t, "topic", "body") }

  /** What publisher `t` does up to its insert: it sees room, or with a cap of zero it takes the lock
      and evicts nothing. */
  function Passing(t: nat, base: nat, cap: nat): seq<Action> {
    [BeginPublish(t, "topic", Arrival(t, base), false), Count(t)]
    + if cap == 0 then [TakeLock(t), Recount(t)] + [Evict(t)] else []
  }

  /** Publishers t..n each pass the check before anyone inserts. */
  function Enter(t: nat, n: nat, base: nat, cap: nat): seq<Action>
    decreases n - t
  {
    if t >= n then [] else Passing(t, base, cap) + Enter(t + 1, n, base, cap)
  }

  function Land(t: nat, n: nat): seq<Action>
    decreases n - t
  {
    if t >= n then [] else [Insert(t, 0)] + Land(t + 1, n)
  }

  /** One row short of the cap, or empty when the cap is zero. */
  predicate OneShort(s: State) {
    |s.tables.pending| == HardCap(s.maxPending) - 1
  }

  function Entered(s: State, t: nat, base: nat): State {
    s.(publishers := s.publishers[t := Inserting("topic", Arrival(t, base))], used := s.used + {base + t})
  }

  lemma CountOne(s: State, t: nat, base: nat)
    requires t in s.publishers && s.publishers[t].Resting? && base + t !in s.used
    ensures var pair := [BeginPublish(t, "topic", Arrival(t, base), false), Count(t)];
      && Runs(s, pair)
      && Final(s, pair) == s.(
           publishers := s.publishers[t := if |s.tables.pending| >= s.maxPending
                                           then AwaitingLock("topic", Arrival(t, base))
                                           else Inserting("topic", Arrival(t, base))],
           used := s.used + {base + t})
  {
    var s1 := Apply(s, BeginPublish(t, "topic", Arrival(t, base), false));
    RunsTwo(s, BeginPublish(t, "topic", Arrival(t, base), false), Count(t));
    var later := if |s.tables.pending| >= s.maxPending then AwaitingLock("topic", Arrival(t, base))
                 else Inserting("topic", Arrival(t, base));
    Overwritten(s.publishers, t, Counting("topic", Arrival(t, base)), later);
  }

  /** A publisher that saw a full, empty table gets past it without evicting anything. */
  lemma EvictNothing(s: State, t: nat, e: Event)
    requires t in s.publishers && s.publishers[t] == AwaitingLock("topic", e) && s.capLock == Nobody
    requires s.maxPending == 0 && s.tables.pending == []
    ensures var acts := [TakeLock(t), Recount(t)] + [Evict(t)];
      && Runs(s, acts)
      && Final(s, acts) == s.(publishers := s.publishers[t := Inserting("topic", e)])
  {
    var s1 := Apply(s, TakeLock(t));
    var s2 := Apply(s1, Recount(t));
    RunsTwo(s, TakeLock(t), Recount(t));
    RunsOne(s2, Evict(t));
    RunsConcat(s, [TakeLock(t), Recount(t)], [Evict(t)]);
    assert s2.publishers[t := Inserting("topic", e)] == s.publishers[t := Inserting("topic", e)];
  }

  lemma EnterOne(s: State, t: nat, base: nat)
    requires t in s.publishers && s.publishers[t].Resting? && base + t !in s.used
    requires OneShort(s) && s.capLock == Nobody
    ensures Runs(s, Passing(t, base, s.maxPending))
    ensures Final(s, Passing(t, base, s.maxPending)) == Entered(s, t, base)
  {
    var pair := [BeginPublish(t, "topic", Arrival(t, base), false), Count(t)];
    CountOne(s, t, base);
    var s1 := Final(s, pair);
    if s.maxPending == 0 {
      EvictNothing(s1, t, Arrival(t, base));
      RunsConcat(s, pair, [TakeLock(t), Recount(t)] + [Evict(t)]);
      assert s1.publishers[t := Inserting("topic", Arrival(t, base))]
          == s.publishers[t := Inserting("topic", Arrival(t, base))];
    } else {
      assert pair + [] == pair;
    }
  }

  lemma {:induction false} EnterRuns(s: State, t: nat, n: nat, base: nat)
    requires t <= n && forall u :: u in s.publishers <==> u < n
    requires forall u :: u < t ==> s.publishers[u] == Inserting("topic", Arrival(u, base))
    requires forall u :: t <= u < n ==> s.publishers[u].Resting?
    requires OneShort(s) && s.capLock == Nobody && forall id :: id in s.used ==> id < base + t
    ensures Runs(s, Enter(t, n, base, s.maxPending))
    ensures var s' := Final(s, Enter(t, n, base, s.maxPending));
      && s'.tables == s.tables && s'.maxPending == s.maxPending
      && (forall u :: u in s'.publishers <==> u < n)
      && (forall u :: u < n ==> s'.publishers[u] == Inserting("topic", Arrival(u, base)))
    decreases n - t
  {
    hide Enabled;
    hide Apply;
    hide Passing;
    if t < n {
      EnterOne(s, t, base);
      EnterRuns(Entered(s, t, base), t + 1, n, base);
      RunsConcat(s, Passing(t, base, s.maxPending), Enter(t + 1, n, base, s.maxPending));
    }
  }

  lemma LandOne(s: State, t: nat, base: nat)
    requires t in s.publishers && s.publishers[t] == Inserting("topic", Arrival(t, base))
    requires WellFormed(s.tables) && base + t !in PendingIds(s.tables)
    ensures Enabled(s, Insert(t, 0))
    ensures var s' := Apply(s, Insert(t, 0));
      && s'.publishers == s.publishers[t := Resting]
      && WellFormed(s'.tables)
      && PendingIds(s'.tables) == PendingIds(s.tables) + {base + t}
      && |s'.tables.pending| == |s.tables.pending| + 1
  {
    InsertOrIgnoreKeeps(s.tables, FreshRow(Arrival(t, base), "topic", 0));
  }

  lemma {:induction false} LandRuns(s: State, t: nat, n: nat, base: nat)
    requires t <= n && WellFormed(s.tables)
    requires forall u :: t <= u < n ==> u in s.publishers && s.publishers[u] == Inserting("topic", Arrival(u, base))
    requires forall id :: id in PendingIds(s.tables) ==> id < base + t
    ensures Runs(s, Land(t, n)) && |Final(s, Land(t, n)).tables.pending| == |s.tables.pending| + n - t
    decreases n - t
  {
    hide Enabled;
    hide Apply;
    hide WellFormed;
    hide InsertOrIgnore;
    if t < n {
      LandOne(s, t, base);
      var s1 := Apply(s, Insert(t, 0));
      LandRuns(s1, t + 1, n, base);
      RunsOne(s, Insert(t, 0));
      RunsConcat(s, [Insert(t, 0)], Land(t + 1, n));
    }
  }

  /** The bound is exact: from any table one row short of the cap (an empty one, when `max_pending` is
      zero), n idle publishers have an interleaving that leaves that many rows. */
  lemma OvershootIsAttained(s: State, n: nat, base: nat)
    requires Initial(s) && OneShort(s)
    requires forall t :: t in s.publishers <==> t < n
    requires forall id :: id in s.used ==> id < base
    ensures Runs(s, Enter(0, n, base, s.maxPending) + Land(0, n))
    ensures |Final(s, Enter(0, n, base, s.maxPending) + Land(0, n)).tables.pending| == HardCap(s.maxPending) + n - 1
  {
    EnterRuns(s, 0, n, base);
    LandRuns(Final(s, Enter(0, n, base, s.maxPending)), 0, n, base);
    RunsConcat(s, Enter(0, n, base, s.maxPending), Land(0, n));
  }

  // ---------------------------------------------------------------- evictions

  /** A publisher about to evict still sees a full table. */
  ghost predicate StillFull(s: State, t: Tid) {
    t in s.publishers && s.publishers[t].Evicting? ==> |s.tables.pending| >= s.maxPending
  }

  /** A statement of a drain, the only kind that shortens the table besides an eviction. */
  predicate DrainWrites(a: Action) {
    a.Delete? || a.Settle?
  }

  lemma OnlyDrainsAndEvictionsShorten(s: State, a: Action)
    requires Sound(s) && Enabled(s, a) && !DrainWrites(a) && !a.Evict?
    ensures |Apply(s, a).tables.pending| >= |s.tables.pending|
  {
    if a.Insert? {
      InsertOrIgnoreKeeps(s.tables, FreshRow(s.publishers[a.t].event, s.publishers[a.t].topic, a.now));
    } else if a.Reinsert? {
      var d := s.replayers[a.r].letter;
      PlaceInOrderContents(Without(s.tables.pending, d.id), PendingRow(d.id, d.topic, d.payload, a.now, 0));
      WithoutOneRow(s.tables.pending, d.id);
    }
  }

  lemma StillFullStep(s: State, a: Action, t: Tid)
    requires Sound(s) && LockHeldOnce(s) && StillFull(s, t) && Enabled(s, a) && !DrainWrites(a)
    ensures StillFull(Apply(s, a), t)
  {
    hide Drain;
    hide WellFormed;
    if DrainerMay(s, a) { DrainFrame(s, a); }
    if !a.Evict? { OnlyDrainsAndEvictionsShorten(s, a); }
  }

  lemma MaxPendingStays(s: State, a: Action)
    requires Enabled(s, a)
    ensures Apply(s, a).maxPending == s.maxPending
  {
  }

  lemma {:induction false} StillFullAlongRun(s: State, acts: seq<Action>, t: Tid)
    requires Sound(s) && LockHeldOnce(s) && StillFull(s, t) && Runs(s, acts)
    requires forall a :: a in acts ==> !DrainWrites(a)
    ensures StillFull(Final(s, acts), t) && Final(s, acts).maxPending == s.maxPending
    decreases |acts|
  {
    hide Sound;
    hide LockHeldOnce;
    hide Apply;
    hide Enabled;
    if acts != [] {
      SoundStep(s, acts[0]);
      LockHeldOnceStep(s, acts[0]);
      StillFullStep(s, acts[0], t);
      MaxPendingStays(s, acts[0]);
      StillFullAlongRun(Apply(s, acts[0]), acts[1..], t);
    }
  }

  /** Main result: from a state where `t` is not evicting yet, over any interleaving in which no
      drain writes, an eviction by `t` leaves at least `max_pending - 1` rows: concurrent
      publishers at the cap never evict one row each for a single missing place. */
  lemma EvictionTakesOneRow(s: State, acts: seq<Action>, t: Tid)
    requires Sound(s) && LockHeldOnce(s) && Runs(s, acts)
    requires t in s.publishers && !s.publishers[t].Evicting?
    requires forall a :: a in acts ==> !DrainWrites(a)
    requires PublisherMay(Final(s, acts), Evict(t))
    ensures |Apply(Final(s, acts), Evict(t)).tables.pending| >= s.maxPending - 1
  {
    StillFullAlongRun(s, acts, t);
  }
}
