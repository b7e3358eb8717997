/** The durable queue with everybody running at once.  Publishers (the NATS `publish` with its
    fall-back to `enqueue`), drainers (`drain_nats`, and `drain`, which has no guard), replays and
    purges are step machines whose program counters stand at the awaits of the code; one action is
    what happens between two awaits.  Broker answers, clock readings, failing statements, dropped
    futures and process crashes are arbitrary. */
module QueueProtocol {
  import opened DiskTables

  type Tid = nat

  datatype Publisher =
    | Resting
    | Sending(topic: string, event: Event)      // awaiting the broker client
    | Counting(topic: string, event: Event)     // in enqueue, awaiting the first count
    | AwaitingLock(topic: string, event: Event) // saw a full queue, awaiting cap_serializer
    | Recounting(topic: string, event: Event)   // holds the lock, awaiting the recount
    | Evicting(topic: string, event: Event)     // holds the lock, awaiting the sleep and the delete
    | Inserting(topic: string, event: Event)    // past the capacity check, awaiting the insert

  datatype Drainer =
    | Parked
    | Fetching(guarded: bool)
    | Handling(guarded: bool, rows: seq<PendingRow>)  // rows[0], if any, is next
    | Deleting(guarded: bool, rows: seq<PendingRow>)  // the broker took rows[0], its delete is awaited
    | Settling(guarded: bool, rows: seq<PendingRow>, reason: string)  // rows[0] failed

  datatype Replayer =
    | Quiet
    | Found(letter: DeadLetter)  // selected, awaiting the insert
    | Reinserted(id: EventId)    // inserted into pending, awaiting the delete

  datatype Holder = Nobody | Held(tid: Tid)

  /** `used`, `accepted`, `sentLog`, `evicted`, `purged` and `torn` record history: ids given to
      `publish`, ids whose `publish` returned Ok, successful broker publishes in order, ids dropped
      at the hard cap, ids purged, and ids whose replay stopped between its two writes. */
  datatype State = State(
    maxPending: nat,
    tables: Tables,
    capLock: Holder,
    drainRunning: bool,
    publishers: map<Tid, Publisher>,
    drainers: map<Tid, Drainer>,
    replayers: map<Tid, Replayer>,
    used: set<EventId>,
    accepted: set<EventId>,
    sentLog: seq<EventId>,
    evicted: set<EventId>,
    purged: set<EventId>,
    torn: set<EventId>)

  datatype Action =
    | BeginPublish(t: Tid, topic: string, event: Event, circuitAllows: bool)
    | BrokerReply(t: Tid, ok: bool)
    | Count(t: Tid)
    | TakeLock(t: Tid)
    | Recount(t: Tid)
    | Evict(t: Tid)
    | Insert(t: Tid, now: int)
    | FailPublish(t: Tid)
    | BeginDrainNats(d: Tid)
    | BeginDrain(d: Tid)
    | Fetch(d: Tid)
    | Handle(d: Tid, ok: bool, error: string)
    | Delete(d: Tid)
    | DeleteFails(d: Tid)
    | Settle(d: Tid, now: int)
    | FailDrain(d: Tid)
    | BeginReplay(r: Tid, id: EventId)
    | Reinsert(r: Tid, now: int)
    | Unbury(r: Tid)
    | FailReplay(r: Tid)
    | Purge
    | Crash

  // ---------------------------------------------------------------- enabledness

  predicate PublisherMay(s: State, a: Action) {
    match a
    case BeginPublish(t, _, e, _) => t in s.publishers && s.publishers[t].Resting? && e.id !in s.used
    case BrokerReply(t, _) => t in s.publishers && s.publishers[t].Sending?
    case Count(t) => t in s.publishers && s.publishers[t].Counting?
    case TakeLock(t) => t in s.publishers && s.publishers[t].AwaitingLock? && s.capLock == Nobody
    case Recount(t) => t in s.publishers && s.publishers[t].Recounting?
    case Evict(t) => t in s.publishers && s.publishers[t].Evicting?
    case Insert(t, _) => t in s.publishers && s.publishers[t].Inserting?
    case FailPublish(t) => t in s.publishers && !s.publishers[t].Resting?
    case _ => false
  }

  predicate DrainerMay(s: State, a: Action) {
    match a
    case BeginDrainNats(d) => d in s.drainers && s.drainers[d].Parked?
    case BeginDrain(d) => d in s.drainers && s.drainers[d].Parked?
    case Fetch(d) => d in s.drainers && s.drainers[d].Fetching?
    case Handle(d, _, _) => d in s.drainers && s.drainers[d].Handling?
    case Delete(d) => d in s.drainers && s.drainers[d].Deleting? && s.drainers[d].rows != []
    case DeleteFails(d) =>
      d in s.drainers && s.drainers[d].Deleting? && s.drainers[d].rows != [] && !s.drainers[d].guarded
    case Settle(d, _) => d in s.drainers && s.drainers[d].Settling? && s.drainers[d].rows != []
    case FailDrain(d) => d in s.drainers && !s.drainers[d].Parked?
    case _ => false
  }

  predicate OperatorMay(s: State, a: Action) {
    match a
    case BeginReplay(r, _) => r in s.replayers && s.replayers[r].Quiet?
    case Reinsert(r, _) => r in s.replayers && s.replayers[r].Found?
    case Unbury(r) => r in s.replayers && s.replayers[r].Reinserted?
    case FailReplay(r) => r in s.replayers && !s.replayers[r].Quiet?
    case Purge => true
    case Crash => true
    case _ => false
  }

  predicate Enabled(s: State, a: Action) {
    PublisherMay(s, a) || DrainerMay(s, a) || OperatorMay(s, a)
  }

  // ---------------------------------------------------------------- effects

  function Freed(lock: Holder, t: Tid): Holder {
    if lock == Held(t) then Nobody else lock
  }

  function Publish(s: State, a: Action): State
    requires PublisherMay(s, a)
  {
    var pc := s.publishers[a.t];
    match a
    case BeginPublish(t, topic, e, allows) =>
      var next := if allows then Sending(topic, e) else Counting(topic, e);
      s.(publishers := s.publishers[t := next], used := s.used + {e.id})
    case BrokerReply(t, ok) =>
      if ok then
        s.(publishers := s.publishers[t := Resting],
           sentLog := s.sentLog + [pc.event.id], accepted := s.accepted + {pc.event.id})
      else s.(publishers := s.publishers[t := Counting(pc.topic, pc.event)])
    case Count(t) =>
      if |s.tables.pending| >= s.maxPending
      then s.(publishers := s.publishers[t := AwaitingLock(pc.topic, pc.event)])
      else s.(publishers := s.publishers[t := Inserting(pc.topic, pc.event)])
    case TakeLock(t) =>
      s.(publishers := s.publishers[t := Recounting(pc.topic, pc.event)], capLock := Held(t))
    case Recount(t) =>
      if |s.tables.pending| >= s.maxPending
      then s.(publishers := s.publishers[t := Evicting(pc.topic, pc.event)])
      else s.(publishers := s.publishers[t := Inserting(pc.topic, pc.event)], capLock := Freed(s.capLock, t))
    case Evict(t) =>
      s.(publishers := s.publishers[t := Inserting(pc.topic, pc.event)], capLock := Freed(s.capLock, t),
         tables := DeleteOldest(s.tables),
         evicted := if s.tables.pending == [] then s.evicted else s.evicted + {s.tables.pending[0].id})
    case Insert(t, now) =>
      s.(publishers := s.publishers[t := Resting],
         tables := InsertOrIgnore(s.tables, FreshRow(pc.event, pc.topic, now)),
         accepted := s.accepted + {pc.event.id})
    case FailPublish(t) =>
      s.(publishers := s.publishers[t := Resting], capLock := Freed(s.capLock, t))
  }

  /** A drainer leaves; the guard, if it holds one, is dropped. */
  function Leave(s: State, d: Tid): State
    requires d in s.drainers && !s.drainers[d].Parked?
  {
    s.(drainers := s.drainers[d := Parked], drainRunning := s.drainRunning && !s.drainers[d].guarded)
  }

  /** `new_attempts >= DEFAULT_MAX_ATTEMPTS`, or a payload that does not parse. */
  predicate GivesUp(row: PendingRow) {
    row.payload.Garbled? || row.attempts + 1 >= MAX_ATTEMPTS
  }

  function Drain(s: State, a: Action): State
    requires DrainerMay(s, a)
  {
    var pc := s.drainers[a.d];
    match a
    case BeginDrainNats(d) =>
      if s.drainRunning then s
      else s.(drainers := s.drainers[d := Fetching(true)], drainRunning := true)
    case BeginDrain(d) => s.(drainers := s.drainers[d := Fetching(false)])
    case Fetch(d) => s.(drainers := s.drainers[d := Handling(pc.guarded, OldestBatch(s.tables))])
    case Handle(d, ok, error) =>
      if pc.rows == [] then Leave(s, d)
      else if pc.rows[0].payload.Garbled? then
        s.(drainers := s.drainers[d := Settling(pc.guarded, pc.rows, "deserialize_error")])
      else if ok then
        s.(drainers := s.drainers[d := Deleting(pc.guarded, pc.rows)], sentLog := s.sentLog + [pc.rows[0].id])
      else s.(drainers := s.drainers[d := Settling(pc.guarded, pc.rows, error)])
    case Delete(d) =>
      s.(drainers := s.drainers[d := Handling(pc.guarded, pc.rows[1..])],
         tables := DeleteRow(s.tables, pc.rows[0].id))
    case DeleteFails(d) => s.(drainers := s.drainers[d := Handling(pc.guarded, pc.rows[1..])])
    case Settle(d, now) =>
      s.(drainers := s.drainers[d := Handling(pc.guarded, pc.rows[1..])],
         tables := if GivesUp(pc.rows[0]) then MoveToDlq(s.tables, pc.rows[0], now, pc.reason)
                   else UpdateAttempts(s.tables, pc.rows[0].id, pc.rows[0].attempts + 1))
    case FailDrain(d) => Leave(s, d)
  }

  function MidReplay(s: State): set<EventId> {
    set r | r in s.replayers && s.replayers[r].Reinserted? :: s.replayers[r].id
  }

  function Operate(s: State, a: Action): State
    requires OperatorMay(s, a)
  {
    match a
    case BeginReplay(r, id) =>
      if id in s.tables.dead then s.(replayers := s.replayers[r := Found(s.tables.dead[id])]) else s
    case Reinsert(r, now) =>
      var d := s.replayers[r].letter;
      s.(replayers := s.replayers[r := Reinserted(d.id)],
         tables := InsertOrReplace(s.tables, PendingRow(d.id, d.topic, d.payload, now, 0)))
    case Unbury(r) =>
      s.(replayers := s.replayers[r := Quiet], tables := DeleteDead(s.tables, s.replayers[r].id))
    case FailReplay(r) =>
      s.(replayers := s.replayers[r := Quiet],
         torn := if s.replayers[r].Reinserted? then s.torn + {s.replayers[r].id} else s.torn)
    case Purge =>
      s.(tables := s.tables.(dead := map[]), purged := s.purged + s.tables.dead.Keys)
    case Crash =>
      s.(capLock := Nobody, drainRunning := false,
         publishers := map t | t in s.publishers :: Resting,
         drainers := map d | d in s.drainers :: Parked,
         replayers := map r | r in s.replayers :: Quiet,
         torn := s.torn + MidReplay(s))
  }

  function Apply(s: State, a: Action): State
    requires Enabled(s, a)
  {
    if PublisherMay(s, a) then Publish(s, a)
    else if DrainerMay(s, a) then Drain(s, a)
    else Operate(s, a)
  }

  // ---------------------------------------------------------------- what each kind leaves alone

  lemma PublishFrame(s: State, a: Action)
    requires PublisherMay(s, a)
    ensures var s' := Publish(s, a);
      && s'.drainers == s.drainers && s'.replayers == s.replayers && s'.drainRunning == s.drainRunning
      && s'.purged == s.purged && s'.torn == s.torn && s'.maxPending == s.maxPending
      && s'.publishers.Keys == s.publishers.Keys
      && s.sentLog <= s'.sentLog && s.accepted <= s'.accepted
      && (s'.sentLog == s.sentLog || (a.BrokerReply? && s'.sentLog == s.sentLog + [s.publishers[a.t].event.id]))
  {
    assert s.publishers.Keys + {a.t} == s.publishers.Keys;
  }

  lemma DrainFrame(s: State, a: Action)
    requires DrainerMay(s, a)
    ensures var s' := Drain(s, a);
      && s'.publishers == s.publishers && s'.replayers == s.replayers && s'.capLock == s.capLock
      && s'.used == s.used && s'.accepted == s.accepted && s'.evicted == s.evicted
      && s'.purged == s.purged && s'.torn == s.torn && s'.maxPending == s.maxPending
      && s.sentLog <= s'.sentLog
  {
  }

  lemma OperateFrame(s: State, a: Action)
    requires OperatorMay(s, a)
    ensures var s' := Operate(s, a);
      && s'.used == s.used && s'.accepted == s.accepted && s'.sentLog == s.sentLog
      && s'.evicted == s.evicted && s'.maxPending == s.maxPending
      && (a != Crash ==> s'.publishers == s.publishers && s'.drainers == s.drainers
                         && s'.capLock == s.capLock && s'.drainRunning == s.drainRunning)
  {
  }

  ghost predicate Runs(s: State, acts: seq<Action>)
    decreases |acts|
  {
    acts == [] || (Enabled(s, acts[0]) && Runs(Apply(s, acts[0]), acts[1..]))
  }

  function Final(s: State, acts: seq<Action>): State
    requires Runs(s, acts)
    decreases |acts|
  {
    if acts == [] then s else Final(Apply(s, acts[0]), acts[1..])
  }

  lemma {:induction false} RunsConcat(s: State, xs: seq<Action>, ys: seq<Action>)
    requires Runs(s, xs) && Runs(Final(s, xs), ys)
    ensures Runs(s, xs + ys) && Final(s, xs + ys) == Final(Final(s, xs), ys)
    decreases |xs|
  {
    hide Enabled;
    hide Apply;
    if xs == [] {
      assert xs + ys == ys;
    } else {
      RunsConcat(Apply(s, xs[0]), xs[1..], ys);
      assert (xs + ys)[1..] == xs[1..] + ys;
    }
  }

  lemma RunsOne(s: State, a: Action)
    requires Enabled(s, a)
    ensures Runs(s, [a]) && Final(s, [a]) == Apply(s, a)
  {
    assert Final(Apply(s, a), [a][1..]) == Apply(s, a);
  }

  lemma RunsTwo(s: State, a: Action, b: Action)
    requires Enabled(s, a) && Enabled(Apply(s, a), b)
    ensures Runs(s, [a, b]) && Final(s, [a, b]) == Apply(Apply(s, a), b)
  {
    RunsOne(s, a);
    RunsOne(Apply(s, a), b);
    RunsConcat(s, [a], [b]);
    assert [a] + [b] == [a, b];
  }

  /** A process that has just opened its database file: nobody is running, the tables are whatever
      an earlier process left, and every event they owe is in one of them. */
  ghost predicate Initial(s: State) {
    && WellFormed(s.tables) && KeyedById(s.tables) && Disjoint(s.tables)
    && s.capLock == Nobody && !s.drainRunning
    && (forall t :: t in s.publishers ==> s.publishers[t].Resting?)
    && (forall d :: d in s.drainers ==> s.drainers[d].Parked?)
    && (forall r :: r in s.replayers ==> s.replayers[r].Quiet?)
    && s.accepted == PendingIds(s.tables) + s.tables.dead.Keys && s.accepted <= s.used
    && s.sentLog == [] && s.evicted == {} && s.purged == {} && s.torn == {}
  }

  // ---------------------------------------------------------------- retry bound, lock and guard

  ghost predicate GoodRows(pc: Drainer) {
    && (pc.Handling? || pc.Deleting? || pc.Settling? ==> Distinct(pc.rows) && FewAttempts(pc.rows))
    && (pc.Deleting? || pc.Settling? ==> pc.rows != [])
    && (pc.Deleting? ==> pc.rows[0].payload.Encoded?)
  }

  /** Kept by every action, crash and failure included: the tables' keys, order and retry bound, and
      the retry bound of every row a drainer still carries. */
  ghost predicate Sound(s: State) {
    && WellFormed(s.tables) && KeyedById(s.tables)
    && forall d :: d in s.drainers ==> GoodRows(s.drainers[d])
  }

  ghost predicate LockHeldOnce(s: State) {
    forall t :: t in s.publishers && (s.publishers[t].Recounting? || s.publishers[t].Evicting?) ==> s.capLock == Held(t)
  }

  ghost predicate PastGuard(s: State, d: Tid) {
    d in s.drainers && !s.drainers[d].Parked? && s.drainers[d].guarded
  }

  /** The drain flag is up exactly while one drainer is past it. */
  ghost predicate GuardHeldOnce(s: State) {
    && (s.drainRunning <==> exists d :: PastGuard(s, d))
    && (forall d, d' :: PastGuard(s, d) && PastGuard(s, d') ==> d == d')
  }

  lemma PublishIsSound(s: State, a: Action)
    requires Sound(s) && PublisherMay(s, a)
    ensures Sound(Publish(s, a))
  {
    match a
    case Evict(t) => DeleteOldestKeeps(s.tables);
    case Insert(t, now) =>
      InsertOrIgnoreKeeps(s.tables, FreshRow(s.publishers[t].event, s.publishers[t].topic, now));
    case _ =>
  }

  lemma RestIsGood(rows: seq<PendingRow>)
    requires rows != [] && Distinct(rows) && FewAttempts(rows)
    ensures Distinct(rows[1..]) && FewAttempts(rows[1..]) && 0 <= rows[0].attempts < MAX_ATTEMPTS
  {
    assert forall r :: r in rows[1..] ==> r in rows;
    assert rows[0] in rows;
  }

  lemma BatchIsGood(t: Tables)
    requires WellFormed(t)
    ensures Distinct(OldestBatch(t)) && FewAttempts(OldestBatch(t))
  {
    assert forall r :: r in OldestBatch(t) ==> r in t.pending;
  }

  lemma SettleIsSound(s: State, a: Action)
    requires Sound(s) && DrainerMay(s, a) && a.Settle?
    ensures Sound(Drain(s, a))
  {
    var pc := s.drainers[a.d];
    RestIsGood(pc.rows);
    if GivesUp(pc.rows[0]) {
      MoveToDlqKeeps(s.tables, pc.rows[0], a.now, pc.reason);
    } else {
      UpdateAttemptsKeeps(s.tables, pc.rows[0].id, pc.rows[0].attempts + 1);
    }
  }

  lemma {:induction false} DrainIsSound(s: State, a: Action)
    requires Sound(s) && DrainerMay(s, a)
    ensures Sound(Drain(s, a))
  {
    var pc := s.drainers[a.d];
    if a.Settle? {
      SettleIsSound(s, a);
    } else if a.Fetch? {
      BatchIsGood(s.tables);
    } else if a.Delete? {
      RestIsGood(pc.rows);
      DeleteRowKeeps(s.tables, pc.rows[0].id);
    } else if a.DeleteFails? {
      RestIsGood(pc.rows);
    }
  }

  lemma OperateIsSound(s: State, a: Action)
    requires Sound(s) && OperatorMay(s, a)
    ensures Sound(Operate(s, a))
  {
    match a
    case Reinsert(r, now) =>
      var d := s.replayers[r].letter;
      InsertOrReplaceKeeps(s.tables, PendingRow(d.id, d.topic, d.payload, now, 0));
    case _ =>
  }

  lemma {:induction false} SoundStep(s: State, a: Action)
    requires Sound(s) && Enabled(s, a)
    ensures Sound(Apply(s, a))
  {
    if PublisherMay(s, a) { PublishIsSound(s, a); }
    else if DrainerMay(s, a) { DrainIsSound(s, a); }
    else { OperateIsSound(s, a); }
  }

  lemma PublishHoldsLockOnce(s: State, a: Action)
    requires LockHeldOnce(s) && PublisherMay(s, a)
    ensures LockHeldOnce(Publish(s, a))
  {
  }

  lemma {:induction false} LockHeldOnceStep(s: State, a: Action)
    requires LockHeldOnce(s) && Enabled(s, a)
    ensures LockHeldOnce(Apply(s, a))
  {
    hide Publish;
    hide Drain;
    if PublisherMay(s, a) {
      PublishHoldsLockOnce(s, a);
    } else if DrainerMay(s, a) {
      DrainFrame(s, a);
    } else {
      OperateFrame(s, a);
    }
  }

  lemma DrainHoldsGuardOnce(s: State, a: Action)
    requires GuardHeldOnce(s) && DrainerMay(s, a)
    ensures GuardHeldOnce(Drain(s, a))
  {
    var s' := Drain(s, a);
    forall d | d != a.d ensures PastGuard(s', d) <==> PastGuard(s, d) {}
    if PastGuard(s', a.d) && !PastGuard(s, a.d) { assert a.BeginDrainNats? && !s.drainRunning; }
    if PastGuard(s, a.d) && !PastGuard(s', a.d) { assert !s'.drainRunning; }
    if s.drainRunning && s'.drainRunning {
      var d :| PastGuard(s, d);
      assert PastGuard(s', d);
    }
  }

  lemma GuardHeldOnceStep(s: State, a: Action)
    requires GuardHeldOnce(s) && Enabled(s, a)
    ensures GuardHeldOnce(Apply(s, a))
  {
    hide Publish;
    hide Drain;
    var s' := Apply(s, a);
    if PublisherMay(s, a) {
      PublishFrame(s, a);
      forall d ensures PastGuard(s', d) <==> PastGuard(s, d) {}
    } else if DrainerMay(s, a) {
      DrainHoldsGuardOnce(s, a);
    } else {
      OperateFrame(s, a);
      forall d ensures PastGuard(s', d) <==> a != Crash && PastGuard(s, d) {}
    }
  }
}
