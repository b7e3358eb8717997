/** Safety of the concurrent queue over whole runs: exactly when an accepted event can be lost, that
    the two tables stay disjoint, and that one drainer at a time is past the guard. */
module QueueSafety {
  import opened DiskTables
  import opened QueueProtocol

  // ---------------------------------------------------------------- where an event can be

  /** Places an event never leaves without reaching another one of them, unless a drain gives up on it. */
  ghost predicate Kept(s: State, id: EventId) {
    id in s.sentLog || id in PendingIds(s.tables) || id in s.evicted || id in s.purged
  }

  ghost predicate Accounted(s: State, id: EventId) {
    Kept(s, id) || id in s.tables.dead
  }

  /** No silent loss: every event whose publish returned Ok can still be pointed at. */
  ghost predicate NoLoss(s: State) {
    forall id :: id in s.accepted ==> Accounted(s, id)
  }

  /** A row whose delete is awaited has been published. */
  ghost predicate Backed(s: State) {
    forall d :: d in s.drainers && s.drainers[d].Deleting? && s.drainers[d].rows != [] ==>
      s.drainers[d].rows[0].id in s.sentLog
  }

  lemma PublishKeeps(s: State, a: Action, id: EventId)
    requires Sound(s) && PublisherMay(s, a)
    ensures Kept(s, id) ==> Kept(Publish(s, a), id)
    ensures id in s.tables.dead <==> id in Publish(s, a).tables.dead
    ensures id in Publish(s, a).accepted && id !in s.accepted ==> Kept(Publish(s, a), id)
  {
    match a
    case Evict(t) => DeleteOldestKeeps(s.tables);
    case Insert(t, now) =>
      InsertOrIgnoreKeeps(s.tables, FreshRow(s.publishers[t].event, s.publishers[t].topic, now));
    case _ =>
  }

  lemma DrainKeeps(s: State, a: Action, id: EventId)
    requires Sound(s) && Backed(s) && DrainerMay(s, a)
    ensures id in s.tables.dead ==> id in Drain(s, a).tables.dead
    ensures Kept(s, id) ==> Accounted(Drain(s, a), id)
    ensures Kept(s, id) && !(a.Settle? && GivesUp(s.drainers[a.d].rows[0]) && s.drainers[a.d].rows[0].id == id) ==>
      Kept(Drain(s, a), id)
    ensures Drain(s, a).accepted == s.accepted
  {
    var pc := s.drainers[a.d];
    match a
    case Delete(d) => DeleteRowKeeps(s.tables, pc.rows[0].id);
    case Settle(d, now) =>
      if GivesUp(pc.rows[0]) {
        MoveToDlqKeeps(s.tables, pc.rows[0], now, pc.reason);
      } else {
        RestIsGood(pc.rows);
        UpdateAttemptsKeeps(s.tables, pc.rows[0].id, pc.rows[0].attempts + 1);
      }
    case _ =>
  }

  lemma OperateKeeps(s: State, a: Action, id: EventId)
    requires Sound(s) && OperatorMay(s, a)
    ensures Kept(s, id) ==> Kept(Operate(s, a), id)
    ensures Accounted(s, id) && !(a.Unbury? && s.replayers[a.r].id == id && !Kept(s, id)) ==> Accounted(Operate(s, a), id)
    ensures Operate(s, a).accepted == s.accepted
    ensures a.Reinsert? && s.replayers[a.r].letter.id == id ==> Kept(Operate(s, a), id)
  {
    if a.Reinsert? {
      var d := s.replayers[a.r].letter;
      InsertOrReplaceKeeps(s.tables, PendingRow(d.id, d.topic, d.payload, a.now, 0));
    }
  }

  lemma BackedStep(s: State, a: Action)
    requires Sound(s) && Backed(s) && Enabled(s, a)
    ensures Backed(Apply(s, a))
  {
    hide Publish;
    hide Drain;
    if PublisherMay(s, a) {
      PublishFrame(s, a);
    } else if DrainerMay(s, a) {
      DrainBacked(s, a);
    } else {
      OperateFrame(s, a);
    }
  }

  lemma DrainBacked(s: State, a: Action)
    requires Sound(s) && Backed(s) && DrainerMay(s, a)
    ensures Backed(Drain(s, a))
  {
  }

  // ---------------------------------------------------------------- one event watched along a run

  /** What last happened to an event's pending row in this run: nothing, an insert, a drain giving
      up on it, or a delivery's delete or an eviction. */
  datatype Mark = Untouched | Queued | GivenUp | Gone

  /** `released`: the event has been published, evicted or purged at some point of the run. */
  datatype Watch = Watch(mark: Mark, released: bool)

  const UNWATCHED: Watch := Watch(Untouched, false)

  function Marked(s: State, a: Action, id: EventId, mark: Mark): Mark
    requires Enabled(s, a)
  {
    match a
    case Insert(t, _) => if s.publishers[t].event.id == id then Queued else mark
    case Reinsert(r, _) => if s.replayers[r].letter.id == id then Queued else mark
    case Evict(_) => if s.tables.pending != [] && s.tables.pending[0].id == id then Gone else mark
    case Delete(d) => if s.drainers[d].rows[0].id == id then Gone else mark
    case Settle(d, _) => if s.drainers[d].rows[0].id == id && GivesUp(s.drainers[d].rows[0]) then GivenUp else mark
    case _ => mark
  }

  predicate Releases(s: State, a: Action, id: EventId)
    requires Enabled(s, a)
  {
    match a
    case BrokerReply(t, ok) => ok && s.publishers[t].event.id == id
    case Handle(d, ok, _) =>
      var rows := s.drainers[d].rows;
      ok && rows != [] && rows[0].payload.Encoded? && rows[0].id == id
    case Evict(_) => s.tables.pending != [] && s.tables.pending[0].id == id
    case Purge => id in s.tables.dead
    case _ => false
  }

  function Watching(s: State, a: Action, id: EventId, w: Watch): Watch
    requires Enabled(s, a)
  {
    Watch(Marked(s, a, id, w.mark), w.released || Releases(s, a, id))
  }

  /** The failing branch: a replay deletes the letter of an event whose row a drain has meanwhile
      given up on, so that its own insert-or-ignore found this very letter. */
  predicate Drops(s: State, a: Action, id: EventId, w: Watch)
    requires Enabled(s, a)
  {
    a.Unbury? && s.replayers[a.r].id == id && w.mark == GivenUp && !w.released
  }

  predicate NeverDropped(s: State, acts: seq<Action>, id: EventId, w: Watch)
    requires Runs(s, acts)
    decreases |acts|
  {
    acts == [] ||
    (!Drops(s, acts[0], id, w) && NeverDropped(Apply(s, acts[0]), acts[1..], id, Watching(s, acts[0], id, w)))
  }

  ghost predicate AccountedIfAccepted(s: State, id: EventId) {
    id in s.accepted ==> Accounted(s, id)
  }

  /** The event can be pointed at in every state of the run. */
  ghost predicate AccountedThroughout(s: State, acts: seq<Action>, id: EventId)
    requires Runs(s, acts)
    decreases |acts|
  {
    AccountedIfAccepted(s, id) && (acts == [] || AccountedThroughout(Apply(s, acts[0]), acts[1..], id))
  }

  /** What the watch says is so. */
  ghost predicate Watched(s: State, id: EventId, w: Watch) {
    && (w.released <==> id in s.sentLog || id in s.evicted || id in s.purged)
    && (w.mark == Queued ==> id in PendingIds(s.tables))
    && (w.mark == GivenUp ==> id !in PendingIds(s.tables))
    && (w.mark == Gone ==> w.released)
    && (forall r :: r in s.replayers && s.replayers[r].Reinserted? && s.replayers[r].id == id ==> w.mark != Untouched)
  }

  lemma PublishWatched(s: State, a: Action, id: EventId, w: Watch)
    requires Sound(s) && Watched(s, id, w) && PublisherMay(s, a)
    ensures Watched(Publish(s, a), id, Watching(s, a, id, w))
  {
    hide WellFormed;
    if a.Evict? { DeleteOldestKeeps(s.tables); }
    if a.Insert? {
      InsertOrIgnoreKeeps(s.tables, FreshRow(s.publishers[a.t].event, s.publishers[a.t].topic, a.now));
    }
  }

  lemma DrainWatched(s: State, a: Action, id: EventId, w: Watch)
    requires Sound(s) && Backed(s) && Watched(s, id, w) && DrainerMay(s, a)
    ensures Watched(Drain(s, a), id, Watching(s, a, id, w))
  {
    DrainFrame(s, a);
    var pc := s.drainers[a.d];
    if a.Delete? {
      DeleteRowKeeps(s.tables, pc.rows[0].id);
    } else if a.Settle? {
      if GivesUp(pc.rows[0]) {
        MoveToDlqKeeps(s.tables, pc.rows[0], a.now, pc.reason);
      } else {
        RestIsGood(pc.rows);
        UpdateAttemptsKeeps(s.tables, pc.rows[0].id, pc.rows[0].attempts + 1);
      }
    }
  }

  lemma OperateWatched(s: State, a: Action, id: EventId, w: Watch)
    requires Sound(s) && Watched(s, id, w) && OperatorMay(s, a)
    ensures Watched(Operate(s, a), id, Watching(s, a, id, w))
  {
    if a.Reinsert? {
      var d := s.replayers[a.r].letter;
      InsertOrReplaceKeeps(s.tables, PendingRow(d.id, d.topic, d.payload, a.now, 0));
    }
  }

  lemma WatchedStep(s: State, a: Action, id: EventId, w: Watch)
    requires Sound(s) && Backed(s) && Watched(s, id, w) && Enabled(s, a)
    ensures Watched(Apply(s, a), id, Watching(s, a, id, w))
  {
    hide Watched;
    hide Watching;
    hide Publish;
    hide Drain;
    hide Operate;
    if PublisherMay(s, a) {
      PublishWatched(s, a, id, w);
    } else if DrainerMay(s, a) {
      DrainWatched(s, a, id, w);
    } else {
      OperateWatched(s, a, id, w);
    }
  }

  /** One action keeps the event accounted for exactly unless it takes the failing branch. */
  lemma AccountedStep(s: State, a: Action, id: EventId, w: Watch)
    requires Sound(s) && Backed(s) && KnownIsAccepted(s) && Watched(s, id, w) && AccountedIfAccepted(s, id)
    requires Enabled(s, a)
    ensures AccountedIfAccepted(Apply(s, a), id) <==> !Drops(s, a, id, w)
  {
    hide Publish;
    hide Drain;
    if PublisherMay(s, a) {
      PublishKeeps(s, a, id);
    } else if DrainerMay(s, a) {
      DrainKeeps(s, a, id);
    } else {
      OperateFrame(s, a);
      OperateKeeps(s, a, id);
      if a.Unbury? && s.replayers[a.r].id == id {
        assert ReplayId(s.replayers[a.r]) in s.accepted;
      }
    }
  }

  lemma {:induction false} AccountedExactlyAlongRun(s: State, acts: seq<Action>, id: EventId, w: Watch)
    requires Sound(s) && Backed(s) && Ledger(s) && Watched(s, id, w) && AccountedIfAccepted(s, id)
    requires Runs(s, acts)
    ensures AccountedThroughout(s, acts, id) <==> NeverDropped(s, acts, id, w)
    decreases |acts|
  {
    if acts != [] {
      var a := acts[0];
      AccountedStep(s, a, id, w);
      if Drops(s, a, id, w) {
        NotAccountedAtOnce(Apply(s, a), acts[1..], id);
      } else {
        SoundStep(s, a);
        BackedStep(s, a);
        LedgerStep(s, a);
        WatchedStep(s, a, id, w);
        hide Apply;
        hide Watching;
        hide Drops;
        AccountedExactlyAlongRun(Apply(s, a), acts[1..], id, Watching(s, a, id, w));
      }
    }
  }

  lemma NotAccountedAtOnce(s: State, acts: seq<Action>, id: EventId)
    requires Runs(s, acts) && !AccountedIfAccepted(s, id)
    ensures !AccountedThroughout(s, acts, id)
  {
  }

  lemma InitialIsWatched(s: State, id: EventId)
    requires Initial(s)
    ensures Sound(s) && Backed(s) && Ledger(s) && Watched(s, id, UNWATCHED) && AccountedIfAccepted(s, id)
  {
  }

  /** Main result, for each event on its own: in every run from an opened file, crashes anywhere, an
      accepted event can be pointed at in every state (sent, pending, dead-lettered, evicted or
      purged) if and only if no replay deletes its letter after a drain gave up on its row again
      and before the event was ever published, evicted or purged. */
  lemma EventSurvivesExactlyWhenNeverDropped(s: State, acts: seq<Action>, id: EventId)
    requires Initial(s) && Runs(s, acts)
    ensures AccountedThroughout(s, acts, id) <==> NeverDropped(s, acts, id, UNWATCHED)
  {
    InitialIsWatched(s, id);
    AccountedExactlyAlongRun(s, acts, id, UNWATCHED);
  }

  ghost predicate NoLossThroughout(s: State, acts: seq<Action>)
    requires Runs(s, acts)
    decreases |acts|
  {
    NoLoss(s) && (acts == [] || NoLossThroughout(Apply(s, acts[0]), acts[1..]))
  }

  lemma NoLossMeans(s: State)
    ensures NoLoss(s) <==> forall id: EventId :: AccountedIfAccepted(s, id)
  {
    if forall id: EventId :: AccountedIfAccepted(s, id) {
      forall id | id in s.accepted ensures Accounted(s, id) { assert AccountedIfAccepted(s, id); }
    }
  }

  ghost predicate AllAccountedThroughout(s: State, acts: seq<Action>)
    requires Runs(s, acts)
  {
    forall id: EventId :: AccountedThroughout(s, acts, id)
  }

  lemma AllAccountedUnfolds(s: State, acts: seq<Action>)
    requires Runs(s, acts)
    ensures AllAccountedThroughout(s, acts) <==>
      NoLoss(s) && (acts == [] || AllAccountedThroughout(Apply(s, acts[0]), acts[1..]))
  {
    NoLossMeans(s);
    hide NoLoss;
    hide AccountedIfAccepted;
    hide Apply;
    if AllAccountedThroughout(s, acts) {
      forall id: EventId
        ensures AccountedIfAccepted(s, id) && (acts == [] || AccountedThroughout(Apply(s, acts[0]), acts[1..], id))
      {
        assert AccountedThroughout(s, acts, id);
      }
    }
    if NoLoss(s) && (acts == [] || AllAccountedThroughout(Apply(s, acts[0]), acts[1..])) {
      forall id: EventId ensures AccountedThroughout(s, acts, id) {
        assert AccountedIfAccepted(s, id);
        if acts != [] { assert AccountedThroughout(Apply(s, acts[0]), acts[1..], id); }
      }
    }
  }

  lemma {:induction false} NoLossIsPerEvent(s: State, acts: seq<Action>)
    requires Runs(s, acts)
    ensures NoLossThroughout(s, acts) <==> AllAccountedThroughout(s, acts)
    decreases |acts|
  {
    AllAccountedUnfolds(s, acts);
    hide NoLoss;
    hide AllAccountedThroughout;
    hide Apply;
    if acts != [] { NoLossIsPerEvent(Apply(s, acts[0]), acts[1..]); }
  }

  ghost predicate NothingIsDropped(s: State, acts: seq<Action>)
    requires Runs(s, acts)
  {
    forall id: EventId :: NeverDropped(s, acts, id, UNWATCHED)
  }

  /** Main result: a run never loses an accepted event exactly when no replay in it takes the failing
      branch. */
  lemma NothingIsLostExactlyWhenNothingIsDropped(s: State, acts: seq<Action>)
    requires Initial(s) && Runs(s, acts)
    ensures NoLossThroughout(s, acts) <==> NothingIsDropped(s, acts)
  {
    NoLossIsPerEvent(s, acts);
    hide NeverDropped;
    hide AccountedThroughout;
    hide NoLossThroughout;
    if AllAccountedThroughout(s, acts) {
      forall id: EventId ensures NeverDropped(s, acts, id, UNWATCHED) {
        assert AccountedThroughout(s, acts, id);
        EventSurvivesExactlyWhenNeverDropped(s, acts, id);
      }
      assert NothingIsDropped(s, acts);
    }
    if NothingIsDropped(s, acts) {
      forall id: EventId ensures AccountedThroughout(s, acts, id) {
        assert NeverDropped(s, acts, id, UNWATCHED);
        EventSurvivesExactlyWhenNeverDropped(s, acts, id);
      }
      assert AllAccountedThroughout(s, acts);
    }
  }

  // ---------------------------------------------------------------- a guard on the collision alone

  /** A drain gives up on this event while a replay of it stands between its two writes. */
  predicate Collides(s: State, a: Action, id: EventId) {
    && a.Settle? && a.d in s.drainers && s.drainers[a.d].Settling? && s.drainers[a.d].rows != []
    && GivesUp(s.drainers[a.d].rows[0])
    && s.drainers[a.d].rows[0].id == id && id in MidReplay(s)
  }

  predicate CollisionFree(s: State, acts: seq<Action>, id: EventId)
    requires Runs(s, acts)
    decreases |acts|
  {
    acts == [] || (!Collides(s, acts[0], id) && CollisionFree(Apply(s, acts[0]), acts[1..], id))
  }

  lemma MidReplayGrows(s: State, a: Action, id: EventId)
    requires Enabled(s, a)
    ensures id in MidReplay(Apply(s, a)) ==> id in MidReplay(s) || (a.Reinsert? && s.replayers[a.r].letter.id == id)
  {
    hide Publish;
    hide Drain;
    if PublisherMay(s, a) {
      PublishFrame(s, a);
    } else if DrainerMay(s, a) {
      DrainFrame(s, a);
    }
  }

  lemma {:induction false} CollisionFreeIsNeverDropped(s: State, acts: seq<Action>, id: EventId, w: Watch)
    requires Runs(s, acts) && CollisionFree(s, acts, id)
    requires id in MidReplay(s) ==> w.mark != GivenUp
    ensures NeverDropped(s, acts, id, w)
    decreases |acts|
  {
    if acts != [] {
      var a := acts[0];
      MidReplayGrows(s, a, id);
      if a.Unbury? && s.replayers[a.r].id == id { assert id in MidReplay(s); }
      hide Apply;
      CollisionFreeIsNeverDropped(Apply(s, a), acts[1..], id, Watching(s, a, id, w));
    }
  }

  /** Main result: over every run from an opened file, with crashes between publish and delete or
      inside a replay, this event is sent, pending, dead-lettered, evicted or purged in every state
      once its publish returned Ok, as long as no drain gave up on it in the middle of its own replay;
      what happens to other events does not matter. */
  lemma NoSilentLoss(s: State, acts: seq<Action>, id: EventId)
    requires Initial(s) && Runs(s, acts) && CollisionFree(s, acts, id)
    ensures AccountedThroughout(s, acts, id)
    ensures AccountedIfAccepted(Final(s, acts), id)
  {
    CollisionFreeIsNeverDropped(s, acts, id, UNWATCHED);
    EventSurvivesExactlyWhenNeverDropped(s, acts, id);
    AccountedAtTheEnd(s, acts, id);
  }

  lemma {:induction false} AccountedAtTheEnd(s: State, acts: seq<Action>, id: EventId)
    requires Runs(s, acts) && AccountedThroughout(s, acts, id)
    ensures AccountedIfAccepted(Final(s, acts), id)
    decreases |acts|
  {
    if acts != [] { AccountedAtTheEnd(Apply(s, acts[0]), acts[1..], id); }
  }

  // ---------------------------------------------------------------- the collision is real

  const FETCHED: seq<Action> := [BeginDrainNats(0), Fetch(0)]
  const REFUSED: seq<Action> := [Handle(0, false, "refused"), Settle(0, 0)]
  const FINISHED: seq<Action> := [Handle(0, false, "")]

  /** One `drain_nats` whose single row the broker refuses. */
  const REFUSED_ROUND: seq<Action> := FETCHED + (REFUSED + FINISHED)

  lemma FetchOne(s: State, row: PendingRow)
    requires s.tables.pending == [row] && !s.drainRunning && s.drainers == map[0 := Parked]
    ensures Runs(s, FETCHED)
    ensures Final(s, FETCHED) == s.(drainers := map[0 := Handling(true, [row])], drainRunning := true)
  {
    assert OldestBatch(s.tables) == [row];
    RunsTwo(s, BeginDrainNats(0), Fetch(0));
    assert Final(s, FETCHED).drainers == map[0 := Handling(true, [row])];
  }

  function AfterRefusal(t: Tables, row: PendingRow): Tables {
    if GivesUp(row) then MoveToDlq(t, row, 0, "refused") else UpdateAttempts(t, row.id, row.attempts + 1)
  }

  lemma RefuseOne(s: State, row: PendingRow)
    requires row.payload.Encoded? && s.drainers == map[0 := Handling(true, [row])]
    ensures Runs(s, REFUSED)
    ensures Final(s, REFUSED) ==
      s.(drainers := map[0 := Handling(true, [])], tables := AfterRefusal(s.tables, row))
  {
    RunsTwo(s, Handle(0, false, "refused"), Settle(0, 0));
    assert [row][1..] == [];
    assert Final(s, REFUSED).drainers == map[0 := Handling(true, [])];
  }

  lemma FinishOne(s: State)
    requires s.drainers == map[0 := Handling(true, [])]
    ensures Runs(s, FINISHED)
    ensures Final(s, FINISHED) == s.(drainers := map[0 := Parked], drainRunning := false)
  {
    RunsOne(s, Handle(0, false, ""));
    assert Final(s, FINISHED).drainers == map[0 := Parked];
  }

  lemma RefusedRound(s: State, row: PendingRow)
    requires s.tables.pending == [row] && row.payload.Encoded? && !s.drainRunning
    requires s.drainers == map[0 := Parked]
    ensures Runs(s, REFUSED_ROUND)
    ensures Final(s, REFUSED_ROUND) == s.(tables := AfterRefusal(s.tables, row))
  {
    FetchOne(s, row);
    var s1 := Final(s, FETCHED);
    RefuseOne(s1, row);
    var s2 := Final(s1, REFUSED);
    FinishOne(s2);
    RunsConcat(s1, REFUSED, FINISHED);
    RunsConcat(s, FETCHED, REFUSED + FINISHED);
  }

  const LETTER: DeadLetter := DeadLetter(7, "topic", Encoded(Event(7, "topic", "body")), 0, "refused")

  /** A reopened file that holds one dead letter, one drainer and one operator. */
  const ONE_LETTER: State := State(10, Tables([], map[7 := LETTER]), Nobody, false, map[], map[0 := Parked],
                                   map[0 := Quiet], {7}, {7}, [], {}, {}, {})

  const REPLAY_HALF: seq<Action> := [BeginReplay(0, 7), Reinsert(0, 0)]

  lemma ReplayHalf()
    ensures Runs(ONE_LETTER, REPLAY_HALF)
    ensures Final(ONE_LETTER, REPLAY_HALF) ==
      ONE_LETTER.(replayers := map[0 := Reinserted(7)],
                  tables := Tables([PendingRow(7, "topic", LETTER.payload, 0, 0)], map[7 := LETTER]))
  {
    var s1 := Apply(ONE_LETTER, BeginReplay(0, 7));
    assert s1 == ONE_LETTER.(replayers := map[0 := Found(LETTER)]);
    var s2 := Apply(s1, Reinsert(0, 0));
    assert s2.replayers == map[0 := Reinserted(7)];
    RunsOne(ONE_LETTER, BeginReplay(0, 7));
    RunsOne(s1, Reinsert(0, 0));
    RunsConcat(ONE_LETTER, [BeginReplay(0, 7)], [Reinsert(0, 0)]);
    assert REPLAY_HALF == [BeginReplay(0, 7)] + [Reinsert(0, 0)];
  }

  /** Without that proviso the claim is false: three refused drains between the two writes of a
      replay make the event vanish from both tables. */
  lemma ReplayRacingDrainsLosesAnEvent()
    ensures Initial(ONE_LETTER)
    ensures var acts := REPLAY_HALF + (REFUSED_ROUND + (REFUSED_ROUND + (REFUSED_ROUND + [Unbury(0)])));
      Runs(ONE_LETTER, acts) && !NoLoss(Final(ONE_LETTER, acts))
  {
    ReplayHalf();
    var s := Final(ONE_LETTER, REPLAY_HALF);
    ThreeRefusalsThenUnbury(s);
    RunsConcat(ONE_LETTER, REPLAY_HALF, REFUSED_ROUND + (REFUSED_ROUND + (REFUSED_ROUND + [Unbury(0)])));
  }

  lemma OnlyRowRemoved(row: PendingRow)
    ensures Without([row], row.id) == []
  {
    assert [row][1..] == [];
  }

  lemma ThreeRefusalsThenUnbury(s: State)
    requires s.tables == Tables([PendingRow(7, "topic", LETTER.payload, 0, 0)], map[7 := LETTER])
    requires s.replayers == map[0 := Reinserted(7)] && s.drainers == map[0 := Parked] && !s.drainRunning
    requires s.accepted == {7} && s.sentLog == [] && s.evicted == {} && s.purged == {}
    ensures var acts := REFUSED_ROUND + (REFUSED_ROUND + (REFUSED_ROUND + [Unbury(0)]));
      Runs(s, acts) && !NoLoss(Final(s, acts))
  {
    var row := PendingRow(7, "topic", LETTER.payload, 0, 0);
    RefusedRound(s, row);
    var s1 := Final(s, REFUSED_ROUND);
    assert s1.tables.pending == [row.(attempts := 1)];
    RefusedRound(s1, row.(attempts := 1));
    var s2 := Final(s1, REFUSED_ROUND);
    assert s2.tables.pending == [row.(attempts := 2)];
    RefusedRound(s2, row.(attempts := 2));
    var s3 := Final(s2, REFUSED_ROUND);
    OnlyRowRemoved(row.(attempts := 2));
    assert s3.tables.pending == [] && s3.tables.dead == map[7 := LETTER];
    RunsOne(s3, Unbury(0));
    assert 7 in s3.accepted && !Accounted(Apply(s3, Unbury(0)), 7);
    RunsConcat(s2, REFUSED_ROUND, [Unbury(0)]);
    RunsConcat(s1, REFUSED_ROUND, REFUSED_ROUND + [Unbury(0)]);
    RunsConcat(s, REFUSED_ROUND, REFUSED_ROUND + (REFUSED_ROUND + [Unbury(0)]));
  }

  // ---------------------------------------------------------------- ids are fresh

  predicate Carries(pc: Drainer) {
    pc.Handling? || pc.Deleting? || pc.Settling?
  }

  function ReplayId(pc: Replayer): EventId
    requires !pc.Quiet?
  {
    if pc.Found? then pc.letter.id else pc.id
  }

  ghost predicate RowsAccepted(pc: Drainer, accepted: set<EventId>) {
    Carries(pc) ==> forall r :: r in pc.rows ==> r.id in accepted
  }

  /** Everything in the tables, in a drainer's hands or in a replay was accepted before. */
  ghost predicate KnownIsAccepted(s: State) {
    && PendingIds(s.tables) <= s.accepted && s.tables.dead.Keys <= s.accepted
    && (forall id :: id in s.sentLog ==> id in s.accepted)
    && (forall d :: d in s.drainers ==> RowsAccepted(s.drainers[d], s.accepted))
    && (forall r :: r in s.replayers && !s.replayers[r].Quiet? ==> ReplayId(s.replayers[r]) in s.accepted)
  }

  predicate Carrying(s: State, t: Tid, id: EventId) {
    t in s.publishers && !s.publishers[t].Resting? && s.publishers[t].event.id == id
  }

  /** An event still on its way was given to one publisher only and has not been accepted. */
  ghost predicate CarriedIsFresh(s: State) {
    && s.accepted <= s.used
    && (forall t, id :: Carrying(s, t, id) ==> id in s.used && id !in s.accepted)
    && (forall t, u, id :: Carrying(s, t, id) && Carrying(s, u, id) ==> t == u)
  }

  ghost predicate Ledger(s: State) {
    KnownIsAccepted(s) && CarriedIsFresh(s)
  }

  lemma PublishCarries(s: State, a: Action)
    requires CarriedIsFresh(s) && PublisherMay(s, a)
    ensures CarriedIsFresh(Publish(s, a))
  {
    var s' := Publish(s, a);
    if !a.BeginPublish? { assert Carrying(s, a.t, s.publishers[a.t].event.id); }
    forall t, id | Carrying(s', t, id) ensures Carrying(s, t, id) || (a.BeginPublish? && a.t == t && a.event.id == id) {}
  }

  lemma CarriedStep(s: State, a: Action)
    requires CarriedIsFresh(s) && Enabled(s, a)
    ensures CarriedIsFresh(Apply(s, a))
  {
    hide Publish;
    hide Drain;
    if PublisherMay(s, a) {
      PublishCarries(s, a);
    } else if DrainerMay(s, a) {
      DrainFrame(s, a);
      forall t, id | Carrying(Drain(s, a), t, id) ensures Carrying(s, t, id) {}
    } else {
      OperateFrame(s, a);
      forall t, id | Carrying(Operate(s, a), t, id) ensures Carrying(s, t, id) {}
    }
  }

  lemma PublishKnown(s: State, a: Action)
    requires Sound(s) && KnownIsAccepted(s) && PublisherMay(s, a)
    ensures KnownIsAccepted(Publish(s, a))
  {
    var s' := Publish(s, a);
    if a.Evict? { DeleteOldestKeeps(s.tables); }
    if a.Insert? {
      InsertOrIgnoreKeeps(s.tables, FreshRow(s.publishers[a.t].event, s.publishers[a.t].topic, a.now));
    }
    assert s.accepted <= s'.accepted;
    forall d | d in s'.drainers ensures RowsAccepted(s'.drainers[d], s'.accepted) {
      assert RowsAccepted(s.drainers[d], s.accepted);
    }
  }

  lemma DrainedTables(s: State, a: Action)
    requires Sound(s) && DrainerMay(s, a)
    ensures var t, t' := s.tables, Drain(s, a).tables;
      PendingIds(t') <= PendingIds(t) &&
      t'.dead.Keys <= t.dead.Keys + if a.Settle? then {s.drainers[a.d].rows[0].id} else {}
    ensures forall id :: id in PendingIds(Drain(s, a).tables) && id in Drain(s, a).tables.dead ==> id in s.tables.dead
  {
    var pc := s.drainers[a.d];
    if a.Delete? {
      DeleteRowKeeps(s.tables, pc.rows[0].id);
    } else if a.Settle? {
      if GivesUp(pc.rows[0]) {
        MoveToDlqKeeps(s.tables, pc.rows[0], a.now, pc.reason);
      } else {
        RestIsGood(pc.rows);
        UpdateAttemptsKeeps(s.tables, pc.rows[0].id, pc.rows[0].attempts + 1);
      }
    }
  }

  lemma DrainRowsAccepted(s: State, a: Action)
    requires PendingIds(s.tables) <= s.accepted && DrainerMay(s, a) && RowsAccepted(s.drainers[a.d], s.accepted)
    ensures RowsAccepted(Drain(s, a).drainers[a.d], s.accepted)
  {
    var pc, pc' := s.drainers[a.d], Drain(s, a).drainers[a.d];
    forall r | Carries(pc') && r in pc'.rows ensures r.id in s.accepted {
      if a.Fetch? {
        assert r in s.tables.pending;
        assert r.id in PendingIds(s.tables);
      } else {
        assert r in pc.rows;
      }
    }
  }

  lemma {:induction false} DrainKnown(s: State, a: Action)
    requires Sound(s) && KnownIsAccepted(s) && DrainerMay(s, a)
    ensures KnownIsAccepted(Drain(s, a))
  {
    DrainFrame(s, a);
    DrainedTables(s, a);
    DrainRowsAccepted(s, a);
    if Carries(s.drainers[a.d]) { HeadIsAccepted(s.drainers[a.d], s.accepted); }
  }

  lemma HeadIsAccepted(pc: Drainer, accepted: set<EventId>)
    requires RowsAccepted(pc, accepted) && Carries(pc)
    ensures pc.rows != [] ==> pc.rows[0].id in accepted
  {
    if pc.rows != [] { assert pc.rows[0] in pc.rows; }
  }

  lemma OperateKnown(s: State, a: Action)
    requires Sound(s) && KnownIsAccepted(s) && OperatorMay(s, a)
    ensures KnownIsAccepted(Operate(s, a))
  {
    if a.Reinsert? {
      var d := s.replayers[a.r].letter;
      InsertOrReplaceKeeps(s.tables, PendingRow(d.id, d.topic, d.payload, a.now, 0));
    }
  }

  lemma LedgerStep(s: State, a: Action)
    requires Sound(s) && Ledger(s) && Enabled(s, a)
    ensures Ledger(Apply(s, a))
  {
    CarriedStep(s, a);
    if PublisherMay(s, a) { PublishKnown(s, a); }
    else if DrainerMay(s, a) { DrainKnown(s, a); }
    else { OperateKnown(s, a); }
  }

  // ---------------------------------------------------------------- the tables stay disjoint

  /** An id in both tables is between the two writes of a replay, or was left there by a torn one. */
  ghost predicate OverlapIsReplay(s: State) {
    forall id :: id in PendingIds(s.tables) && id in s.tables.dead ==> id in MidReplay(s) || id in s.torn
  }

  lemma OverlapStep(s: State, a: Action)
    requires Sound(s) && Ledger(s) && OverlapIsReplay(s) && Enabled(s, a)
    ensures OverlapIsReplay(Apply(s, a))
    ensures s.torn <= Apply(s, a).torn
  {
    hide Publish;
    hide Drain;
    if PublisherMay(s, a) {
      PublishFrame(s, a);
      assert MidReplay(Publish(s, a)) == MidReplay(s);
      PublishOverlap(s, a);
    } else if DrainerMay(s, a) {
      DrainFrame(s, a);
      assert MidReplay(Drain(s, a)) == MidReplay(s);
      DrainedTables(s, a);
    } else {
      OperateOverlap(s, a);
    }
  }

  lemma PublishOverlap(s: State, a: Action)
    requires Sound(s) && Ledger(s) && PublisherMay(s, a)
    ensures forall id :: id in PendingIds(Publish(s, a).tables) && id in Publish(s, a).tables.dead ==>
      id in PendingIds(s.tables) && id in s.tables.dead
  {
    if a.Evict? { DeleteOldestKeeps(s.tables); }
    if a.Insert? {
      assert Carrying(s, a.t, s.publishers[a.t].event.id);
      InsertOrIgnoreKeeps(s.tables, FreshRow(s.publishers[a.t].event, s.publishers[a.t].topic, a.now));
    }
  }

  lemma OperateOverlap(s: State, a: Action)
    requires Sound(s) && OverlapIsReplay(s) && OperatorMay(s, a)
    ensures OverlapIsReplay(Operate(s, a))
  {
    var s' := Operate(s, a);
    forall id | id in MidReplay(s) && !(a.Unbury? && s.replayers[a.r].id == id)
      ensures id in MidReplay(s') || id in s'.torn
    {
      var r :| r in s.replayers && s.replayers[r].Reinserted? && s.replayers[r].id == id;
      if !a.Crash? && !(a.FailReplay? && a.r == r) {
        assert s'.replayers[r] == s.replayers[r];
      }
    }
    if a.Reinsert? {
      var d := s.replayers[a.r].letter;
      InsertOrReplaceKeeps(s.tables, PendingRow(d.id, d.topic, d.payload, a.now, 0));
      assert s'.replayers[a.r] == Reinserted(d.id);
    }
  }

  lemma {:induction false} OverlapAlongRun(s: State, acts: seq<Action>)
    requires Sound(s) && Ledger(s) && OverlapIsReplay(s) && Runs(s, acts)
    ensures Sound(Final(s, acts)) && OverlapIsReplay(Final(s, acts))
    decreases |acts|
  {
    if acts != [] {
      SoundStep(s, acts[0]);
      LedgerStep(s, acts[0]);
      OverlapStep(s, acts[0]);
      OverlapAlongRun(Apply(s, acts[0]), acts[1..]);
    }
  }

  /** Main result: over every run, each pending row has been tried at most twice, and unless a
      replay is under way or was torn between its writes, no event is in both tables. */
  lemma TablesStayDisjoint(s: State, acts: seq<Action>)
    requires Initial(s) && Runs(s, acts)
    ensures var s' := Final(s, acts);
      && WellFormed(s'.tables)
      && (s'.torn == {} && (forall r :: r in s'.replayers ==> !s'.replayers[r].Reinserted?) ==> Disjoint(s'.tables))
  {
    OverlapAlongRun(s, acts);
  }

  // ---------------------------------------------------------------- the drain guard

  lemma {:induction false} GuardAlongRun(s: State, acts: seq<Action>)
    requires GuardHeldOnce(s) && Runs(s, acts)
    ensures GuardHeldOnce(Final(s, acts))
    decreases |acts|
  {
    if acts != [] {
      GuardHeldOnceStep(s, acts[0]);
      GuardAlongRun(Apply(s, acts[0]), acts[1..]);
    }
  }

  /** Main result: over every run, crashes and failures included, at most one drainer is past the
      guard, and the flag is down whenever none is (so a later drain is never locked out). */
  lemma OneDrainerPastTheGuard(s: State, acts: seq<Action>, d: Tid, d': Tid)
    requires Initial(s) && Runs(s, acts)
    requires PastGuard(Final(s, acts), d) && PastGuard(Final(s, acts), d')
    ensures d == d' && Final(s, acts).drainRunning
  {
    GuardAlongRun(s, acts);
  }
}
