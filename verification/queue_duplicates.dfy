/** When the durable queue publishes an event twice, and how often.  A drain deletes a row only after
    the broker took it, so whatever stops it in between leaves a published row behind. */
module QueueDuplicates {
  import opened DiskTables
  import opened QueueProtocol
  import opened QueueSafety
  import opened Sets

  // ---------------------------------------------------------------- repeats

  /** How many entries of the log have an equal one before them. */
  function Repeats(log: seq<EventId>): nat {
    if log == [] then 0
    else
      var front, last := log[..|log| - 1], log[|log| - 1];
      Repeats(front) + if last in front then 1 else 0
  }

  ghost predicate NoRepeats(log: seq<EventId>) {
    forall i, j :: 0 <= i < j < |log| ==> log[i] != log[j]
  }

  lemma {:induction false} NoRepeatsMeansNone(log: seq<EventId>)
    ensures Repeats(log) == 0 <==> NoRepeats(log)
  {
    if log != [] {
      var front, last := log[..|log| - 1], log[|log| - 1];
      NoRepeatsMeansNone(front);
      if last in front {
        var i :| 0 <= i < |front| && front[i] == last;
        assert log[i] == log[|log| - 1];
      }
    }
  }

  lemma RepeatsGrow(log: seq<EventId>, id: EventId)
    ensures Repeats(log + [id]) == Repeats(log) + if id in log then 1 else 0
  {
    assert (log + [id])[..|log|] == log;
  }

  // ---------------------------------------------------------------- one drain at a time

  /** At most one drainer is at work. */
  ghost predicate Solo(s: State) {
    forall d, e :: d in s.drainers && e in s.drainers && !s.drainers[d].Parked? && !s.drainers[e].Parked? ==> d == e
  }

  /** A drain starts while another one is at work: a plain `drain` always can, `drain_nats` only next
      to a plain one. */
  predicate Overlaps(s: State, a: Action) {
    && (a.BeginDrain? || (a.BeginDrainNats? && !s.drainRunning))
    && exists d :: d in s.drainers && !s.drainers[d].Parked?
  }

  predicate NeverOverlaps(s: State, acts: seq<Action>)
    requires Runs(s, acts)
    decreases |acts|
  {
    acts == [] || (!Overlaps(s, acts[0]) && NeverOverlaps(Apply(s, acts[0]), acts[1..]))
  }

  /** The one drainer at work, parked when there is none. */
  ghost function AtWork(drainers: map<Tid, Drainer>): Drainer {
    if exists d :: d in drainers && !drainers[d].Parked?
    then var d :| d in drainers && !drainers[d].Parked?; drainers[d]
    else Parked
  }

  ghost function Active(s: State): Drainer {
    AtWork(s.drainers)
  }

  lemma ActiveIs(s: State, d: Tid)
    requires Solo(s) && d in s.drainers && !s.drainers[d].Parked?
    ensures Active(s) == s.drainers[d]
  {
  }

  lemma SoloStep(s: State, a: Action)
    requires Solo(s) && Enabled(s, a) && !Overlaps(s, a)
    ensures Solo(Apply(s, a))
  {
    hide Publish;
    if PublisherMay(s, a) { PublishFrame(s, a); }
    else if DrainerMay(s, a) { hide Operate; }
    else { hide Drain; OperateFrame(s, a); }
  }

  // ---------------------------------------------------------------- events at risk

  /** The rows a drainer has yet to publish. */
  function Ahead(pc: Drainer): seq<PendingRow> {
    if pc.Handling? || pc.Settling? then pc.rows
    else if pc.Deleting? && pc.rows != [] then pc.rows[1..]
    else []
  }

  /** The id a drainer has just published and is about to delete. */
  function JustSent(pc: Drainer): set<EventId> {
    if pc.Deleting? && pc.rows != [] then {pc.rows[0].id} else {}
  }

  /** Published, yet pending or in the drainer's hands to be published, and not about to be deleted. */
  ghost predicate AtRisk(s: State, id: EventId) {
    && id in s.sentLog && id !in JustSent(Active(s))
    && (id in PendingIds(s.tables) || id in Ids(Ahead(Active(s))))
  }

  ghost function Exposed(s: State): set<EventId> {
    set id | id in s.sentLog && AtRisk(s, id)
  }

  /** The published row the drainer at work has not deleted yet, if it is still there. */
  ghost function Undeleted(s: State): set<EventId> {
    JustSent(Active(s)) * PendingIds(s.tables)
  }

  /** What an action puts at risk: stopping the drainer, or its delete, between the broker's yes and
      the delete, or replaying a letter that was published before. */
  ghost function ExposedBy(s: State, a: Action): set<EventId>
    requires Enabled(s, a)
  {
    match a
    case Crash => Undeleted(s)
    case FailDrain(_) => Undeleted(s)
    case DeleteFails(_) => Undeleted(s)
    case Reinsert(r, _) =>
      var id := s.replayers[r].letter.id;
      if id in s.sentLog && id !in JustSent(Active(s)) then {id} else {}
    case _ => {}
  }

  ghost function Exposures(s: State, acts: seq<Action>): nat
    requires Runs(s, acts)
    decreases |acts|
  {
    if acts == [] then 0 else |ExposedBy(s, acts[0])| + Exposures(Apply(s, acts[0]), acts[1..])
  }

  // ---------------------------------------------------------------- one action

  /** A publish adds at most its own event to the pending rows or to the log, and that event is new. */
  lemma PublishedIsNew(s: State, a: Action)
    requires Sound(s) && Ledger(s) && PublisherMay(s, a)
    ensures forall id :: id in PendingIds(Publish(s, a).tables) && id !in PendingIds(s.tables) ==>
      id !in s.accepted && Publish(s, a).sentLog == s.sentLog
    ensures a.BrokerReply? ==>
      s.publishers[a.t].event.id !in s.accepted && Publish(s, a).tables == s.tables
  {
    assert !a.BeginPublish? ==> Carrying(s, a.t, s.publishers[a.t].event.id);
    if a.Evict? {
      DeleteOldestKeeps(s.tables);
    } else if a.Insert? {
      InsertOrIgnoreKeeps(s.tables, FreshRow(s.publishers[a.t].event, s.publishers[a.t].topic, a.now));
    }
  }

  lemma AheadIsAccepted(s: State, id: EventId)
    requires KnownIsAccepted(s) && id !in s.accepted
    ensures id !in s.sentLog && id !in PendingIds(s.tables) && id !in Ids(Ahead(Active(s)))
  {
    if d :| d in s.drainers && s.drainers[d] == Active(s) {
      assert RowsAccepted(s.drainers[d], s.accepted);
      forall r | r in Ahead(Active(s)) ensures r.id in s.accepted {
        assert r in Active(s).rows;
      }
    }
  }

  lemma PublishRisks(s: State, a: Action, id: EventId)
    requires Sound(s) && Ledger(s) && PublisherMay(s, a)
    ensures AtRisk(Publish(s, a), id) ==> AtRisk(s, id)
    ensures Repeats(Publish(s, a).sentLog) == Repeats(s.sentLog)
  {
    PublishFrame(s, a);
    PublishedIsNew(s, a);
    hide Publish;
    var s' := Publish(s, a);
    assert Active(s') == Active(s);
    if s'.sentLog != s.sentLog {
      var fresh' := s.publishers[a.t].event.id;
      AheadIsAccepted(s, fresh');
      RepeatsGrow(s.sentLog, fresh');
    } else if id !in s.accepted {
      AheadIsAccepted(s, id);
    }
  }

  /** What the drainer at work does to its own rows, the log and the pending ids. */
  lemma DrainRisks(s: State, a: Action, id: EventId)
    requires Sound(s) && Backed(s) && Solo(s) && DrainerMay(s, a) && !Overlaps(s, a)
    ensures AtRisk(Drain(s, a), id) ==> AtRisk(s, id) || id in ExposedBy(s, a)
    ensures id in ExposedBy(s, a) ==> AtRisk(Drain(s, a), id)
  {
    if a.BeginDrain? || a.BeginDrainNats? {
      BeginRisks(s, a, id);
    } else {
      ActiveIs(s, a.d);
      AfterActive(s, a);
      WorkRisks(s, a, id);
    }
  }

  lemma BeginRisks(s: State, a: Action, id: EventId)
    requires Solo(s) && DrainerMay(s, a) && !Overlaps(s, a) && (a.BeginDrain? || a.BeginDrainNats?)
    ensures AtRisk(Drain(s, a), id) <==> AtRisk(s, id)
  {
    if !(a.BeginDrainNats? && s.drainRunning) {
      assert Active(s) == Parked;
      SoloStep(s, a);
      ActiveIs(Drain(s, a), a.d);
      assert Ids([]) == {};
    }
  }

  lemma AfterActive(s: State, a: Action)
    requires Solo(s) && DrainerMay(s, a) && !a.BeginDrain? && !a.BeginDrainNats?
    ensures Active(Drain(s, a)) == Drain(s, a).drainers[a.d]
  {
    var s' := Drain(s, a);
    assert forall d :: d in s.drainers && d != a.d ==> s.drainers[d].Parked? && s'.drainers[d].Parked?;
  }

  lemma WorkRisks(s: State, a: Action, id: EventId)
    requires Sound(s) && Backed(s) && DrainerMay(s, a) && !a.BeginDrain? && !a.BeginDrainNats?
    requires Active(s) == s.drainers[a.d] && Active(Drain(s, a)) == Drain(s, a).drainers[a.d]
    ensures AtRisk(Drain(s, a), id) ==> AtRisk(s, id) || id in ExposedBy(s, a)
    ensures id in ExposedBy(s, a) ==> AtRisk(Drain(s, a), id)
  {
    hide Active;
    var pc := s.drainers[a.d];
    if a.Fetch? {
      assert forall r :: r in OldestBatch(s.tables) ==> r in s.tables.pending;
    } else if a.Handle? {
      HandleRisks(s, a, id);
    } else if a.Delete? || a.DeleteFails? || a.Settle? {
      RowDoneRisks(s, a, id);
    }
  }

  lemma HandleRisks(s: State, a: Action, id: EventId)
    requires Sound(s) && DrainerMay(s, a) && a.Handle?
    requires Active(s) == s.drainers[a.d] && Active(Drain(s, a)) == Drain(s, a).drainers[a.d]
    ensures AtRisk(Drain(s, a), id) ==> AtRisk(s, id)
  {
    HandleMoves(s, a);
    hide Drain;
    hide Active;
    hide WellFormed;
    if s.drainers[a.d].rows != [] { RestHasOtherIds(s.drainers[a.d].rows); }
  }

  /** Handling sends the row, or leaves the rows as they are, or is done. */
  lemma HandleMoves(s: State, a: Action)
    requires DrainerMay(s, a) && a.Handle?
    ensures var pc, s' := s.drainers[a.d], Drain(s, a);
      && s'.tables == s.tables && a.d in s'.drainers
      && (if s'.drainers[a.d].Deleting?
          then pc.rows != [] && s'.drainers[a.d].rows == pc.rows && s'.sentLog == s.sentLog + [pc.rows[0].id]
          else Ahead(s'.drainers[a.d]) == Ahead(pc) && s'.sentLog == s.sentLog)
  {
  }

  lemma RowDoneRisks(s: State, a: Action, id: EventId)
    requires Sound(s) && Backed(s) && DrainerMay(s, a) && (a.Delete? || a.DeleteFails? || a.Settle?)
    requires Active(s) == s.drainers[a.d] && Active(Drain(s, a)) == Drain(s, a).drainers[a.d]
    ensures AtRisk(Drain(s, a), id) ==> AtRisk(s, id) || id in ExposedBy(s, a)
    ensures id in ExposedBy(s, a) ==> AtRisk(Drain(s, a), id)
  {
    RestHasOtherIds(s.drainers[a.d].rows);
    DrainedTables(s, a);
    if a.Delete? { DeleteRowKeeps(s.tables, s.drainers[a.d].rows[0].id); }
    hide Active;
    hide WellFormed;
    hide Ids;
    hide DeleteRow;
    hide MoveToDlq;
    hide UpdateAttempts;
  }

  lemma RestHasOtherIds(rows: seq<PendingRow>)
    requires rows != [] && Distinct(rows)
    ensures Ids(rows) == Ids(rows[1..]) + {rows[0].id} && rows[0].id !in Ids(rows[1..])
  {
    assert rows == [rows[0]] + rows[1..];
    forall r | r in rows[1..] ensures r.id != rows[0].id {
      var i :| 1 <= i < |rows| && rows[i] == r;
    }
  }

  lemma OperateRisks(s: State, a: Action, id: EventId)
    requires Sound(s) && Backed(s) && Solo(s) && OperatorMay(s, a)
    ensures AtRisk(Operate(s, a), id) ==> AtRisk(s, id) || id in ExposedBy(s, a)
    ensures id in ExposedBy(s, a) ==> AtRisk(Operate(s, a), id)
  {
    var s' := Operate(s, a);
    if a == Crash {
      assert Active(s') == Parked;
      assert Ids([]) == {};
      SentIsLogged(s);
    } else {
      assert Active(s') == Active(s);
      if a.Reinsert? {
        var d := s.replayers[a.r].letter;
        InsertOrReplaceKeeps(s.tables, PendingRow(d.id, d.topic, d.payload, a.now, 0));
      }
    }
  }

  lemma SentIsLogged(s: State)
    requires Backed(s)
    ensures forall id :: id in JustSent(Active(s)) ==> id in s.sentLog
  {
  }

  /** One action puts at risk exactly what it is said to: nothing else becomes exposed, and that does. */
  lemma RiskStep(s: State, a: Action)
    requires Sound(s) && Backed(s) && Ledger(s) && Solo(s) && Enabled(s, a) && !Overlaps(s, a)
    ensures Exposed(Apply(s, a)) <= Exposed(s) + ExposedBy(s, a)
    ensures ExposedBy(s, a) <= Exposed(Apply(s, a))
  {
    var s' := Apply(s, a);
    forall id: EventId
      ensures AtRisk(s', id) ==> AtRisk(s, id) || id in ExposedBy(s, a)
      ensures id in ExposedBy(s, a) ==> AtRisk(s', id)
    {
      hide AtRisk;
      hide Publish;
      hide Drain;
      hide Operate;
      if PublisherMay(s, a) { PublishRisks(s, a, id); }
      else if DrainerMay(s, a) { DrainRisks(s, a, id); }
      else { OperateRisks(s, a, id); }
    }
  }

  /** Where nothing is exposed, an action keeps it so if and only if it neither stops the drainer (or
      fails its delete) while the published row is still pending, nor replays a published letter. */
  lemma StaysUnexposedExactlyWhen(s: State, a: Action)
    requires Sound(s) && Backed(s) && Ledger(s) && Solo(s) && Enabled(s, a) && !Overlaps(s, a)
    requires Exposed(s) == {}
    ensures Exposed(Apply(s, a)) == {} <==> ExposedBy(s, a) == {}
  {
    RiskStep(s, a);
  }

  /** Publishing an exposed event again is a repeat and uses the exposure up. */
  lemma RepeatStep(s: State, a: Action)
    requires Sound(s) && Backed(s) && Ledger(s) && Solo(s) && Enabled(s, a) && !Overlaps(s, a)
    ensures Repeats(Apply(s, a).sentLog) + |Exposed(Apply(s, a))|
         <= Repeats(s.sentLog) + |Exposed(s)| + |ExposedBy(s, a)|
  {
    var s' := Apply(s, a);
    RiskStep(s, a);
    if a.Handle? && s'.sentLog != s.sentLog {
      HandleRepeats(s, a);
    } else {
      SameRepeats(s, a);
      hide Apply;
      hide Exposed;
      hide ExposedBy;
      SubsetSize(Exposed(s'), Exposed(s) + ExposedBy(s, a));
    }
  }

  lemma SameRepeats(s: State, a: Action)
    requires Sound(s) && Ledger(s) && Enabled(s, a) && (a.Handle? ==> Apply(s, a).sentLog == s.sentLog)
    ensures Repeats(Apply(s, a).sentLog) == Repeats(s.sentLog)
  {
    if PublisherMay(s, a) { PublishRisks(s, a, 0); }
  }

  lemma HandleSends(s: State, a: Action)
    requires DrainerMay(s, a) && a.Handle? && Drain(s, a).sentLog != s.sentLog
    ensures var pc := s.drainers[a.d];
      && pc.Handling? && pc.rows != []
      && Drain(s, a) == s.(drainers := s.drainers[a.d := Deleting(pc.guarded, pc.rows)],
                           sentLog := s.sentLog + [pc.rows[0].id])
  {
  }

  lemma HandleRepeats(s: State, a: Action)
    requires Sound(s) && Backed(s) && Ledger(s) && Solo(s) && DrainerMay(s, a) && a.Handle?
    requires Drain(s, a).sentLog != s.sentLog && Exposed(Drain(s, a)) <= Exposed(s)
    ensures Repeats(Drain(s, a).sentLog) + |Exposed(Drain(s, a))| <= Repeats(s.sentLog) + |Exposed(s)|
  {
    HandleSends(s, a);
    ActiveIs(s, a.d);
    AfterActive(s, a);
    var s', x := Drain(s, a), s.drainers[a.d].rows[0].id;
    RepeatsGrow(s.sentLog, x);
    assert x !in Exposed(s');
    if x in s.sentLog {
      RestHasOtherIds(s.drainers[a.d].rows);
      assert AtRisk(s, x) && x in Exposed(s);
      SubsetSize(Exposed(s') + {x}, Exposed(s));
    } else {
      SubsetSize(Exposed(s'), Exposed(s));
    }
  }

  // ---------------------------------------------------------------- whole runs

  lemma {:induction false} RepeatsAlongRun(s: State, acts: seq<Action>)
    requires Sound(s) && Backed(s) && Ledger(s) && Solo(s) && Runs(s, acts) && NeverOverlaps(s, acts)
    ensures Repeats(Final(s, acts).sentLog) <= Repeats(s.sentLog) + |Exposed(s)| + Exposures(s, acts)
    decreases |acts|
  {
    if acts != [] {
      SoundStep(s, acts[0]);
      BackedStep(s, acts[0]);
      LedgerStep(s, acts[0]);
      SoloStep(s, acts[0]);
      RepeatStep(s, acts[0]);
      hide Apply;
      hide Exposed;
      hide ExposedBy;
      RepeatsAlongRun(Apply(s, acts[0]), acts[1..]);
    }
  }

  lemma QuietAtFirst(s: State)
    requires Initial(s)
    ensures Sound(s) && Backed(s) && Ledger(s) && Solo(s)
    ensures Repeats(s.sentLog) == 0 && Exposed(s) == {}
  {
  }

  /** Main result: in every run in which drains do not overlap, crashes, failures and replays
      included, the broker is sent no more duplicates than there were interruptions between its yes
      and the delete of a pending row, or replays of an event already published. */
  lemma DuplicatesAreBoundedByInterruptions(s: State, acts: seq<Action>)
    requires Initial(s) && Runs(s, acts) && NeverOverlaps(s, acts)
    ensures Repeats(Final(s, acts).sentLog) <= Exposures(s, acts)
  {
    QuietAtFirst(s);
    RepeatsAlongRun(s, acts);
  }

  /** Main result: so without any of these no event reaches the broker twice. */
  lemma NoEventIsPublishedTwice(s: State, acts: seq<Action>)
    requires Initial(s) && Runs(s, acts) && NeverOverlaps(s, acts)
    ensures Exposures(s, acts) == 0 ==> NoRepeats(Final(s, acts).sentLog)
  {
    DuplicatesAreBoundedByInterruptions(s, acts);
    NoRepeatsMeansNone(Final(s, acts).sentLog);
  }

  // ---------------------------------------------------------------- duplicates are real

  function CrashAndDrain(e: Tid): seq<Action> {
    [Crash, BeginDrainNats(e), Fetch(e), Handle(e, true, "")]
  }

  /** A `drain_nats` that starts next to nobody sends the oldest row first, if the broker takes it. */
  lemma NextDrainSends(s: State, e: Tid)
    requires e in s.drainers && s.drainers[e].Parked? && !s.drainRunning
    requires s.tables.pending != [] && s.tables.pending[0].payload.Encoded?
    ensures var acts := [BeginDrainNats(e), Fetch(e)] + [Handle(e, true, "")];
      Runs(s, acts) && Final(s, acts).sentLog == s.sentLog + [s.tables.pending[0].id]
  {
    var s1 := Apply(s, BeginDrainNats(e));
    var s2 := Apply(s1, Fetch(e));
    assert s2.drainers[e].rows[0] == s.tables.pending[0];
    RunsTwo(s, BeginDrainNats(e), Fetch(e));
    RunsOne(s2, Handle(e, true, ""));
    RunsConcat(s, [BeginDrainNats(e), Fetch(e)], [Handle(e, true, "")]);
  }

  lemma AfterCrash(s: State, e: Tid)
    requires e in s.drainers
    ensures Enabled(s, Crash)
    ensures var s' := Apply(s, Crash);
      e in s'.drainers && s'.drainers[e].Parked? && !s'.drainRunning && s'.tables == s.tables && s'.sentLog == s.sentLog
  {
  }

  /** Whenever the process stops between the broker's yes and the delete of the oldest row, the first
      row of the next drain is sent again. */
  lemma CrashBeforeDeleteSendsTwice(s: State, d: Tid, e: Tid)
    requires Sound(s) && Backed(s) && d in s.drainers && e in s.drainers
    requires s.drainers[d].Deleting? && s.drainers[d].rows != []
    requires s.tables.pending != [] && s.tables.pending[0] == s.drainers[d].rows[0]
    ensures Runs(s, CrashAndDrain(e))
    ensures Final(s, CrashAndDrain(e)).sentLog == s.sentLog + [s.drainers[d].rows[0].id]
    ensures Repeats(Final(s, CrashAndDrain(e)).sentLog) == Repeats(s.sentLog) + 1
  {
    assert GoodRows(s.drainers[d]);
    AfterCrash(s, e);
    hide Enabled;
    hide Apply;
    var next := [BeginDrainNats(e), Fetch(e)] + [Handle(e, true, "")];
    NextDrainSends(Apply(s, Crash), e);
    RunsOne(s, Crash);
    RunsConcat(s, [Crash], next);
    assert [Crash] + next == CrashAndDrain(e);
    RepeatsGrow(s.sentLog, s.drainers[d].rows[0].id);
  }

  /** A reopened file that holds one pending row, and one drainer. */
  const ROW: PendingRow := PendingRow(7, "topic", Encoded(Event(7, "topic", "body")), 0, 0)
  const ONE_ROW: State := State(10, Tables([ROW], map[]), Nobody, false, map[], map[0 := Parked],
                                map[], {7}, {7}, [], {}, {}, {})

  const SEND_ONCE: seq<Action> := [BeginDrainNats(0), Fetch(0), Handle(0, true, "")]

  lemma SendsOnce()
    ensures Initial(ONE_ROW) && Runs(ONE_ROW, SEND_ONCE)
    ensures Final(ONE_ROW, SEND_ONCE) ==
      ONE_ROW.(drainers := map[0 := Deleting(true, [ROW])], drainRunning := true, sentLog := [7])
  {
    FetchOne(ONE_ROW, ROW);
    var s := Final(ONE_ROW, FETCHED);
    RunsOne(s, Handle(0, true, ""));
    assert Final(s, [Handle(0, true, "")]).drainers == map[0 := Deleting(true, [ROW])];
    RunsConcat(ONE_ROW, FETCHED, [Handle(0, true, "")]);
    assert FETCHED + [Handle(0, true, "")] == SEND_ONCE;
  }

  /** The promise of no duplicates is false of the code: this run publishes event 7 twice. */
  lemma CrashSendsAnEventTwice()
    ensures var acts := SEND_ONCE + CrashAndDrain(0);
      Initial(ONE_ROW) && Runs(ONE_ROW, acts) && Final(ONE_ROW, acts).sentLog == [7, 7]
  {
    SendsOnce();
    var s := Final(ONE_ROW, SEND_ONCE);
    SoundAndBacked(s);
    CrashBeforeDeleteSendsTwice(s, 0, 0);
    RunsConcat(ONE_ROW, SEND_ONCE, CrashAndDrain(0));
  }

  lemma SoundAndBacked(s: State)
    requires s == ONE_ROW.(drainers := map[0 := Deleting(true, [ROW])], drainRunning := true, sentLog := [7])
    ensures Sound(s) && Backed(s)
  {
  }

  lemma FetchPlain(s: State, d: Tid)
    requires d in s.drainers && s.drainers[d].Parked?
    ensures var acts := [BeginDrain(d), Fetch(d)];
      Runs(s, acts) && Final(s, acts) == s.(drainers := s.drainers[d := Handling(false, OldestBatch(s.tables))])
  {
    RunsTwo(s, BeginDrain(d), Fetch(d));
    Overwritten(s.drainers, d, Fetching(false), Handling(false, OldestBatch(s.tables)));
  }

  lemma BothSend(s: State, d: Tid, e: Tid, row: PendingRow)
    requires d in s.drainers && e in s.drainers && d != e && row.payload.Encoded?
    requires s.drainers[d].Handling? && s.drainers[d].rows != [] && s.drainers[d].rows[0] == row
    requires s.drainers[e].Handling? && s.drainers[e].rows != [] && s.drainers[e].rows[0] == row
    ensures var acts := [Handle(d, true, ""), Handle(e, true, "")];
      Runs(s, acts) && Final(s, acts).sentLog == s.sentLog + [row.id, row.id]
  {
    RunsTwo(s, Handle(d, true, ""), Handle(e, true, ""));
  }

  /** Two plain drains that overlap send the oldest row twice with nothing going wrong at all, from
      any quiet state with such a row. */
  lemma OverlappingDrainsSendTwice(s: State, d: Tid, e: Tid)
    requires d in s.drainers && e in s.drainers && d != e && s.drainers[d].Parked? && s.drainers[e].Parked?
    requires s.tables.pending != [] && s.tables.pending[0].payload.Encoded?
    ensures var id := s.tables.pending[0].id;
      var acts := [BeginDrain(d), Fetch(d)]
               + ([BeginDrain(e), Fetch(e)] + [Handle(d, true, ""), Handle(e, true, "")]);
      Runs(s, acts) && Final(s, acts).sentLog == s.sentLog + [id, id]
  {
    var first, second := [BeginDrain(d), Fetch(d)], [BeginDrain(e), Fetch(e)];
    var sends := [Handle(d, true, ""), Handle(e, true, "")];
    FetchPlain(s, d);
    var s1 := Final(s, first);
    FetchPlain(s1, e);
    var s2 := Final(s1, second);
    assert OldestBatch(s.tables)[0] == s.tables.pending[0];
    BothSend(s2, d, e, s.tables.pending[0]);
    hide Enabled;
    hide Apply;
    RunsConcat(s1, second, sends);
    RunsConcat(s, first, second + sends);
  }
}
