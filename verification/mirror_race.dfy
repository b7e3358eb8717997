/** The mirror under concurrency.  Every registry operation changes memory, reads the goal's handle
    back and awaits the store's upsert; `admit` hands over the handle it built, after it has dropped
    its lock.  Nothing orders the upserts of two writers, so one in flight can overwrite a newer row. */
module MirrorRace {
  import opened AgentTypes

  type Tid = nat

  /** The mirrored fields of a goal; the stamp tells one write of memory from another. */
  datatype Row = Row(status: AgentRunStatus, stamp: nat)

  datatype Writer =
    | Idle
    | Changed(goal: GoalId)             // memory changed, about to read the handle
    | Carrying(goal: GoalId, row: Row)  // handle read, upsert awaited

  datatype State = State(
    memory: map<GoalId, Row>,
    rows: map<GoalId, Row>,
    writers: map<Tid, Writer>,
    clock: nat)

  datatype Action =
    | Admit(t: Tid, goal: GoalId, status: AgentRunStatus)
    | Change(t: Tid, goal: GoalId, status: AgentRunStatus)
    | Read(t: Tid)
    | Upsert(t: Tid)

  predicate Enabled(s: State, a: Action) {
    && a.t in s.writers
    && match a
       case Admit(t, _, _) => s.writers[t].Idle?
       case Change(t, g, _) => s.writers[t].Idle? && g in s.memory
       case Read(t) => s.writers[t].Changed? && s.writers[t].goal in s.memory
       case Upsert(t) => s.writers[t].Carrying?
  }

  function Apply(s: State, a: Action): State
    requires Enabled(s, a)
  {
    match a
    case Admit(t, g, st) =>
      var row := Row(st, s.clock);
      s.(memory := s.memory[g := row], writers := s.writers[t := Carrying(g, row)], clock := s.clock + 1)
    case Change(t, g, st) =>
      s.(memory := s.memory[g := Row(st, s.clock)], writers := s.writers[t := Changed(g)], clock := s.clock + 1)
    case Read(t) =>
      var g := s.writers[t].goal;
      s.(writers := s.writers[t := Carrying(g, s.memory[g])])
    case Upsert(t) =>
      s.(rows := s.rows[s.writers[t].goal := s.writers[t].row], writers := s.writers[t := Idle])
  }

  ghost predicate Runs(s: State, acts: seq<Action>)
    decreases |acts|
  {
    acts == [] || (Enabled(s, acts[0]) && Runs(Apply(s, acts[0]), acts[1..]))
  }

  function Final(s: State, acts: seq<Action>): State
    requires Runs(s, acts)
    decreases |acts|
  {
    if acts == [] then s else Final(Apply(s, acts[0]), acts[1..])
  }

  /** Nobody is writing and the store holds what memory holds. */
  ghost predicate Initial(s: State) {
    && s.memory == s.rows && Stamped(s)
    && forall t :: t in s.writers ==> s.writers[t].Idle?
  }

  /** Every stamp was handed out before. */
  ghost predicate Stamped(s: State) {
    && (forall g :: g in s.memory ==> s.memory[g].stamp < s.clock)
    && (forall g :: g in s.rows ==> s.rows[g].stamp < s.clock)
    && (forall t :: t in s.writers && s.writers[t].Carrying? ==> s.writers[t].row.stamp < s.clock)
  }

  /** The mirror holds for this goal. */
  predicate Mirrored(s: State, goal: GoalId) {
    goal in s.memory && goal in s.rows && s.rows[goal] == s.memory[goal]
  }

  predicate Writes(pc: Writer, goal: GoalId) {
    !pc.Idle? && pc.goal == goal
  }

  ghost predicate Quiet(s: State, goal: GoalId) {
    forall t :: t in s.writers ==> !Writes(s.writers[t], goal)
  }

  // ---------------------------------------------------------------- exactly when it holds

  /** Read off the actions alone: has the latest upsert of the goal been one whose handle was read
      after the latest change (`upToDate`), and which writers carry such a handle. */
  datatype Watch = Watch(upToDate: bool, carriers: set<Tid>)

  function Watching(s: State, a: Action, goal: GoalId, w: Watch): Watch
    requires Enabled(s, a)
  {
    match a
    case Admit(t, g, _) => if g == goal then Watch(false, {t}) else w
    case Change(_, g, _) => if g == goal then Watch(false, {}) else w
    case Read(t) => if s.writers[t].goal == goal then w.(carriers := w.carriers + {t}) else w
    case Upsert(t) => if s.writers[t].goal == goal then Watch(t in w.carriers, w.carriers - {t}) else w
  }

  function Watched(s: State, acts: seq<Action>, goal: GoalId, w: Watch): Watch
    requires Runs(s, acts)
    decreases |acts|
  {
    if acts == [] then w else Watched(Apply(s, acts[0]), acts[1..], goal, Watching(s, acts[0], goal, w))
  }

  ghost predicate Tells(s: State, goal: GoalId, w: Watch) {
    && (w.upToDate <==> Mirrored(s, goal))
    && (forall t :: t in w.carriers <==>
          t in s.writers && goal in s.memory && s.writers[t] == Carrying(goal, s.memory[goal]))
  }

  lemma TellsStep(s: State, a: Action, goal: GoalId, w: Watch)
    requires Stamped(s) && Tells(s, goal, w) && Enabled(s, a)
    ensures Stamped(Apply(s, a)) && Tells(Apply(s, a), goal, Watching(s, a, goal, w))
  {
  }

  lemma {:induction false} TellsAlongRun(s: State, acts: seq<Action>, goal: GoalId, w: Watch)
    requires Stamped(s) && Tells(s, goal, w) && Runs(s, acts)
    ensures Tells(Final(s, acts), goal, Watched(s, acts, goal, w))
    decreases |acts|
  {
    if acts != [] {
      TellsStep(s, acts[0], goal, w);
      TellsAlongRun(Apply(s, acts[0]), acts[1..], goal, Watching(s, acts[0], goal, w));
    }
  }

  /** Main result: after any interleaving the goal's row equals memory exactly when the latest upsert
      to land carries a handle that was read after the latest change. */
  lemma MirrorHoldsExactlyWhenTheLastUpsertIsFresh(s: State, acts: seq<Action>, goal: GoalId)
    requires Initial(s) && Runs(s, acts)
    ensures Mirrored(Final(s, acts), goal) <==> Watched(s, acts, goal, Watch(goal in s.memory, {})).upToDate
  {
    TellsAlongRun(s, acts, goal, Watch(goal in s.memory, {}));
  }

  // ---------------------------------------------------------------- one writer at a time

  /** Operations on this goal never overlap. */
  ghost predicate Serial(s: State, acts: seq<Action>, goal: GoalId)
    requires Runs(s, acts)
    decreases |acts|
  {
    acts == [] ||
    (((acts[0].Admit? || acts[0].Change?) && acts[0].goal == goal ==> Quiet(s, goal))
     && Serial(Apply(s, acts[0]), acts[1..], goal))
  }

  ghost predicate OneWriter(s: State, goal: GoalId) {
    && (forall t, u :: t in s.writers && u in s.writers && Writes(s.writers[t], goal) && Writes(s.writers[u], goal) ==>
          t == u)
    && (forall t :: t in s.writers && s.writers[t].Carrying? && s.writers[t].goal == goal ==>
          goal in s.memory && s.writers[t].row == s.memory[goal])
    && (Quiet(s, goal) && goal in s.memory ==> Mirrored(s, goal))
  }

  lemma OneWriterStep(s: State, a: Action, goal: GoalId)
    requires OneWriter(s, goal) && Enabled(s, a)
    requires (a.Admit? || a.Change?) && a.goal == goal ==> Quiet(s, goal)
    ensures OneWriter(Apply(s, a), goal)
  {
    var s' := Apply(s, a);
    assert !a.Upsert? ==> a.t in s'.writers && !s'.writers[a.t].Idle?;
    if !Writes(s.writers[a.t], goal) && !Writes(s'.writers[a.t], goal) {
      forall t | t in s.writers ensures Writes(s'.writers[t], goal) <==> Writes(s.writers[t], goal) {}
      assert Quiet(s', goal) ==> Quiet(s, goal);
    }
  }

  lemma {:induction false} OneWriterAlongRun(s: State, acts: seq<Action>, goal: GoalId)
    requires OneWriter(s, goal) && Runs(s, acts) && Serial(s, acts, goal)
    ensures OneWriter(Final(s, acts), goal)
    decreases |acts|
  {
    if acts != [] {
      OneWriterStep(s, acts[0], goal);
      OneWriterAlongRun(Apply(s, acts[0]), acts[1..], goal);
    }
  }

  /** When operations on a goal do not overlap, its row equals memory whenever none is under way. */
  lemma SerialOperationsKeepTheMirror(s: State, acts: seq<Action>, goal: GoalId)
    requires Initial(s) && Runs(s, acts) && Serial(s, acts, goal)
    requires Quiet(Final(s, acts), goal) && goal in Final(s, acts).memory
    ensures Mirrored(Final(s, acts), goal)
  {
    OneWriterAlongRun(s, acts, goal);
  }

  // ---------------------------------------------------------------- the race is real

  const EMPTY: State := State(map[], map[], map[0 := Idle, 1 := Idle], 0)

  /** `admit` queues goal 7 and is about to store it; a flush cancels the goal and stores that; then
      the first upsert lands. */
  const LATE_UPSERT: seq<Action> :=
    [Admit(0, 7, AgentRunStatus.Queued), Change(1, 7, Cancelled), Read(1), Upsert(1), Upsert(0)]

  lemma {:induction false} RunsFrom(s: State, a: Action, acts: seq<Action>)
    requires Enabled(s, a) && Runs(Apply(s, a), acts)
    ensures Runs(s, [a] + acts) && Final(s, [a] + acts) == Final(Apply(s, a), acts)
  {
    assert ([a] + acts)[1..] == acts;
  }

  /** Everybody has finished, memory says Cancelled, and the store says Queued for good. */
  lemma LateUpsertLeavesAStaleRow()
    ensures Initial(EMPTY) && Runs(EMPTY, LATE_UPSERT)
    ensures var s := Final(EMPTY, LATE_UPSERT);
      && Quiet(s, 7) && !Mirrored(s, 7)
      && s.memory[7].status == Cancelled && s.rows[7].status == AgentRunStatus.Queued
  {
    var s1 := Apply(EMPTY, LATE_UPSERT[0]);
    var s2 := Apply(s1, LATE_UPSERT[1]);
    var s3 := Apply(s2, LATE_UPSERT[2]);
    var s4 := Apply(s3, LATE_UPSERT[3]);
    var s5 := Apply(s4, LATE_UPSERT[4]);
    RunsFrom(s4, Upsert(0), []);
    RunsFrom(s3, Upsert(1), [Upsert(0)] + []);
    RunsFrom(s2, Read(1), [Upsert(1)] + ([Upsert(0)] + []));
    RunsFrom(s1, Change(1, 7, Cancelled), [Read(1)] + ([Upsert(1)] + ([Upsert(0)] + [])));
    RunsFrom(EMPTY, LATE_UPSERT[0], [Change(1, 7, Cancelled)] + ([Read(1)] + ([Upsert(1)] + ([Upsert(0)] + []))));
    assert [LATE_UPSERT[0]] + ([Change(1, 7, Cancelled)] + ([Read(1)] + ([Upsert(1)] + ([Upsert(0)] + []))))
        == LATE_UPSERT;
  }
}
