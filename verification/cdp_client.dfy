/** Request/response correlation of the CDP client: callers, the writer task and the reader task
    share a map of pending one-shot senders.  One action is one access to shared state; frames,
    timeouts, socket failures and shutdowns come in any order. */
module CdpClient {
  type Tid = nat
  type RequestId = nat

  datatype Outcome = Success(value: string) | Failure(message: string)

  datatype Caller =
    | Idle
    | Numbered(id: RequestId)     // fetch_add done, about to register its sender
    | Submitting(id: RequestId)   // registered, awaiting room in the writer's channel
    | Waiting(id: RequestId)      // awaiting its one-shot receiver, under the timeout
    | Reclaiming(id: RequestId, error: string)  // channel closed or timed out, about to remove its slot

  /** `left` holds the ids collected when the socket was lost; `Dropping` has one sender in hand. */
  datatype Task =
    | Running
    | Answering(id: RequestId, outcome: Outcome)
    | Failing(left: set<RequestId>, message: string)
    | Dropping(id: RequestId, left: set<RequestId>, message: string)
    | Gone

  datatype Delivery = Delivery(id: RequestId, outcome: Outcome)

  /** `delivered`, `frames` and `results` record history: outcomes put into one-shot channels,
      response frames read, and what returned calls returned. */
  datatype State = State(
    nextId: RequestId,
    pending: set<RequestId>,
    channel: seq<RequestId>,
    writer: Task,
    reader: Task,
    callers: map<Tid, Caller>,
    delivered: seq<Delivery>,
    frames: set<Delivery>,
    results: set<Delivery>)

  const CHANNEL_CAPACITY: nat := 64

  datatype Action =
    | Number(t: Tid)
    | Register(t: Tid)
    | Submit(t: Tid)
    | SubmitFails(t: Tid)
    | Receive(t: Tid, outcome: Outcome)
    | TimesOut(t: Tid)
    | SenderDropped(t: Tid)
    | Reclaim(t: Tid)
    | WriterSends
    | WriterLosesSocket(left: set<RequestId>)
    | ReaderFrame(id: RequestId, outcome: Outcome)
    | ReaderAnswers
    | ReaderLosesSocket(left: set<RequestId>)
    | TaskTakes(byWriter: bool, id: RequestId)
    | TaskDrops(byWriter: bool)
    | TaskEnds(byWriter: bool)
    | Shutdown(ofWriter: bool)

  function InHand(task: Task): set<RequestId> {
    if task.Answering? || task.Dropping? then {task.id} else {}
  }

  function DeliveredIds(log: seq<Delivery>): set<RequestId> {
    set d | d in log :: d.id
  }

  function TaskOf(s: State, writer: bool): Task {
    if writer then s.writer else s.reader
  }

  predicate Enabled(s: State, a: Action) {
    match a
    case Number(t) => t in s.callers && s.callers[t].Idle?
    case Register(t) => t in s.callers && s.callers[t].Numbered?
    case Submit(t) =>
      t in s.callers && s.callers[t].Submitting? && !s.writer.Gone? && |s.channel| < CHANNEL_CAPACITY
    case SubmitFails(t) => t in s.callers && s.callers[t].Submitting? && s.writer.Gone?
    case Receive(t, o) => t in s.callers && s.callers[t].Waiting? && Delivery(s.callers[t].id, o) in s.delivered
    case TimesOut(t) => t in s.callers && s.callers[t].Waiting?
    case SenderDropped(t) =>
      && t in s.callers && s.callers[t].Waiting?
      && s.callers[t].id !in s.pending + InHand(s.writer) + InHand(s.reader) + DeliveredIds(s.delivered)
    case Reclaim(t) => t in s.callers && s.callers[t].Reclaiming?
    case WriterSends => s.writer.Running? && s.channel != []
    case WriterLosesSocket(_) => s.writer.Running? && s.channel != []
    case ReaderFrame(_, _) => s.reader.Running?
    case ReaderAnswers => s.reader.Answering?
    case ReaderLosesSocket(_) => s.reader.Running?
    case TaskTakes(w, id) => TaskOf(s, w).Failing? && id in TaskOf(s, w).left
    case TaskDrops(w) => TaskOf(s, w).Dropping?
    case TaskEnds(w) => TaskOf(s, w).Failing? && TaskOf(s, w).left == {}
    case Shutdown(w) => TaskOf(s, w).Running?
  }

  function SetTask(s: State, writer: bool, task: Task): State {
    if writer then s.(writer := task) else s.(reader := task)
  }

  function Returned(s: State, t: Tid, outcome: Outcome): State
    requires t in s.callers && !s.callers[t].Idle?
  {
    s.(callers := s.callers[t := Idle], results := s.results + {Delivery(s.callers[t].id, outcome)})
  }

  function Apply(s: State, a: Action): State
    requires Enabled(s, a)
  {
    match a
    case Number(t) => s.(callers := s.callers[t := Numbered(s.nextId)], nextId := s.nextId + 1)
    case Register(t) =>
      var id := s.callers[t].id;
      s.(callers := s.callers[t := Submitting(id)], pending := s.pending + {id})
    case Submit(t) =>
      var id := s.callers[t].id;
      s.(callers := s.callers[t := Waiting(id)], channel := s.channel + [id])
    case SubmitFails(t) =>
      s.(callers := s.callers[t := Reclaiming(s.callers[t].id, "CDP client channel closed")])
    case Receive(t, o) => Returned(s, t, o)
    case TimesOut(t) => s.(callers := s.callers[t := Reclaiming(s.callers[t].id, "timed out")])
    case SenderDropped(t) => Returned(s, t, Failure("CDP response channel dropped"))
    case Reclaim(t) =>
      var pc := s.callers[t];
      Returned(s, t, Failure(pc.error)).(pending := s.pending - {pc.id})
    case WriterSends => s.(channel := s.channel[1..])
    case WriterLosesSocket(left) => s.(channel := s.channel[1..], writer := Failing(left, "CDP connection lost"))
    case ReaderFrame(id, o) =>
      var seen := s.(frames := s.frames + {Delivery(id, o)});
      if id in s.pending then seen.(pending := s.pending - {id}, reader := Answering(id, o)) else seen
    case ReaderAnswers =>
      s.(delivered := s.delivered + [Delivery(s.reader.id, s.reader.outcome)], reader := Running)
    case ReaderLosesSocket(left) => s.(reader := Failing(left, "CDP socket closed"))
    case TaskTakes(w, id) =>
      var task := TaskOf(s, w);
      if id in s.pending
      then SetTask(s, w, Dropping(id, task.left - {id}, task.message)).(pending := s.pending - {id})
      else SetTask(s, w, Failing(task.left - {id}, task.message))
    case TaskDrops(w) =>
      var task := TaskOf(s, w);
      SetTask(s, w, Failing(task.left, task.message)).
        (delivered := s.delivered + [Delivery(task.id, Failure(task.message))])
    case TaskEnds(w) => SetTask(s, w, Gone)
    case Shutdown(w) => SetTask(s, w, Gone)
  }

  ghost predicate Runs(s: State, acts: seq<Action>)
    decreases |acts|
  {
    acts == [] || (Enabled(s, acts[0]) && Runs(Apply(s, acts[0]), acts[1..]))
  }

  function Final(s: State, acts: seq<Action>): State
    requires Runs(s, acts)
    decreases |acts|
  {
    if acts == [] then s else Final(Apply(s, acts[0]), acts[1..])
  }

  ghost predicate Initial(s: State) {
    && s.nextId == 1 && s.pending == {} && s.channel == []
    && s.writer == Running && s.reader == Running
    && (forall t :: t in s.callers ==> s.callers[t].Idle?)
    && s.delivered == [] && s.frames == {} && s.results == {}
  }

  // ---------------------------------------------------------------- the invariant

  /** A sender is in exactly one place: the map, one task's hand, or spent. */
  ghost predicate OnePlace(s: State) {
    && s.pending !! InHand(s.writer) !! InHand(s.reader) !! DeliveredIds(s.delivered)
    && forall i, j :: 0 <= i < j < |s.delivered| ==> s.delivered[i].id != s.delivered[j].id
  }

  /** Only the reader answers, with a frame it has read; every other outcome is a failure. */
  ghost predicate FramesBack(s: State) {
    && (s.reader.Answering? ==> Delivery(s.reader.id, s.reader.outcome) in s.frames)
    && !s.writer.Answering?
    && (forall d :: d in s.delivered && d.outcome.Success? ==> d in s.frames)
    && (forall d :: d in s.results && d.outcome.Success? ==> d in s.frames)
  }

  /** Where a caller's sender can be. */
  predicate Placed(s: State, id: RequestId) {
    id in s.pending || id in InHand(s.writer) || id in InHand(s.reader) || id in DeliveredIds(s.delivered)
  }

  predicate Calling(s: State, t: Tid, id: RequestId) {
    t in s.callers && !s.callers[t].Idle? && s.callers[t].id == id
  }

  /** Ids are used once: a call under way owns its id, a finished one has given up its slot. */
  ghost predicate IdsAreOwned(s: State) {
    && (forall id: RequestId :: Placed(s, id) ==> id < s.nextId)
    && (forall d :: d in s.results ==> d.id < s.nextId && d.id !in s.pending)
    && (forall t: Tid, id: RequestId :: Calling(s, t, id) ==> id < s.nextId)
    && (forall t, u, id :: Calling(s, t, id) && Calling(s, u, id) ==> t == u)
    && (forall t, d :: d in s.results ==> !Calling(s, t, d.id))
    && (forall t :: t in s.callers && s.callers[t].Numbered? ==> !Placed(s, s.callers[t].id))
    && (forall t :: t in s.callers && (s.callers[t].Submitting? || s.callers[t].Waiting?) ==> Placed(s, s.callers[t].id))
  }

  lemma DeliveredGrows(log: seq<Delivery>, d: Delivery)
    ensures DeliveredIds(log + [d]) == DeliveredIds(log) + {d.id}
  {
    assert forall x :: x in log + [d] <==> x in log || x == d;
    assert d in log + [d];
    forall x | x in log ensures x.id in DeliveredIds(log + [d]) { assert x in log + [d]; }
  }

  lemma OnePlaceStep(s: State, a: Action)
    requires OnePlace(s) && IdsAreOwned(s) && Enabled(s, a)
    ensures OnePlace(Apply(s, a))
  {
    match a
    case Register(t) => assert !Placed(s, s.callers[t].id);
    case ReaderAnswers => AppendIsNew(s.delivered, Delivery(s.reader.id, s.reader.outcome));
    case TaskDrops(w) => AppendIsNew(s.delivered, Delivery(TaskOf(s, w).id, Failure(TaskOf(s, w).message)));
    case _ =>
  }

  lemma AppendIsNew(log: seq<Delivery>, d: Delivery)
    requires d.id !in DeliveredIds(log)
    requires forall i, j :: 0 <= i < j < |log| ==> log[i].id != log[j].id
    ensures forall i, j :: 0 <= i < j < |log + [d]| ==> (log + [d])[i].id != (log + [d])[j].id
    ensures DeliveredIds(log + [d]) == DeliveredIds(log) + {d.id}
  {
    DeliveredGrows(log, d);
    forall i | 0 <= i < |log| ensures log[i].id != d.id { assert log[i] in log; }
  }

  lemma FramesBackStep(s: State, a: Action)
    requires FramesBack(s) && Enabled(s, a)
    ensures FramesBack(Apply(s, a))
  {
  }

  /** No action but its owner's registration places an id, and none loses one but its owner's reclaim. */
  lemma PlacesMove(s: State, a: Action, id: RequestId)
    requires Enabled(s, a)
    ensures Placed(Apply(s, a), id) ==> Placed(s, id) || (a.Register? && s.callers[a.t].id == id)
    ensures Placed(s, id) ==> Placed(Apply(s, a), id) || (a.Reclaim? && s.callers[a.t].id == id)
    ensures id in Apply(s, a).pending ==> id in s.pending || (a.Register? && s.callers[a.t].id == id)
  {
    match a
    case ReaderAnswers => DeliveredGrows(s.delivered, Delivery(s.reader.id, s.reader.outcome));
    case TaskDrops(w) => DeliveredGrows(s.delivered, Delivery(TaskOf(s, w).id, Failure(TaskOf(s, w).message)));
    case _ =>
  }

  lemma CallsMove(s: State, a: Action, t: Tid, id: RequestId)
    requires Enabled(s, a) && Calling(Apply(s, a), t, id)
    ensures Calling(s, t, id) || (a == Number(t) && id == s.nextId)
  {
  }

  lemma ResultsMove(s: State, a: Action, d: Delivery)
    requires Enabled(s, a) && d in Apply(s, a).results && d !in s.results
    ensures (a.Receive? || a.SenderDropped? || a.Reclaim?) && Calling(s, a.t, d.id) && Apply(s, a).callers[a.t].Idle?
    ensures a.Receive? ==> Delivery(d.id, a.outcome) in s.delivered
    ensures a.Reclaim? ==> d.id !in Apply(s, a).pending
    ensures a.SenderDropped? ==> d.id !in s.pending
  {
  }

  lemma NewResultsAreOwned(s: State, a: Action, d: Delivery)
    requires OnePlace(s) && IdsAreOwned(s) && Enabled(s, a) && d in Apply(s, a).results
    ensures d.id < Apply(s, a).nextId && d.id !in Apply(s, a).pending
    ensures forall t :: !Calling(Apply(s, a), t, d.id)
  {
    var s' := Apply(s, a);
    PlacesMove(s, a, d.id);
    if d in s.results {
      if a.Register? { assert Calling(s, a.t, s.callers[a.t].id); }
    } else {
      ResultsMove(s, a, d);
    }
    forall t ensures !Calling(s', t, d.id) {
      if Calling(s', t, d.id) { CallsMove(s, a, t, d.id); }
    }
  }

  lemma CallersArePlaced(s: State, a: Action, t: Tid)
    requires IdsAreOwned(s) && Enabled(s, a) && t in Apply(s, a).callers
    ensures var s' := Apply(s, a);
      && (s'.callers[t].Numbered? ==> !Placed(s', s'.callers[t].id))
      && (s'.callers[t].Submitting? || s'.callers[t].Waiting? ==> Placed(s', s'.callers[t].id))
  {
    var s' := Apply(s, a);
    if !s'.callers[t].Idle? {
      var id := s'.callers[t].id;
      PlacesMove(s, a, id);
      CallsMove(s, a, t, id) by { assert Calling(s', t, id); }
      if (a.Register? || a.Reclaim?) && s.callers[a.t].id == id {
        assert Calling(s, a.t, id);
      }
    }
  }

  lemma IdsAreOwnedStep(s: State, a: Action)
    requires OnePlace(s) && IdsAreOwned(s) && Enabled(s, a)
    ensures IdsAreOwned(Apply(s, a))
  {
    var s' := Apply(s, a);
    forall id: RequestId | Placed(s', id) ensures id < s'.nextId {
      PlacesMove(s, a, id);
      if a.Register? { assert Calling(s, a.t, s.callers[a.t].id); }
    }
    forall d | d in s'.results ensures d.id < s'.nextId && d.id !in s'.pending && forall t :: !Calling(s', t, d.id) {
      NewResultsAreOwned(s, a, d);
    }
    forall t, id | Calling(s', t, id) ensures Calling(s, t, id) || (a == Number(t) && id == s.nextId) {
      CallsMove(s, a, t, id);
    }
    forall t | t in s'.callers
      ensures s'.callers[t].Numbered? ==> !Placed(s', s'.callers[t].id)
      ensures s'.callers[t].Submitting? || s'.callers[t].Waiting? ==> Placed(s', s'.callers[t].id)
    {
      CallersArePlaced(s, a, t);
    }
  }

  ghost predicate Safe(s: State) {
    OnePlace(s) && FramesBack(s) && IdsAreOwned(s)
  }

  lemma {:induction false} SafeAlongRun(s: State, acts: seq<Action>)
    requires Safe(s) && Runs(s, acts)
    ensures Safe(Final(s, acts))
    decreases |acts|
  {
    if acts != [] {
      OnePlaceStep(s, acts[0]);
      FramesBackStep(s, acts[0]);
      IdsAreOwnedStep(s, acts[0]);
      SafeAlongRun(Apply(s, acts[0]), acts[1..]);
    }
  }

  // ---------------------------------------------------------------- the guarantees

  /** Main result: over every interleaving, a request is completed at most once; a call's success
      value is that of a response frame with the call's own id; a returned call's id is not pending. */
  lemma ResponsesAreCorrelated(s: State, acts: seq<Action>)
    requires Initial(s) && Runs(s, acts)
    ensures var s' := Final(s, acts);
      && (forall i, j :: 0 <= i < j < |s'.delivered| ==> s'.delivered[i].id != s'.delivered[j].id)
      && (forall d :: d in s'.results && d.outcome.Success? ==> d in s'.frames)
      && (forall d :: d in s'.results ==> d.id !in s'.pending)
  {
    SafeAlongRun(s, acts);
  }

  /** Main result: no two calls under way share an id, and a waiting call's sender is always
      somewhere, so the "response channel dropped" branch is never taken. */
  lemma SendersAreNeverDropped(s: State, acts: seq<Action>, t: Tid, u: Tid, id: RequestId)
    requires Initial(s) && Runs(s, acts)
    ensures !Enabled(Final(s, acts), SenderDropped(t))
    ensures Calling(Final(s, acts), t, id) && Calling(Final(s, acts), u, id) ==> t == u
  {
    SafeAlongRun(s, acts);
  }

  // ---------------------------------------------------------------- what a call returns

  const TIMED_OUT: Outcome := Failure("timed out")
  const CHANNEL_CLOSED: Outcome := Failure("CDP client channel closed")

  /** One answer per id; each is what was delivered, or says that the caller gave up. */
  ghost predicate Truthful(s: State) {
    && (forall d :: d in s.results ==> d in s.delivered || d.outcome in {TIMED_OUT, CHANNEL_CLOSED})
    && (forall d, e :: d in s.results && e in s.results && d.id == e.id ==> d == e)
    && (forall t :: t in s.callers && s.callers[t].Reclaiming? ==>
          Failure(s.callers[t].error) in {TIMED_OUT, CHANNEL_CLOSED})
  }

  /** How each action ends a call, if it does: `Receive` with the very outcome it received, `Reclaim` with
      the failure the caller ran into, nobody else. */
  lemma HowCallsEnd(s: State, a: Action)
    requires Enabled(s, a) && !a.SenderDropped?
    ensures var s' := Apply(s, a);
      && (a.Receive? ==>
            && s'.results == s.results + {Delivery(s.callers[a.t].id, a.outcome)}
            && s'.callers == s.callers[a.t := Idle])
      && (a.Reclaim? ==>
            && s'.results == s.results + {Delivery(s.callers[a.t].id, Failure(s.callers[a.t].error))}
            && s'.callers == s.callers[a.t := Idle] && s'.pending == s.pending - {s.callers[a.t].id})
      && (!a.Receive? && !a.Reclaim? ==> s'.results == s.results)
      && (a.TimesOut? ==> s'.callers == s.callers[a.t := Reclaiming(s.callers[a.t].id, "timed out")])
      && (a.SubmitFails? ==> s'.callers == s.callers[a.t := Reclaiming(s.callers[a.t].id, "CDP client channel closed")])
  {
  }

  lemma TruthfulStep(s: State, a: Action)
    requires Safe(s) && Truthful(s) && Enabled(s, a)
    ensures Truthful(Apply(s, a))
  {
    var s' := Apply(s, a);
    assert !a.SenderDropped?;
    HowCallsEnd(s, a);
    assert forall d :: d in s.delivered ==> d in s'.delivered;
    if a.Receive? || a.Reclaim? {
      assert Calling(s, a.t, s.callers[a.t].id);
    }
  }

  lemma {:induction false} TruthfulAlongRun(s: State, acts: seq<Action>)
    requires Safe(s) && Truthful(s) && Runs(s, acts)
    ensures Truthful(Final(s, acts))
    decreases |acts|
  {
    if acts != [] {
      OnePlaceStep(s, acts[0]);
      FramesBackStep(s, acts[0]);
      IdsAreOwnedStep(s, acts[0]);
      TruthfulStep(s, acts[0]);
      TruthfulAlongRun(Apply(s, acts[0]), acts[1..]);
    }
  }

  /** Main result: over every interleaving each call has one answer; it is what was delivered to its own
      id, unless the call timed out or found the channel closed, and then it says that. */
  lemma CallsReturnWhatWasDelivered(s: State, acts: seq<Action>, a: Action)
    requires Initial(s) && Runs(s, acts) && Enabled(Final(s, acts), a)
    ensures var s1 := Final(s, acts);
      var s' := Apply(s1, a);
      && Truthful(s1)
      && (a.Receive? ==>
            var answer := Delivery(s1.callers[a.t].id, a.outcome);
            answer in s1.delivered && s'.results == s1.results + {answer})
      && (a.Reclaim? ==>
            exists o :: o in {TIMED_OUT, CHANNEL_CLOSED} && s'.results == s1.results + {Delivery(s1.callers[a.t].id, o)})
      && (!a.Receive? && !a.Reclaim? ==> s'.results == s1.results)
  {
    SafeAlongRun(s, acts);
    TruthfulAlongRun(s, acts);
    SendersAreNeverDropped(s, acts, 0, 0, 0);
    if a.SenderDropped? { SendersAreNeverDropped(s, acts, a.t, a.t, 0); }
    HowCallsEnd(Final(s, acts), a);
    if a.Reclaim? {
      assert Failure(Final(s, acts).callers[a.t].error) in {TIMED_OUT, CHANNEL_CLOSED};
    }
  }

  lemma {:induction false} RunsFrom(s: State, a: Action, acts: seq<Action>)
    requires Enabled(s, a) && Runs(Apply(s, a), acts)
    ensures Runs(s, [a] + acts) && Final(s, [a] + acts) == Final(Apply(s, a), acts)
  {
    assert ([a] + acts)[1..] == acts;
  }

  function Ask(t: Tid): seq<Action> { [Number(t)] + ([Register(t)] + [Submit(t)]) }

  function Answer(t: Tid, id: RequestId, o: Outcome): seq<Action> {
    [ReaderFrame(id, o)] + ([ReaderAnswers] + [Receive(t, o)])
  }

  lemma AskRuns(s: State, t: Tid)
    requires t in s.callers && s.callers[t].Idle? && !s.writer.Gone? && |s.channel| < 64
    ensures Runs(s, Ask(t))
    ensures Final(s, Ask(t)) ==
      s.(callers := s.callers[t := Waiting(s.nextId)], nextId := s.nextId + 1, pending := s.pending + {s.nextId},
         channel := s.channel + [s.nextId])
  {
    var s1 := Apply(s, Number(t));
    var s2 := Apply(s1, Register(t));
    RunsFrom(s2, Submit(t), []);
    assert [Submit(t)] + [] == [Submit(t)];
    RunsFrom(s1, Register(t), [Submit(t)]);
    RunsFrom(s, Number(t), [Register(t)] + [Submit(t)]);
    assert s2.callers[t := Waiting(s.nextId)] == s.callers[t := Waiting(s.nextId)];
  }

  lemma AnswerRuns(s: State, t: Tid, id: RequestId, o: Outcome)
    requires t in s.callers && s.callers[t] == Waiting(id) && id in s.pending && s.reader == Running
    ensures Runs(s, Answer(t, id, o))
    ensures Final(s, Answer(t, id, o)) ==
      s.(callers := s.callers[t := Idle], pending := s.pending - {id}, delivered := s.delivered + [Delivery(id, o)],
         frames := s.frames + {Delivery(id, o)}, results := s.results + {Delivery(id, o)})
  {
    var s1 := Apply(s, ReaderFrame(id, o));
    var s2 := Apply(s1, ReaderAnswers);
    assert Delivery(id, o) in s2.delivered;
    RunsFrom(s2, Receive(t, o), []);
    assert [Receive(t, o)] + [] == [Receive(t, o)];
    RunsFrom(s1, ReaderAnswers, [Receive(t, o)]);
    RunsFrom(s, ReaderFrame(id, o), [ReaderAnswers] + [Receive(t, o)]);
  }

  lemma {:induction false} RunsConcat(s: State, xs: seq<Action>, ys: seq<Action>)
    requires Runs(s, xs) && Runs(Final(s, xs), ys)
    ensures Runs(s, xs + ys) && Final(s, xs + ys) == Final(Final(s, xs), ys)
    decreases |xs|
  {
    hide Enabled;
    hide Apply;
    if xs == [] {
      assert xs + ys == ys;
    } else {
      RunsConcat(Apply(s, xs[0]), xs[1..], ys);
      assert (xs + ys)[1..] == xs[1..] + ys;
    }
  }

  /** In any state with room in the channel and both tasks up, a call that is asked, written and
      answered returns its answer, success or failure, and leaves nothing pending. */
  lemma AnsweredCallsReturnTheirAnswer(s: State, t: Tid, o: Outcome)
    requires t in s.callers && s.callers[t].Idle? && s.writer == Running && s.reader == Running
    requires s.channel == [] && s.nextId !in s.pending
    ensures var acts := Ask(t) + ([WriterSends] + Answer(t, s.nextId, o));
      && Runs(s, acts)
      && Final(s, acts).results == s.results + {Delivery(s.nextId, o)}
      && Final(s, acts).pending == s.pending && Final(s, acts).channel == []
  {
    var id := s.nextId;
    AskRuns(s, t);
    var s1 := Final(s, Ask(t));
    var s2 := Apply(s1, WriterSends);
    AnswerRuns(s2, t, id, o);
    RunsFrom(s1, WriterSends, Answer(t, id, o));
    RunsConcat(s, Ask(t), [WriterSends] + Answer(t, id, o));
    assert (s.pending + {id}) - {id} == s.pending;
  }

  /** The first call of a fresh client: answered "v", it returns "v". */
  lemma FirstCallSucceeds(s: State)
    requires Initial(s) && 0 in s.callers
    ensures var acts := Ask(0) + ([WriterSends] + Answer(0, 1, Success("v")));
      Runs(s, acts) && Final(s, acts).results == {Delivery(1, Success("v"))}
  {
    AnsweredCallsReturnTheirAnswer(s, 0, Success("v"));
  }

  /** A task that has lost its socket takes a pending sender and drops it with its own message. */
  lemma LostSocketFailsThePending(s: State, byWriter: bool, id: RequestId)
    requires id in s.pending && TaskOf(s, byWriter) == Running && (byWriter ==> s.channel != [])
    ensures var lost := if byWriter then WriterLosesSocket({id}) else ReaderLosesSocket({id});
      var acts := [lost] + ([TaskTakes(byWriter, id)] + [TaskDrops(byWriter)]);
      var message := if byWriter then "CDP connection lost" else "CDP socket closed";
      && Runs(s, acts)
      && Final(s, acts).delivered == s.delivered + [Delivery(id, Failure(message))]
      && Final(s, acts).pending == s.pending - {id}
  {
    var lost := if byWriter then WriterLosesSocket({id}) else ReaderLosesSocket({id});
    var s1 := Apply(s, lost);
    var s2 := Apply(s1, TaskTakes(byWriter, id));
    RunsFrom(s2, TaskDrops(byWriter), []);
    assert [TaskDrops(byWriter)] + [] == [TaskDrops(byWriter)];
    RunsFrom(s1, TaskTakes(byWriter, id), [TaskDrops(byWriter)]);
    RunsFrom(s, lost, [TaskTakes(byWriter, id)] + [TaskDrops(byWriter)]);
  }

  lemma ChannelStep(s: State, a: Action)
    requires Enabled(s, a) && |s.channel| <= 64
    ensures |Apply(s, a).channel| <= 64
  {
  }

  /** The writer's channel never holds more than 64 requests, and a caller can submit exactly while it
      holds fewer and the writer has not gone. */
  lemma {:induction false} WriterChannelIsBounded(s: State, acts: seq<Action>, t: Tid)
    requires |s.channel| <= 64 && Runs(s, acts)
    ensures var s' := Final(s, acts);
      && |s'.channel| <= 64
      && (t in s'.callers && s'.callers[t].Submitting? ==>
            (Enabled(s', Submit(t)) <==> s'.writer != Gone && |s'.channel| < 64))
    decreases |acts|
  {
    if acts != [] {
      ChannelStep(s, acts[0]);
      WriterChannelIsBounded(Apply(s, acts[0]), acts[1..], t);
    }
  }
}
