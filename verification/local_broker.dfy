/**
 * The in-process broker: one bounded channel per subscriber, a `publish`
 * that never waits for a slow one, and a counter of the events it shed.
 */
module LocalBrokerModel {
  import opened DiskTables
  import opened Topic
  import opened Channels

  type SubId = nat

  type Subs = map<SubId, Channel>

  function WithOutcome(subs: Subs, topic: string, outcome: SendResult): set<SubId> {
    set id | id in subs && Outcome(subs[id], topic) == outcome
  }

  /** The subscriptions after one publish: everyone is offered the event, then the closed ones it met go. */
  function Published(subs: Subs, topic: string, event: Event): Subs {
    map id | id in subs && Outcome(subs[id], topic) != Closed :: Offered(subs[id], topic, event)
  }

  lemma OneMoreDone(full: set<SubId>, left: set<SubId>, id: SubId)
    requires id in left
    ensures |full - (left - {id})| == |full - left| + if id in full then 1 else 0
  {
    var done := full - left;
    assert full - (left - {id}) == if id in full then done + {id} else done;
  }

  /** The walk so far: everyone but `left` has been offered the event. */
  ghost predicate OfferedTo(before: Subs, subs: Subs, left: set<SubId>, topic: string, event: Event) {
    && subs.Keys == before.Keys
    && forall id :: id in before ==> subs[id] == if id in left then before[id] else Offered(before[id], topic, event)
  }

  ghost predicate MetClosed(before: Subs, dead: seq<SubId>, left: set<SubId>, topic: string) {
    forall id :: id in dead <==> id in before && id !in left && Outcome(before[id], topic) == Closed
  }

  lemma OfferStart(subs: Subs, topic: string, event: Event)
    ensures OfferedTo(subs, subs, subs.Keys, topic, event) && MetClosed(subs, [], subs.Keys, topic)
  {
  }

  lemma OneMoreOffered(before: Subs, subs: Subs, left: set<SubId>, topic: string, event: Event, id: SubId)
    requires OfferedTo(before, subs, left, topic, event) && id in left && id in before
    ensures subs[id] == before[id]
    ensures OfferedTo(before, subs[id := Offered(before[id], topic, event)], left - {id}, topic, event)
  {
    hide Offered;
  }

  lemma OneMoreMet(before: Subs, dead: seq<SubId>, left: set<SubId>, topic: string, id: SubId)
    requires MetClosed(before, dead, left, topic) && id in left && id in before
    ensures Outcome(before[id], topic) == Closed ==> MetClosed(before, dead + [id], left - {id}, topic)
    ensures Outcome(before[id], topic) != Closed ==> MetClosed(before, dead, left - {id}, topic)
  {
    hide Outcome;
  }

  /** Who stays after a publish, with what in the buffer, and who costs an event. */
  lemma PublishedMeans(subs: Subs, topic: string, event: Event)
    ensures var after := Published(subs, topic, event);
      && (forall id :: id in after <==> id in subs && (subs[id].open || !TopicMatches(subs[id].pattern, topic)))
      && (forall id :: id in after ==>
            after[id] == if TopicMatches(subs[id].pattern, topic) && |subs[id].buffer| < 256
                         then Channel(subs[id].pattern, subs[id].buffer + [event], subs[id].open) else subs[id])
    ensures WithOutcome(subs, topic, Full) ==
      set id | id in subs && TopicMatches(subs[id].pattern, topic) && subs[id].open && |subs[id].buffer| >= 256
  {
    hide TopicMatches;
  }

  class LocalBroker {
    var subs: Subs
    var droppedSlow: nat

    constructor ()
      ensures subs == map[] && droppedSlow == 0
    {
      subs, droppedSlow := map[], 0;
    }

    /** One `try_send`; a full channel costs the event and one on the counter, not the subscription. */
    method OfferTo(id: SubId, topic: string, event: Event) returns (outcome: SendResult)
      requires id in subs
      modifies this
      ensures outcome == Outcome(old(subs)[id], topic)
      ensures subs == old(subs)[id := Offered(old(subs)[id], topic, event)]
      ensures droppedSlow == old(droppedSlow) + if outcome == Full then 1 else 0
    {
      outcome := Outcome(subs[id], topic);
      match outcome
      case Skipped =>
      case Sent => subs := subs[id := subs[id].(buffer := subs[id].buffer + [event])];
      case Full => droppedSlow := droppedSlow + 1;
      case Closed =>
    }

    /** The map is walked in no particular order. */
    method OfferAll(topic: string, event: Event, ghost full: set<SubId>) returns (dead: seq<SubId>)
      requires forall id :: id in full <==> id in subs && Outcome(subs[id], topic) == Full
      modifies this
      ensures subs.Keys == old(subs).Keys
      ensures forall id :: id in subs ==> subs[id] == Offered(old(subs)[id], topic, event)
      ensures forall id :: id in dead <==> id in old(subs) && Outcome(old(subs)[id], topic) == Closed
      ensures droppedSlow == old(droppedSlow) + |full|
    {
      hide Outcome;
      hide Offered;
      OfferStart(subs, topic, event);
      dead := [];
      var left := subs.Keys;
      ghost var before := subs;
      while left != {}
        invariant left <= before.Keys && OfferedTo(before, subs, left, topic, event)
        invariant MetClosed(before, dead, left, topic)
        invariant droppedSlow == old(droppedSlow) + |full - left|
        decreases |left|
      {
        var id :| id in left;
        OneMoreDone(full, left, id);
        OneMoreOffered(before, subs, left, topic, event, id);
        OneMoreMet(before, dead, left, topic, id);
        var outcome := OfferTo(id, topic, event);
        if outcome == Closed {
          dead := dead + [id];
        }
        left := left - {id};
      }
      assert full - left == full;
    }

    method Publish(topic: string, event: Event)
      modifies this
      ensures subs == Published(old(subs), topic, event)
      ensures forall id :: id in subs <==>
        id in old(subs) && (old(subs)[id].open || !TopicMatches(old(subs)[id].pattern, topic))
      ensures forall id :: id in subs ==>
        var was := old(subs)[id];
        subs[id] == if TopicMatches(was.pattern, topic) && |was.buffer| < 256
                    then Channel(was.pattern, was.buffer + [event], was.open) else was
      ensures droppedSlow == old(droppedSlow) + |WithOutcome(old(subs), topic, Full)|
    {
      PublishedMeans(subs, topic, event);
      hide Published;
      hide WithOutcome;
      hide TopicMatches;
      OfferAndRemove(topic, event);
    }

    /** The two loops of `publish`. */
    method OfferAndRemove(topic: string, event: Event)
      modifies this
      ensures subs == Published(old(subs), topic, event)
      ensures droppedSlow == old(droppedSlow) + |WithOutcome(old(subs), topic, Full)|
    {
      hide Outcome;
      hide Offered;
      var dead := OfferAll(topic, event, WithOutcome(subs, topic, Full));
      ghost var offered := subs;
      var k := 0;
      while k < |dead|
        invariant k <= |dead|
        invariant forall id :: id in subs <==> id in offered && id !in dead[..k]
        invariant forall id :: id in subs ==> subs[id] == offered[id]
        invariant droppedSlow == old(droppedSlow) + |WithOutcome(old(subs), topic, Full)|
      {
        subs := subs - {dead[k]};
        k := k + 1;
      }
      assert dead[..k] == dead;
    }

    /** `id` is a new random identifier. */
    method Subscribe(id: SubId, pattern: string)
      requires id !in subs
      modifies this
      ensures subs == old(subs)[id := Channel(pattern, [], true)]
      ensures droppedSlow == old(droppedSlow)
    {
      subs := subs[id := Channel(pattern, [], true)];
    }
  }

  // ------------------------------------------------------- all interleavings

  datatype Delivery = Delivery(id: SubId, event: Event)

  datatype Try = Try(id: SubId, topic: string, event: Event)

  /**
   * Any number of publishers, each between two of its `try_send`s, with the
   * subscribers receiving and going away at any moment. `condemned` holds the
   * ids some publisher met closed and has yet to remove; the last three
   * fields record what happened.
   */
  datatype State = State(
    subs: Subs,
    droppedSlow: nat,
    used: set<SubId>,
    condemned: set<SubId>,
    tries: seq<Try>,
    received: seq<Delivery>,
    shed: seq<Delivery>)

  const EMPTY := State(map[], 0, {}, {}, [], [], [])

  datatype Step =
    | Join(id: SubId, pattern: string)
    | TrySend(id: SubId, topic: string, event: Event)
    | Remove(id: SubId)
    | Receive(id: SubId)
    | Leave(id: SubId)

  /** A step whose turn it cannot be (a used id, a subscription that is gone) changes nothing. */
  function Next(s: State, step: Step): State {
    match step
    case Join(id, pattern) =>
      if id in s.used then s
      else s.(subs := s.subs[id := Channel(pattern, [], true)], used := s.used + {id})
    case TrySend(id, topic, event) =>
      if id !in s.subs then s
      else
        var next := s.(tries := s.tries + [Try(id, topic, event)],
                       subs := s.subs[id := Offered(s.subs[id], topic, event)]);
        (match Outcome(s.subs[id], topic)
         case Skipped => next
         case Sent => next
         case Full => next.(droppedSlow := s.droppedSlow + 1, shed := s.shed + [Delivery(id, event)])
         case Closed => next.(condemned := s.condemned + {id}))
    case Remove(id) =>
      if id !in s.condemned then s
      else s.(subs := s.subs - {id}, condemned := s.condemned - {id})
    case Receive(id) =>
      if id !in s.subs || !s.subs[id].open || s.subs[id].buffer == [] then s
      else
        var ch := s.subs[id];
        s.(subs := s.subs[id := ch.(buffer := ch.buffer[1..])],
           received := s.received + [Delivery(id, ch.buffer[0])])
    case Leave(id) =>
      if id !in s.subs then s
      else s.(subs := s.subs[id := s.subs[id].(open := false)])
  }

  function Run(s: State, steps: seq<Step>): State {
    if steps == [] then s else Next(Run(s, steps[..|steps| - 1]), steps[|steps| - 1])
  }

  // ------------------------------------------------- what a subscriber is owed

  /** The events of a log that belong to one subscriber, in order. */
  function Of(log: seq<Delivery>, id: SubId): seq<Event> {
    if log == [] then []
    else
      var last := log[|log| - 1];
      Of(log[..|log| - 1], id) + if last.id == id then [last.event] else []
  }

  /** The events offered to one subscriber whose topics its pattern takes, in order. */
  function Matching(tries: seq<Try>, id: SubId, pattern: string): seq<Event> {
    if tries == [] then []
    else
      var last := tries[|tries| - 1];
      Matching(tries[..|tries| - 1], id, pattern)
      + if last.id == id && TopicMatches(pattern, last.topic) then [last.event] else []
  }

  /** `whole` is an interleaving of `a` and `b`: each is an in-order subsequence and nothing is left over. */
  ghost predicate Interleaves(whole: seq<Event>, a: seq<Event>, b: seq<Event>) {
    if whole == [] then a == [] && b == []
    else
      var front, last := whole[..|whole| - 1], whole[|whole| - 1];
      || (a != [] && a[|a| - 1] == last && Interleaves(front, a[..|a| - 1], b))
      || (b != [] && b[|b| - 1] == last && Interleaves(front, a, b[..|b| - 1]))
  }

  lemma InterleavesGrows(whole: seq<Event>, a: seq<Event>, b: seq<Event>, e: Event)
    requires Interleaves(whole, a, b)
    ensures Interleaves(whole + [e], a + [e], b)
    ensures Interleaves(whole + [e], a, b + [e])
  {
    assert (whole + [e])[..|whole|] == whole;
    assert (a + [e])[..|a|] == a && (b + [e])[..|b|] == b;
  }

  lemma {:induction false} InterleavesCounts(whole: seq<Event>, a: seq<Event>, b: seq<Event>)
    requires Interleaves(whole, a, b)
    ensures |whole| == |a| + |b|
    ensures multiset(whole) == multiset(a) + multiset(b)
  {
    if whole != [] {
      var front, last := whole[..|whole| - 1], whole[|whole| - 1];
      assert whole == front + [last];
      if a != [] && a[|a| - 1] == last && Interleaves(front, a[..|a| - 1], b) {
        InterleavesCounts(front, a[..|a| - 1], b);
        assert a == a[..|a| - 1] + [last];
      } else {
        InterleavesCounts(front, a, b[..|b| - 1]);
        assert b == b[..|b| - 1] + [last];
      }
    }
  }

  /** Names in the logs have been handed out; whoever was met closed is closed; the counter counts the sheds. */
  ghost predicate Sound(s: State) {
    && s.subs.Keys <= s.used
    && s.condemned <= s.used
    && (forall id :: id in s.condemned && id in s.subs ==> !s.subs[id].open)
    && (forall k :: 0 <= k < |s.tries| ==> s.tries[k].id in s.used)
    && (forall k :: 0 <= k < |s.received| ==> s.received[k].id in s.used)
    && (forall k :: 0 <= k < |s.shed| ==> s.shed[k].id in s.used)
    && s.droppedSlow == |s.shed|
  }

  /** A live subscriber has received, still holds, or was shed each event it was owed, in order. */
  ghost predicate Served(s: State, id: SubId) {
    id in s.subs && s.subs[id].open ==>
      var ch := s.subs[id];
      && |ch.buffer| <= CHANNEL_CAPACITY
      && Interleaves(Matching(s.tries, id, ch.pattern), Of(s.received, id) + ch.buffer, Of(s.shed, id))
  }

  lemma SoundStep(s: State, step: Step)
    requires Sound(s)
    ensures Sound(Next(s, step))
  {
  }

  lemma {:induction false} NothingYet(s: State, id: SubId, pattern: string)
    requires forall k :: 0 <= k < |s.tries| ==> s.tries[k].id != id
    requires forall k :: 0 <= k < |s.received| ==> s.received[k].id != id
    requires forall k :: 0 <= k < |s.shed| ==> s.shed[k].id != id
    ensures Matching(s.tries, id, pattern) == [] && Of(s.received, id) == [] && Of(s.shed, id) == []
    decreases |s.tries| + |s.received| + |s.shed|
  {
    if s.tries != [] {
      NothingYet(s.(tries := s.tries[..|s.tries| - 1]), id, pattern);
    }
    if s.received != [] {
      NothingYet(s.(received := s.received[..|s.received| - 1]), id, pattern);
    }
    if s.shed != [] {
      NothingYet(s.(shed := s.shed[..|s.shed| - 1]), id, pattern);
    }
  }

  lemma OfGrows(log: seq<Delivery>, d: Delivery, id: SubId)
    ensures Of(log + [d], id) == Of(log, id) + if d.id == id then [d.event] else []
  {
    assert (log + [d])[..|log|] == log;
  }

  lemma MatchingGrows(tries: seq<Try>, t: Try, id: SubId, pattern: string)
    ensures Matching(tries + [t], id, pattern) ==
            Matching(tries, id, pattern) + if t.id == id && TopicMatches(pattern, t.topic) then [t.event] else []
  {
    assert (tries + [t])[..|tries|] == tries;
  }

  lemma ServedAfterJoin(s: State, step: Step, id: SubId)
    requires Sound(s) && Served(s, id) && step.Join?
    ensures Served(Next(s, step), id)
  {
    if step.id == id && id !in s.used {
      NothingYet(s, id, step.pattern);
    }
  }

  lemma {:induction false} ServedAfterTry(s: State, step: Step, id: SubId)
    requires Served(s, id) && step.TrySend?
    ensures Served(Next(s, step), id)
  {
    hide TopicMatches;
    hide Matching;
    hide Of;
    hide Interleaves;
    if step.id in s.subs && id in s.subs && s.subs[id].open {
      var ch, t := s.subs[id], Try(step.id, step.topic, step.event);
      var owed, got, lost := Matching(s.tries, id, ch.pattern), Of(s.received, id) + ch.buffer, Of(s.shed, id);
      MatchingGrows(s.tries, t, id, ch.pattern);
      OfGrows(s.shed, Delivery(step.id, step.event), id);
      assert owed + [] == owed && lost + [] == lost;
      if step.id == id && TopicMatches(ch.pattern, step.topic) {
        InterleavesGrows(owed, got, lost, step.event);
        assert got + [step.event] == Of(s.received, id) + (ch.buffer + [step.event]);
      }
    }
  }

  lemma ServedAfterReceive(s: State, step: Step, id: SubId)
    requires Served(s, id) && step.Receive?
    ensures Served(Next(s, step), id)
  {
    if step.id in s.subs && s.subs[step.id].open && s.subs[step.id].buffer != [] {
      var ch := s.subs[step.id];
      var d := Delivery(step.id, ch.buffer[0]);
      OfGrows(s.received, d, id);
      if step.id == id {
        assert Of(s.received, id) + ch.buffer == (Of(s.received, id) + [ch.buffer[0]]) + ch.buffer[1..];
      } else {
        assert Of(s.received, id) + [] == Of(s.received, id);
      }
    }
  }

  lemma ServedStep(s: State, step: Step, id: SubId)
    requires Sound(s) && Served(s, id)
    ensures Served(Next(s, step), id)
  {
    match step
    case Join(_, _) => ServedAfterJoin(s, step, id);
    case TrySend(_, _, _) => ServedAfterTry(s, step, id);
    case Receive(_) => ServedAfterReceive(s, step, id);
    case Remove(_) =>
    case Leave(_) =>
  }

  lemma {:induction false} EveryRunServes(steps: seq<Step>, id: SubId)
    ensures Sound(Run(EMPTY, steps)) && Served(Run(EMPTY, steps), id)
  {
    if steps != [] {
      var front, last := steps[..|steps| - 1], steps[|steps| - 1];
      EveryRunServes(front, id);
      SoundStep(Run(EMPTY, front), last);
      ServedStep(Run(EMPTY, front), last, id);
    }
  }

  /**
   * In every interleaving, a live subscriber's received then buffered events
   * are an in-order subsequence of the matching offers, the rest was shed,
   * the counts add up and the buffer is bounded.
   */
  lemma {:induction false} LiveSubscribersAreServedInOrder(steps: seq<Step>, id: SubId)
    requires var s := Run(EMPTY, steps); id in s.subs && s.subs[id].open
    ensures var s := Run(EMPTY, steps);
            var ch := s.subs[id];
            var owed := Matching(s.tries, id, ch.pattern);
            && Interleaves(owed, Of(s.received, id) + ch.buffer, Of(s.shed, id))
            && |owed| == |Of(s.received, id)| + |ch.buffer| + |Of(s.shed, id)|
            && |ch.buffer| <= 256
  {
    EveryRunServes(steps, id);
    var s := Run(EMPTY, steps);
    InterleavesCounts(Matching(s.tries, id, s.subs[id].pattern),
                      Of(s.received, id) + s.subs[id].buffer, Of(s.shed, id));
  }

  /** The counter is the number of sheds, and a shed happens only at a live subscriber with 256 events waiting. */
  lemma {:induction false} SheddingIsCountedAndJustified(steps: seq<Step>, step: Step)
    ensures var s := Run(EMPTY, steps);
            && s.droppedSlow == |s.shed|
            && (Next(s, step).shed != s.shed <==>
                && step.TrySend? && step.id in s.subs
                && TopicMatches(s.subs[step.id].pattern, step.topic)
                && s.subs[step.id].open
                && |s.subs[step.id].buffer| == 256)
  {
    EveryRunServes(steps, 0);
    if step.TrySend? {
      EveryRunServes(steps, step.id);
    }
  }

  function Receives(id: SubId, n: nat): seq<Step> {
    if n == 0 then [] else Receives(id, n - 1) + [Receive(id)]
  }

  /** A live subscriber that keeps receiving gets its whole buffer, oldest first, and nobody else notices. */
  lemma {:induction false} ReceivesDrainTheBuffer(s: State, id: SubId, n: nat)
    requires id in s.subs && s.subs[id].open && n <= |s.subs[id].buffer|
    ensures var after := Run(s, Receives(id, n));
            && after.subs == s.subs[id := Channel(s.subs[id].pattern, s.subs[id].buffer[n..], true)]
            && Of(after.received, id) == Of(s.received, id) + s.subs[id].buffer[..n]
            && after.shed == s.shed && after.tries == s.tries && after.droppedSlow == s.droppedSlow
  {
    hide Of;
    if n > 0 {
      ReceivesDrainTheBuffer(s, id, n - 1);
      var steps, before := Receives(id, n), Run(s, Receives(id, n - 1));
      assert steps[..|steps| - 1] == Receives(id, n - 1);
      var buffer := s.subs[id].buffer;
      OfGrows(before.received, Delivery(id, buffer[n - 1]), id);
      assert buffer[n - 1..][0] == buffer[n - 1] && buffer[n - 1..][1..] == buffer[n..];
      assert buffer[..n] == buffer[..n - 1] + [buffer[n - 1]];
      assert Of(s.received, id) + buffer[..n] == Of(s.received, id) + buffer[..n - 1] + [buffer[n - 1]];
    } else {
      var buffer := s.subs[id].buffer;
      assert buffer[0..] == buffer && buffer[..0] == [];
    }
  }

  /** From subscribing to receiving: an event whose topic the pattern takes arrives, any other is not offered. */
  lemma PublishedEventArrives(id: SubId, pattern: string, topic: string, event: Event)
    ensures var s := Run(EMPTY, [Join(id, pattern), TrySend(id, topic, event), Receive(id)]);
            && s.received == (if TopicMatches(pattern, topic) then [Delivery(id, event)] else [])
            && s.subs == map[id := Channel(pattern, [], true)]
            && s.shed == [] && s.condemned == {}
  {
    hide TopicMatches;
    ThreeSteps(EMPTY, Join(id, pattern), TrySend(id, topic, event), Receive(id));
    var s := Next(Next(EMPTY, Join(id, pattern)), TrySend(id, topic, event));
    assert [event][1..] == [];
    if TopicMatches(pattern, topic) {
      assert s.subs[id] == Channel(pattern, [event], true);
      assert Next(s, Receive(id)).subs[id] == Channel(pattern, [], true);
    }
  }

  /** A subscriber that left is met closed and removed by the next publish its pattern takes, and by no other. */
  lemma LeftSubscribersGo(id: SubId, pattern: string, topic: string, event: Event)
    ensures var s := Next(Run(EMPTY, [Join(id, pattern), Leave(id), TrySend(id, topic, event)]), Remove(id));
            && s.subs == (if TopicMatches(pattern, topic) then map[] else map[id := Channel(pattern, [], false)])
            && s.received == [] && s.shed == [] && s.droppedSlow == 0
  {
    hide TopicMatches;
    ThreeSteps(EMPTY, Join(id, pattern), Leave(id), TrySend(id, topic, event));
    assert map[id := Channel(pattern, [], false)] - {id} == map[];
  }

  lemma ThreeSteps(s: State, a: Step, b: Step, c: Step)
    ensures Run(s, [a, b, c]) == Next(Next(Next(s, a), b), c)
  {
    hide Next;
    assert [a, b, c][..2] == [a, b] && [a, b][..1] == [a] && [a][..0] == [];
    assert Run(s, []) == s;
    assert Run(s, [a]) == Next(s, a);
    assert Run(s, [a, b]) == Next(Next(s, a), b);
  }

  // ------------------------------------------------ subscribers do not interact

  predicate SameFor(s: State, t: State, id: SubId) {
    && (id in s.subs <==> id in t.subs)
    && (id in s.subs ==> s.subs[id] == t.subs[id])
    && (id in s.used <==> id in t.used)
    && (id in s.condemned <==> id in t.condemned)
  }

  function Touching(steps: seq<Step>, id: SubId): seq<Step> {
    if steps == [] then []
    else
      var last := steps[|steps| - 1];
      Touching(steps[..|steps| - 1], id) + if last.id == id then [last] else []
  }

  /** A slow, closed or busy subscriber never changes what another one gets. */
  lemma {:induction false} SubscribersAreIsolated(steps: seq<Step>, id: SubId)
    ensures SameFor(Run(EMPTY, steps), Run(EMPTY, Touching(steps, id)), id)
    ensures Of(Run(EMPTY, steps).received, id) == Of(Run(EMPTY, Touching(steps, id)).received, id)
    ensures Of(Run(EMPTY, steps).shed, id) == Of(Run(EMPTY, Touching(steps, id)).shed, id)
  {
    if steps != [] {
      var front, last := steps[..|steps| - 1], steps[|steps| - 1];
      SubscribersAreIsolated(front, id);
      var s, t := Run(EMPTY, front), Run(EMPTY, Touching(front, id));
      if last.id == id {
        var touching := Touching(steps, id);
        assert touching == Touching(front, id) + [last];
        assert touching[..|touching| - 1] == Touching(front, id);
        assert Run(EMPTY, touching) == Next(t, last);
        StepsAlike(s, t, last, id);
      } else {
        assert Touching(steps, id) == Touching(front, id);
        StepElsewhere(s, last, id);
      }
    }
  }

  lemma {:induction false} StepsAlike(s: State, t: State, step: Step, id: SubId)
    requires SameFor(s, t, id) && step.id == id
    requires Of(s.received, id) == Of(t.received, id) && Of(s.shed, id) == Of(t.shed, id)
    ensures SameFor(Next(s, step), Next(t, step), id)
    ensures Of(Next(s, step).received, id) == Of(Next(t, step).received, id)
    ensures Of(Next(s, step).shed, id) == Of(Next(t, step).shed, id)
  {
    hide TopicMatches;
    hide Of;
    if step.Receive? && id in s.subs && s.subs[id].buffer != [] {
      var d := Delivery(id, s.subs[id].buffer[0]);
      OfGrows(s.received, d, id);
      OfGrows(t.received, d, id);
    } else if step.TrySend? {
      OfGrows(s.shed, Delivery(id, step.event), id);
      OfGrows(t.shed, Delivery(id, step.event), id);
    }
  }

  lemma StepElsewhere(s: State, step: Step, id: SubId)
    requires step.id != id
    ensures SameFor(Next(s, step), s, id)
    ensures Of(Next(s, step).received, id) == Of(s.received, id)
    ensures Of(Next(s, step).shed, id) == Of(s.shed, id)
  {
    hide TopicMatches;
    hide Of;
    if step.Receive? && step.id in s.subs && s.subs[step.id].buffer != [] {
      OfGrows(s.received, Delivery(step.id, s.subs[step.id].buffer[0]), id);
    } else if step.TrySend? {
      OfGrows(s.shed, Delivery(step.id, step.event), id);
    }
  }

  // --------------------------------------------------- a publish as its steps

  function Offers(ids: seq<SubId>, topic: string, event: Event): (steps: seq<Step>)
    ensures |steps| == |ids|
  {
    if ids == [] then []
    else Offers(ids[..|ids| - 1], topic, event) + [TrySend(ids[|ids| - 1], topic, event)]
  }

  function Removals(ids: seq<SubId>): (steps: seq<Step>)
    ensures |steps| == |ids|
  {
    if ids == [] then [] else Removals(ids[..|ids| - 1]) + [Remove(ids[|ids| - 1])]
  }

  function SetOf(ids: seq<SubId>): set<SubId> {
    set id | id in ids
  }

  predicate NoRepeats(ids: seq<SubId>) {
    forall i, j :: 0 <= i < j < |ids| ==> ids[i] != ids[j]
  }

  lemma SetOfGrows(ids: seq<SubId>)
    requires ids != [] && NoRepeats(ids)
    ensures var front, last := ids[..|ids| - 1], ids[|ids| - 1];
            && NoRepeats(front) && last !in front && last !in SetOf(front)
            && ids == front + [last] && SetOf(ids) == SetOf(front) + {last}
  {
    var front, last := ids[..|ids| - 1], ids[|ids| - 1];
    assert ids == front + [last];
  }

  lemma OneMoreShared(a: set<SubId>, b: set<SubId>, id: SubId)
    requires id !in a
    ensures |(a + {id}) * b| == |a * b| + if id in b then 1 else 0
  {
    assert (a + {id}) * b == (a * b) + if id in b then {id} else {};
  }

  function CountFull(subs: Subs, ids: seq<SubId>, topic: string): nat {
    if ids == [] then 0
    else
      var last := ids[|ids| - 1];
      CountFull(subs, ids[..|ids| - 1], topic)
      + if last in subs && Outcome(subs[last], topic) == Full then 1 else 0
  }

  lemma {:induction false} CountFullCounts(subs: Subs, ids: seq<SubId>, topic: string, full: set<SubId>)
    requires NoRepeats(ids)
    requires forall id :: id in full <==> id in subs && Outcome(subs[id], topic) == Full
    ensures CountFull(subs, ids, topic) == |SetOf(ids) * full|
  {
    hide Outcome;
    if ids == [] {
      assert SetOf(ids) * full == {};
    } else {
      SetOfGrows(ids);
      hide SetOf;
      hide NoRepeats;
      var front, last := ids[..|ids| - 1], ids[|ids| - 1];
      CountFullCounts(subs, front, topic, full);
      OneMoreShared(SetOf(front), full, last);
    }
  }

  /** The subscriptions once the listed ones have been offered the event. */
  ghost predicate Met(s: State, ids: seq<SubId>, topic: string, event: Event, after: State) {
    && after.subs.Keys == s.subs.Keys
    && (forall id :: id in s.subs ==> after.subs[id] == if id in ids then Offered(s.subs[id], topic, event) else s.subs[id])
    && (forall id :: id in after.condemned <==>
                     id in s.condemned || (id in ids && id in s.subs && Outcome(s.subs[id], topic) == Closed))
    && after.droppedSlow == s.droppedSlow + CountFull(s.subs, ids, topic)
  }

  lemma MeetOneMore(s: State, ids: seq<SubId>, topic: string, event: Event, after: State, id: SubId)
    requires Met(s, ids, topic, event, after)
    requires id in s.subs && id !in ids
    ensures Met(s, ids + [id], topic, event, Next(after, TrySend(id, topic, event)))
  {
    assert (ids + [id])[..|ids|] == ids;
    assert after.subs[id] == s.subs[id];
  }

  lemma {:induction false} OffersMeet(s: State, ids: seq<SubId>, topic: string, event: Event)
    requires NoRepeats(ids) && forall id :: id in ids ==> id in s.subs
    ensures Met(s, ids, topic, event, Run(s, Offers(ids, topic, event)))
  {
    if ids != [] {
      var front, last := ids[..|ids| - 1], ids[|ids| - 1];
      assert ids == front + [last];
      OffersMeet(s, front, topic, event);
      var steps := Offers(ids, topic, event);
      assert steps[..|steps| - 1] == Offers(front, topic, event);
      MeetOneMore(s, front, topic, event, Run(s, Offers(front, topic, event)), last);
    }
  }

  lemma {:induction false} RemovalsRemove(s: State, ids: seq<SubId>)
    requires NoRepeats(ids) && SetOf(ids) <= s.condemned
    ensures var after := Run(s, Removals(ids));
            && after.subs == s.subs - SetOf(ids)
            && after.condemned == s.condemned - SetOf(ids)
            && after.droppedSlow == s.droppedSlow
  {
    if ids != [] {
      SetOfGrows(ids);
      hide SetOf;
      hide NoRepeats;
      var front, last := ids[..|ids| - 1], ids[|ids| - 1];
      RemovalsRemove(s, front);
      var steps, after := Removals(ids), Run(s, Removals(front));
      assert steps[..|steps| - 1] == Removals(front);
      assert after.subs - {last} == s.subs - SetOf(ids);
      assert after.condemned - {last} == s.condemned - SetOf(ids);
    }
  }

  lemma {:induction false} RunConcat(s: State, a: seq<Step>, b: seq<Step>)
    ensures Run(s, a + b) == Run(Run(s, a), b)
  {
    if b == [] {
      assert a + b == a;
    } else {
      RunConcat(s, a, b[..|b| - 1]);
      assert (a + b)[..|a + b| - 1] == a + b[..|b| - 1];
    }
  }

  /** `publish` undisturbed is one offer to each subscriber, in any order, then the removals. */
  lemma {:induction false} PublishIsOneOfferEach(s: State, ids: seq<SubId>, dead: seq<SubId>, topic: string, event: Event)
    requires NoRepeats(ids) && SetOf(ids) == s.subs.Keys
    requires NoRepeats(dead) && SetOf(dead) == WithOutcome(s.subs, topic, Closed)
    ensures var after := Run(s, Offers(ids, topic, event) + Removals(dead));
            && after.subs == Published(s.subs, topic, event)
            && after.droppedSlow == s.droppedSlow + |WithOutcome(s.subs, topic, Full)|
            && after.condemned == s.condemned - SetOf(dead)
  {
    RunConcat(s, Offers(ids, topic, event), Removals(dead));
    assert forall id :: id in ids ==> id in SetOf(ids);
    assert forall id :: id in s.subs ==> id in SetOf(ids);
    OffersMeet(s, ids, topic, event);
    CountFullCounts(s.subs, ids, topic, WithOutcome(s.subs, topic, Full));
    assert SetOf(ids) * WithOutcome(s.subs, topic, Full) == WithOutcome(s.subs, topic, Full);
    var met := Run(s, Offers(ids, topic, event));
    assert SetOf(dead) <= met.condemned;
    RemovalsRemove(met, dead);
    MetThenPublished(s, met, ids, dead, topic, event);
  }

  lemma MetThenPublished(s: State, met: State, ids: seq<SubId>, dead: seq<SubId>, topic: string, event: Event)
    requires SetOf(ids) == s.subs.Keys && SetOf(dead) == WithOutcome(s.subs, topic, Closed)
    requires Met(s, ids, topic, event, met)
    ensures met.subs - SetOf(dead) == Published(s.subs, topic, event)
    ensures met.condemned - SetOf(dead) == s.condemned - SetOf(dead)
  {
    assert forall id :: id in s.subs ==> id in SetOf(ids);
  }
}
