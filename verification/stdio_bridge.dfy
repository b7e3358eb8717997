/**
 * The subprocess-side broker: an inbound event is offered to every matching
 * subscriber of a vector, then the closed ones are pruned by index, last
 * first, with `swap_remove`.
 */
module StdioBridge {
  import opened DiskTables
  import opened Channels
  import opened Topic

  /** `Vec::swap_remove`: the last element takes the removed one's place. */
  function SwapRemove<T>(s: seq<T>, i: nat): (r: seq<T>)
    requires i < |s|
    ensures |r| == |s| - 1
    ensures forall k :: 0 <= k < |r| ==> r[k] == if k == i then s[|s| - 1] else s[k]
    ensures multiset(r) + multiset{s[i]} == multiset(s)
  {
    var last := s[|s| - 1];
    assert s == s[..|s| - 1] + [last];
    if i == |s| - 1 then s[..|s| - 1]
    else
      assert s[..|s| - 1][i := last] == s[..i] + [last] + s[i + 1..|s| - 1];
      assert s[..|s| - 1] == s[..i] + [s[i]] + s[i + 1..|s| - 1];
      s[..|s| - 1][i := last]
  }

  lemma PrefixKept<T>(s: seq<T>, before: seq<T>, i: nat, m: nat)
    requires m <= i < |s| && i < |before| && s[..i + 1] == before[..i + 1]
    ensures SwapRemove(s, i)[..m] == before[..m]
  {
    assert s[..m] == s[..i + 1][..m] && before[..m] == before[..i + 1][..m];
  }

  /** Every subscriber once offered the event. */
  function AllOffered(subs: seq<Channel>, topic: string, event: Event): (r: seq<Channel>)
    ensures |r| == |subs|
    ensures forall i :: 0 <= i < |subs| ==> r[i] == Offered(subs[i], topic, event)
  {
    if subs == [] then [] else AllOffered(subs[..|subs| - 1], topic, event) + [Offered(subs[|subs| - 1], topic, event)]
  }

  /** The ones that stay: all but those that match the topic and are closed. */
  function Survivors(subs: seq<Channel>, topic: string): seq<Channel> {
    if subs == [] then []
    else
      var last := subs[|subs| - 1];
      Survivors(subs[..|subs| - 1], topic) + if Outcome(last, topic) == Closed then [] else [last]
  }

  function ClosedOnes(subs: seq<Channel>, topic: string): seq<Channel> {
    if subs == [] then []
    else
      var last := subs[|subs| - 1];
      ClosedOnes(subs[..|subs| - 1], topic) + if Outcome(last, topic) == Closed then [last] else []
  }

  /** `indices` lists, ascending, exactly the positions below `n` whose subscriber was met closed. */
  ghost predicate ListsClosed(subs: seq<Channel>, topic: string, indices: seq<nat>, n: nat)
    requires n <= |subs|
  {
    && (forall j, k :: 0 <= j < k < |indices| ==> indices[j] < indices[k])
    && (forall j :: 0 <= j < |indices| ==> indices[j] < n)
    && (forall i: nat :: i < n ==> (i in indices <==> Outcome(subs[i], topic) == Closed))
  }

  lemma OneMoreListed(subs: seq<Channel>, topic: string, indices: seq<nat>, n: nat)
    requires n < |subs| && ListsClosed(subs, topic, indices, n)
    ensures Outcome(subs[n], topic) == Closed ==> ListsClosed(subs, topic, indices + [n], n + 1)
    ensures Outcome(subs[n], topic) != Closed ==> ListsClosed(subs, topic, indices, n + 1)
  {
    hide Outcome;
  }

  /** The elements at the listed positions. */
  function At(subs: seq<Channel>, indices: seq<nat>): seq<Channel>
    requires forall j :: 0 <= j < |indices| ==> indices[j] < |subs|
  {
    seq(|indices|, j requires 0 <= j < |indices| => subs[indices[j]])
  }

  lemma {:induction false} ListedAreTheClosed(subs: seq<Channel>, topic: string, indices: seq<nat>)
    requires ListsClosed(subs, topic, indices, |subs|)
    ensures At(subs, indices) == ClosedOnes(subs, topic)
    decreases |subs|
  {
    hide Outcome;
    if subs != [] {
      var n := |subs| - 1;
      if Outcome(subs[n], topic) == Closed {
        LastIsListed(subs, topic, indices);
        var front := indices[..|indices| - 1];
        ListedAreTheClosed(subs[..n], topic, front);
        assert At(subs, indices) == At(subs[..n], front) + [subs[n]];
      } else {
        LastIsNotListed(subs, topic, indices);
        ListedAreTheClosed(subs[..n], topic, indices);
        assert At(subs, indices) == At(subs[..n], indices);
      }
    }
  }

  lemma LastIsListed(subs: seq<Channel>, topic: string, indices: seq<nat>)
    requires subs != [] && ListsClosed(subs, topic, indices, |subs|)
    requires Outcome(subs[|subs| - 1], topic) == Closed
    ensures indices != [] && indices[|indices| - 1] == |subs| - 1
    ensures ListsClosed(subs[..|subs| - 1], topic, indices[..|indices| - 1], |subs| - 1)
  {
    hide Outcome;
    var n: nat := |subs| - 1;
    assert n in indices;
    var at :| 0 <= at < |indices| && indices[at] == n;
    assert at == |indices| - 1;
    assert indices == indices[..at] + [n];
  }

  lemma LastIsNotListed(subs: seq<Channel>, topic: string, indices: seq<nat>)
    requires subs != [] && ListsClosed(subs, topic, indices, |subs|)
    requires Outcome(subs[|subs| - 1], topic) != Closed
    ensures ListsClosed(subs[..|subs| - 1], topic, indices, |subs| - 1)
  {
    hide Outcome;
    var n: nat := |subs| - 1;
    assert n !in indices;
    forall j | 0 <= j < |indices|
      ensures indices[j] < n
    {
      assert indices[j] in indices;
    }
  }

  lemma {:induction false} SurvivorsAndClosed(subs: seq<Channel>, topic: string)
    ensures multiset(Survivors(subs, topic)) + multiset(ClosedOnes(subs, topic)) == multiset(subs)
  {
    if subs != [] {
      SurvivorsAndClosed(subs[..|subs| - 1], topic);
      assert subs == subs[..|subs| - 1] + [subs[|subs| - 1]];
    }
  }

  /** Sending changes no channel's fate: the closed ones are the same before and after the offers. */
  lemma OfferKeepsOutcomeClosed(ch: Channel, topic: string, event: Event)
    ensures Outcome(Offered(ch, topic, event), topic) == Closed <==> Outcome(ch, topic) == Closed
    ensures Outcome(ch, topic) == Closed ==> Offered(ch, topic, event) == ch
  {
  }

  predicate AscendingBelow(indices: seq<nat>, n: nat) {
    && (forall j, k :: 0 <= j < k < |indices| ==> indices[j] < indices[k])
    && (forall j :: 0 <= j < |indices| ==> indices[j] < n)
  }

  /** The last positions, from the `k`-th on, have been removed; up to the next one nothing has moved. */
  ghost predicate Pruned(before: seq<Channel>, now: seq<Channel>, indices: seq<nat>, k: nat)
    requires k <= |indices| && AscendingBelow(indices, |before|)
  {
    && (k > 0 ==> indices[k - 1] < |now| && now[..indices[k - 1] + 1] == before[..indices[k - 1] + 1])
    && multiset(now) + multiset(At(before, indices)[k..]) == multiset(before)
  }

  lemma PruneOneMore(before: seq<Channel>, now: seq<Channel>, indices: seq<nat>, k: nat)
    requires k < |indices| && AscendingBelow(indices, |before|) && Pruned(before, now, indices, k + 1)
    ensures indices[k] < |now| && Pruned(before, SwapRemove(now, indices[k]), indices, k)
  {
    hide SwapRemove;
    var i, picked := indices[k], At(before, indices);
    assert now[i] == before[i] by {
      assert now[..i + 1][i] == before[..i + 1][i];
    }
    assert picked[k..] == [now[i]] + picked[k + 1..];
    if k > 0 {
      PrefixKept(now, before, i, indices[k - 1] + 1);
      assert |SwapRemove(now, i)| == |now| - 1;
    }
  }

  /** The positions of the subscribers that stay and look like `ch` afterwards. */
  function Sources(subs: seq<Channel>, topic: string, event: Event, ch: Channel): set<int> {
    set i | 0 <= i < |subs|
      && (subs[i].open || !TopicMatches(subs[i].pattern, topic))
      && ch == (if TopicMatches(subs[i].pattern, topic) && |subs[i].buffer| < 256
                then Channel(subs[i].pattern, subs[i].buffer + [event], subs[i].open) else subs[i])
  }

  lemma SourcesGrow(subs: seq<Channel>, topic: string, event: Event, ch: Channel)
    requires subs != []
    ensures var n := |subs| - 1;
            var front, last := Sources(subs[..n], topic, event, ch), Offered(subs[n], topic, event);
            && n !in front
            && Sources(subs, topic, event, ch) == front + if Outcome(last, topic) != Closed && last == ch then {n} else {}
  {
    hide TopicMatches;
  }

  lemma CountOneMore(chs: seq<Channel>, last: Channel, stays: bool, ch: Channel)
    ensures multiset(chs + if stays then [last] else [])[ch] == multiset(chs)[ch] + if stays && last == ch then 1 else 0
  {
    if !stays { assert chs + [] == chs; }
  }

  lemma OneMoreSource(front: set<int>, n: int, more: bool)
    requires n !in front
    ensures |front + if more then {n} else {}| == |front| + if more then 1 else 0
  {
  }

  lemma OneMoreOfferedAt(subs: seq<Channel>, topic: string, event: Event)
    requires subs != []
    ensures var n := |subs| - 1;
            AllOffered(subs, topic, event) == AllOffered(subs[..n], topic, event) + [Offered(subs[n], topic, event)]
  {
  }

  lemma SurvivorsGrow(chs: seq<Channel>, last: Channel, topic: string)
    ensures Survivors(chs + [last], topic) ==
      Survivors(chs, topic) + if Outcome(last, topic) != Closed then [last] else []
  {
    assert (chs + [last])[..|chs|] == chs;
  }

  lemma {:induction false} SurvivorsMean(subs: seq<Channel>, topic: string, event: Event, ch: Channel)
    ensures multiset(Survivors(AllOffered(subs, topic, event), topic))[ch] == |Sources(subs, topic, event, ch)|
  {
    if subs != [] {
      hide Outcome, Offered, Sources, AllOffered, Survivors;
      var n := |subs| - 1;
      var last, front := Offered(subs[n], topic, event), AllOffered(subs[..n], topic, event);
      SurvivorsMean(subs[..n], topic, event, ch);
      SourcesGrow(subs, topic, event, ch);
      OneMoreOfferedAt(subs, topic, event);
      SurvivorsGrow(front, last, topic);
      CountOneMore(Survivors(front, topic), last, Outcome(last, topic) != Closed, ch);
      OneMoreSource(Sources(subs[..n], topic, event, ch), n, Outcome(last, topic) != Closed && last == ch);
    }
  }

  class StdioBridgeBroker {
    var subscribers: seq<Channel>

    constructor ()
      ensures subscribers == []
    {
      subscribers := [];
    }

    method Subscribe(pattern: string)
      modifies this
      ensures subscribers == old(subscribers) + [Channel(pattern, [], true)]
    {
      subscribers := subscribers + [Channel(pattern, [], true)];
    }

    /** The offering loop. */
    method OfferAll(topic: string, event: Event) returns (toRemove: seq<nat>)
      modifies this
      ensures subscribers == AllOffered(old(subscribers), topic, event)
      ensures ListsClosed(old(subscribers), topic, toRemove, |old(subscribers)|)
    {
      hide Outcome;
      hide Offered;
      ghost var before := subscribers;
      toRemove := [];
      var i := 0;
      while i < |subscribers|
        invariant i <= |subscribers| == |before|
        invariant ListsClosed(before, topic, toRemove, i)
        invariant forall k :: 0 <= k < i ==> subscribers[k] == Offered(before[k], topic, event)
        invariant forall k :: i <= k < |before| ==> subscribers[k] == before[k]
      {
        OneMoreListed(before, topic, toRemove, i);
        if Outcome(subscribers[i], topic) == Closed {
          toRemove := toRemove + [i];
        }
        subscribers := subscribers[i := Offered(subscribers[i], topic, event)];
        i := i + 1;
      }
    }

    /** The pruning loop: positions still to come are below the hole, so no `swap_remove` disturbs them. */
    method Prune(toRemove: seq<nat>)
      requires AscendingBelow(toRemove, |subscribers|)
      modifies this
      ensures multiset(subscribers) + multiset(At(old(subscribers), toRemove)) == multiset(old(subscribers))
    {
      ghost var before := subscribers;
      var k := |toRemove|;
      assert At(before, toRemove)[k..] == [];
      while k > 0
        invariant 0 <= k <= |toRemove|
        invariant Pruned(before, subscribers, toRemove, k)
      {
        k := k - 1;
        PruneOneMore(before, subscribers, toRemove, k);
        subscribers := SwapRemove(subscribers, toRemove[k]);
      }
      assert At(before, toRemove)[0..] == At(before, toRemove);
    }

    /** Exactly the matching closed subscribers go; everyone else stays, with the event if there was room. */
    method DispatchEvent(topic: string, event: Event)
      modifies this
      ensures multiset(subscribers) == multiset(Survivors(AllOffered(old(subscribers), topic, event), topic))
      ensures forall ch :: multiset(subscribers)[ch] == |Sources(old(subscribers), topic, event, ch)|
    {
      hide Outcome;
      hide Offered;
      ghost var before := subscribers;
      var toRemove := OfferAll(topic, event);
      ghost var offered := subscribers;
      ClosedStayListed(before, topic, event, toRemove);
      Prune(toRemove);
      ListedAreTheClosed(offered, topic, toRemove);
      SurvivorsAndClosed(offered, topic);
      SameRest(multiset(subscribers), multiset(Survivors(offered, topic)), multiset(ClosedOnes(offered, topic)));
      forall ch ensures multiset(subscribers)[ch] == |Sources(before, topic, event, ch)| {
        SurvivorsMean(before, topic, event, ch);
      }
    }
  }

  lemma ClosedStayListed(before: seq<Channel>, topic: string, event: Event, indices: seq<nat>)
    requires ListsClosed(before, topic, indices, |before|)
    ensures ListsClosed(AllOffered(before, topic, event), topic, indices, |before|)
  {
    hide Outcome;
    hide Offered;
    forall i: nat | i < |before|
      ensures Outcome(AllOffered(before, topic, event)[i], topic) == Closed <==> Outcome(before[i], topic) == Closed
    {
      OfferKeepsOutcomeClosed(before[i], topic, event);
    }
  }

  lemma SameRest<T>(a: multiset<T>, b: multiset<T>, c: multiset<T>)
    requires a + c == b + c
    ensures a == b
  {
    assert (a + c) - c == a && (b + c) - c == b;
  }
}
