/** The durable queue run by one task at a time: `enqueue` with its backpressure and hard cap, the
    two drains, dead-letter replay and purge.  Database writes succeed here; failures, crashes and
    interleavings are the subject of module QueueProtocol. */
module DiskQueueModel {
  import opened DiskTables

  const MAX_BACKPRESSURE_MS: nat := 500

  /** What a drain hands to the broker for one row. */
  datatype Offer = Offer(topic: string, event: Event)

  /** What the outside world answers while one row is drained: the broker's verdict and the clock. */
  datatype Reply = Reply(accepted: bool, error: string, at: int)

  // ---------------------------------------------------------------- enqueue

  function Half(maxPending: nat): nat { maxPending / 2 }

  /** Producer sleep, in milliseconds, for a queue that holds `count` rows. */
  function SleepMs(count: nat, maxPending: nat): nat {
    if count >= maxPending then MAX_BACKPRESSURE_MS
    else if count > Half(maxPending) then
      var range := if maxPending - Half(maxPending) < 1 then 1 else maxPending - Half(maxPending);
      (count - Half(maxPending)) * MAX_BACKPRESSURE_MS / range
    else 0
  }

  /** A fuller queue never makes its producer sleep less, and never more than at the hard cap. */
  lemma {:induction false} BackpressureIsMonotone(count: nat, fuller: nat, maxPending: nat)
    requires count <= fuller
    ensures SleepMs(count, maxPending) <= SleepMs(fuller, maxPending) <= MAX_BACKPRESSURE_MS
  {
    SleepIsBounded(count, maxPending);
    SleepIsBounded(fuller, maxPending);
    var half := Half(maxPending);
    if half < count && fuller < maxPending {
      DivMonotone((count - half) * MAX_BACKPRESSURE_MS, (fuller - half) * MAX_BACKPRESSURE_MS, maxPending - half);
    }
  }

  /** No sleep up to half full, the whole 500 ms at the cap, and in between the share of the upper half in use. */
  lemma {:induction false} BackpressureIsProportional(count: nat, maxPending: nat)
    ensures var sleep, half := SleepMs(count, maxPending), Half(maxPending);
      && (count >= maxPending ==> sleep == 500)
      && (count < maxPending && count <= half ==> sleep == 0)
      && (half < count < maxPending ==>
            var range, over := maxPending - half, count - half;
            range * sleep <= over * 500 < range * sleep + range)
  {
    var half := Half(maxPending);
    if half < count < maxPending {
      var range, a := maxPending - half, (count - half) * MAX_BACKPRESSURE_MS;
      assert a == range * (a / range) + a % range;
    }
  }

  lemma {:induction false} SleepIsBounded(count: nat, maxPending: nat)
    ensures SleepMs(count, maxPending) <= MAX_BACKPRESSURE_MS
  {
    var half := Half(maxPending);
    if half < count < maxPending {
      var range := maxPending - half;
      DivMonotone((count - half) * MAX_BACKPRESSURE_MS, range * MAX_BACKPRESSURE_MS, range);
      DivCancels(range, MAX_BACKPRESSURE_MS);
    }
  }

  lemma {:induction false} DivMonotone(a: nat, b: nat, d: nat)
    requires a <= b && d > 0
    ensures a / d <= b / d
  {
    var q, r := a / d, b / d;
    assert a == d * q + a % d && b == d * r + b % d;
    assert d * q <= b < d * (r + 1);
    FactorCancels(d, q, r + 1);
  }

  lemma FactorCancels(d: nat, x: int, y: int)
    requires d * x < d * y
    ensures x < y
  {
  }

  lemma {:induction false} DivCancels(d: nat, n: nat)
    requires d > 0
    ensures d * n / d == n
  {
    var q := d * n / d;
    assert d * n == d * q + (d * n) % d;
    assert d * (n - q) == (d * n) % d;
    if n - q >= 1 { assert false; }
    if n - q <= -1 { assert false; }
  }

  /** The rows a lone enqueuer leaves behind. */
  function Enqueued(t: Tables, maxPending: nat, topic: string, e: Event, now: int): Tables {
    InsertOrIgnore(if |t.pending| >= maxPending then DeleteOldest(t) else t, FreshRow(e, topic, now))
  }

  /** What an enqueue stores: the event itself, under the given topic and stamp, untried.  Every other
      row is an old one, and only one row may be missing, at the cap, and only an oldest one. */
  lemma EnqueueStoresTheEvent(t: Tables, maxPending: nat, topic: string, e: Event, now: int)
    requires WellFormed(t)
    ensures var after, row := Enqueued(t, maxPending, topic, e, now), PendingRow(e.id, topic, Encoded(e), now, 0);
      && (e.id !in PendingIds(t) ==> row in after.pending)
      && (forall r :: r in after.pending ==> r == row || r in t.pending)
      && (forall r :: r in t.pending && r !in after.pending ==>
            |t.pending| >= maxPending && forall o :: o in t.pending ==> r.enqueuedAt <= o.enqueuedAt)
      && (forall r, q :: r in t.pending && q in t.pending && r !in after.pending && q !in after.pending ==> r == q)
      && after.dead == t.dead
  {
    var room := if |t.pending| >= maxPending then DeleteOldest(t) else t;
    var row := PendingRow(e.id, topic, Encoded(e), now, 0);
    if t.pending != [] { assert t.pending == [t.pending[0]] + t.pending[1..]; }
    InsertsTouchOnlyTheirRow(room, row);
  }

  /** The hard cap, as a bound that also covers `max_pending = 0` (which still holds one row). */
  function HardCap(maxPending: nat): nat { if maxPending == 0 then 1 else maxPending }

  lemma EnqueueRespectsTheCap(t: Tables, maxPending: nat, topic: string, e: Event, now: int)
    requires WellFormed(t)
    ensures var after := Enqueued(t, maxPending, topic, e, now);
      && WellFormed(after)
      && e.id in PendingIds(after)
      && after.dead == t.dead
      && (|after.pending| <= HardCap(maxPending) || |after.pending| <= |t.pending|)
      && (forall r :: r in t.pending && r !in after.pending ==>
            |t.pending| >= maxPending && forall o :: o in t.pending ==> r.enqueuedAt <= o.enqueuedAt)
  {
    var room := if |t.pending| >= maxPending then DeleteOldest(t) else t;
    DeleteOldestKeeps(t);
    InsertOrIgnoreKeeps(room, FreshRow(e, topic, now));
    if e.id !in PendingIds(room) {
      PlaceInOrderFacts(room.pending, FreshRow(e, topic, now));
    }
    forall r | r in t.pending && r !in Enqueued(t, maxPending, topic, e, now).pending
      ensures |t.pending| >= maxPending && r == t.pending[0]
    {
      assert t.pending == [t.pending[0]] + t.pending[1..];
    }
  }

  // ---------------------------------------------------------------- one drain

  /** The tables after one fetched row has been handled. */
  function AfterRow(t: Tables, row: PendingRow, reply: Reply): Tables {
    match row.payload
    case Garbled(_) => MoveToDlq(t, row, reply.at, "deserialize_error")
    case Encoded(_) =>
      if reply.accepted then DeleteRow(t, row.id)
      else if row.attempts + 1 >= MAX_ATTEMPTS then MoveToDlq(t, row, reply.at, reply.error)
      else UpdateAttempts(t, row.id, row.attempts + 1)
  }

  function Counted(row: PendingRow, reply: Reply): nat {
    if row.payload.Encoded? && reply.accepted then 1 else 0
  }

  function AfterRows(t: Tables, rows: seq<PendingRow>, k: nat, replies: nat -> Reply): Tables
    requires k <= |rows|
    decreases |rows| - k
  {
    if k == |rows| then t else AfterRows(AfterRow(t, rows[k], replies(k)), rows, k + 1, replies)
  }

  function CountedFrom(rows: seq<PendingRow>, k: nat, replies: nat -> Reply): nat
    requires k <= |rows|
    decreases |rows| - k
  {
    if k == |rows| then 0 else Counted(rows[k], replies(k)) + CountedFrom(rows, k + 1, replies)
  }

  function Drained(t: Tables, replies: nat -> Reply): Tables {
    AfterRows(t, OldestBatch(t), 0, replies)
  }

  function DrainCount(t: Tables, replies: nat -> Reply): nat {
    CountedFrom(OldestBatch(t), 0, replies)
  }

  /** What a drain hands to the broker for the rows it fetched: each event that parses, with its row's topic. */
  function Offers(rows: seq<PendingRow>): seq<Offer> {
    if rows == [] then [] else Offered(rows[0]) + Offers(rows[1..])
  }

  function Offered(row: PendingRow): seq<Offer> {
    match row.payload
    case Encoded(event) => [Offer(row.topic, event)]
    case Garbled(_) => []
  }

  lemma {:induction false} OffersOfConcat(a: seq<PendingRow>, b: seq<PendingRow>)
    ensures Offers(a + b) == Offers(a) + Offers(b)
  {
    hide Offered;
    if a == [] {
      assert a + b == b;
    } else {
      OffersOfConcat(a[1..], b);
      assert (a + b)[1..] == a[1..] + b;
    }
  }

  lemma OffersOfOne(row: PendingRow)
    ensures row.payload.Encoded? ==> Offers([row]) == [Offer(row.topic, row.payload.event)]
    ensures row.payload.Garbled? ==> Offers([row]) == []
  {
    assert [row][1..] == [];
  }

  lemma NoOffers()
    ensures Offers([]) == []
  {
  }

  lemma OffersOfNext(rows: seq<PendingRow>, k: nat)
    requires k < |rows|
    ensures rows[k].payload.Encoded? ==> Offers(rows[..k + 1]) == Offers(rows[..k]) + [Offer(rows[k].topic, rows[k].payload.event)]
    ensures rows[k].payload.Garbled? ==> Offers(rows[..k + 1]) == Offers(rows[..k])
  {
    OffersOfOne(rows[k]);
    OffersOfConcat(rows[..k], [rows[k]]);
    assert rows[..k] + [rows[k]] == rows[..k + 1];
  }

  /** Round trip through the queue: a stored event whose row a drain fetches is handed to the broker,
      the very event under the very topic it was enqueued with, at its place in the order. */
  lemma EnqueuedIsHandedOver(t: Tables, k: nat, topic: string, e: Event, at: int, attempts: int)
    requires k < |OldestBatch(t)| && OldestBatch(t)[k] == PendingRow(e.id, topic, Encoded(e), at, attempts)
    ensures var batch := OldestBatch(t);
      && Offers(batch) == Offers(batch[..k]) + [Offer(topic, e)] + Offers(batch[k + 1..])
      && Offer(topic, e) in Offers(batch)
  {
    var batch := OldestBatch(t);
    assert batch == batch[..k] + ([batch[k]] + batch[k + 1..]);
    OffersOfConcat(batch[..k], [batch[k]] + batch[k + 1..]);
    OffersOfConcat([batch[k]], batch[k + 1..]);
    OffersOfOne(batch[k]);
  }

  /** So an event enqueued into a queue of fewer than a hundred rows is handed over by the next drain. */
  lemma NextDrainHandsItOver(t: Tables, maxPending: nat, topic: string, e: Event, now: int)
    requires WellFormed(t) && e.id !in PendingIds(t) && |t.pending| < 100
    ensures Offer(topic, e) in Offers(OldestBatch(Enqueued(t, maxPending, topic, e, now)))
  {
    var after, row := Enqueued(t, maxPending, topic, e, now), PendingRow(e.id, topic, Encoded(e), now, 0);
    EnqueueStoresTheEvent(t, maxPending, topic, e, now);
    var room := if |t.pending| >= maxPending then DeleteOldest(t) else t;
    EvictedIsWellFormed(t);
    InsertOrIgnoreKeeps(room, row);
    assert OldestBatch(after) == after.pending;
    var k :| 0 <= k < |after.pending| && after.pending[k] == row;
    EnqueuedIsHandedOver(after, k, topic, e, now, 0);
  }

  lemma EvictedIsWellFormed(t: Tables)
    requires WellFormed(t)
    ensures WellFormed(DeleteOldest(t)) && |DeleteOldest(t).pending| <= |t.pending|
  {
    DeleteOldestKeeps(t);
  }

  /** What one fetched row leaves in the pending table: itself with one more attempt, or nothing. */
  function Survivor(row: PendingRow, reply: Reply): seq<PendingRow> {
    if row.payload.Encoded? && !reply.accepted && row.attempts + 1 < MAX_ATTEMPTS
    then [row.(attempts := row.attempts + 1)] else []
  }

  /** What one fetched row adds to the dead letters. */
  function Condemned(row: PendingRow, reply: Reply): set<EventId> {
    if row.payload.Garbled? || (!reply.accepted && row.attempts + 1 >= MAX_ATTEMPTS) then {row.id} else {}
  }

  function Survivors(rows: seq<PendingRow>, k: nat, replies: nat -> Reply): seq<PendingRow>
    requires k <= |rows|
    decreases |rows| - k
  {
    if k == |rows| then [] else Survivor(rows[k], replies(k)) + Survivors(rows, k + 1, replies)
  }

  function AllCondemned(rows: seq<PendingRow>, k: nat, replies: nat -> Reply): set<EventId>
    requires k <= |rows|
    decreases |rows| - k
  {
    if k == |rows| then {} else Condemned(rows[k], replies(k)) + AllCondemned(rows, k + 1, replies)
  }

  lemma OthersDiffer(done: seq<PendingRow>, row: PendingRow, rest: seq<PendingRow>)
    requires Distinct(done + [row] + rest)
    ensures row.id !in Ids(done) && row.id !in Ids(rest)
  {
    var all := done + [row] + rest;
    assert all[|done|] == row;
    forall i | 0 <= i < |done| ensures done[i].id != row.id {
      assert all[i] == done[i];
    }
    forall i | 0 <= i < |rest| ensures rest[i].id != row.id {
      assert all[|done| + 1 + i] == rest[i];
    }
  }

  lemma RowRemoved(done: seq<PendingRow>, row: PendingRow, rest: seq<PendingRow>)
    requires Distinct(done + [row] + rest)
    ensures Without(done + [row] + rest, row.id) == done + rest
  {
    OthersDiffer(done, row, rest);
    WithoutAbsent(done, row.id);
    WithoutAbsent(rest, row.id);
    WithoutSplits(done, [row] + rest, row.id);
    assert done + [row] + rest == done + ([row] + rest);
    assert ([row] + rest)[1..] == rest;
  }

  lemma RowBumped(done: seq<PendingRow>, row: PendingRow, rest: seq<PendingRow>, n: int)
    requires Distinct(done + [row] + rest)
    ensures WithAttempts(done + [row] + rest, row.id, n) == done + [row.(attempts := n)] + rest
  {
    OthersDiffer(done, row, rest);
    forall i | 0 <= i < |done| ensures done[i].id != row.id { assert done[i] in done; }
    forall i | 0 <= i < |rest| ensures rest[i].id != row.id { assert rest[i] in rest; }
  }

  lemma DistinctWithout(done: seq<PendingRow>, row: PendingRow, rest: seq<PendingRow>)
    requires Distinct(done + [row] + rest)
    ensures Distinct(done + rest)
  {
    var all, fewer := done + [row] + rest, done + rest;
    forall i, j | 0 <= i < j < |fewer| ensures fewer[i].id != fewer[j].id {
      var i', j' := if i < |done| then i else i + 1, if j < |done| then j else j + 1;
      assert all[i'] == fewer[i] && all[j'] == fewer[j];
    }
  }

  lemma DistinctBumped(done: seq<PendingRow>, row: PendingRow, rest: seq<PendingRow>, n: int)
    requires Distinct(done + [row] + rest)
    ensures Distinct(done + [row.(attempts := n)] + rest)
  {
    var all, bumped := done + [row] + rest, done + [row.(attempts := n)] + rest;
    forall i | 0 <= i < |all| ensures bumped[i].id == all[i].id { }
    forall i, j | 0 <= i < j < |bumped| ensures bumped[i].id != bumped[j].id {
      assert all[i].id != all[j].id;
    }
  }

  lemma RowEffect(t: Tables, done: seq<PendingRow>, row: PendingRow, more: seq<PendingRow>, reply: Reply)
    requires t.pending == done + [row] + more && Distinct(t.pending)
    ensures AfterRow(t, row, reply).pending == done + Survivor(row, reply) + more
    ensures AfterRow(t, row, reply).dead.Keys == t.dead.Keys + Condemned(row, reply)
    ensures Distinct(AfterRow(t, row, reply).pending)
  {
    RowRemoved(done, row, more);
    RowBumped(done, row, more, row.attempts + 1);
    if Survivor(row, reply) == [] {
      DistinctWithout(done, row, more);
      assert done + [] + more == done + more;
    } else {
      DistinctBumped(done, row, more, row.attempts + 1);
    }
  }

  /** Handling a batch rewrites exactly the batch's place in the listing: survivors stay in order
      with one more attempt, everything behind the batch is untouched. */
  lemma {:induction false} BatchEffect(t: Tables, done: seq<PendingRow>, rows: seq<PendingRow>, k: nat,
                                       rest: seq<PendingRow>, replies: nat -> Reply)
    requires k <= |rows| && t.pending == done + rows[k..] + rest && Distinct(t.pending)
    ensures AfterRows(t, rows, k, replies).pending == done + Survivors(rows, k, replies) + rest
    ensures AfterRows(t, rows, k, replies).dead.Keys == t.dead.Keys + AllCondemned(rows, k, replies)
    decreases |rows| - k
  {
    hide Survivor;
    hide Condemned;
    hide AfterRow;
    if k < |rows| {
      var row, more := rows[k], rows[k + 1..] + rest;
      assert done + rows[k..] + rest == done + [row] + more;
      RowEffect(t, done, row, more, replies(k));
      var next, done' := AfterRow(t, row, replies(k)), done + Survivor(row, replies(k));
      assert next.pending == done' + rows[k + 1..] + rest;
      BatchEffect(next, done', rows, k + 1, rest, replies);
      assert done' + Survivors(rows, k + 1, replies) == done + Survivors(rows, k, replies);
    } else {
      assert rows[k..] == [];
    }
  }

  /** One drain: the oldest rows, at most BATCH_LIMIT of them, give way to their survivors. */
  lemma DrainEffect(t: Tables, replies: nat -> Reply)
    requires Distinct(t.pending)
    ensures var batch := OldestBatch(t);
      && Drained(t, replies).pending == Survivors(batch, 0, replies) + t.pending[|batch|..]
      && Drained(t, replies).dead.Keys == t.dead.Keys + AllCondemned(batch, 0, replies)
  {
    var batch := OldestBatch(t);
    var rest := t.pending[|batch|..];
    assert t.pending == [] + batch[0..] + rest;
    BatchEffect(t, [], batch, 0, rest, replies);
    assert [] + Survivors(batch, 0, replies) == Survivors(batch, 0, replies);
  }

  lemma RestHasOtherIds(rows: seq<PendingRow>, k: nat)
    requires k < |rows| && Distinct(rows)
    ensures Ids(rows[k + 1..]) <= Ids(rows[k..]) && rows[k].id in Ids(rows[k..]) && rows[k].id !in Ids(rows[k + 1..])
  {
    forall r | r in rows[k + 1..] ensures r.id != rows[k].id && r in rows[k..] {
      var i :| k + 1 <= i < |rows| && rows[i] == r;
      assert rows[k..][i - k] == r;
    }
    assert rows[k..][0] == rows[k];
  }

  lemma OneRowOneFate(row: PendingRow, reply: Reply)
    ensures |Survivor(row, reply)| + Counted(row, reply) + |Condemned(row, reply)| == 1
    ensures Condemned(row, reply) <= {row.id}
  {
  }

  lemma {:induction false} BatchLedger(rows: seq<PendingRow>, k: nat, replies: nat -> Reply)
    requires k <= |rows| && Distinct(rows)
    ensures AllCondemned(rows, k, replies) <= Ids(rows[k..])
    ensures |rows| - k == |Survivors(rows, k, replies)| + CountedFrom(rows, k, replies) + |AllCondemned(rows, k, replies)|
    decreases |rows| - k
  {
    hide Distinct;
    hide Ids;
    hide Survivor;
    hide Counted;
    hide Condemned;
    if k < |rows| {
      BatchLedger(rows, k + 1, replies);
      RestHasOtherIds(rows, k);
      OneRowOneFate(rows[k], replies(k));
      assert Condemned(rows[k], replies(k)) !! AllCondemned(rows, k + 1, replies);
    }
  }

  /** Events a drain gives up on although their letters are there already: left in both tables by a
      replay that stopped half way. */
  function Reburied(t: Tables, replies: nat -> Reply): set<EventId> {
    AllCondemned(OldestBatch(t), 0, replies) * t.dead.Keys
  }

  /** Conservation: every row a drain takes out of the pending table is counted or dead-lettered. */
  lemma DrainBalances(t: Tables, replies: nat -> Reply)
    requires WellFormed(t)
    ensures var after := Drained(t, replies);
      && |t.pending| + |t.dead| == DrainCount(t, replies) + |after.pending| + |after.dead| + |Reburied(t, replies)|
      && WellFormed(after) && (KeyedById(t) ==> KeyedById(after)) && (Disjoint(t) ==> Disjoint(after))
      && PendingIds(after) <= PendingIds(t)
      && t.dead.Keys <= after.dead.Keys <= t.dead.Keys + PendingIds(t)
  {
    var batch := OldestBatch(t);
    var after := Drained(t, replies);
    var condemned := AllCondemned(batch, 0, replies);
    DrainEffect(t, replies);
    BatchLedger(batch, 0, replies);
    assert batch[0..] == batch;
    assert forall r :: r in batch ==> r in t.pending;
    UnionSize(t.dead.Keys, condemned);
    RowsKeepInvariant(t, batch, 0, replies);
  }

  lemma UnionSize<X>(a: set<X>, b: set<X>)
    ensures |a + b| + |b * a| == |a| + |b|
  {
    assert a + b == a + (b - a) && a !! (b - a);
    assert b == (b - a) + (b * a) && (b - a) !! (b * a);
  }

  lemma DrainConserves(t: Tables, replies: nat -> Reply)
    requires WellFormed(t) && Disjoint(t)
    ensures var after := Drained(t, replies);
      && |t.pending| + |t.dead| == DrainCount(t, replies) + |after.pending| + |after.dead|
      && WellFormed(after) && Disjoint(after)
      && PendingIds(after) <= PendingIds(t)
      && t.dead.Keys <= after.dead.Keys <= t.dead.Keys + PendingIds(t)
  {
    DrainBalances(t, replies);
    var batch := OldestBatch(t);
    assert forall r :: r in batch ==> r in t.pending;
    BatchLedger(batch, 0, replies);
    assert batch[0..] == batch;
    assert Ids(batch) <= PendingIds(t);
    assert Reburied(t, replies) == {};
  }

  lemma RowKeepsInvariant(t: Tables, row: PendingRow, reply: Reply)
    requires WellFormed(t) && 0 <= row.attempts
    ensures var after := AfterRow(t, row, reply);
      && WellFormed(after) && (KeyedById(t) ==> KeyedById(after)) && (Disjoint(t) ==> Disjoint(after))
      && PendingIds(after) <= PendingIds(t)
  {
    DeleteRowKeeps(t, row.id);
    MoveToDlqKeeps(t, row, reply.at, "deserialize_error");
    MoveToDlqKeeps(t, row, reply.at, reply.error);
    if row.attempts + 1 < MAX_ATTEMPTS { UpdateAttemptsKeeps(t, row.id, row.attempts + 1); }
  }

  lemma {:induction false} RowsKeepInvariant(t: Tables, rows: seq<PendingRow>, k: nat, replies: nat -> Reply)
    requires k <= |rows| && WellFormed(t)
    requires forall r :: r in rows ==> 0 <= r.attempts
    ensures var after := AfterRows(t, rows, k, replies);
      && WellFormed(after) && (KeyedById(t) ==> KeyedById(after)) && (Disjoint(t) ==> Disjoint(after))
      && PendingIds(after) <= PendingIds(t)
    decreases |rows| - k
  {
    hide WellFormed;
    hide KeyedById;
    hide Disjoint;
    if k < |rows| {
      RowKeepsInvariant(t, rows[k], replies(k));
      RowsKeepInvariant(AfterRow(t, rows[k], replies(k)), rows, k + 1, replies);
    }
  }

  // ---------------------------------------------------------------- replay and purge

  function Replayed(t: Tables, id: EventId, now: int): Tables {
    if id !in t.dead then t
    else
      var d := t.dead[id];
      DeleteDead(InsertOrReplace(t, PendingRow(d.id, d.topic, d.payload, now, 0)), d.id)
  }

  /** A replay that runs alone moves exactly one event back, ready for three more attempts; a row that
      an earlier, torn replay left pending is taken over. */
  lemma ReplayMovesOneEvent(t: Tables, id: EventId, now: int)
    requires WellFormed(t) && KeyedById(t) && id in t.dead
    ensures var after := Replayed(t, id, now);
      && WellFormed(after) && KeyedById(after) && (Disjoint(t) ==> Disjoint(after))
      && PendingIds(after) == PendingIds(t) + {id}
      && after.dead.Keys == t.dead.Keys - {id}
      && (forall r :: r in after.pending <==>
            r == PendingRow(id, t.dead[id].topic, t.dead[id].payload, now, 0) || (r in t.pending && r.id != id))
      && |after.pending| == |t.pending| + if id in PendingIds(t) then 0 else 1
  {
    var d := t.dead[id];
    var row := PendingRow(d.id, d.topic, d.payload, now, 0);
    InsertOrReplaceKeeps(t, row);
    WithoutOneRow(t.pending, id);
    PlaceInOrderContents(Without(t.pending, id), row);
    InsertsTouchOnlyTheirRow(t, row);
  }

  /** Round trip: a row whose third attempt fails, replayed, is pending again and nowhere else. */
  lemma CondemnThenReplay(t: Tables, row: PendingRow, failedAt: int, reason: string, now: int)
    requires WellFormed(t) && Disjoint(t) && KeyedById(t) && row in t.pending
    ensures var back := Replayed(MoveToDlq(t, row, failedAt, reason), row.id, now);
      PendingIds(back) == PendingIds(t) && back.dead == t.dead
  {
    MoveToDlqKeeps(t, row, failedAt, reason);
    var gone := MoveToDlq(t, row, failedAt, reason);
    ReplayMovesOneEvent(gone, row.id, now);
    assert row.id in PendingIds(t);
  }

  // ---------------------------------------------------------------- the queue object

  class DiskQueue {
    const maxPending: nat
    var tables: Tables
    var drainRunning: bool

    ghost predicate Valid()
      reads this
    {
      WellFormed(tables) && KeyedById(tables)
    }

    constructor (maxPending: nat)
      ensures Valid() && this.maxPending == maxPending
      ensures tables == Tables([], map[]) && !drainRunning
    {
      this.maxPending := maxPending;
      tables := Tables([], map[]);
      drainRunning := false;
    }

    method PendingCount() returns (n: nat)
      ensures n == |tables.pending|
    {
      n := |tables.pending|;
    }

    /** Returns the milliseconds slept. */
    method Enqueue(topic: string, event: Event, now: int) returns (slept: nat)
      requires Valid()
      modifies this`tables
      ensures Valid()
      ensures tables == Enqueued(old(tables), maxPending, topic, event, now)
      ensures slept == SleepMs(|old(tables).pending|, maxPending)
      ensures Disjoint(old(tables)) && event.id !in old(tables).dead ==> Disjoint(tables)
      ensures event.id !in PendingIds(old(tables)) ==>
        PendingRow(event.id, topic, Encoded(event), now, 0) in tables.pending
      ensures forall r :: r in tables.pending ==>
        r == PendingRow(event.id, topic, Encoded(event), now, 0) || r in old(tables).pending
      ensures forall r :: r in old(tables).pending && r !in tables.pending ==>
        |old(tables).pending| >= maxPending && forall o :: o in old(tables).pending ==> r.enqueuedAt <= o.enqueuedAt
      ensures forall r, q ::
        r in old(tables).pending && q in old(tables).pending && r !in tables.pending && q !in tables.pending ==> r == q
      ensures |old(tables).pending| <= HardCap(maxPending) ==> |tables.pending| <= HardCap(maxPending)
    {
      EnqueueRespectsTheCap(tables, maxPending, topic, event, now);
      EnqueueStoresTheEvent(tables, maxPending, topic, event, now);
      var count := PendingCount();
      var half := maxPending / 2;
      slept := 0;
      if count >= maxPending {
        var recount := PendingCount();
        if recount >= maxPending {
          slept := MAX_BACKPRESSURE_MS;
          DeleteOldestKeeps(tables);
          tables := DeleteOldest(tables);
        }
      } else if count > half {
        var range := if maxPending - half < 1 then 1 else maxPending - half;
        var over := count - half;
        slept := over * MAX_BACKPRESSURE_MS / range;
      }
      InsertOrIgnoreKeeps(tables, FreshRow(event, topic, now));
      tables := InsertOrIgnore(tables, FreshRow(event, topic, now));
    }

    method MoveRowToDlq(row: PendingRow, now: int, reason: string)
      modifies this`tables
      ensures tables == MoveToDlq(old(tables), row, now, reason)
    {
      tables := MoveToDlq(tables, row, now, reason);
    }

    /** The body of both drain loops: one fetched row against one broker answer.  A payload that does
        not parse is dead-lettered unsent; anything else is handed over, and then deleted, counted up,
        or at the third refusal dead-lettered with the broker's error. */
    method HandleRow(row: PendingRow, reply: Reply) returns (published: nat, handed: seq<Offer>)
      requires Valid() && 0 <= row.attempts
      modifies this`tables
      ensures Valid()
      ensures tables == AfterRow(old(tables), row, reply)
      ensures published == Counted(row, reply)
      ensures row.payload.Garbled? ==>
        published == 0 && handed == [] && tables == MoveToDlq(old(tables), row, reply.at, "deserialize_error")
      ensures row.payload.Encoded? ==>
        && handed == [Offer(row.topic, row.payload.event)]
        && published == (if reply.accepted then 1 else 0)
        && tables == (if reply.accepted then DeleteRow(old(tables), row.id)
                      else if row.attempts < 2 then UpdateAttempts(old(tables), row.id, row.attempts + 1)
                      else MoveToDlq(old(tables), row, reply.at, reply.error))
    {
      RowKeepsInvariant(tables, row, reply);
      published, handed := 0, [];
      match row.payload {
        case Garbled(_) =>
          MoveRowToDlq(row, reply.at, "deserialize_error");
        case Encoded(event) =>
          handed := [Offer(row.topic, event)];
          if reply.accepted {
            tables := DeleteRow(tables, row.id);
            published := 1;
          } else {
            var newAttempts := row.attempts + 1;
            if newAttempts >= MAX_ATTEMPTS {
              MoveRowToDlq(row, reply.at, reply.error);
            } else {
              tables := UpdateAttempts(tables, row.id, newAttempts);
            }
          }
      }
    }

    /** `drain`: up to BATCH_LIMIT rows, oldest first; returns how many the broker accepted, and what it
        was handed. */
    method Drain(replies: nat -> Reply) returns (published: nat, handed: seq<Offer>)
      requires Valid()
      modifies this`tables
      ensures Valid()
      ensures tables == Drained(old(tables), replies)
      ensures published == DrainCount(old(tables), replies)
      ensures handed == Offers(OldestBatch(old(tables)))
      ensures |old(tables).pending| + |old(tables).dead|
           == published + |tables.pending| + |tables.dead| + |Reburied(old(tables), replies)|
      ensures Disjoint(old(tables)) ==> Disjoint(tables)
    {
      DrainBalances(tables, replies);
      var rows := OldestBatch(tables);
      assert forall r :: r in rows ==> r in tables.pending;
      published, handed := DrainRows(rows, replies);
    }

    method DrainRows(rows: seq<PendingRow>, replies: nat -> Reply) returns (published: nat, handed: seq<Offer>)
      requires Valid() && forall r :: r in rows ==> 0 <= r.attempts
      modifies this`tables
      ensures Valid()
      ensures tables == AfterRows(old(tables), rows, 0, replies)
      ensures published == CountedFrom(rows, 0, replies)
      ensures handed == Offers(rows)
    {
      hide Offers;
      hide AfterRow;
      hide Counted;
      published, handed := 0, [];
      assert rows[..0] == [];
      NoOffers();
      var k := 0;
      while k < |rows|
        invariant 0 <= k <= |rows| && Valid()
        invariant AfterRows(tables, rows, k, replies) == AfterRows(old(tables), rows, 0, replies)
        invariant published + CountedFrom(rows, k, replies) == CountedFrom(rows, 0, replies)
        invariant handed == Offers(rows[..k])
      {
        assert rows[k] in rows;
        OffersOfNext(rows, k);
        var accepted, offered := HandleRow(rows[k], replies(k));
        published, handed := published + accepted, handed + offered;
        k := k + 1;
      }
      assert rows[..k] == rows;
    }

    /** `drain_nats`: skipped while another drain holds the flag; the flag is down again on return. */
    method DrainNats(replies: nat -> Reply) returns (published: nat, handed: seq<Offer>)
      requires Valid()
      modifies this
      ensures Valid() && drainRunning == old(drainRunning)
      ensures old(drainRunning) ==> published == 0 && handed == [] && tables == old(tables)
      ensures !old(drainRunning) ==>
        && tables == Drained(old(tables), replies) && published == DrainCount(old(tables), replies)
        && handed == Offers(OldestBatch(old(tables)))
    {
      if drainRunning {
        return 0, [];
      }
      drainRunning := true;
      published, handed := Drain(replies);
      drainRunning := false;
    }

    method ReplayDeadLetter(id: EventId, now: int) returns (found: bool)
      requires Valid()
      modifies this`tables
      ensures Valid()
      ensures found == (id in old(tables).dead)
      ensures tables == Replayed(old(tables), id, now)
    {
      if id !in tables.dead {
        return false;
      }
      ReplayMovesOneEvent(tables, id, now);
      var d := tables.dead[id];
      tables := InsertOrReplace(tables, PendingRow(d.id, d.topic, d.payload, now, 0));
      tables := DeleteDead(tables, d.id);
      found := true;
    }

    method PurgeDeadLetters() returns (purged: nat)
      requires Valid()
      modifies this`tables
      ensures Valid()
      ensures purged == |old(tables).dead|
      ensures tables == Tables(old(tables).pending, map[])
    {
      purged := |tables.dead|;
      tables := tables.(dead := map[]);
    }
  }
}
