/** How long a queue takes to empty.  Repeated drains against arbitrary broker answers, with no new
    enqueues, empty a queue of n rows within 3 * ceil(n / 100) drains, and account for every row. */
module DrainProgress {
  import opened DiskTables
  import opened DiskQueueModel

  /** `world(k)` answers the k-th drain. */
  function AfterDrains(t: Tables, k: nat, n: nat, world: nat -> nat -> Reply): Tables
    requires k <= n
    decreases n - k
  {
    if k == n then t else AfterDrains(Drained(t, world(k)), k + 1, n, world)
  }

  function TotalCount(t: Tables, k: nat, n: nat, world: nat -> nat -> Reply): nat
    requires k <= n
    decreases n - k
  {
    if k == n then 0 else DrainCount(t, world(k)) + TotalCount(Drained(t, world(k)), k + 1, n, world)
  }

  /** ceil(n / BATCH_LIMIT) */
  function Batches(n: nat): nat { (n + 99) / 100 }

  lemma {:induction false} SurvivorsAreFewer(rows: seq<PendingRow>, k: nat, replies: nat -> Reply)
    requires k <= |rows|
    ensures |Survivors(rows, k, replies)| <= |rows| - k
    decreases |rows| - k
  {
    if k < |rows| { SurvivorsAreFewer(rows, k + 1, replies); }
  }

  ghost predicate AtLeast(rows: seq<PendingRow>, attempts: int) {
    forall r :: r in rows ==> attempts <= r.attempts < MAX_ATTEMPTS
  }

  lemma {:induction false} RestAtLeast(rows: seq<PendingRow>, k: nat, m: nat, a: int)
    requires k < m <= |rows| && AtLeast(rows[k..m], a)
    ensures a <= rows[k].attempts < MAX_ATTEMPTS && AtLeast(rows[k + 1..m], a)
  {
    assert rows[k..m][0] == rows[k];
    forall r | r in rows[k + 1..m] ensures r in rows[k..m] {
      var i :| k + 1 <= i < m && rows[i] == r;
      assert rows[k..m][i - k] == r;
    }
  }

  lemma {:induction false} SurvivorAtLeast(row: PendingRow, a: int, reply: Reply)
    requires a <= row.attempts < MAX_ATTEMPTS
    ensures AtLeast(Survivor(row, reply), a + 1) && |Survivor(row, reply)| <= 1
    ensures a + 1 >= MAX_ATTEMPTS ==> Survivor(row, reply) == []
  {
  }

  /** The rows between `k` and `m` leave a front whose attempts have all gone up. */
  lemma {:induction false} SurvivorsSplit(rows: seq<PendingRow>, k: nat, m: nat, a: int, replies: nat -> Reply)
      returns (front: seq<PendingRow>)
    requires k <= m <= |rows| && AtLeast(rows[k..m], a)
    ensures Survivors(rows, k, replies) == front + Survivors(rows, m, replies)
    ensures |front| <= m - k && AtLeast(front, a + 1)
    ensures a + 1 >= MAX_ATTEMPTS ==> front == []
    decreases m - k
  {
    if k == m {
      front := [];
    } else {
      RestAtLeast(rows, k, m, a);
      var more := SurvivorsSplit(rows, k + 1, m, a, replies);
      front := Survivor(rows[k], replies(k)) + more;
      SurvivorAtLeast(rows[k], a, replies(k));
      assert front + Survivors(rows, m, replies) == Survivor(rows[k], replies(k)) + (more + Survivors(rows, m, replies));
    }
  }

  /** The first `m` rows of a batch as a drain leaves them, and the others. */
  lemma {:induction false} FrontSurvives(batch: seq<PendingRow>, m: nat, a: int, replies: nat -> Reply)
      returns (front: seq<PendingRow>, kept: seq<PendingRow>)
    requires m <= |batch| && AtLeast(batch[..m], a)
    ensures Survivors(batch, 0, replies) == front + kept
    ensures |front| <= m && |kept| <= |batch| - m && AtLeast(front, a + 1)
    ensures a + 1 >= MAX_ATTEMPTS ==> front == []
  {
    assert batch[0..m] == batch[..m];
    front := SurvivorsSplit(batch, 0, m, a, replies);
    kept := Survivors(batch, m, replies);
    SurvivorsAreFewer(batch, m, replies);
  }

  lemma Regroup<T>(a: seq<T>, b: seq<T>, c: seq<T>)
    ensures (a + b) + c == a + (b + c)
  {
  }

  /** One drain as seen by a front no longer than a batch: every row of it is tried. */
  lemma {:induction false} FrontIsTried(t: Tables, front: seq<PendingRow>, tail: seq<PendingRow>, a: int, replies: nat -> Reply)
      returns (front': seq<PendingRow>, tail': seq<PendingRow>)
    requires t.pending == front + tail && WellFormed(t)
    requires |front| <= BATCH_LIMIT && AtLeast(front, a)
    ensures WellFormed(Drained(t, replies)) && Drained(t, replies).pending == front' + tail'
    ensures |front'| <= |front| && |tail'| <= |tail| && AtLeast(front', a + 1)
    ensures a + 1 >= MAX_ATTEMPTS ==> front' == []
  {
    var batch := OldestBatch(t);
    DrainEffect(t, replies);
    DrainBalances(t, replies);
    hide Drained;
    hide WellFormed;
    hide AtLeast;
    assert batch[..|front|] == front;
    var kept;
    front', kept := FrontSurvives(batch, |front|, a, replies);
    hide Survivors;
    hide OldestBatch;
    tail' := kept + t.pending[|batch|..];
    Regroup(front', kept, t.pending[|batch|..]);
  }

  lemma {:induction false} FirstBatch(t: Tables) returns (front: seq<PendingRow>, tail: seq<PendingRow>)
    requires WellFormed(t)
    ensures front == OldestBatch(t) && t.pending == front + tail && AtLeast(front, 0)
  {
    front, tail := OldestBatch(t), t.pending[|OldestBatch(t)|..];
    assert forall r :: r in front ==> r in t.pending;
  }

  /** Three drains always clear the rows that were in the first batch. */
  lemma {:induction false} ThreeDrainsClearABatch(t: Tables, first: nat -> Reply, second: nat -> Reply, third: nat -> Reply)
    requires WellFormed(t)
    ensures |Drained(Drained(Drained(t, first), second), third).pending| <= |t.pending| - |OldestBatch(t)|
    ensures WellFormed(Drained(Drained(Drained(t, first), second), third))
  {
    hide Drained;
    hide WellFormed;
    hide AtLeast;
    var front, tail := FirstBatch(t);
    var front1, tail1 := FrontIsTried(t, front, tail, 0, first);
    var t1 := Drained(t, first);
    var front2, tail2 := FrontIsTried(t1, front1, tail1, 1, second);
    var front3, tail3 := FrontIsTried(Drained(t1, second), front2, tail2, 2, third);
  }

  lemma {:induction false} EmptyStaysEmpty(t: Tables, k: nat, n: nat, world: nat -> nat -> Reply)
    requires k <= n && t.pending == []
    ensures AfterDrains(t, k, n, world).pending == []
    decreases n - k
  {
    if k < n {
      DrainEffect(t, world(k));
      EmptyStaysEmpty(Drained(t, world(k)), k + 1, n, world);
    }
  }

  lemma {:induction false} EmptiesFrom(t: Tables, k: nat, n: nat, world: nat -> nat -> Reply)
    requires WellFormed(t)
    requires k + 3 * Batches(|t.pending|) <= n
    ensures AfterDrains(t, k, n, world).pending == []
    decreases |t.pending|
  {
    if t.pending == [] {
      EmptyStaysEmpty(t, k, n, world);
    } else {
      var t1 := Drained(t, world(k));
      var t2 := Drained(t1, world(k + 1));
      var t3 := Drained(t2, world(k + 2));
      ThreeDrainsClearABatch(t, world(k), world(k + 1), world(k + 2));
      assert Batches(|t3.pending|) + 1 <= Batches(|t.pending|);
      EmptiesFrom(t3, k + 3, n, world);
      assert AfterDrains(t, k, n, world) == AfterDrains(t1, k + 1, n, world)
          == AfterDrains(t2, k + 2, n, world) == AfterDrains(t3, k + 3, n, world);
    }
  }

  lemma {:induction false} DrainsConserve(t: Tables, k: nat, n: nat, world: nat -> nat -> Reply)
    requires WellFormed(t) && Disjoint(t) && k <= n
    ensures var after := AfterDrains(t, k, n, world);
      && |t.pending| + |t.dead| == TotalCount(t, k, n, world) + |after.pending| + |after.dead|
      && WellFormed(after) && Disjoint(after)
      && t.dead.Keys <= after.dead.Keys <= t.dead.Keys + PendingIds(t)
    decreases n - k
  {
    if k < n {
      DrainConserves(t, world(k));
      DrainsConserve(Drained(t, world(k)), k + 1, n, world);
    }
  }

  lemma NewKeys(before: set<EventId>, after: set<EventId>, candidates: set<EventId>)
    requires before <= after <= before + candidates
    ensures |after - before| == |after| - |before| && after - before <= candidates
  {
    assert after == before + (after - before);
  }

  /** Main result: whatever the broker answers, `3 * ceil(n / 100)` drains (or more) leave nothing
      pending; each row was either counted as published or is now a dead letter. */
  lemma {:induction false} QueueEmpties(t: Tables, n: nat, world: nat -> nat -> Reply)
    requires WellFormed(t)
    requires n >= 3 * Batches(|t.pending|)
    ensures var after := AfterDrains(t, 0, n, world);
      && after.pending == []
      && (Disjoint(t) ==>
            && |t.pending| == TotalCount(t, 0, n, world) + |after.dead.Keys - t.dead.Keys|
            && after.dead.Keys - t.dead.Keys <= PendingIds(t))
  {
    EmptiesFrom(t, 0, n, world);
    if Disjoint(t) { DrainsConserve(t, 0, n, world); }
    hide *;
    if Disjoint(t) { NewKeys(t.dead.Keys, AfterDrains(t, 0, n, world).dead.Keys, PendingIds(t)); }
  }

  // ---------------------------------------------------------------- the bound is attained

  function Refuse(k: nat): nat -> Reply {
    (i: nat) => Reply(false, "refused", 0)
  }

  function Tried(rows: seq<PendingRow>, a: int): seq<PendingRow> {
    seq(|rows|, i requires 0 <= i < |rows| => rows[i].(attempts := a))
  }

  ghost predicate Fresh(rows: seq<PendingRow>) {
    forall i :: 0 <= i < |rows| ==> rows[i].payload.Encoded? && rows[i].attempts == 0
  }

  lemma FreshIsTriedZeroTimes(rows: seq<PendingRow>)
    requires Fresh(rows)
    ensures Tried(rows, 0) == rows
  {
  }

  lemma {:induction false} AllRefused(rows: seq<PendingRow>, k: nat, a: int)
    requires k <= |rows| && Fresh(rows)
    ensures Survivors(Tried(rows, a), k, Refuse(0)) == if a + 1 < MAX_ATTEMPTS then Tried(rows[k..], a + 1) else []
    decreases |rows| - k
  {
    if k < |rows| {
      AllRefused(rows, k + 1, a);
      assert rows[k].payload.Encoded?;
    }
  }

  lemma {:induction false} RefusedFront(t: Tables, front: seq<PendingRow>, tail: seq<PendingRow>, a: int)
    requires Fresh(front) && t.pending == Tried(front, a) + tail && WellFormed(t)
    requires |front| == BATCH_LIMIT || (|front| < BATCH_LIMIT && tail == [])
    ensures Drained(t, Refuse(0)).pending == (if a + 1 < MAX_ATTEMPTS then Tried(front, a + 1) else []) + tail
    ensures WellFormed(Drained(t, Refuse(0)))
  {
    var batch := Tried(front, a);
    assert OldestBatch(t) == batch && t.pending[|batch|..] == tail;
    DrainEffect(t, Refuse(0));
    DrainBalances(t, Refuse(0));
    AllRefused(front, 0, a);
    assert front[0..] == front;
  }

  /** Three refusing drains take a queue of never-tried rows to what lies behind its first batch,
      and not a drain earlier. */
  lemma {:induction false} RefusedBatch(t: Tables, front: seq<PendingRow>, tail: seq<PendingRow>)
    requires Fresh(front) && front != [] && t.pending == Tried(front, 0) + tail && WellFormed(t)
    requires |front| == BATCH_LIMIT || (|front| < BATCH_LIMIT && tail == [])
    ensures var t2 := Drained(Drained(t, Refuse(0)), Refuse(0));
      && t2.pending != []
      && WellFormed(Drained(t2, Refuse(0)))
      && Drained(t2, Refuse(0)).pending == tail
  {
    RefusedFront(t, front, tail, 0);
    var t1 := Drained(t, Refuse(0));
    RefusedFront(t1, front, tail, 1);
    var t2 := Drained(t1, Refuse(0));
    RefusedFront(t2, front, tail, 2);
    assert [] + tail == tail;
  }

  lemma {:induction false} UnfoldTwo(t: Tables, k: nat, n: nat)
    requires k + 2 <= n
    ensures AfterDrains(t, k, n, Refuse) == AfterDrains(Drained(Drained(t, Refuse(0)), Refuse(0)), k + 2, n, Refuse)
  {
    var t1 := Drained(t, Refuse(0));
    assert Refuse(k) == Refuse(0) && Refuse(k + 1) == Refuse(0);
    assert AfterDrains(t1, k + 1, n, Refuse) == AfterDrains(Drained(t1, Refuse(0)), k + 2, n, Refuse);
  }

  /** One drain fewer is not enough: a queue of never-tried rows that are always refused is still
      not empty after `3 * ceil(n / 100) - 1` drains. */
  lemma {:induction false} TheBoundIsAttained(t: Tables, k: nat)
    requires WellFormed(t) && Fresh(t.pending) && t.pending != []
    ensures AfterDrains(t, k, k + 3 * Batches(|t.pending|) - 1, Refuse).pending != []
    decreases |t.pending|
  {
    var n := k + 3 * Batches(|t.pending|) - 1;
    var front, tail := OldestBatch(t), t.pending[|OldestBatch(t)|..];
    FreshIsTriedZeroTimes(front);
    RefusedBatch(t, front, tail);
    assert Refuse(k) == Refuse(0) && Refuse(k + 1) == Refuse(0) && Refuse(k + 2) == Refuse(0);
    var t2 := Drained(Drained(t, Refuse(0)), Refuse(0));
    UnfoldTwo(t, k, n);
    if tail == [] {
      assert n == k + 2;
    } else {
      assert Batches(|tail|) + 1 == Batches(|t.pending|);
      TheBoundIsAttained(Drained(t2, Refuse(0)), k + 3);
    }
  }
}
