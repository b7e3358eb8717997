/** The two SQLite tables behind the durable broker queue, and the single statements the queue
    runs against them.  Each function here is one statement (or one transaction), so both the
    sequential queue and the interleaved one are built from the same pieces.

    The pending table is a sequence listed in the order the queue reads it:
    `ORDER BY enqueued_at ASC`, rows with equal stamps in insertion order. */
module DiskTables {

  type EventId = nat

  datatype Event = Event(id: EventId, topic: string, body: string)

  /** The `payload` column: JSON that parses back to the event it was made from, or text that does not parse. */
  datatype Payload = Encoded(event: Event) | Garbled(text: string)

  datatype PendingRow = PendingRow(id: EventId, topic: string, payload: Payload, enqueuedAt: int, attempts: int)

  datatype DeadLetter = DeadLetter(id: EventId, topic: string, payload: Payload, failedAt: int, reason: string)

  datatype Tables = Tables(pending: seq<PendingRow>, dead: map<EventId, DeadLetter>)

  const BATCH_LIMIT: nat := 100
  const MAX_ATTEMPTS: int := 3

  function Ids(rows: seq<PendingRow>): set<EventId> {
    set r | r in rows :: r.id
  }

  function PendingIds(t: Tables): set<EventId> {
    Ids(t.pending)
  }

  ghost predicate Distinct(rows: seq<PendingRow>) {
    forall i, j :: 0 <= i < j < |rows| ==> rows[i].id != rows[j].id
  }

  ghost predicate Ordered(rows: seq<PendingRow>) {
    forall i, j :: 0 <= i < j < |rows| ==> rows[i].enqueuedAt <= rows[j].enqueuedAt
  }

  ghost predicate FewAttempts(rows: seq<PendingRow>) {
    forall r :: r in rows ==> 0 <= r.attempts < MAX_ATTEMPTS
  }

  /** What every statement keeps: the primary key, the listing order and the retry bound. */
  ghost predicate WellFormed(t: Tables) {
    Distinct(t.pending) && Ordered(t.pending) && FewAttempts(t.pending)
  }

  ghost predicate Disjoint(t: Tables) {
    PendingIds(t) !! t.dead.Keys
  }

  ghost predicate KeyedById(t: Tables) {
    forall id :: id in t.dead ==> t.dead[id].id == id
  }

  // ---------------------------------------------------------------- statements

  function FreshRow(e: Event, topic: string, now: int): PendingRow {
    PendingRow(e.id, topic, Encoded(e), now, 0)
  }

  /** Places a row behind every row with the same or an earlier stamp. */
  function PlaceInOrder(rows: seq<PendingRow>, row: PendingRow): seq<PendingRow> {
    if rows == [] || row.enqueuedAt < rows[0].enqueuedAt then [row] + rows
    else [rows[0]] + PlaceInOrder(rows[1..], row)
  }

  function Without(rows: seq<PendingRow>, id: EventId): seq<PendingRow> {
    if rows == [] then []
    else if rows[0].id == id then Without(rows[1..], id)
    else [rows[0]] + Without(rows[1..], id)
  }

  function WithAttempts(rows: seq<PendingRow>, id: EventId, attempts: int): seq<PendingRow> {
    seq(|rows|, i requires 0 <= i < |rows| =>
      if rows[i].id == id then rows[i].(attempts := attempts) else rows[i])
  }

  /** `INSERT OR IGNORE INTO pending_events` */
  function InsertOrIgnore(t: Tables, row: PendingRow): Tables {
    if row.id in PendingIds(t) then t else t.(pending := PlaceInOrder(t.pending, row))
  }

  /** `INSERT OR REPLACE INTO pending_events` */
  function InsertOrReplace(t: Tables, row: PendingRow): Tables {
    t.(pending := PlaceInOrder(Without(t.pending, row.id), row))
  }

  /** `DELETE ... WHERE id = (SELECT id ... ORDER BY enqueued_at ASC LIMIT 1)` */
  function DeleteOldest(t: Tables): Tables {
    if t.pending == [] then t else t.(pending := t.pending[1..])
  }

  function DeleteRow(t: Tables, id: EventId): Tables {
    t.(pending := Without(t.pending, id))
  }

  function UpdateAttempts(t: Tables, id: EventId, attempts: int): Tables {
    t.(pending := WithAttempts(t.pending, id, attempts))
  }

  /** The `move_to_dlq` transaction: insert-or-ignore into the dead letters, delete from pending. */
  function MoveToDlq(t: Tables, row: PendingRow, now: int, reason: string): Tables {
    var dead := if row.id in t.dead then t.dead
                else t.dead[row.id := DeadLetter(row.id, row.topic, row.payload, now, reason)];
    Tables(Without(t.pending, row.id), dead)
  }

  function DeleteDead(t: Tables, id: EventId): Tables {
    t.(dead := t.dead - {id})
  }

  /** `SELECT ... ORDER BY enqueued_at ASC LIMIT 100` */
  function OldestBatch(t: Tables): (batch: seq<PendingRow>)
    ensures batch <= t.pending
    ensures |batch| == if |t.pending| < BATCH_LIMIT then |t.pending| else BATCH_LIMIT
  {
    t.pending[..if |t.pending| < BATCH_LIMIT then |t.pending| else BATCH_LIMIT]
  }

  // ---------------------------------------------------------------- what the statements keep

  lemma {:induction false} PlaceInOrderContents(rows: seq<PendingRow>, row: PendingRow)
    ensures |PlaceInOrder(rows, row)| == |rows| + 1
    ensures forall r :: r in PlaceInOrder(rows, row) <==> r == row || r in rows
  {
    if rows == [] || row.enqueuedAt < rows[0].enqueuedAt {
      assert PlaceInOrder(rows, row) == [row] + rows;
    } else {
      PlaceInOrderContents(rows[1..], row);
      assert rows == [rows[0]] + rows[1..];
    }
  }

  lemma {:induction false} PlaceInOrderIsOrdered(rows: seq<PendingRow>, row: PendingRow)
    requires Ordered(rows)
    ensures Ordered(PlaceInOrder(rows, row))
  {
    if rows != [] && rows[0].enqueuedAt <= row.enqueuedAt {
      var placed := PlaceInOrder(rows[1..], row);
      PlaceInOrderIsOrdered(rows[1..], row);
      PlaceInOrderContents(rows[1..], row);
      forall i | 0 <= i < |placed| ensures rows[0].enqueuedAt <= placed[i].enqueuedAt {
        assert placed[i] in placed;
      }
    }
  }

  lemma {:induction false} PlaceInOrderIsDistinct(rows: seq<PendingRow>, row: PendingRow)
    requires Distinct(rows) && forall r :: r in rows ==> r.id != row.id
    ensures Distinct(PlaceInOrder(rows, row))
  {
    if rows != [] && rows[0].enqueuedAt <= row.enqueuedAt {
      var placed := PlaceInOrder(rows[1..], row);
      PlaceInOrderIsDistinct(rows[1..], row);
      PlaceInOrderContents(rows[1..], row);
      forall i | 0 <= i < |placed| ensures rows[0].id != placed[i].id {
        assert placed[i] in placed;
      }
    }
  }

  /** A row goes behind every one with the same or an earlier stamp, and before all others. */
  lemma {:induction false} PlaceInOrderSplits(rows: seq<PendingRow>, row: PendingRow) returns (at: nat)
    requires Ordered(rows)
    ensures at <= |rows| && PlaceInOrder(rows, row) == rows[..at] + [row] + rows[at..]
    ensures forall i :: 0 <= i < at ==> rows[i].enqueuedAt <= row.enqueuedAt
    ensures forall i :: at <= i < |rows| ==> row.enqueuedAt < rows[i].enqueuedAt
  {
    if rows == [] || row.enqueuedAt < rows[0].enqueuedAt {
      at := 0;
    } else {
      var rest := PlaceInOrderSplits(rows[1..], row);
      at := rest + 1;
      assert rows[..at] == [rows[0]] + rows[1..][..rest];
    }
  }

  lemma PlaceInOrderFacts(rows: seq<PendingRow>, row: PendingRow)
    requires Ordered(rows)
    requires Distinct(rows) && row.id !in Ids(rows)
    ensures |PlaceInOrder(rows, row)| == |rows| + 1
    ensures forall r :: r in PlaceInOrder(rows, row) <==> r == row || r in rows
    ensures Ids(PlaceInOrder(rows, row)) == Ids(rows) + {row.id}
    ensures Ordered(PlaceInOrder(rows, row)) && Distinct(PlaceInOrder(rows, row))
  {
    PlaceInOrderContents(rows, row);
    PlaceInOrderIsOrdered(rows, row);
    PlaceInOrderIsDistinct(rows, row);
  }

  lemma {:induction false} WithoutContents(rows: seq<PendingRow>, id: EventId)
    ensures |Without(rows, id)| <= |rows|
    ensures forall r :: r in Without(rows, id) <==> r in rows && r.id != id
  {
    if rows != [] {
      WithoutContents(rows[1..], id);
      assert rows == [rows[0]] + rows[1..];
    }
  }

  lemma {:induction false} WithoutIsOrdered(rows: seq<PendingRow>, id: EventId)
    requires Ordered(rows)
    ensures Ordered(Without(rows, id))
  {
    if rows != [] {
      var kept := Without(rows[1..], id);
      WithoutIsOrdered(rows[1..], id);
      WithoutContents(rows[1..], id);
      forall i | 0 <= i < |kept| ensures rows[0].enqueuedAt <= kept[i].enqueuedAt {
        assert kept[i] in kept;
      }
    }
  }

  lemma {:induction false} WithoutIsDistinct(rows: seq<PendingRow>, id: EventId)
    requires Distinct(rows)
    ensures Distinct(Without(rows, id))
  {
    if rows != [] {
      var kept := Without(rows[1..], id);
      WithoutIsDistinct(rows[1..], id);
      WithoutContents(rows[1..], id);
      forall i | 0 <= i < |kept| ensures rows[0].id != kept[i].id {
        assert kept[i] in kept;
      }
    }
  }

  lemma {:induction false} WithoutAbsent(rows: seq<PendingRow>, id: EventId)
    requires id !in Ids(rows)
    ensures Without(rows, id) == rows
  {
    if rows != [] {
      assert rows[0] in rows;
      assert forall r :: r in rows[1..] ==> r in rows;
      WithoutAbsent(rows[1..], id);
    }
  }

  lemma {:induction false} WithoutOneRow(rows: seq<PendingRow>, id: EventId)
    requires Distinct(rows)
    ensures |Without(rows, id)| == |rows| - if id in Ids(rows) then 1 else 0
  {
    if rows != [] {
      assert rows == [rows[0]] + rows[1..];
      if rows[0].id == id {
        forall r | r in rows[1..] ensures r.id != id {
          var i :| 1 <= i < |rows| && rows[i] == r;
        }
        WithoutAbsent(rows[1..], id);
      } else {
        WithoutOneRow(rows[1..], id);
        assert id in Ids(rows) <==> id in Ids(rows[1..]);
      }
    }
  }

  lemma WithoutFacts(rows: seq<PendingRow>, id: EventId)
    requires Ordered(rows) && Distinct(rows)
    ensures |Without(rows, id)| <= |rows|
    ensures forall r :: r in Without(rows, id) <==> r in rows && r.id != id
    ensures Ids(Without(rows, id)) == Ids(rows) - {id}
    ensures Ordered(Without(rows, id)) && Distinct(Without(rows, id))
  {
    WithoutContents(rows, id);
    WithoutIsOrdered(rows, id);
    WithoutIsDistinct(rows, id);
  }

  lemma {:induction false} WithoutSplits(front: seq<PendingRow>, back: seq<PendingRow>, id: EventId)
    ensures Without(front + back, id) == Without(front, id) + Without(back, id)
  {
    if front == [] {
      assert front + back == back;
    } else {
      WithoutSplits(front[1..], back, id);
      assert (front + back)[1..] == front[1..] + back;
    }
  }

  lemma WithAttemptsFacts(rows: seq<PendingRow>, id: EventId, attempts: int)
    ensures Ids(WithAttempts(rows, id, attempts)) == Ids(rows)
    ensures Ordered(rows) ==> Ordered(WithAttempts(rows, id, attempts))
    ensures Distinct(rows) ==> Distinct(WithAttempts(rows, id, attempts))
    ensures FewAttempts(rows) && 0 <= attempts < MAX_ATTEMPTS ==> FewAttempts(WithAttempts(rows, id, attempts))
  {
    var after := WithAttempts(rows, id, attempts);
    forall x ensures x in Ids(after) <==> x in Ids(rows) {
      if x in Ids(after) {
        var r :| r in after && r.id == x;
        var i :| 0 <= i < |after| && after[i] == r;
        assert rows[i] in rows;
      }
      if x in Ids(rows) {
        var r :| r in rows && r.id == x;
        var i :| 0 <= i < |rows| && rows[i] == r;
        assert after[i] in after;
      }
    }
    if FewAttempts(rows) && 0 <= attempts < MAX_ATTEMPTS {
      forall r | r in after ensures 0 <= r.attempts < MAX_ATTEMPTS {
        var i :| 0 <= i < |after| && after[i] == r;
        assert rows[i] in rows;
      }
    }
  }

  /** Every statement keeps the table invariant, and says exactly which ids it adds or takes away. */
  lemma InsertOrIgnoreKeeps(t: Tables, row: PendingRow)
    requires WellFormed(t) && 0 <= row.attempts < MAX_ATTEMPTS
    ensures WellFormed(InsertOrIgnore(t, row))
    ensures PendingIds(InsertOrIgnore(t, row)) == PendingIds(t) + {row.id}
    ensures |InsertOrIgnore(t, row).pending| == |t.pending| + if row.id in PendingIds(t) then 0 else 1
  {
    if row.id !in PendingIds(t) {
      PlaceInOrderFacts(t.pending, row);
    }
  }

  lemma InsertOrReplaceKeeps(t: Tables, row: PendingRow)
    requires WellFormed(t) && 0 <= row.attempts < MAX_ATTEMPTS
    ensures WellFormed(InsertOrReplace(t, row))
    ensures PendingIds(InsertOrReplace(t, row)) == PendingIds(t) + {row.id}
  {
    WithoutFacts(t.pending, row.id);
    PlaceInOrderFacts(Without(t.pending, row.id), row);
  }

  lemma DeleteOldestKeeps(t: Tables)
    requires WellFormed(t)
    ensures WellFormed(DeleteOldest(t))
    ensures t.pending != [] ==>
      PendingIds(DeleteOldest(t)) == PendingIds(t) - {t.pending[0].id} &&
      forall r :: r in t.pending ==> t.pending[0].enqueuedAt <= r.enqueuedAt
  {
    if t.pending != [] {
      var rest := t.pending[1..];
      assert t.pending == [t.pending[0]] + rest;
      assert forall r :: r in rest ==> r.id != t.pending[0].id;
      assert forall r :: r in t.pending <==> r == t.pending[0] || r in rest;
    }
  }

  lemma DeleteRowKeeps(t: Tables, id: EventId)
    requires WellFormed(t)
    ensures WellFormed(DeleteRow(t, id))
    ensures PendingIds(DeleteRow(t, id)) == PendingIds(t) - {id}
  {
    WithoutFacts(t.pending, id);
  }

  lemma UpdateAttemptsKeeps(t: Tables, id: EventId, attempts: int)
    requires WellFormed(t) && 0 <= attempts < MAX_ATTEMPTS
    ensures WellFormed(UpdateAttempts(t, id, attempts))
    ensures PendingIds(UpdateAttempts(t, id, attempts)) == PendingIds(t)
    ensures forall r :: r in UpdateAttempts(t, id, attempts).pending && r.id == id ==> r.attempts == attempts
  {
    WithAttemptsFacts(t.pending, id, attempts);
  }

  lemma MoveToDlqKeeps(t: Tables, row: PendingRow, now: int, reason: string)
    requires WellFormed(t)
    ensures WellFormed(MoveToDlq(t, row, now, reason))
    ensures PendingIds(MoveToDlq(t, row, now, reason)) == PendingIds(t) - {row.id}
    ensures MoveToDlq(t, row, now, reason).dead.Keys == t.dead.Keys + {row.id}
  {
    WithoutFacts(t.pending, row.id);
  }

  // ---------------------------------------------------------------- and what they leave alone

  /** An ignored insert changes no row; a replacing one exchanges at most the row with its id. */
  lemma InsertsTouchOnlyTheirRow(t: Tables, row: PendingRow)
    ensures forall r :: r in InsertOrIgnore(t, row).pending <==>
      r in t.pending || (r == row && row.id !in PendingIds(t))
    ensures forall r :: r in InsertOrReplace(t, row).pending <==> r == row || (r in t.pending && r.id != row.id)
    ensures InsertOrIgnore(t, row).dead == t.dead && InsertOrReplace(t, row).dead == t.dead
  {
    WithoutContents(t.pending, row.id);
    PlaceInOrderContents(t.pending, row);
    PlaceInOrderContents(Without(t.pending, row.id), row);
  }

  /** Dead-lettering keeps every other row, never overwrites a letter, and a new letter carries the
      row's topic and payload with the reason. */
  lemma DeadLetteringKeepsTheFirstLetter(t: Tables, row: PendingRow, now: int, reason: string)
    ensures var after := MoveToDlq(t, row, now, reason);
      && (forall r :: r in after.pending <==> r in t.pending && r.id != row.id)
      && (forall id :: id in t.dead ==> id in after.dead && after.dead[id] == t.dead[id])
      && (row.id !in t.dead ==>
            row.id in after.dead && after.dead[row.id] == DeadLetter(row.id, row.topic, row.payload, now, reason))
      && (forall id :: id in after.dead ==> id in t.dead || id == row.id)
  {
    WithoutContents(t.pending, row.id);
  }

  /** Deleting the row that was just delivered takes nothing else along. */
  lemma DeleteTakesOnlyItsRow(t: Tables, id: EventId)
    ensures forall r :: r in DeleteRow(t, id).pending <==> r in t.pending && r.id != id
    ensures DeleteRow(t, id).dead == t.dead
  {
    WithoutContents(t.pending, id);
  }

  /** The named row, and only it, now carries the new count; everything else about it stays. */
  lemma UpdateCountsOneRow(t: Tables, id: EventId, attempts: int)
    ensures var after := UpdateAttempts(t, id, attempts);
      && after.dead == t.dead && |after.pending| == |t.pending|
      && forall i :: 0 <= i < |t.pending| ==>
           && after.pending[i].(attempts := t.pending[i].attempts) == t.pending[i]
           && after.pending[i].attempts == if t.pending[i].id == id then attempts else t.pending[i].attempts
  {
  }
}
