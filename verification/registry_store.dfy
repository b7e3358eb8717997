/** `MemoryAgentRegistryStore`: the persistent side of the mirror, as rows keyed by goal id. */
module RegistryStore {
  import opened AgentTypes
  import opened Options
  import Spec = RegistrySpec

  ghost predicate KeyedByGoal(rows: map<GoalId, AgentHandle>) {
    forall id :: id in rows ==> rows[id].goalId == id
  }

  predicate DistinctGoals(out: seq<AgentHandle>) {
    forall i, j :: 0 <= i < j < |out| ==> out[i].goalId != out[j].goalId
  }

  predicate NewestFirst(out: seq<AgentHandle>) {
    forall i, j :: 0 <= i < j < |out| ==> out[i].startedAt >= out[j].startedAt
  }

  /** `out` lists, newest `started_at` first, each row whose id is not in `left`, once. */
  ghost predicate ListsAllBut(rows: map<GoalId, AgentHandle>, out: seq<AgentHandle>, left: set<GoalId>) {
    && DistinctGoals(out) && NewestFirst(out)
    && (forall h :: h in out ==> h.goalId in rows && h.goalId !in left && rows[h.goalId] == h)
    && (forall id :: id in rows && id !in left ==> rows[id] in out)
  }

  ghost predicate Lists(rows: map<GoalId, AgentHandle>, out: seq<AgentHandle>) {
    ListsAllBut(rows, out, {})
  }

  predicate IsNewest(rows: map<GoalId, AgentHandle>, left: set<GoalId>, n: GoalId)
    requires left <= rows.Keys
  {
    n in left && forall id :: id in left ==> rows[n].startedAt >= rows[id].startedAt
  }

  lemma ListingGrows(rows: map<GoalId, AgentHandle>, out: seq<AgentHandle>, left: set<GoalId>, n: GoalId)
    requires KeyedByGoal(rows) && left <= rows.Keys && IsNewest(rows, left, n) && ListsAllBut(rows, out, left)
    requires forall h :: h in out ==> h.startedAt >= rows[n].startedAt
    ensures ListsAllBut(rows, out + [rows[n]], left - {n})
  {
    var grown := out + [rows[n]];
    forall i | 0 <= i < |out| ensures out[i].goalId != n && out[i].startedAt >= rows[n].startedAt {
      assert out[i] in out;
    }
    assert grown[|out|] == rows[n];
    forall id | id in rows && id !in left - {n} ensures rows[id] in grown {}
  }

  class MemoryAgentRegistryStore {
    var rows: map<GoalId, AgentHandle>

    constructor ()
      ensures rows == map[]
    {
      rows := map[];
    }

    method Upsert(h: AgentHandle)
      modifies this
      ensures rows == old(rows)[h.goalId := h]
      ensures KeyedByGoal(old(rows)) ==> KeyedByGoal(rows)
    {
      rows := rows[h.goalId := h];
    }

    method Remove(id: GoalId)
      modifies this
      ensures rows == old(rows) - {id}
    {
      rows := rows - {id};
    }

    method List() returns (out: seq<AgentHandle>)
      requires KeyedByGoal(rows)
      ensures Lists(rows, out)
    {
      out := [];
      var left := rows.Keys;
      while left != {}
        invariant left <= rows.Keys && ListsAllBut(rows, out, left)
        invariant forall h, id :: h in out && id in left ==> h.startedAt >= rows[id].startedAt
        decreases left
      {
        NewestExists(rows, left);
        var newest :| newest in left && IsNewest(rows, left, newest);
        ListingGrows(rows, out, left, newest);
        out := out + [rows[newest]];
        left := left - {newest};
      }
    }

    method EvictTerminalOlderThan(cutoff: Instant) returns (n: nat)
      modifies this
      ensures rows == old(rows) - Spec.StoreVictims(old(rows), cutoff)
      ensures n == |Spec.StoreVictims(old(rows), cutoff)|
    {
      var victims := Spec.StoreVictims(rows, cutoff);
      n := |victims|;
      rows := rows - victims;
    }
  }

  lemma {:induction false} NewestExists(rows: map<GoalId, AgentHandle>, left: set<GoalId>)
    requires left != {} && left <= rows.Keys
    ensures exists n :: n in left && IsNewest(rows, left, n)
  {
    var x :| x in left;
    var rest := left - {x};
    if rest == {} {
      assert left == rest + {x};
      assert IsNewest(rows, left, x);
    } else {
      NewestExists(rows, rest);
      var n :| n in rest && IsNewest(rows, rest, n);
      var best := if rows[x].startedAt >= rows[n].startedAt then x else n;
      forall id | id in left ensures rows[best].startedAt >= rows[id].startedAt {
        assert id == x || id in rest;
      }
      assert IsNewest(rows, left, best);
    }
  }
}
