/** YAML override layers: `yaml_deep_merge` of one value over another, and the drop-in override of
    agent definitions by id. */
module DeepMerge {
  import opened Options

  type Key = string

  /** A parsed YAML value.  Scalars (null, numbers, booleans, strings) are told apart by their text. */
  datatype Value =
    | Scalar(text: string)
    | Sequence(items: seq<Value>)
    | Mapping(entries: map<Key, Value>)

  // ---------------------------------------------------------------- the merge

  function Merge(base: Value, over: Value): Value
    decreases over
  {
    if base.Mapping? && over.Mapping? then
      Mapping(map k | k in base.entries.Keys + over.entries.Keys ::
        if k !in over.entries then base.entries[k]
        else if k !in base.entries then over.entries[k]
        else Merge(base.entries[k], over.entries[k]))
    else over
  }

  /** The base slot is rewritten key by key; keys of the override come in any order. */
  method YamlDeepMerge(base: Value, over: Value) returns (merged: Value)
    ensures merged == Merge(base, over)
    decreases over
  {
    if !(base.Mapping? && over.Mapping?) {
      return over;
    }
    var b := base.entries;
    var left := over.entries.Keys;
    while left != {}
      invariant left <= over.entries.Keys
      invariant b.Keys == base.entries.Keys + (over.entries.Keys - left)
      invariant forall k :: k in b && (k in left || k !in over.entries) ==> b[k] == base.entries[k]
      invariant forall k :: k in b && k !in left && k in over.entries ==> b[k] == Merge(base, over).entries[k]
      decreases left
    {
      var k :| k in left;
      var v := over.entries[k];
      if k in b {
        var slot := YamlDeepMerge(b[k], v);
        b := b[k := slot];
      } else {
        b := b[k := v];
      }
      left := left - {k};
    }
    merged := Mapping(b);
    assert b.Keys == Merge(base, over).entries.Keys;
  }

  // ---------------------------------------------------------------- what it means, path by path

  type Path = seq<Key>

  function Lookup(v: Value, path: Path): Option<Value>
    decreases |path|
  {
    if path == [] then Some(v)
    else if v.Mapping? && path[0] in v.entries then Lookup(v.entries[path[0]], path[1..])
    else None
  }

  /** What an override says about a path: a value there, nothing about it, or a leaf above it. */
  datatype Saying = Says(value: Value) | Silent | Cut

  function SaidAt(over: Value, path: Path): Saying
    decreases |path|
  {
    if path == [] then Says(over)
    else if !over.Mapping? then Cut
    else if path[0] !in over.entries then Silent
    else SaidAt(over.entries[path[0]], path[1..])
  }

  /** Main result: override leaves win, mappings meet, paths the override is silent about fall
      through to the base, and a leaf in the override hides everything below it. */
  lemma {:induction false} LookupOfMerge(base: Value, over: Value, path: Path)
    ensures Lookup(Merge(base, over), path) ==
      match SaidAt(over, path)
      case Cut => None
      case Silent => Lookup(base, path)
      case Says(v) => (match Lookup(base, path) case None => Some(v) case Some(w) => Some(Merge(w, v)))
    decreases |path|
  {
    if path != [] && base.Mapping? && over.Mapping? && path[0] in base.entries && path[0] in over.entries {
      LookupOfMerge(base.entries[path[0]], over.entries[path[0]], path[1..]);
    } else if path != [] && over.Mapping? && path[0] in over.entries {
      LookupIsSaid(over.entries[path[0]], path[1..]);
    }
  }

  lemma {:induction false} LookupIsSaid(v: Value, path: Path)
    ensures Lookup(v, path) == if SaidAt(v, path).Says? then Some(SaidAt(v, path).value) else None
    decreases |path|
  {
    if path != [] && v.Mapping? && path[0] in v.entries {
      LookupIsSaid(v.entries[path[0]], path[1..]);
    }
  }

  /** Main result, on lookups alone: a leaf of the override wins, whatever the base has there; a mapping of
      the override wins over anything but a mapping, and two mappings meet under the union of their keys. */
  lemma OverrideMeans(base: Value, over: Value, path: Path)
    requires Lookup(over, path).Some?
    ensures var v, w, m := Lookup(over, path).value, Lookup(base, path), Lookup(Merge(base, over), path);
      if v.Mapping? && w.Some? && w.value.Mapping? then
        && m.Some? && m.value.Mapping?
        && m.value.entries.Keys == v.entries.Keys + w.value.entries.Keys
        && (forall k :: k in v.entries && k !in w.value.entries ==> m.value.entries[k] == v.entries[k])
        && (forall k :: k in w.value.entries && k !in v.entries ==> m.value.entries[k] == w.value.entries[k])
      else m == Some(v)
  {
    LookupOfMerge(base, over, path);
    LookupIsSaid(over, path);
  }

  /** A key that a mapping of the override leaves out keeps what the base has below it. */
  lemma SilenceKeepsTheBase(base: Value, over: Value, path: Path, k: Key, rest: Path)
    requires Lookup(over, path).Some? && Lookup(over, path).value.Mapping? && k !in Lookup(over, path).value.entries
    ensures Lookup(Merge(base, over), path + [k] + rest) == Lookup(base, path + [k] + rest)
  {
    LookupOfMerge(base, over, path + [k] + rest);
    SilentBelow(over, path, k, rest);
  }

  lemma {:induction false} SilentBelow(over: Value, path: Path, k: Key, rest: Path)
    requires Lookup(over, path).Some? && Lookup(over, path).value.Mapping? && k !in Lookup(over, path).value.entries
    ensures SaidAt(over, path + [k] + rest) == Silent
    decreases |path|
  {
    if path == [] {
      assert (path + [k] + rest)[0] == k;
    } else {
      SilentBelow(over.entries[path[0]], path[1..], k, rest);
      assert (path + [k] + rest)[1..] == path[1..] + [k] + rest;
    }
  }

  // ---------------------------------------------------------------- laws

  /** Applying the same override layer again changes nothing. */
  lemma {:induction false} MergeIsIdempotent(base: Value, over: Value)
    ensures Merge(Merge(base, over), over) == Merge(base, over)
    decreases over
  {
    if over.Mapping? {
      var once := Merge(base, over);
      var twice := Merge(once, over);
      forall k | k in once.entries ensures twice.entries[k] == once.entries[k] {
        if k in over.entries {
          if base.Mapping? && k in base.entries {
            MergeIsIdempotent(base.entries[k], over.entries[k]);
          } else {
            MergeOverItself(over.entries[k]);
          }
        }
      }
      assert twice.entries == once.entries;
    }
  }

  lemma {:induction false} MergeOverItself(v: Value)
    ensures Merge(v, v) == v
    decreases v
  {
    if v.Mapping? {
      forall k | k in v.entries ensures Merge(v, v).entries[k] == v.entries[k] {
        MergeOverItself(v.entries[k]);
      }
      assert Merge(v, v).entries == v.entries;
    }
  }

  /** Nothing of the base shows through the override. */
  predicate Hides(over: Value, base: Value)
    decreases over
  {
    base.Mapping? && over.Mapping? ==>
      forall k :: k in base.entries ==> k in over.entries && Hides(over.entries[k], base.entries[k])
  }

  lemma {:induction false} HidesExactlyWhenOverWins(over: Value, base: Value)
    ensures Hides(over, base) <==> Merge(base, over) == over
    decreases over
  {
    if base.Mapping? && over.Mapping? {
      var m := Merge(base, over);
      forall k | k in base.entries && k in over.entries
        ensures Hides(over.entries[k], base.entries[k]) <==> m.entries[k] == over.entries[k]
      {
        HidesExactlyWhenOverWins(over.entries[k], base.entries[k]);
      }
      if Hides(over, base) {
        assert m.entries == over.entries;
      } else {
        var k :| k in base.entries && !(k in over.entries && Hides(over.entries[k], base.entries[k]));
        assert k in m.entries;
        assert m.entries != over.entries;
      }
    }
  }

  /** Wherever a leaf of the middle layer separates two mappings, the top one hides the bottom one. */
  predicate Compatible(a: Value, b: Value, c: Value)
    decreases c
  {
    a.Mapping? && c.Mapping? ==>
      if b.Mapping?
      then forall k :: k in a.entries && k in b.entries && k in c.entries ==>
        Compatible(a.entries[k], b.entries[k], c.entries[k])
      else Hides(c, a)
  }

  /** Main result: three layers merge the same either way round exactly when they are compatible. */
  lemma {:induction false} MergeIsAssociativeExactlyWhen(a: Value, b: Value, c: Value)
    ensures Merge(Merge(a, b), c) == Merge(a, Merge(b, c)) <==> Compatible(a, b, c)
    decreases c
  {
    if a.Mapping? && c.Mapping? {
      if b.Mapping? {
        var l, r := Merge(Merge(a, b), c), Merge(a, Merge(b, c));
        assert l.entries.Keys == r.entries.Keys;
        forall k | k in l.entries
          ensures l.entries[k] == r.entries[k] <==>
            (k in a.entries && k in b.entries && k in c.entries ==>
               Compatible(a.entries[k], b.entries[k], c.entries[k]))
        {
          if k in a.entries && k in b.entries && k in c.entries {
            MergeIsAssociativeExactlyWhen(a.entries[k], b.entries[k], c.entries[k]);
          }
        }
        if Compatible(a, b, c) {
          assert l.entries == r.entries;
        } else {
          var k :| k in a.entries && k in b.entries && k in c.entries
                   && !Compatible(a.entries[k], b.entries[k], c.entries[k]);
          assert l.entries[k] != r.entries[k];
        }
      } else {
        HidesExactlyWhenOverWins(c, a);
      }
    }
  }

  /** Grouping does matter: a leaf in the middle, merged first with what is below it, wipes that out;
      merged first with the mapping above it, it is gone before it meets the bottom layer. */
  lemma LeafBetweenMappingsBreaksAssociativity()
    ensures var a, b, c := Mapping(map["x" := Scalar("1")]), Scalar("null"), Mapping(map["y" := Scalar("2")]);
      && !Compatible(a, b, c)
      && Merge(Merge(a, b), c) == c
      && Merge(a, Merge(b, c)) == Mapping(map["x" := Scalar("1"), "y" := Scalar("2")])
      && Merge(Merge(a, b), c) != Merge(a, Merge(b, c))
  {
    var a, b, c := Mapping(map["x" := Scalar("1")]), Scalar("null"), Mapping(map["y" := Scalar("2")]);
    var both := Merge(a, c).entries;
    assert both == map["x" := Scalar("1"), "y" := Scalar("2")];
    assert "x" in both && "x" !in c.entries;
    MergeIsAssociativeExactlyWhen(a, b, c);
  }

  /** The middle layer is never a leaf where both outer layers are mappings. */
  ghost predicate NoLeafBetween(a: Value, b: Value, c: Value) {
    forall p: Path {:trigger Lookup(b, p)} ::
      (Lookup(a, p).Some? && Lookup(a, p).value.Mapping? && Lookup(c, p).Some? && Lookup(c, p).value.Mapping?
       && Lookup(b, p).Some?) ==> Lookup(b, p).value.Mapping?
  }

  lemma Below(v: Value, k: Key, p: Path)
    requires v.Mapping? && k in v.entries
    ensures Lookup(v, [k] + p) == Lookup(v.entries[k], p)
  {
    assert ([k] + p)[1..] == p;
  }

  lemma {:induction false} NoLeafBetweenIsCompatible(a: Value, b: Value, c: Value)
    requires NoLeafBetween(a, b, c)
    ensures Compatible(a, b, c)
    decreases c
  {
    if a.Mapping? && c.Mapping? {
      assert Lookup(b, []) == Some(b);
      forall k | k in a.entries && k in b.entries && k in c.entries
        ensures Compatible(a.entries[k], b.entries[k], c.entries[k])
      {
        forall p: Path | Lookup(b.entries[k], p).Some?
            && Lookup(a.entries[k], p).Some? && Lookup(a.entries[k], p).value.Mapping?
            && Lookup(c.entries[k], p).Some? && Lookup(c.entries[k], p).value.Mapping?
          ensures Lookup(b.entries[k], p).value.Mapping?
        {
          Below(a, k, p);
          Below(b, k, p);
          Below(c, k, p);
          assert Lookup(b, [k] + p).Some?;
        }
        NoLeafBetweenIsCompatible(a.entries[k], b.entries[k], c.entries[k]);
      }
    }
  }

  /** Main result, as configuration layers are normally written: merging is associative. */
  lemma MergeIsAssociative(a: Value, b: Value, c: Value)
    requires NoLeafBetween(a, b, c)
    ensures Merge(Merge(a, b), c) == Merge(a, Merge(b, c))
  {
    NoLeafBetweenIsCompatible(a, b, c);
    MergeIsAssociativeExactlyWhen(a, b, c);
  }

  // ---------------------------------------------------------------- drop-in agents

  datatype Agent = Agent(id: string, definition: string)

  ghost predicate DistinctIds(agents: seq<Agent>) {
    forall i, j :: 0 <= i < j < |agents| ==> agents[i].id != agents[j].id
  }

  function Position(agents: seq<Agent>, id: string): (p: nat)
    ensures p <= |agents|
    ensures p < |agents| ==> agents[p].id == id
    ensures forall i :: 0 <= i < p ==> agents[i].id != id
  {
    if agents == [] || agents[0].id == id then 0 else 1 + Position(agents[1..], id)
  }

  function Override(agents: seq<Agent>, a: Agent): seq<Agent> {
    var p := Position(agents, a.id);
    if p < |agents| then agents[p := a] else agents + [a]
  }

  function OverrideAll(agents: seq<Agent>, extra: seq<Agent>): seq<Agent>
    decreases |extra|
  {
    if extra == [] then agents else OverrideAll(Override(agents, extra[0]), extra[1..])
  }

  function Flatten(files: seq<seq<Agent>>): seq<Agent> {
    if files == [] then [] else files[0] + Flatten(files[1..])
  }

  /** The files of `agents.d` in their sorted order, already parsed. */
  method MergeAgentsDropIn(base: seq<Agent>, files: seq<seq<Agent>>) returns (agents: seq<Agent>)
    ensures agents == OverrideAll(base, Flatten(files))
  {
    agents := base;
    var f := 0;
    while f < |files|
      invariant 0 <= f <= |files|
      invariant OverrideAll(agents, Flatten(files[f..])) == OverrideAll(base, Flatten(files))
    {
      var extra := files[f];
      assert Flatten(files[f..]) == extra + Flatten(files[f + 1..]);
      var i := 0;
      while i < |extra|
        invariant 0 <= i <= |extra|
        invariant OverrideAll(agents, extra[i..] + Flatten(files[f + 1..])) == OverrideAll(base, Flatten(files))
      {
        var idx := Position(agents, extra[i].id);
        var rest := extra[i + 1..] + Flatten(files[f + 1..]);
        assert (extra[i..] + Flatten(files[f + 1..]))[1..] == rest;
        if idx < |agents| {
          agents := agents[idx := extra[i]];
        } else {
          agents := agents + [extra[i]];
        }
        i := i + 1;
      }
      assert extra[i..] + Flatten(files[f + 1..]) == Flatten(files[f + 1..]);
      f := f + 1;
    }
  }

  /** The definition an id ends up with: the last one given, base file first. */
  function LastDefinition(agents: seq<Agent>, extra: seq<Agent>, id: string): Option<Agent>
    decreases |extra|
  {
    if extra == [] then
      var p := Position(agents, id);
      if p < |agents| then Some(agents[p]) else None
    else if extra[|extra| - 1].id == id then Some(extra[|extra| - 1])
    else LastDefinition(agents, extra[..|extra| - 1], id)
  }

  lemma OverrideKeepsOneEach(agents: seq<Agent>, a: Agent)
    requires DistinctIds(agents)
    ensures DistinctIds(Override(agents, a))
    ensures forall b :: b in Override(agents, a) <==> b == a || (b in agents && b.id != a.id)
    ensures forall i :: 0 <= i < |agents| ==> Override(agents, a)[i].id == agents[i].id
    ensures |agents| <= |Override(agents, a)|
  {
    var p, after := Position(agents, a.id), Override(agents, a);
    if p < |agents| {
      forall b | b in agents && b.id != a.id ensures b in after {
        var i :| 0 <= i < |agents| && agents[i] == b;
        assert after[i] == b;
      }
      assert after[p] == a;
      forall b | b in after ensures b == a || (b in agents && b.id != a.id) {
        var i :| 0 <= i < |after| && after[i] == b;
        if i != p { assert agents[i] == b; }
      }
    }
  }

  lemma {:induction false} OverrideAllSnoc(agents: seq<Agent>, extra: seq<Agent>, a: Agent)
    ensures OverrideAll(agents, extra + [a]) == Override(OverrideAll(agents, extra), a)
    decreases |extra|
  {
    if extra == [] {
      assert (extra + [a])[1..] == [];
    } else {
      OverrideAllSnoc(Override(agents, extra[0]), extra[1..], a);
      assert (extra + [a])[1..] == extra[1..] + [a];
    }
  }

  /** Main result: the merged list holds each id once, under the last definition given for it; the
      base agents keep their places. */
  lemma {:induction false} DropInsOverrideById(agents: seq<Agent>, extra: seq<Agent>)
    requires DistinctIds(agents)
    ensures var merged := OverrideAll(agents, extra);
      && DistinctIds(merged)
      && |agents| <= |merged| && (forall i :: 0 <= i < |agents| ==> merged[i].id == agents[i].id)
      && (forall a :: a in merged <==> LastDefinition(agents, extra, a.id) == Some(a))
    decreases |extra|
  {
    if extra == [] {
      forall a ensures a in agents <==> LastDefinition(agents, [], a.id) == Some(a) {
        if a in agents {
          var i :| 0 <= i < |agents| && agents[i] == a;
          assert Position(agents, a.id) == i;
        }
      }
    } else {
      var front, last := extra[..|extra| - 1], extra[|extra| - 1];
      DropInsOverrideById(agents, front);
      assert extra == front + [last];
      OverrideAllSnoc(agents, front, last);
      OverrideKeepsOneEach(OverrideAll(agents, front), last);
      LastHasItsId(agents, front);
    }
  }

  lemma {:induction false} LastHasItsId(agents: seq<Agent>, extra: seq<Agent>)
    ensures forall id :: LastDefinition(agents, extra, id).Some? ==> LastDefinition(agents, extra, id).value.id == id
    decreases |extra|
  {
    if extra != [] { LastHasItsId(agents, extra[..|extra| - 1]); }
  }

  /** The last definition is the one after which, base file first, no other has its id. */
  lemma {:induction false} LastDefinitionMeans(agents: seq<Agent>, extra: seq<Agent>, a: Agent)
    requires DistinctIds(agents)
    ensures LastDefinition(agents, extra, a.id) == Some(a) <==> LastIn(agents + extra, a)
    decreases |extra|
  {
    var all := agents + extra;
    if extra == [] {
      assert all == agents;
      if i :| 0 <= i < |agents| && agents[i] == a {
        assert Position(agents, a.id) == i && NotAgain(agents, i);
      }
    } else {
      var n, front := |all| - 1, extra[..|extra| - 1];
      assert all[n] == extra[|extra| - 1] && NotAgain(all, n) && all[..n] == agents + front;
      LastDefinitionMeans(agents, front, a);
      if all[n].id != a.id {
        forall i | 0 <= i < n && all[i] == a
          ensures NotAgain(all, i) <==> NotAgain(agents + front, i)
        {
          assert forall j :: i < j < n ==> all[j] == (agents + front)[j];
        }
      }
    }
  }

  ghost predicate NotAgain(all: seq<Agent>, i: nat)
    requires i < |all|
  {
    forall j :: i < j < |all| ==> all[j].id != all[i].id
  }

  lemma {:induction false} OverrideAllConcat(agents: seq<Agent>, a: seq<Agent>, b: seq<Agent>)
    ensures OverrideAll(agents, a + b) == OverrideAll(OverrideAll(agents, a), b)
    decreases |a|
  {
    if a == [] {
      assert a + b == b;
    } else {
      OverrideAllConcat(Override(agents, a[0]), a[1..], b);
      assert (a + b)[1..] == a[1..] + b;
    }
  }

  lemma {:induction false} FlattenSnoc(files: seq<seq<Agent>>, last: seq<Agent>)
    ensures Flatten(files + [last]) == Flatten(files) + last
  {
    if files == [] {
      assert (files + [last])[1..] == [] && last + [] == last;
    } else {
      FlattenSnoc(files[1..], last);
      assert (files + [last])[1..] == files[1..] + [last];
    }
  }

  lemma NotAgainBehind(before: seq<Agent>, last: seq<Agent>, i: nat)
    requires i < |last|
    ensures (before + last)[|before| + i] == last[i]
    ensures NotAgain(before + last, |before| + i) <==> NotAgain(last, i)
  {
    var all, n := before + last, |before|;
    assert forall j :: 0 <= j < |last| ==> all[n + j] == last[j];
    if NotAgain(all, n + i) {
      forall j | i < j < |last| ensures last[j].id != last[i].id { assert all[n + j] == last[j]; }
    }
    if NotAgain(last, i) {
      forall j | n + i < j < |all| ensures all[j].id != all[n + i].id { assert all[j] == last[j - n]; }
    }
  }

  lemma NotAgainInFront(before: seq<Agent>, last: seq<Agent>, i: nat)
    requires i < |before| && DistinctIds(before)
    ensures NotAgain(before + last, i) <==> forall j :: 0 <= j < |last| ==> last[j].id != before[i].id
  {
    var all, n := before + last, |before|;
    assert forall j :: 0 <= j < |last| ==> all[n + j] == last[j];
    assert forall j :: 0 <= j < n ==> all[j] == before[j];
  }

  ghost predicate LastIn(all: seq<Agent>, a: Agent) {
    exists i :: 0 <= i < |all| && all[i] == a && NotAgain(all, i)
  }

  lemma LastInEither(before: seq<Agent>, last: seq<Agent>, a: Agent)
    requires DistinctIds(before)
    ensures LastIn(before + last, a) <==>
      LastIn(last, a) || (a in before && forall j :: 0 <= j < |last| ==> last[j].id != a.id)
  {
    var all, n := before + last, |before|;
    hide NotAgain;
    hide DistinctIds;
    if LastIn(all, a) {
      var i :| 0 <= i < |all| && all[i] == a && NotAgain(all, i);
      if i < n { NotAgainInFront(before, last, i); } else { NotAgainBehind(before, last, i - n); }
    }
    if LastIn(last, a) {
      var i :| 0 <= i < |last| && last[i] == a && NotAgain(last, i);
      NotAgainBehind(before, last, i);
    }
    if a in before && forall j :: 0 <= j < |last| ==> last[j].id != a.id {
      var i :| 0 <= i < n && before[i] == a;
      NotAgainInFront(before, last, i);
      assert all[i] == a;
    }
  }

  /** Main result: the last file decides the ids it names, by the last definition in it, and leaves the
      others as the earlier files had them. */
  lemma LastFileWins(base: seq<Agent>, files: seq<seq<Agent>>, last: seq<Agent>, a: Agent)
    requires DistinctIds(base)
    ensures var before, after := OverrideAll(base, Flatten(files)), OverrideAll(base, Flatten(files + [last]));
      a in after <==>
        || (exists i :: 0 <= i < |last| && last[i] == a && forall j :: i < j < |last| ==> last[j].id != last[i].id)
        || (a in before && forall j :: 0 <= j < |last| ==> last[j].id != a.id)
  {
    var before := OverrideAll(base, Flatten(files));
    DropInsOverrideById(base, Flatten(files));
    FlattenSnoc(files, last);
    OverrideAllConcat(base, Flatten(files), last);
    DropInsOverrideById(before, last);
    LastDefinitionMeans(before, last, a);
    LastInEither(before, last, a);
    hide OverrideAll, LastDefinition, Flatten, DistinctIds;
  }
}
