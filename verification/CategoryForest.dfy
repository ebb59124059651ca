/** The category table of the orders service as a graph: live rows, parent pointers, ancestors and
    descendants. */
module CategoryForest {
  import opened Common

  datatype Category = Category(
    id: Uuid, name: string, slug: string, parentId: Option<Uuid>, isActive: bool, sortOrder: int, deleted: bool)

  /** The rows by primary key; a soft-deleted row stays in the table. */
  type Table = map<Uuid, Category>

  predicate Live(t: Table, id: Uuid) {
    id in t && !t[id].deleted
  }

  function LiveIds(t: Table): set<Uuid> {
    set id | id in t && !t[id].deleted
  }

  /** The id reached by following k parent pointers of live rows. */
  function Up(t: Table, id: Uuid, k: nat): Option<Uuid> {
    if k == 0 then Some(id)
    else
      var below := Up(t, id, k - 1);
      if below.Some? && Live(t, below.value) then t[below.value].parentId else None
  }

  ghost predicate Keyed(t: Table) {
    forall id :: id in t ==> t[id].id == id
  }

  /** Every live row with a parent has a live parent. */
  ghost predicate Closed(t: Table) {
    forall id :: Live(t, id) && t[id].parentId.Some? ==> Live(t, t[id].parentId.value)
  }

  /** No live row is its own ancestor. */
  ghost predicate Acyclic(t: Table) {
    forall id: Uuid, k: nat :: Live(t, id) && k > 0 ==> Up(t, id, k) != Some(id)
  }

  ghost predicate Forest(t: Table) {
    Keyed(t) && Closed(t) && Acyclic(t)
  }

  /** `x` is a live row some steps below `c`. */
  ghost predicate Descendant(t: Table, c: Uuid, x: Uuid) {
    Live(t, x) && exists k: nat :: k > 0 && Up(t, x, k) == Some(c)
  }

  // ---- Following parent pointers ----

  lemma {:induction false} UpAdds(t: Table, id: Uuid, j: nat, k: nat)
    ensures Up(t, id, j + k) == match Up(t, id, j) case Some(x) => Up(t, x, k) case None => None
    decreases k
  {
    if k > 0 {
      UpAdds(t, id, j, k - 1);
    }
  }

  lemma UpFirst(t: Table, id: Uuid, k: nat)
    requires Live(t, id)
    ensures Up(t, id, k + 1) == match t[id].parentId case Some(p) => Up(t, p, k) case None => None
  {
    UpAdds(t, id, 1, k);
    assert Up(t, id, 1) == t[id].parentId by {
      assert Up(t, id, 0) == Some(id);
    }
  }

  /** Only live rows have ancestors, and on a closed table all ancestors of a live row are live. */
  lemma {:induction false} UpStaysLive(t: Table, id: Uuid, k: nat)
    requires Closed(t) && Live(t, id) && Up(t, id, k).Some?
    ensures Live(t, Up(t, id, k).value)
    decreases k
  {
    if k > 0 {
      UpStaysLive(t, id, k - 1);
    }
  }

  /** The distance from a row up to one of its ancestors is unique. */
  lemma DistanceUnique(t: Table, id: Uuid, c: Uuid, j: nat, k: nat)
    requires Forest(t) && Live(t, id)
    requires Up(t, id, j) == Some(c) && Up(t, id, k) == Some(c)
    ensures j == k
  {
    UpStaysLive(t, id, j);
    var near, far := if j < k then j else k, if j < k then k else j;
    UpAdds(t, id, near, far - near);
  }

  /** `id` is exactly `level` steps below a root. */
  ghost predicate AtLevel(t: Table, id: Uuid, level: nat) {
    Up(t, id, level).Some? && Live(t, Up(t, id, level).value) && t[Up(t, id, level).value].parentId == None
  }

  lemma {:induction false} NothingAboveRoot(t: Table, id: Uuid, level: nat, k: nat)
    requires AtLevel(t, id, level) && k > level
    ensures Up(t, id, k) == None
    decreases k
  {
    if k > level + 1 {
      NothingAboveRoot(t, id, level, k - 1);
    }
  }

  lemma LevelUnique(t: Table, id: Uuid, level: nat, other: nat)
    requires AtLevel(t, id, level) && AtLevel(t, id, other)
    ensures level == other
  {
    if other < level {
      NothingAboveRoot(t, id, other, level);
    } else if level < other {
      NothingAboveRoot(t, id, level, other);
    }
  }

  lemma LevelOfChild(t: Table, id: Uuid, level: nat)
    requires Live(t, id) && t[id].parentId.Some?
    ensures AtLevel(t, id, level + 1) <==> AtLevel(t, t[id].parentId.value, level)
  {
    UpFirst(t, id, level);
  }

  /** The names from the row k steps above `id` down to `id`. */
  ghost predicate IsPath(t: Table, id: Uuid, k: nat, path: seq<string>) {
    |path| == k + 1 && forall j :: 0 <= j <= k ==> OnPath(t, id, k - j, path[j])
  }

  /** The row i steps above `id` has this name. */
  ghost predicate OnPath(t: Table, id: Uuid, i: nat, name: string) {
    var x := Up(t, id, i);
    x.Some? && Live(t, x.value) && t[x.value].name == name
  }

  // ---- Forests are the tables that can be ranked ----

  /** Parents rank strictly below their children. */
  ghost predicate Ranked(t: Table, rank: map<Uuid, nat>) {
    forall id :: Live(t, id) ==>
      && id in rank
      && (t[id].parentId.Some? ==>
            var p := t[id].parentId.value; Live(t, p) && p in rank && rank[p] < rank[id])
  }

  lemma {:induction false} RankDecreases(t: Table, rank: map<Uuid, nat>, id: Uuid, k: nat)
    requires Ranked(t, rank) && Live(t, id) && Up(t, id, k).Some?
    ensures var x := Up(t, id, k).value; Live(t, x) && (k > 0 ==> rank[x] < rank[id])
    decreases k
  {
    if k > 0 {
      RankDecreases(t, rank, id, k - 1);
    }
  }

  lemma RankedIsForest(t: Table, rank: map<Uuid, nat>)
    requires Keyed(t) && Ranked(t, rank)
    ensures Forest(t)
  {
    forall id: Uuid, k: nat | Live(t, id) && k > 0 && Up(t, id, k) == Some(id)
      ensures false
    {
      RankDecreases(t, rank, id, k);
    }
  }

  ghost function AncestorSet(t: Table, id: Uuid): set<Uuid> {
    set x | x in LiveIds(t) && exists k: nat :: k > 0 && Up(t, id, k) == Some(x)
  }

  lemma ParentHasFewerAncestors(t: Table, id: Uuid)
    requires Forest(t) && Live(t, id) && t[id].parentId.Some?
    ensures AncestorSet(t, t[id].parentId.value) < AncestorSet(t, id)
  {
    var p := t[id].parentId.value;
    forall x | x in AncestorSet(t, p)
      ensures x in AncestorSet(t, id)
    {
      var k: nat :| k > 0 && Up(t, p, k) == Some(x);
      UpFirst(t, id, k);
    }
    assert p in AncestorSet(t, id) by {
      UpFirst(t, id, 0);
    }
    assert p !in AncestorSet(t, p);
  }

  /** A forest can be ranked, by counting ancestors. */
  lemma ForestIsRanked(t: Table) returns (rank: map<Uuid, nat>)
    requires Forest(t)
    ensures Ranked(t, rank)
  {
    rank := map id | id in LiveIds(t) :: |AncestorSet(t, id)|;
    forall id | Live(t, id) && t[id].parentId.Some?
      ensures rank[t[id].parentId.value] < rank[id]
    {
      ParentHasFewerAncestors(t, id);
      SubsetSize(AncestorSet(t, t[id].parentId.value), AncestorSet(t, id));
    }
  }

  /** In a forest every live row has a level. */
  lemma {:induction false} LevelExists(t: Table, id: Uuid) returns (level: nat)
    requires Forest(t) && Live(t, id)
    ensures AtLevel(t, id, level)
    decreases AncestorSet(t, id)
  {
    if t[id].parentId == None {
      level := 0;
    } else {
      ParentHasFewerAncestors(t, id);
      var above := LevelExists(t, t[id].parentId.value);
      level := above + 1;
      LevelOfChild(t, id, above);
    }
  }

  // ---- Moving a row ----

  function Moved(t: Table, c: Uuid, p: Uuid): Table
    requires c in t
  {
    t[c := t[c].(parentId := Some(p))]
  }

  /** Moving `c` under `p`: below `c` all ranks are lifted above the rank of `p`. */
  ghost function LiftedRank(t: Table, rank: map<Uuid, nat>, c: Uuid, lift: nat): map<Uuid, nat> {
    map id | id in rank :: if id == c || Descendant(t, c, id) then rank[id] + lift else rank[id]
  }

  lemma DescendantOfParent(t: Table, c: Uuid, x: Uuid)
    requires Live(t, x)
    ensures Descendant(t, c, x) <==>
              && t[x].parentId.Some?
              && var p := t[x].parentId.value; p == c || (Live(t, p) && Descendant(t, c, p))
  {
    if Descendant(t, c, x) {
      var k: nat :| k > 0 && Up(t, x, k) == Some(c);
      UpFirst(t, x, k - 1);
      if k > 1 {
        DeadHasNoAncestors(t, t[x].parentId.value, k - 1);
      }
    }
    if t[x].parentId == Some(c) {
      UpFirst(t, x, 0);
    } else if t[x].parentId.Some? && Live(t, t[x].parentId.value) && Descendant(t, c, t[x].parentId.value) {
      var k: nat :| k > 0 && Up(t, t[x].parentId.value, k) == Some(c);
      UpFirst(t, x, k);
    }
  }

  lemma DeadHasNoAncestors(t: Table, id: Uuid, k: nat)
    requires k > 0 && Up(t, id, k).Some?
    ensures Live(t, id)
  {
    UpAdds(t, id, 1, k - 1);
    assert Up(t, id, 0) == Some(id);
  }

  lemma MoveKeepsForest(t: Table, c: Uuid, p: Uuid)
    requires Forest(t) && Live(t, c) && Live(t, p) && p != c && !Descendant(t, c, p)
    ensures Forest(Moved(t, c, p))
  {
    var rank := ForestIsRanked(t);
    var t', lifted := Moved(t, c, p), LiftedRank(t, rank, c, rank[p] + 1);
    forall id | Live(t', id)
      ensures id in lifted
      ensures t'[id].parentId.Some? ==>
                var q := t'[id].parentId.value; Live(t', q) && q in lifted && lifted[q] < lifted[id]
    {
      if id != c {
        DescendantOfParent(t, c, id);
      }
    }
    RankedIsForest(t', lifted);
  }

  /** Until the moved row is reached its move does not show. */
  lemma {:induction false} MoveUnseenUpTo(t: Table, c: Uuid, p: Uuid, x: Uuid, k: nat)
    requires Live(t, c) && forall j: nat :: j < k ==> Up(t, x, j) != Some(c)
    ensures Up(Moved(t, c, p), x, k) == Up(t, x, k)
    decreases k
  {
    if k > 0 {
      MoveUnseenUpTo(t, c, p, x, k - 1);
    }
  }

  lemma MoveUnderDescendantMakesCycle(t: Table, c: Uuid, p: Uuid)
    requires Forest(t) && Live(t, c) && (p == c || Descendant(t, c, p))
    ensures !Acyclic(Moved(t, c, p))
  {
    var t' := Moved(t, c, p);
    var k: nat := 0;
    if p != c {
      k :| k > 0 && Up(t, p, k) == Some(c);
      forall j: nat | j < k && Up(t, p, j) == Some(c)
        ensures false
      {
        DistanceUnique(t, p, c, j, k);
      }
    }
    MoveUnseenUpTo(t, c, p, p, k);
    UpFirst(t', c, k);
    assert Up(t', c, k + 1) == Some(c);
  }

  /** A move under a live row keeps the forest exactly when it is not under the row itself or one of
      its descendants. */
  lemma MoveKeepsForestIff(t: Table, c: Uuid, p: Uuid)
    requires Forest(t) && Live(t, c) && Live(t, p)
    ensures Forest(Moved(t, c, p)) <==> p != c && !Descendant(t, c, p)
  {
    if p == c || Descendant(t, c, p) {
      MoveUnderDescendantMakesCycle(t, c, p);
    } else {
      MoveKeepsForest(t, c, p);
    }
  }
}
