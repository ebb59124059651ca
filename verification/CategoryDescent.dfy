/** What descending and climbing through the category table should find. */
module CategoryDescent {
  import opened Common
  import opened CategoryForest

  /** `x` is a live row exactly k steps below `c`. */
  ghost predicate Below(t: Table, c: Uuid, x: Uuid, k: nat) {
    Live(t, x) && Up(t, x, k) == Some(c)
  }

  /** `x` is a live row 1..depth steps below `c`. */
  ghost predicate BelowWithin(t: Table, c: Uuid, x: Uuid, depth: nat) {
    exists k: nat :: 1 <= k <= depth && Below(t, c, x, k)
  }

  predicate Distinct(ids: seq<Uuid>) {
    forall i, j :: 0 <= i < j < |ids| ==> ids[i] != ids[j]
  }

  /** No row comes before a row of a higher level. */
  ghost predicate LevelOrder(t: Table, c: Uuid, ids: seq<Uuid>) {
    forall i, j, k: nat, l: nat ::
      0 <= i < j < |ids| && Below(t, c, ids[i], k) && Below(t, c, ids[j], l) ==> k <= l
  }

  /** `ids` are the rows exactly k steps below `c`, each once. */
  ghost predicate IsLevel(t: Table, c: Uuid, ids: seq<Uuid>, k: nat) {
    Distinct(ids) && forall x :: x in ids <==> Below(t, c, x, k)
  }

  /** `ids` are the rows 1..depth steps below `c`, each once, level by level. */
  ghost predicate IsDescent(t: Table, c: Uuid, ids: seq<Uuid>, depth: nat) {
    Distinct(ids) && LevelOrder(t, c, ids) && forall x :: x in ids <==> BelowWithin(t, c, x, depth)
  }

  ghost predicate EmptyLevel(t: Table, c: Uuid, k: nat) {
    forall x :: !Below(t, c, x, k)
  }

  lemma BelowStep(t: Table, c: Uuid, x: Uuid, k: nat)
    requires Forest(t) && Live(t, c) && Live(t, x)
    ensures Below(t, c, x, k + 1) <==> t[x].parentId.Some? && Below(t, c, t[x].parentId.value, k)
  {
    UpFirst(t, x, k);
  }

  lemma OneDistance(t: Table, c: Uuid, x: Uuid, k: nat, l: nat)
    requires Forest(t) && Below(t, c, x, k) && Below(t, c, x, l)
    ensures k == l
  {
    DistanceUnique(t, x, c, k, l);
  }

  /** `rows` are the live rows whose parent is among `ids`, each once. */
  ghost predicate AreChildren(t: Table, ids: seq<Uuid>, rows: seq<Uuid>) {
    Distinct(rows) && forall x :: x in rows <==> Live(t, x) && t[x].parentId.Some? && t[x].parentId.value in ids
  }

  /** The children of a level are the next level. */
  lemma ChildrenAreNextLevel(t: Table, c: Uuid, level: seq<Uuid>, rows: seq<Uuid>, k: nat)
    requires Forest(t) && Live(t, c) && IsLevel(t, c, level, k) && AreChildren(t, level, rows)
    ensures IsLevel(t, c, rows, k + 1)
  {
    forall x
      ensures x in rows <==> Below(t, c, x, k + 1)
    {
      if Live(t, x) {
        BelowStep(t, c, x, k);
      }
    }
  }

  lemma DescentStarts(t: Table, c: Uuid)
    requires Live(t, c)
    ensures IsDescent(t, c, [], 0) && IsLevel(t, c, [c], 0)
  {
  }

  /** What one round of the descent does: nothing is left below, or a level is added. */
  lemma DescentRound(t: Table, c: Uuid, all: seq<Uuid>, level: seq<Uuid>, rows: seq<Uuid>, depth: nat)
    requires Forest(t) && Live(t, c) && IsDescent(t, c, all, depth) && IsLevel(t, c, level, depth)
    requires AreChildren(t, level, rows)
    ensures rows == [] ==> EmptyLevel(t, c, depth + 1)
    ensures rows != [] ==> IsDescent(t, c, all + rows, depth + 1) && IsLevel(t, c, rows, depth + 1)
    ensures rows != [] ==> Left(t, all + rows) < Left(t, all)
  {
    ChildrenAreNextLevel(t, c, level, rows, depth);
    if rows != [] {
      DescentGrows(t, c, all, rows, depth);
      FewerLeft(t, c, all, rows, depth + 1);
    }
  }

  /** The live rows not found yet. */
  ghost function Left(t: Table, found: seq<Uuid>): set<Uuid> {
    LiveIds(t) - set x | x in found
  }

  lemma DescentGrows(t: Table, c: Uuid, all: seq<Uuid>, rows: seq<Uuid>, depth: nat)
    requires Forest(t) && IsDescent(t, c, all, depth) && IsLevel(t, c, rows, depth + 1)
    ensures IsDescent(t, c, all + rows, depth + 1)
    ensures forall x :: x in rows ==> x !in all
  {
    forall x | x in rows && x in all
      ensures false
    {
      var k: nat :| 1 <= k <= depth && Below(t, c, x, k);
      OneDistance(t, c, x, k, depth + 1);
    }
    forall x
      ensures x in all + rows <==> BelowWithin(t, c, x, depth + 1)
    {
      if x in all {
        var k: nat :| 1 <= k <= depth && Below(t, c, x, k);
      }
      if BelowWithin(t, c, x, depth + 1) && x !in rows {
        var k: nat :| 1 <= k <= depth + 1 && Below(t, c, x, k);
        assert BelowWithin(t, c, x, depth);
      }
    }
    DistinctAdds(all, rows);
    OrderGrows(t, c, all, rows, depth);
  }

  /** `ids` are the descendants at most `maxDepth` steps below `c`, or all of them, level by level. */
  ghost predicate IsDescentTo(t: Table, c: Uuid, ids: seq<Uuid>, maxDepth: Option<int>) {
    && Distinct(ids) && LevelOrder(t, c, ids)
    && forall x :: x in ids <==>
         match maxDepth
         case None => Descendant(t, c, x)
         case Some(d) => d > 0 && BelowWithin(t, c, x, d)
  }

  lemma DescentStops(t: Table, c: Uuid, all: seq<Uuid>, depth: nat, maxDepth: Option<int>)
    requires Forest(t) && IsDescent(t, c, all, depth)
    requires maxDepth.Some? ==> depth == 0 || depth <= maxDepth.value
    requires EmptyLevel(t, c, depth + 1) || (maxDepth.Some? && depth >= maxDepth.value)
    ensures IsDescentTo(t, c, all, maxDepth)
  {
    if EmptyLevel(t, c, depth + 1) {
      forall x {
        DescentComplete(t, c, all, depth, x);
      }
    }
  }

  /** Each level that is found leaves fewer rows to find. */
  lemma FewerLeft(t: Table, c: Uuid, all: seq<Uuid>, rows: seq<Uuid>, k: nat)
    requires rows != [] && IsLevel(t, c, rows, k) && forall x :: x in rows ==> x !in all
    ensures Left(t, all + rows) < Left(t, all)
  {
    assert rows[0] in rows;
    assert rows[0] in Left(t, all);
    assert rows[0] in all + rows;
  }

  lemma DistinctAdds(a: seq<Uuid>, b: seq<Uuid>)
    requires Distinct(a) && Distinct(b) && forall x :: x in b ==> x !in a
    ensures Distinct(a + b)
  {
    forall i, j | 0 <= i < j < |a + b|
      ensures (a + b)[i] != (a + b)[j]
    {
      if i < |a| <= j {
        assert (a + b)[i] in a && (a + b)[j] in b;
      }
    }
  }

  lemma OrderGrows(t: Table, c: Uuid, all: seq<Uuid>, rows: seq<Uuid>, depth: nat)
    requires Forest(t) && IsDescent(t, c, all, depth) && IsLevel(t, c, rows, depth + 1)
    ensures LevelOrder(t, c, all + rows)
  {
    var ids := all + rows;
    forall i, j, k: nat, l: nat | 0 <= i < j < |ids| && Below(t, c, ids[i], k) && Below(t, c, ids[j], l)
      ensures k <= l
    {
      if j >= |all| {
        assert ids[j] in rows;
        OneDistance(t, c, ids[j], l, depth + 1);
        if i >= |all| {
          assert ids[i] in rows;
          OneDistance(t, c, ids[i], k, depth + 1);
        } else {
          assert ids[i] in all;
          var m: nat :| 1 <= m <= depth && Below(t, c, ids[i], m);
          OneDistance(t, c, ids[i], k, m);
        }
      }
    }
  }

  /** Below an empty level there is nothing. */
  lemma NothingDeeper(t: Table, c: Uuid, depth: nat, deeper: nat, x: Uuid)
    requires Forest(t) && 0 < depth <= deeper && Below(t, c, x, deeper)
    ensures exists y :: Below(t, c, y, depth)
  {
    UpAdds(t, x, deeper - depth, depth);
    var y := Up(t, x, deeper - depth).value;
    UpStaysLive(t, x, deeper - depth);
    assert Below(t, c, y, depth);
  }

  lemma DescentComplete(t: Table, c: Uuid, all: seq<Uuid>, depth: nat, x: Uuid)
    requires Forest(t) && IsDescent(t, c, all, depth) && EmptyLevel(t, c, depth + 1)
    ensures x in all <==> Descendant(t, c, x)
    ensures forall more: nat :: more >= depth ==> (x in all <==> BelowWithin(t, c, x, more))
  {
    forall k: nat | k > depth && Below(t, c, x, k)
      ensures false
    {
      NothingDeeper(t, c, depth + 1, k, x);
    }
    if Descendant(t, c, x) {
      var k: nat :| k > 0 && Up(t, x, k) == Some(c);
      assert Below(t, c, x, k);
    }
  }

  // ---- Climbing ----

  predicate ActiveRow(t: Table, id: Uuid) {
    Live(t, id) && t[id].isActive
  }

  /** Every row from `id` up to the k-th above it is active. */
  ghost predicate ActiveUpTo(t: Table, id: Uuid, k: nat) {
    forall i: nat :: i <= k ==> ActiveAt(t, id, i)
  }

  ghost predicate ActiveAt(t: Table, id: Uuid, i: nat) {
    var x := Up(t, id, i);
    x.Some? && ActiveRow(t, x.value)
  }

  /** The path that climbing through active rows gives. */
  ghost predicate IsActivePath(t: Table, id: Uuid, path: seq<string>) {
    && path != []
    && IsPath(t, id, |path| - 1, path) && ActiveUpTo(t, id, |path| - 1) && !ActiveAt(t, id, |path|)
  }

  /** The path through active rows is the whole path exactly when every ancestor is active. */
  lemma ActivePathIsWholeIff(t: Table, id: Uuid, level: nat, active: seq<string>, whole: seq<string>)
    requires Forest(t) && Live(t, id) && AtLevel(t, id, level)
    requires IsActivePath(t, id, active) && IsPath(t, id, level, whole)
    ensures active == whole <==> ActiveUpTo(t, id, level)
  {
    var k := |active| - 1;
    ActiveStopsAtRoot(t, id, level, k);
    if ActiveUpTo(t, id, level) {
      assert k + 1 > level;
      PathUnique(t, id, level, active, whole);
    }
  }

  lemma ActiveStopsAtRoot(t: Table, id: Uuid, level: nat, k: nat)
    requires AtLevel(t, id, level) && ActiveUpTo(t, id, k)
    ensures k <= level
  {
    assert ActiveAt(t, id, k);
    if k > level {
      NothingAboveRoot(t, id, level, k);
    }
  }

  lemma PathUnique(t: Table, id: Uuid, k: nat, path: seq<string>, other: seq<string>)
    requires IsPath(t, id, k, path) && IsPath(t, id, k, other)
    ensures path == other
  {
    forall j | 0 <= j <= k
      ensures path[j] == other[j]
    {
      assert OnPath(t, id, k - j, path[j]) && OnPath(t, id, k - j, other[j]);
    }
  }
}
