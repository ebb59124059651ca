/** Building the category tree from a list of rows. */
module CategoryTree {
  import opened Common
  import opened CategoryForest
  import opened CategoryDescent

  const MAX_DEPTH := 10

  datatype TreeNode = TreeNode(category: Category, level: nat, children: seq<TreeNode>, hasChildren: bool)

  // ---- The siblings below one parent, in order ----

  function WithParent(rows: seq<Category>, parent: Option<Uuid>): seq<Category> {
    if rows == [] then []
    else if rows[0].parentId == parent then [rows[0]] + WithParent(rows[1..], parent)
    else WithParent(rows[1..], parent)
  }

  /** By sort order, then by name; `collate` ranks names as the locale does. */
  predicate InOrder(a: Category, b: Category, collate: string -> real) {
    a.sortOrder < b.sortOrder || (a.sortOrder == b.sortOrder && collate(a.name) <= collate(b.name))
  }

  function Insert(row: Category, rows: seq<Category>, collate: string -> real): seq<Category> {
    if rows == [] || InOrder(row, rows[0], collate) then [row] + rows
    else [rows[0]] + Insert(row, rows[1..], collate)
  }

  /** A stable sort. */
  function Sort(rows: seq<Category>, collate: string -> real): seq<Category> {
    if rows == [] then [] else Insert(rows[0], Sort(rows[1..], collate), collate)
  }

  function Siblings(rows: seq<Category>, parent: Option<Uuid>, collate: string -> real): seq<Category> {
    Sort(WithParent(rows, parent), collate)
  }

  // ---- The recursion ----

  function BuildTree(rows: seq<Category>, parent: Option<Uuid>, depth: nat, collate: string -> real): seq<TreeNode>
    decreases if depth > MAX_DEPTH then 0 else MAX_DEPTH + 1 - depth, 1, 0
  {
    if depth > MAX_DEPTH then [] else Nodes(rows, Siblings(rows, parent, collate), depth, collate)
  }

  function Nodes(rows: seq<Category>, siblings: seq<Category>, depth: nat, collate: string -> real): seq<TreeNode>
    requires depth <= MAX_DEPTH
    decreases MAX_DEPTH + 1 - depth, 0, |siblings|
  {
    if siblings == [] then []
    else
      var children := BuildTree(rows, Some(siblings[0].id), depth + 1, collate);
      [TreeNode(siblings[0], depth, children, |children| > 0)] + Nodes(rows, siblings[1..], depth, collate)
  }

  /** The nodes of a tree in the order they are displayed. */
  function Flatten(nodes: seq<TreeNode>): seq<(Category, nat)>
    decreases nodes
  {
    if nodes == [] then []
    else [(nodes[0].category, nodes[0].level)] + Flatten(nodes[0].children) + Flatten(nodes[1..])
  }

  // ---- Sorting ----

  predicate Sorted(rows: seq<Category>, collate: string -> real) {
    forall i, j :: 0 <= i < j < |rows| ==> InOrder(rows[i], rows[j], collate)
  }

  lemma AllAfter(first: Category, row: Category, tail: seq<Category>, rest: seq<Category>, collate: string -> real)
    requires InOrder(first, row, collate) && forall j :: 0 <= j < |tail| ==> InOrder(first, tail[j], collate)
    requires multiset(rest) == multiset{row} + multiset(tail)
    ensures forall j :: 0 <= j < |rest| ==> InOrder(first, rest[j], collate)
  {
    forall j | 0 <= j < |rest|
      ensures InOrder(first, rest[j], collate)
    {
      assert rest[j] in multiset(rest);
    }
  }

  lemma {:induction false} InsertSorts(row: Category, rows: seq<Category>, collate: string -> real)
    requires Sorted(rows, collate)
    ensures Sorted(Insert(row, rows, collate), collate)
    ensures multiset(Insert(row, rows, collate)) == multiset{row} + multiset(rows)
  {
    if rows != [] && !InOrder(row, rows[0], collate) {
      InsertSorts(row, rows[1..], collate);
      assert rows == [rows[0]] + rows[1..];
      AllAfter(rows[0], row, rows[1..], Insert(row, rows[1..], collate), collate);
    }
  }

  lemma {:induction false} SortSorts(rows: seq<Category>, collate: string -> real)
    ensures Sorted(Sort(rows, collate), collate)
    ensures var sorted := Sort(rows, collate);
            forall i, j :: 0 <= i < j < |sorted| ==>
              || sorted[i].sortOrder < sorted[j].sortOrder
              || (sorted[i].sortOrder == sorted[j].sortOrder && collate(sorted[i].name) <= collate(sorted[j].name))
    ensures multiset(Sort(rows, collate)) == multiset(rows)
  {
    if rows != [] {
      SortSorts(rows[1..], collate);
      InsertSorts(rows[0], Sort(rows[1..], collate), collate);
      assert rows == [rows[0]] + rows[1..];
    }
  }

  /** The rows that neither precede nor follow `like`: of its sort order and with a name of the same rank. */
  function Tied(rows: seq<Category>, like: Category, collate: string -> real): seq<Category> {
    if rows == [] then []
    else if rows[0].sortOrder == like.sortOrder && collate(rows[0].name) == collate(like.name)
    then [rows[0]] + Tied(rows[1..], like, collate)
    else Tied(rows[1..], like, collate)
  }

  lemma {:induction false} InsertIsStable(row: Category, rows: seq<Category>, like: Category, collate: string -> real)
    ensures Tied(Insert(row, rows, collate), like, collate) == Tied([row] + rows, like, collate)
  {
    assert ([row] + rows)[1..] == rows;
    if rows != [] && !InOrder(row, rows[0], collate) {
      InsertIsStable(row, rows[1..], like, collate);
      assert ([row] + rows[1..])[1..] == rows[1..];
      assert ([rows[0]] + Insert(row, rows[1..], collate))[1..] == Insert(row, rows[1..], collate);
    }
  }

  /** Ties stay in the order of the input. */
  lemma {:induction false} SortIsStable(rows: seq<Category>, like: Category, collate: string -> real)
    ensures Tied(Sort(rows, collate), like, collate) == Tied(rows, like, collate)
  {
    if rows != [] {
      InsertIsStable(rows[0], Sort(rows[1..], collate), like, collate);
      SortIsStable(rows[1..], like, collate);
      assert ([rows[0]] + Sort(rows[1..], collate))[1..] == Sort(rows[1..], collate);
    }
  }

  lemma {:induction false} WithParentHolds(rows: seq<Category>, parent: Option<Uuid>)
    ensures forall row :: row in WithParent(rows, parent) <==> row in rows && row.parentId == parent
    ensures DistinctRows(rows) ==> DistinctRows(WithParent(rows, parent))
  {
    if rows != [] {
      WithParentHolds(rows[1..], parent);
      assert rows == [rows[0]] + rows[1..];
    }
  }

  predicate DistinctRows(rows: seq<Category>) {
    forall i, j :: 0 <= i < j < |rows| ==> rows[i].id != rows[j].id
  }

  lemma SiblingsHold(rows: seq<Category>, parent: Option<Uuid>, collate: string -> real)
    requires DistinctRows(rows)
    ensures forall row :: row in Siblings(rows, parent, collate) <==> row in rows && row.parentId == parent
    ensures Sorted(Siblings(rows, parent, collate), collate) && DistinctRows(Siblings(rows, parent, collate))
  {
    var found, sorted := WithParent(rows, parent), Siblings(rows, parent, collate);
    WithParentHolds(rows, parent);
    SortSorts(found, collate);
    forall row
      ensures row in sorted <==> row in found
    {
      assert row in sorted <==> row in multiset(sorted);
    }
    PermutationDistinct(found, sorted);
  }

  lemma PermutationDistinct(a: seq<Category>, b: seq<Category>)
    requires DistinctRows(a) && multiset(a) == multiset(b)
    ensures DistinctRows(b)
  {
    forall i, j | 0 <= i < j < |b|
      ensures b[i].id != b[j].id
    {
      assert b[i] in multiset(a) && b[j] in multiset(a);
      if b[i].id == b[j].id {
        assert b[i] == b[j];
        TwiceInMultiset(b, i, j);
        OnceInMultiset(a, b[i]);
      }
    }
  }

  lemma TwiceInMultiset(rows: seq<Category>, i: nat, j: nat)
    requires i < j < |rows| && rows[i] == rows[j]
    ensures multiset(rows)[rows[i]] >= 2
  {
    assert rows == rows[..j] + [rows[j]] + rows[j + 1..];
    assert rows[..j][i] in multiset(rows[..j]);
  }

  lemma {:induction false} OnceInMultiset(rows: seq<Category>, row: Category)
    requires DistinctRows(rows)
    ensures multiset(rows)[row] <= 1
  {
    if rows != [] {
      assert rows == [rows[0]] + rows[1..];
      OnceInMultiset(rows[1..], row);
      if rows[0] == row {
        assert row !in rows[1..];
      }
    }
  }

  // ---- The rows listed, as a table ----

  /** `t` holds exactly the listed rows, and all of them are live. */
  ghost predicate Lists(rows: seq<Category>, t: Table) {
    && DistinctRows(rows) && Keyed(t)
    && (forall row :: row in rows <==> row.id in t && t[row.id] == row)
    && (forall id :: id in t ==> Live(t, id))
  }

  /** The k-th row above `x` hangs directly below `parent`. */
  ghost predicate Hangs(t: Table, x: Uuid, parent: Option<Uuid>, k: nat) {
    Up(t, x, k).Some? && Live(t, Up(t, x, k).value) && t[Up(t, x, k).value].parentId == parent
  }

  lemma HangsBelow(t: Table, x: Uuid, s: Uuid, k: nat)
    requires Live(t, s)
    ensures Hangs(t, x, Some(s), k) <==> Up(t, x, k + 1) == Some(s)
  {
  }

  // ---- What the tree contains ----

  predicate Among(siblings: seq<Category>, id: Option<Uuid>) {
    siblings != [] && (id == Some(siblings[0].id) || Among(siblings[1..], id))
  }

  lemma {:induction false} AmongIff(siblings: seq<Category>, id: Option<Uuid>)
    ensures Among(siblings, id) <==> exists s :: s in siblings && id == Some(s.id)
  {
    if siblings != [] {
      AmongIff(siblings[1..], id);
      assert siblings == [siblings[0]] + siblings[1..];
    }
  }

  lemma AmongSiblings(rows: seq<Category>, t: Table, parent: Option<Uuid>, siblings: seq<Category>, id: Option<Uuid>)
    requires Lists(rows, t) && forall row :: row in siblings <==> row in rows && row.parentId == parent
    ensures Among(siblings, id) <==> id.Some? && Live(t, id.value) && t[id.value].parentId == parent
  {
    AmongIff(siblings, id);
    if id.Some? && Live(t, id.value) {
      assert t[id.value] in siblings <==> t[id.value].parentId == parent;
    }
  }

  /** A listed row is in the tree below `parent` exactly when its chain of listed ancestors leads there
      within the depth limit. */
  lemma {:induction false} TreeHolds(
    rows: seq<Category>, t: Table, parent: Option<Uuid>, depth: nat, collate: string -> real, row: Category, level: nat)
    requires Lists(rows, t)
    ensures (row, level) in Flatten(BuildTree(rows, parent, depth, collate)) <==>
              row in rows && depth <= level <= MAX_DEPTH && Hangs(t, row.id, parent, level - depth)
    decreases if depth > MAX_DEPTH then 0 else MAX_DEPTH + 1 - depth, 1, 0
  {
    if depth <= MAX_DEPTH {
      var siblings := Siblings(rows, parent, collate);
      SiblingsHold(rows, parent, collate);
      NodesHold(rows, t, siblings, depth, collate, row, level);
      if depth <= level {
        AmongSiblings(rows, t, parent, siblings, Up(t, row.id, level - depth));
      }
    }
  }

  lemma {:induction false} NodesHold(
    rows: seq<Category>, t: Table, siblings: seq<Category>, depth: nat, collate: string -> real, row: Category, level: nat)
    requires Lists(rows, t) && depth <= MAX_DEPTH
    requires forall s :: s in siblings ==> s in rows
    ensures (row, level) in Flatten(Nodes(rows, siblings, depth, collate)) <==>
              row in rows && depth <= level <= MAX_DEPTH && Among(siblings, Up(t, row.id, level - depth))
    decreases MAX_DEPTH + 1 - depth, 0, |siblings|
  {
    if siblings != [] {
      var s := siblings[0];
      TreeHolds(rows, t, Some(s.id), depth + 1, collate, row, level);
      NodesHold(rows, t, siblings[1..], depth, collate, row, level);
      if level > depth {
        HangsBelow(t, row.id, s.id, level - depth - 1);
      }
    }
  }

  /** The whole tree holds exactly the listed rows whose chain of ancestors is listed up to a root, at
      most ten steps away, each with that distance as its level. */
  lemma TreeExact(rows: seq<Category>, t: Table, collate: string -> real, row: Category, level: nat)
    requires Lists(rows, t)
    ensures (row, level) in Flatten(BuildTree(rows, None, 0, collate))
            <==> row in rows && level <= 10 && AtLevel(t, row.id, level)
  {
    TreeHolds(rows, t, None, 0, collate, row, level);
  }

  // ---- Each row once ----

  predicate DistinctEntries(entries: seq<(Category, nat)>) {
    forall i, j :: 0 <= i < j < |entries| ==> entries[i].0.id != entries[j].0.id
  }

  /** No row is in both lists. */
  predicate Apart(a: seq<(Category, nat)>, b: seq<(Category, nat)>) {
    forall x, y :: x in a && y in b ==> x.0.id != y.0.id
  }

  lemma DistinctTogether(a: seq<(Category, nat)>, b: seq<(Category, nat)>)
    requires DistinctEntries(a) && DistinctEntries(b) && Apart(a, b)
    ensures DistinctEntries(a + b)
  {
    forall i, j | 0 <= i < j < |a + b|
      ensures (a + b)[i].0.id != (a + b)[j].0.id
    {
      if i < |a| <= j {
        assert (a + b)[i] in a && (a + b)[j] in b;
      }
    }
  }

  /** What hangs below `parent` at this depth is at that distance from a root. */
  ghost predicate Anchored(t: Table, parent: Option<Uuid>, depth: nat) {
    if parent == None then depth == 0 else depth > 0 && AtLevel(t, parent.value, depth - 1)
  }

  lemma AnchoredLevel(t: Table, parent: Option<Uuid>, depth: nat, x: Uuid, k: nat)
    requires Anchored(t, parent, depth) && Hangs(t, x, parent, k)
    ensures AtLevel(t, x, k + depth)
  {
    if parent.Some? {
      assert Up(t, x, k + 1) == parent;
      UpAdds(t, x, k + 1, depth - 1);
    }
  }

  lemma {:induction false} TreeDistinct(
    rows: seq<Category>, t: Table, parent: Option<Uuid>, depth: nat, collate: string -> real)
    requires Lists(rows, t) && Anchored(t, parent, depth)
    ensures DistinctEntries(Flatten(BuildTree(rows, parent, depth, collate)))
    decreases if depth > MAX_DEPTH then 0 else MAX_DEPTH + 1 - depth, 1, 0
  {
    if depth <= MAX_DEPTH {
      SiblingsHold(rows, parent, collate);
      NodesDistinct(rows, t, parent, Siblings(rows, parent, collate), depth, collate);
    }
  }

  lemma {:induction false} NodesDistinct(
    rows: seq<Category>, t: Table, parent: Option<Uuid>, siblings: seq<Category>, depth: nat, collate: string -> real)
    requires Lists(rows, t) && Anchored(t, parent, depth) && depth <= MAX_DEPTH && DistinctRows(siblings)
    requires forall s :: s in siblings ==> s in rows && s.parentId == parent
    ensures DistinctEntries(Flatten(Nodes(rows, siblings, depth, collate)))
    decreases MAX_DEPTH + 1 - depth, 0, |siblings|
  {
    if siblings != [] {
      var s, rest := siblings[0], siblings[1..];
      assert s in siblings && forall r :: r in rest ==> r in siblings && r.id != s.id;
      AnchoredLevel(t, parent, depth, s.id, 0);
      TreeDistinct(rows, t, Some(s.id), depth + 1, collate);
      NodesDistinct(rows, t, parent, rest, depth, collate);
      JoinDistinct(rows, t, parent, s, rest, depth, collate);
      FlattenFirst(rows, siblings, depth, collate);
    }
  }

  lemma FlattenFirst(rows: seq<Category>, siblings: seq<Category>, depth: nat, collate: string -> real)
    requires siblings != [] && depth <= MAX_DEPTH
    ensures Flatten(Nodes(rows, siblings, depth, collate))
            == [(siblings[0], depth)] + (Flatten(BuildTree(rows, Some(siblings[0].id), depth + 1, collate))
                                         + Flatten(Nodes(rows, siblings[1..], depth, collate)))
  {
    var nodes := Nodes(rows, siblings, depth, collate);
    assert nodes[1..] == Nodes(rows, siblings[1..], depth, collate);
  }

  /** The rows in `entries` are at their levels, and lead to `s` at this depth. */
  ghost predicate LeadTo(t: Table, entries: seq<(Category, nat)>, s: Uuid, depth: nat) {
    forall x :: x in entries ==>
      x.1 >= depth && AtLevel(t, x.0.id, x.1) && Up(t, x.0.id, x.1 - depth) == Some(s)
  }

  ghost predicate LeadElsewhere(t: Table, entries: seq<(Category, nat)>, s: Uuid, depth: nat) {
    forall x :: x in entries ==>
      x.1 >= depth && AtLevel(t, x.0.id, x.1) && Up(t, x.0.id, x.1 - depth) != Some(s)
  }

  lemma DistinctSubtree(
    t: Table, s: Category, depth: nat, below: seq<(Category, nat)>, after: seq<(Category, nat)>)
    requires AtLevel(t, s.id, depth) && LeadTo(t, below, s.id, depth) && forall x :: x in below ==> x.1 > depth
    requires LeadElsewhere(t, after, s.id, depth) && DistinctEntries(below) && DistinctEntries(after)
    ensures DistinctEntries([(s, depth)] + (below + after))
  {
    var own := [(s, depth)];
    forall x, y | x in own + below && y in after && x.0.id == y.0.id
      ensures false
    {
      LevelUnique(t, x.0.id, x.1, y.1);
    }
    forall x | x in below && x.0.id == s.id
      ensures false
    {
      LevelUnique(t, s.id, depth, x.1);
    }
    DistinctTogether(below, after);
    DistinctTogether(own, below + after);
  }

  lemma EntryBelow(t: Table, s: Category, depth: nat, row: Category, level: nat)
    requires AtLevel(t, s.id, depth) && depth < level && Hangs(t, row.id, Some(s.id), level - depth - 1)
    ensures AtLevel(t, row.id, level) && Up(t, row.id, level - depth) == Some(s.id)
  {
    AnchoredLevel(t, Some(s.id), depth + 1, row.id, level - depth - 1);
  }

  /** The rows below a sibling lead to it, from further down. */
  lemma EntriesBelow(rows: seq<Category>, t: Table, s: Category, depth: nat, collate: string -> real)
    requires Lists(rows, t) && AtLevel(t, s.id, depth) && depth <= MAX_DEPTH
    ensures var below := Flatten(BuildTree(rows, Some(s.id), depth + 1, collate));
            LeadTo(t, below, s.id, depth) && forall x :: x in below ==> x.1 > depth
  {
    forall x | x in Flatten(BuildTree(rows, Some(s.id), depth + 1, collate))
      ensures x.1 > depth && AtLevel(t, x.0.id, x.1) && Up(t, x.0.id, x.1 - depth) == Some(s.id)
    {
      var (row, level) := x;
      TreeHolds(rows, t, Some(s.id), depth + 1, collate, row, level);
      EntryBelow(t, s, depth, row, level);
    }
  }

  /** The rows of the other siblings lead elsewhere. */
  lemma EntryAfter(
    t: Table, parent: Option<Uuid>, s: Category, rest: seq<Category>, depth: nat, row: Category, level: nat)
    requires Anchored(t, parent, depth) && depth <= level && (forall id :: id in t ==> Live(t, id))
    requires Among(rest, Up(t, row.id, level - depth))
    requires forall r :: r in rest ==> r.id in t && t[r.id] == r && r.parentId == parent && r.id != s.id
    ensures AtLevel(t, row.id, level) && Up(t, row.id, level - depth) != Some(s.id)
  {
    AmongIff(rest, Up(t, row.id, level - depth));
    AnchoredLevel(t, parent, depth, row.id, level - depth);
  }

  lemma EntriesAfter(
    rows: seq<Category>, t: Table, parent: Option<Uuid>, s: Category, rest: seq<Category>, depth: nat, collate: string -> real)
    requires Lists(rows, t) && Anchored(t, parent, depth) && depth <= MAX_DEPTH
    requires forall r :: r in rest ==> r in rows && r.parentId == parent && r.id != s.id
    ensures LeadElsewhere(t, Flatten(Nodes(rows, rest, depth, collate)), s.id, depth)
  {
    forall row, level: nat | (row, level) in Flatten(Nodes(rows, rest, depth, collate))
      ensures level >= depth && AtLevel(t, row.id, level) && Up(t, row.id, level - depth) != Some(s.id)
    {
      NodesHold(rows, t, rest, depth, collate, row, level);
      EntryAfter(t, parent, s, rest, depth, row, level);
    }
  }

  lemma JoinDistinct(
    rows: seq<Category>, t: Table, parent: Option<Uuid>, s: Category, rest: seq<Category>, depth: nat, collate: string -> real)
    requires Lists(rows, t) && Anchored(t, parent, depth) && depth <= MAX_DEPTH && AtLevel(t, s.id, depth)
    requires forall r :: r in rest ==> r in rows && r.parentId == parent && r.id != s.id
    requires DistinctEntries(Flatten(BuildTree(rows, Some(s.id), depth + 1, collate)))
    requires DistinctEntries(Flatten(Nodes(rows, rest, depth, collate)))
    ensures DistinctEntries([(s, depth)] + (Flatten(BuildTree(rows, Some(s.id), depth + 1, collate))
                                            + Flatten(Nodes(rows, rest, depth, collate))))
  {
    EntriesBelow(rows, t, s, depth, collate);
    EntriesAfter(rows, t, parent, s, rest, depth, collate);
    DistinctSubtree(t, s, depth, Flatten(BuildTree(rows, Some(s.id), depth + 1, collate)),
                    Flatten(Nodes(rows, rest, depth, collate)));
  }

  /** Every row is in the tree at most once. */
  lemma TreeHasNoDuplicates(rows: seq<Category>, t: Table, collate: string -> real)
    requires Lists(rows, t)
    ensures DistinctEntries(Flatten(BuildTree(rows, None, 0, collate)))
  {
    TreeDistinct(rows, t, None, 0, collate);
  }

  // ---- The shape of the tree ----

  /** Siblings are in order, children hang below the node they belong to one level down, and the flag
      says whether there are any. */
  ghost predicate WellShaped(nodes: seq<TreeNode>, parent: Option<Uuid>, depth: nat, collate: string -> real)
    decreases nodes
  {
    && (forall i, j :: 0 <= i < j < |nodes| ==> InOrder(nodes[i].category, nodes[j].category, collate))
    && forall i :: 0 <= i < |nodes| ==>
         && nodes[i].level == depth && nodes[i].category.parentId == parent
         && nodes[i].hasChildren == (nodes[i].children != [])
         && WellShaped(nodes[i].children, Some(nodes[i].category.id), depth + 1, collate)
  }

  /** The children of each sibling. */
  function KidsOf(rows: seq<Category>, siblings: seq<Category>, depth: nat, collate: string -> real): (kids: seq<seq<TreeNode>>)
    ensures |kids| == |siblings|
  {
    if siblings == [] then []
    else [BuildTree(rows, Some(siblings[0].id), depth + 1, collate)] + KidsOf(rows, siblings[1..], depth, collate)
  }

  ghost predicate KidsShaped(siblings: seq<Category>, kids: seq<seq<TreeNode>>, depth: nat, collate: string -> real)
    requires |kids| == |siblings|
  {
    forall i :: 0 <= i < |siblings| ==> WellShaped(kids[i], Some(siblings[i].id), depth + 1, collate)
  }

  predicate NodesMatch(nodes: seq<TreeNode>, siblings: seq<Category>, kids: seq<seq<TreeNode>>, depth: nat)
    requires |kids| == |siblings|
  {
    && |nodes| == |siblings|
    && forall i :: 0 <= i < |nodes| ==> nodes[i] == TreeNode(siblings[i], depth, kids[i], |kids[i]| > 0)
  }

  lemma {:induction false} TreeIsWellShaped(rows: seq<Category>, parent: Option<Uuid>, depth: nat, collate: string -> real)
    requires DistinctRows(rows)
    ensures WellShaped(BuildTree(rows, parent, depth, collate), parent, depth, collate)
    decreases if depth > MAX_DEPTH then 0 else MAX_DEPTH + 1 - depth, 1, 0
  {
    if depth <= MAX_DEPTH {
      var siblings := Siblings(rows, parent, collate);
      SiblingsHold(rows, parent, collate);
      KidsAreShaped(rows, siblings, depth, collate);
      NodesOfSiblings(rows, siblings, depth, collate);
      ShapeFrom(Nodes(rows, siblings, depth, collate), siblings, KidsOf(rows, siblings, depth, collate), parent, depth, collate);
    }
  }

  lemma {:induction false} KidsAreShaped(rows: seq<Category>, siblings: seq<Category>, depth: nat, collate: string -> real)
    requires DistinctRows(rows) && depth <= MAX_DEPTH
    ensures KidsShaped(siblings, KidsOf(rows, siblings, depth, collate), depth, collate)
    decreases MAX_DEPTH + 1 - depth, 0, |siblings|
  {
    if siblings != [] {
      TreeIsWellShaped(rows, Some(siblings[0].id), depth + 1, collate);
      KidsAreShaped(rows, siblings[1..], depth, collate);
    }
  }

  /** One node for each sibling, in their order. */
  lemma {:induction false} NodesOfSiblings(rows: seq<Category>, siblings: seq<Category>, depth: nat, collate: string -> real)
    requires depth <= MAX_DEPTH
    ensures NodesMatch(Nodes(rows, siblings, depth, collate), siblings, KidsOf(rows, siblings, depth, collate), depth)
    decreases |siblings|
  {
    if siblings != [] {
      NodesOfSiblings(rows, siblings[1..], depth, collate);
    }
  }

  lemma ShapeFrom(
    nodes: seq<TreeNode>, siblings: seq<Category>, kids: seq<seq<TreeNode>>, parent: Option<Uuid>, depth: nat, collate: string -> real)
    requires |kids| == |siblings| && NodesMatch(nodes, siblings, kids, depth) && KidsShaped(siblings, kids, depth, collate)
    requires Sorted(siblings, collate) && forall s :: s in siblings ==> s.parentId == parent
    ensures WellShaped(nodes, parent, depth, collate)
  {
    assert forall i :: 0 <= i < |siblings| ==> siblings[i] in siblings;
  }

  // ---- The rows the tree is built from ----

  /** The live rows, or only the active ones. */
  function Listed(t: Table, includeInactive: bool): Table {
    map id | id in t && !t[id].deleted && (includeInactive || t[id].isActive) :: t[id]
  }

  /** Climbing through the listed rows is climbing through the table as long as every row met is listed. */
  lemma {:induction false} ListedUp(t: Table, includeInactive: bool, x: Uuid, k: nat)
    requires x in Listed(t, includeInactive)
    ensures var u := Listed(t, includeInactive);
            Up(u, x, k) == if k == 0 || includeInactive || ActiveUpTo(t, x, k - 1) then Up(t, x, k) else None
    decreases k
  {
    if k > 0 {
      ListedUp(t, includeInactive, x, k - 1);
      assert ActiveUpTo(t, x, k - 1) <==> ActiveAt(t, x, k - 1) && (k == 1 || ActiveUpTo(t, x, k - 2)) by {
        if ActiveAt(t, x, k - 1) && (k == 1 || ActiveUpTo(t, x, k - 2)) {
          forall i: nat | i <= k - 1
            ensures ActiveAt(t, x, i)
          {
          }
        }
        if ActiveUpTo(t, x, k - 1) && k > 1 {
          assert ActiveUpTo(t, x, k - 2);
        }
      }
    }
  }

  /** The level in the list is the level in the table, for the rows whose ancestors are all listed. */
  lemma ListedLevel(t: Table, includeInactive: bool, x: Uuid, level: nat)
    requires x in Listed(t, includeInactive)
    ensures AtLevel(Listed(t, includeInactive), x, level)
            <==> AtLevel(t, x, level) && (includeInactive || ActiveUpTo(t, x, level))
  {
    ListedUp(t, includeInactive, x, level);
    if ActiveUpTo(t, x, level) {
      assert ActiveAt(t, x, level);
      assert level == 0 || ActiveUpTo(t, x, level - 1);
    }
    if AtLevel(Listed(t, includeInactive), x, level) && !includeInactive {
      assert ActiveAt(t, x, level);
      forall i: nat | i <= level
        ensures ActiveAt(t, x, i)
      {
      }
    }
  }
}
