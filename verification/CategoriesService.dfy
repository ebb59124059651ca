/** The categories service over its table, one call at a time. */
module CategoriesService {
  import opened Common
  import opened CategoryForest
  import opened CategoryRules
  import opened CategoryDescent
  import opened CategoryEntities
  import CategoryTree

  class CategoriesService {
    var table: Table
    /** How many live products each category has; absent means none. */
    var products: map<Uuid, nat>
    const slugOf: string -> string

    ghost predicate Valid()
      reads this
    {
      Forest(table) && SlugsUnique(table)
    }

    constructor (slugOf: string -> string)
      ensures Valid() && table == map[] && products == map[] && this.slugOf == slugOf
    {
      table, products, this.slugOf := map[], map[], slugOf;
    }

    // ---- Queries ----

    method FindById(id: Uuid, includeInactive: bool) returns (row: Option<Category>)
      ensures row == if Live(table, id) && (includeInactive || table[id].isActive) then Some(table[id]) else None
    {
      if id in table && !table[id].deleted && (includeInactive || table[id].isActive) {
        return Some(table[id]);
      }
      return None;
    }

    method FindBySlug(slug: string, except: Option<Uuid>) returns (found: bool)
      ensures found <==> SlugTaken(table, slug, except)
    {
      found := exists id :: id in table && !table[id].deleted && table[id].slug == slug && Some(id) != except;
      assert found ==> SlugTaken(table, slug, except) by {
        if found {
          var id :| id in table && !table[id].deleted && table[id].slug == slug && Some(id) != except;
          assert Live(table, id);
        }
      }
    }

    /** The failure of the check, if any. */
    method ValidateUniqueNameInLevel(name: string, parentId: Option<Uuid>, excludeId: Option<Uuid>)
      returns (failure: Option<Failure>)
      ensures failure == if NameTaken(table, name, parentId, excludeId) then Some(Conflict) else None
    {
      var existing := set id | id in table && !table[id].deleted && table[id].name == name
                               && table[id].parentId == parentId && Some(id) != excludeId;
      assert NameTaken(table, name, parentId, excludeId) <==> existing != {} by {
        if existing != {} {
          var id :| id in existing;
          assert Live(table, id);
        }
        if NameTaken(table, name, parentId, excludeId) {
          var id :| Live(table, id) && table[id].name == name && table[id].parentId == parentId && Some(id) != excludeId;
          assert id in existing;
        }
      }
      return if existing == {} then None else Some(Conflict);
    }

    /** The live rows whose parent is among `ids`, in whatever order the database returns them. */
    method QueryChildren(ids: seq<Uuid>) returns (rows: seq<Uuid>)
      ensures AreChildren(table, ids, rows)
    {
      var left := set x | x in table && !table[x].deleted && table[x].parentId.Some? && table[x].parentId.value in ids;
      ghost var all := left;
      rows := [];
      while left != {}
        invariant left <= all && Distinct(rows)
        invariant forall x :: x in all <==> x in rows || x in left
        invariant forall x :: x in rows ==> x !in left
        decreases |left|
      {
        var x :| x in left;
        rows, left := rows + [x], left - {x};
      }
    }

    // ---- Walking the hierarchy ----

    /** One query of the descent. */
    method NextLevel(categoryId: Uuid, level: seq<Uuid>, ghost all: seq<Uuid>, ghost depth: nat) returns (rows: seq<Uuid>)
      requires Forest(table) && Live(table, categoryId)
      requires IsDescent(table, categoryId, all, depth) && IsLevel(table, categoryId, level, depth)
      ensures rows == [] ==> EmptyLevel(table, categoryId, depth + 1)
      ensures rows != [] ==> IsDescent(table, categoryId, all + rows, depth + 1) && IsLevel(table, categoryId, rows, depth + 1)
      ensures rows != [] ==> Left(table, all + rows) < Left(table, all)
    {
      rows := QueryChildren(level);
      DescentRound(table, categoryId, all, level, rows, depth);
    }

    /** Breadth-first descent, with no set of visited rows: in a forest it ends, because every round finds
        rows that were not found before. */
    method FindDescendants(categoryId: Uuid, maxDepth: Option<int>) returns (all: seq<Uuid>)
      requires Valid() && Live(table, categoryId)
      ensures IsDescentTo(table, categoryId, all, maxDepth)
    {
      var current := [categoryId];
      all := [];
      var depth: nat := 0;
      DescentStarts(table, categoryId);
      while |current| > 0
        invariant IsDescent(table, categoryId, all, depth) && IsLevel(table, categoryId, current, depth)
        invariant maxDepth.Some? ==> depth == 0 || depth <= maxDepth.value
        invariant current != []
        decreases Left(table, all)
      {
        if maxDepth.Some? && depth >= maxDepth.value {
          break;
        }
        var rows := NextLevel(categoryId, current, all, depth);
        if |rows| == 0 {
          break;
        }
        all := all + rows;
        current := rows;
        depth := depth + 1;
      }
      DescentStops(table, categoryId, all, depth, maxDepth);
    }

    method GetDescendants(categoryId: Uuid, maxDepth: Option<int>) returns (result: Result<seq<Uuid>, Failure>)
      requires Valid()
      ensures result.Err? ==> result.error == NotFound
      ensures result.Ok? <==> ActiveRow(table, categoryId)
      ensures result.Ok? ==> IsDescentTo(table, categoryId, result.value, maxDepth)
    {
      var category := FindById(categoryId, false);
      if category == None {
        return Err(NotFound);
      }
      var descendants := FindDescendants(categoryId, maxDepth);
      return Ok(descendants);
    }

    method ValidateHierarchy(parentId: Uuid, childId: Uuid) returns (failure: Option<Failure>)
      requires Valid()
      ensures failure == CategoryRules.ValidateHierarchy(table, parentId, childId)
    {
      if parentId == childId {
        return Some(BadRequest);
      }
      var parentCategory := FindById(parentId, true);
      if parentCategory == None {
        return Some(BadRequest);
      }
      var childCategory := FindById(childId, true);
      if childCategory == None {
        return Some(BadRequest);
      }
      var descendants := GetDescendants(childId, None);
      if descendants.Err? {
        return Some(descendants.error);
      }
      if parentId in descendants.value {
        return Some(BadRequest);
      }
      return None;
    }

    /** Climbs from a category through active rows. */
    method GetCategoryPath(categoryId: Uuid) returns (result: Result<seq<string>, Failure>)
      requires Valid()
      ensures result.Ok? <==> ActiveRow(table, categoryId)
      ensures result.Ok? ==> IsActivePath(table, categoryId, result.value)
      ensures result.Err? ==> result.error == NotFound
    {
      var current := FindById(categoryId, false);
      if current == None {
        return Err(NotFound);
      }
      var path: seq<string> := [];
      assert ActiveAt(table, categoryId, 0);
      while current.Some?
        invariant current.Some? ==>
                    && ActiveRow(table, current.value.id) && table[current.value.id] == current.value
                    && Up(table, categoryId, |path|) == Some(current.value.id)
        invariant current == None ==> path != [] && !ActiveAt(table, categoryId, |path|)
        invariant Climbed(table, categoryId, path)
        decreases current.Some?, if current.Some? then AncestorSet(table, current.value.id) else {}
      {
        ClimbStep(table, categoryId, path, current.value.id);
        path := [current.value.name] + path;
        if current.value.parentId.Some? {
          ParentHasFewerAncestors(table, current.value.id);
          current := FindById(current.value.parentId.value, false);
        } else {
          break;
        }
      }
      return Ok(path);
    }

    /** One category with its level and its path, as every call that returns a category gives them. */
    method FindOne(id: Uuid) returns (result: Result<(Category, nat, seq<string>), Failure>)
      requires Valid()
      ensures result.Ok? <==> Live(table, id)
      ensures result.Ok? ==>
                && result.value.0 == table[id]
                && AtLevel(table, id, result.value.1) && IsPath(table, id, result.value.1, result.value.2)
      ensures result.Err? ==> result.error == NotFound
    {
      var row := FindById(id, true);
      if row == None {
        return Err(NotFound);
      }
      var category := new CategoryEntity(row.value);
      ghost var chain := LoadAncestors(table, category, []);
      var level := category.GetLevel(chain);
      var path := category.GetPath(chain);
      ChainGivesPath(table, id, chain, path);
      return Ok((row.value, level, path));
    }

    /** The live rows, all or only the active ones, in whatever order the database returns them. */
    method QueryListed(includeInactive: bool) returns (rows: seq<Category>)
      requires Keyed(table)
      ensures CategoryTree.Lists(rows, CategoryTree.Listed(table, includeInactive))
    {
      ghost var all := CategoryTree.Listed(table, includeInactive);
      var left := set id | id in table && !table[id].deleted && (includeInactive || table[id].isActive);
      rows := [];
      while left != {}
        invariant left <= all.Keys && CategoryTree.DistinctRows(rows)
        invariant forall row :: row in rows <==> row.id in all && all[row.id] == row && row.id !in left
        decreases |left|
      {
        var id :| id in left;
        rows, left := rows + [table[id]], left - {id};
      }
    }

    method BuildCategoryTree(includeInactive: bool, collate: string -> real) returns (tree: seq<CategoryTree.TreeNode>)
      requires Keyed(table)
      ensures CategoryTree.WellShaped(tree, None, 0, collate)
      ensures CategoryTree.DistinctEntries(CategoryTree.Flatten(tree))
      ensures forall row: Category, level: nat ::
                (row, level) in CategoryTree.Flatten(tree) <==> ShownAt(table, includeInactive, row, level)
    {
      var rows := QueryListed(includeInactive);
      tree := CategoryTree.BuildTree(rows, None, 0, collate);
      TreeOfTable(table, includeInactive, rows, collate);
    }

    // ---- Calls that change the table ----

    /** The database takes a row unless the slug of another row is in the way. */
    method Save(row: Category) returns (saved: bool)
      modifies `table
      ensures saved <==> !SlugStored(old(table), row.slug, row.id)
      ensures table == if saved then old(table)[row.id := row] else old(table)
    {
      saved := !exists id :: id in table && id != row.id && table[id].slug == row.slug;
      if saved {
        table := table[row.id := row];
      }
    }

    /** `id` is the fresh key the database gives to the row. */
    method Create(id: Uuid, dto: NewCategory) returns (failure: Option<Failure>)
      requires Valid() && id !in table
      modifies `table
      ensures Valid()
      ensures table == After(old(table), CreateCall(id, dto), slugOf)
      ensures var outcome := CategoryRules.Create(old(table), id, dto, slugOf);
              failure == if outcome.Err? then Some(outcome.error) else None
    {
      CallKeepsForest(table, CreateCall(id, dto), slugOf);
      CallKeepsSlugsUnique(table, CreateCall(id, dto), slugOf);
      var slug := if dto.slug.Some? && dto.slug.value != "" then dto.slug.value else slugOf(dto.name);
      var taken := FindBySlug(slug, None);
      if taken {
        return Some(Conflict);
      }
      if dto.parentId.Some? {
        var foundParent := FindById(dto.parentId.value, true);
        if foundParent == None {
          return Some(BadRequest);
        }
      }
      var clash := ValidateUniqueNameInLevel(dto.name, dto.parentId, None);
      if clash.Some? {
        return clash;
      }
      var order := if dto.sortOrder.Some? then dto.sortOrder.value else 0;
      var saved := Save(Category(id, dto.name, slug, dto.parentId, true, order, false));
      return if saved then None else Some(BadRequest);
    }

    method Update(id: Uuid, changes: Changes) returns (failure: Option<Failure>)
      requires Valid()
      modifies `table
      ensures Valid()
      ensures table == After(old(table), UpdateCall(id, changes), slugOf)
      ensures var outcome := CategoryRules.Update(old(table), id, changes, slugOf);
              failure == if outcome.Err? then Some(outcome.error) else None
    {
      CallKeepsForest(table, UpdateCall(id, changes), slugOf);
      CallKeepsSlugsUnique(table, UpdateCall(id, changes), slugOf);
      var category := FindById(id, true);
      if category == None {
        return Some(NotFound);
      }
      if changes.parent.Under? {
        failure := ValidateHierarchy(changes.parent.parentId, id);
        if failure.Some? {
          return;
        }
      }
      if Given(changes.slug) && changes.slug.value != category.value.slug {
        var taken := FindBySlug(changes.slug.value, Some(id));
        if taken {
          return Some(Conflict);
        }
      }
      if Given(changes.name) || changes.parent.Under? {
        var name := if Given(changes.name) then changes.name.value else category.value.name;
        failure := ValidateUniqueNameInLevel(name, NewParent(category.value, changes.parent), Some(id));
        if failure.Some? {
          return;
        }
      }
      var saved := Save(Merged(category.value, changes, slugOf));
      return if saved then None else Some(BadRequest);
    }

    method Remove(id: Uuid) returns (failure: Option<Failure>)
      requires Valid()
      modifies `table
      ensures Valid()
      ensures var call := RemoveCall(id, if id in products then products[id] else 0);
              && table == After(old(table), call, slugOf)
              && failure == (var outcome := Outcome(old(table), call, slugOf);
                             if outcome.Err? then Some(outcome.error) else None)
    {
      var productCount := if id in products then products[id] else 0;
      CallKeepsForest(table, RemoveCall(id, productCount), slugOf);
      CallKeepsSlugsUnique(table, RemoveCall(id, productCount), slugOf);
      var category := FindById(id, true);
      if category == None {
        return Some(NotFound);
      }
      var children := QueryChildren([id]);
      assert HasLiveChild(table, id) <==> |children| > 0 by {
        if |children| > 0 {
          assert children[0] in children;
          assert Live(table, children[0]) && table[children[0]].parentId == Some(id);
        }
      }
      if |children| > 0 {
        return Some(BadRequest);
      }
      if productCount > 0 {
        return Some(BadRequest);
      }
      table := table[id := table[id].(deleted := true)];
      return None;
    }

    method UpdateStatus(id: Uuid, isActive: bool) returns (failure: Option<Failure>)
      requires Valid()
      modifies `table
      ensures Valid()
      ensures table == After(old(table), StatusCall(id, isActive), slugOf)
      ensures failure == if Live(old(table), id) then None else Some(NotFound)
    {
      CallKeepsForest(table, StatusCall(id, isActive), slugOf);
      CallKeepsSlugsUnique(table, StatusCall(id, isActive), slugOf);
      var category := FindById(id, true);
      if category == None {
        return Some(NotFound);
      }
      table := table[id := table[id].(isActive := isActive)];
      return None;
    }
  }

  /** A live row at this level, at most ten steps below its root, and in the tree without inactive
      categories only if no row up to the root is inactive. */
  ghost predicate ShownAt(t: Table, includeInactive: bool, row: Category, level: nat) {
    && Live(t, row.id) && t[row.id] == row
    && level <= 10 && AtLevel(t, row.id, level)
    && (includeInactive || ActiveUpTo(t, row.id, level))
  }

  /** The tree of a table, through the list of its rows. */
  lemma TreeOfTable(t: Table, includeInactive: bool, rows: seq<Category>, collate: string -> real)
    requires CategoryTree.Lists(rows, CategoryTree.Listed(t, includeInactive))
    ensures var tree := CategoryTree.BuildTree(rows, None, 0, collate);
            && CategoryTree.WellShaped(tree, None, 0, collate)
            && CategoryTree.DistinctEntries(CategoryTree.Flatten(tree))
            && forall row: Category, level: nat ::
                 (row, level) in CategoryTree.Flatten(tree) <==> ShownAt(t, includeInactive, row, level)
  {
    CategoryTree.TreeIsWellShaped(rows, None, 0, collate);
    CategoryTree.TreeHasNoDuplicates(rows, CategoryTree.Listed(t, includeInactive), collate);
    forall row: Category, level: nat
      ensures (row, level) in CategoryTree.Flatten(CategoryTree.BuildTree(rows, None, 0, collate)) <==>
                ShownAt(t, includeInactive, row, level)
    {
      RowInTree(t, includeInactive, rows, collate, row, level);
    }
  }

  lemma RowInTree(
    t: Table, includeInactive: bool, rows: seq<Category>, collate: string -> real, row: Category, level: nat)
    requires CategoryTree.Lists(rows, CategoryTree.Listed(t, includeInactive))
    ensures (row, level) in CategoryTree.Flatten(CategoryTree.BuildTree(rows, None, 0, collate)) <==>
              ShownAt(t, includeInactive, row, level)
  {
    CategoryTree.TreeExact(rows, CategoryTree.Listed(t, includeInactive), collate, row, level);
    if row.id in CategoryTree.Listed(t, includeInactive) {
      CategoryTree.ListedLevel(t, includeInactive, row.id, level);
    } else if ActiveUpTo(t, row.id, level) {
      assert ActiveAt(t, row.id, 0);
    }
  }

  lemma ChainGivesPath(t: Table, id: Uuid, chain: seq<CategoryEntity>, path: seq<string>)
    requires Live(t, id) && Holds(t, id, chain)
    requires |path| == |chain| + 1 && path[|chain|] == t[id].name
    requires forall i :: 0 <= i < |chain| ==> path[|chain| - 1 - i] == chain[i].name
    ensures IsPath(t, id, |chain|, path)
  {
    forall j | 0 <= j <= |chain|
      ensures OnPath(t, id, |chain| - j, path[j])
    {
      if j < |chain| {
        var i := |chain| - 1 - j;
        assert IsAncestor(t, id, i + 1, chain[i]);
        assert path[|chain| - 1 - i] == chain[i].name;
      }
    }
  }

  /** `path` holds the names met so far on the way up through active rows. */
  ghost predicate Climbed(t: Table, id: Uuid, path: seq<string>) {
    path != [] ==> IsPath(t, id, |path| - 1, path) && ActiveUpTo(t, id, |path| - 1)
  }

  lemma ClimbStep(t: Table, id: Uuid, path: seq<string>, x: Uuid)
    requires Climbed(t, id, path) && Up(t, id, |path|) == Some(x) && ActiveRow(t, x)
    ensures Climbed(t, id, [t[x].name] + path) && Up(t, id, |path| + 1) == t[x].parentId
  {
    var longer := [t[x].name] + path;
    assert OnPath(t, id, |path|, t[x].name) && ActiveAt(t, id, |path|);
    assert forall i: nat :: i < |path| ==> ActiveAt(t, id, i);
    forall j | 0 <= j <= |path|
      ensures OnPath(t, id, |path| - j, longer[j])
    {
      if j > 0 {
        assert longer[j] == path[j - 1];
        assert OnPath(t, id, (|path| - 1) - (j - 1), path[j - 1]);
      }
    }
  }
}
