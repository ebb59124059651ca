/** The category entity: climbing the parent pointers of loaded objects, related to the table the
    objects were loaded from. */
module CategoryEntities {
  import opened Common
  import opened CategoryForest

  class CategoryEntity {
    const id: Uuid
    const name: string
    const parentId: Option<Uuid>
    var parent: CategoryEntity?
    var children: seq<CategoryEntity>
    var level: Option<nat>
    var path: Option<seq<string>>

    constructor (row: Category)
      ensures id == row.id && name == row.name && parentId == row.parentId
      ensures parent == null && children == [] && level == None && path == None
    {
      id, name, parentId := row.id, row.name, row.parentId;
      parent, children, level, path := null, [], None, None;
    }

    /** The parent pointers lead through `chain`, nearest first, and end there. */
    ghost predicate Linked(chain: seq<CategoryEntity>)
      reads this, chain
    {
      && parent == At(chain, 0)
      && forall i :: 0 <= i < |chain| ==> chain[i].parent == At(chain, i + 1)
    }

    method IsDescendantOf(category: CategoryEntity, ghost chain: seq<CategoryEntity>) returns (below: bool)
      requires Linked(chain)
      ensures below <==> exists i :: 0 <= i < |chain| && chain[i].id == category.id
    {
      var current := parent;
      ghost var i := 0;
      while current != null
        invariant 0 <= i <= |chain| && current == At(chain, i)
        invariant forall j :: 0 <= j < i ==> chain[j].id != category.id
        decreases |chain| - i
      {
        if current.id == category.id {
          return true;
        }
        current := current.parent;
        i := i + 1;
      }
      return false;
    }

    method GetAncestors(ghost chain: seq<CategoryEntity>) returns (ancestors: seq<CategoryEntity>)
      requires Linked(chain)
      ensures |ancestors| == |chain|
      ensures forall i :: 0 <= i < |chain| ==> ancestors[|chain| - 1 - i] == chain[i]
    {
      ancestors := [];
      var current := parent;
      while current != null
        invariant |ancestors| <= |chain| && current == At(chain, |ancestors|)
        invariant forall j :: 0 <= j < |ancestors| ==> ancestors[|ancestors| - 1 - j] == chain[j]
        decreases |chain| - |ancestors|
      {
        ancestors := [current] + ancestors;
        current := current.parent;
      }
    }

    method GetLevel(ghost chain: seq<CategoryEntity>) returns (result: nat)
      requires Linked(chain)
      ensures result == if level.Some? then level.value else |chain|
    {
      if level.Some? {
        return level.value;
      }
      var ancestors := GetAncestors(chain);
      return |ancestors|;
    }

    method GetPath(ghost chain: seq<CategoryEntity>) returns (result: seq<string>)
      requires Linked(chain)
      ensures path.Some? ==> result == path.value
      ensures path.None? ==>
                && |result| == |chain| + 1 && result[|chain|] == name
                && forall i :: 0 <= i < |chain| ==> result[|chain| - 1 - i] == chain[i].name
    {
      if path.Some? {
        return path.value;
      }
      var ancestors := GetAncestors(chain);
      return seq(|ancestors|, i requires 0 <= i < |ancestors| => ancestors[i].name) + [name];
    }
  }

  function At(chain: seq<CategoryEntity>, i: nat): CategoryEntity? {
    if i < |chain| then chain[i] else null
  }

  predicate IsRow(e: CategoryEntity, row: Category) {
    e.id == row.id && e.name == row.name && e.parentId == row.parentId
  }

  /** `e` was loaded from the row k steps above `id`. */
  ghost predicate IsAncestor(t: Table, id: Uuid, k: nat, e: CategoryEntity) {
    var x := Up(t, id, k);
    x.Some? && Live(t, x.value) && IsRow(e, t[x.value])
  }

  /** `chain` holds the ancestors of a row, nearest first, as far as they are loaded. */
  ghost predicate Holds(t: Table, id: Uuid, chain: seq<CategoryEntity>) {
    forall i :: 0 <= i < |chain| ==> IsAncestor(t, id, i + 1, chain[i])
  }

  lemma HoldsTail(t: Table, id: Uuid, chain: seq<CategoryEntity>)
    requires Live(t, id) && chain != [] && Holds(t, id, chain)
    ensures t[id].parentId.Some? && var p := t[id].parentId.value;
            Live(t, p) && IsRow(chain[0], t[p]) && Holds(t, p, chain[1..])
  {
    UpFirst(t, id, 0);
    assert IsAncestor(t, id, 0 + 1, chain[0]);
    var p := t[id].parentId.value;
    forall i | 0 <= i < |chain| - 1
      ensures IsAncestor(t, p, i + 1, chain[1..][i])
    {
      UpFirst(t, id, i + 1);
      assert IsAncestor(t, id, (i + 1) + 1, chain[i + 1]);
    }
  }

  lemma HoldsCons(t: Table, id: Uuid, parent: CategoryEntity, above: seq<CategoryEntity>)
    requires Live(t, id) && t[id].parentId.Some? && Live(t, t[id].parentId.value)
    requires IsRow(parent, t[t[id].parentId.value]) && Holds(t, t[id].parentId.value, above)
    ensures Holds(t, id, [parent] + above)
  {
    var chain := [parent] + above;
    forall i | 0 <= i < |chain|
      ensures IsAncestor(t, id, i + 1, chain[i])
    {
      UpFirst(t, id, i);
      if i > 0 {
        assert chain[i] == above[i - 1];
      }
    }
  }

  /** Climbing the loaded objects from a row finds exactly the rows it is a descendant of. */
  lemma ChainIsAncestors(t: Table, id: Uuid, chain: seq<CategoryEntity>, c: Uuid)
    requires Live(t, id) && Holds(t, id, chain) && AtLevel(t, id, |chain|) && Keyed(t)
    ensures (exists i :: 0 <= i < |chain| && chain[i].id == c) <==> Descendant(t, c, id)
  {
    if i :| 0 <= i < |chain| && chain[i].id == c {
      assert Up(t, id, i + 1) == Some(c);
    }
    if Descendant(t, c, id) {
      var k: nat :| k > 0 && Up(t, id, k) == Some(c);
      if k > |chain| {
        NothingAboveRoot(t, id, |chain|, k);
      }
      assert chain[k - 1].id == c;
    }
  }

  lemma AncestorsDiffer(t: Table, e: CategoryEntity, chain: seq<CategoryEntity>)
    requires Forest(t) && Live(t, e.id) && Holds(t, e.id, chain)
    ensures e !in chain
  {
    forall i | 0 <= i < |chain|
      ensures chain[i].id != e.id
    {
      assert Up(t, e.id, i + 1) == Some(chain[i].id);
    }
  }

  /** Loads the ancestors of `e` that are not loaded yet. */
  method LoadAncestors(t: Table, e: CategoryEntity, ghost loaded: seq<CategoryEntity>)
    returns (ghost chain: seq<CategoryEntity>)
    requires Forest(t) && Live(t, e.id) && IsRow(e, t[e.id])
    requires e.Linked(loaded) && Holds(t, e.id, loaded)
    modifies e, loaded
    ensures e.Linked(chain) && Holds(t, e.id, chain) && AtLevel(t, e.id, |chain|)
    ensures forall a :: a in chain ==> a in loaded || fresh(a)
    ensures e.level == old(e.level) && e.path == old(e.path)
    decreases AncestorSet(t, e.id)
  {
    if e.parentId == None {
      if loaded != [] {
        HoldsTail(t, e.id, loaded);
        assert false;
      }
      return [];
    }
    var p := e.parentId.value;
    ghost var rest := if loaded == [] then [] else loaded[1..];
    if loaded != [] {
      HoldsTail(t, e.id, loaded);
      AncestorsDiffer(t, e, loaded);
    }
    if e.parent == null {
      var found := new CategoryEntity(t[p]);
      e.parent := found;
    }
    ParentHasFewerAncestors(t, e.id);
    ghost var above := LoadAncestors(t, e.parent, rest);
    AncestorsDiffer(t, e, [e.parent] + above) by {
      HoldsCons(t, e.id, e.parent, above);
    }
    chain := [e.parent] + above;
    HoldsCons(t, e.id, e.parent, above);
    LevelOfChild(t, e.id, |above|);
  }
}
