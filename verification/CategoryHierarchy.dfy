/** Attaching the categories of one page to their parents on the same page. */
module CategoryHierarchy {
  import opened Common
  import opened CategoryEntities

  /** Those of the first n categories that have this parent, in the order of the page. */
  function FirstWithParent(page: seq<CategoryEntity>, n: nat, parent: Option<Uuid>): seq<CategoryEntity>
    requires n <= |page|
  {
    if n == 0 then []
    else if page[n - 1].parentId == parent then FirstWithParent(page, n - 1, parent) + [page[n - 1]]
    else FirstWithParent(page, n - 1, parent)
  }

  function WithParent(page: seq<CategoryEntity>, parent: Option<Uuid>): seq<CategoryEntity> {
    FirstWithParent(page, |page|, parent)
  }

  predicate DistinctIds(page: seq<CategoryEntity>) {
    forall i, j :: 0 <= i < j < |page| ==> page[i].id != page[j].id
  }

  /** The index holds the first n categories of the page. */
  ghost predicate IsIndex(index: map<Uuid, CategoryEntity>, page: seq<CategoryEntity>, n: nat)
    requires n <= |page|
  {
    && (forall id :: id in index ==> index[id] in page && index[id].id == id)
    && forall i :: 0 <= i < n ==> page[i].id in index && index[page[i].id] == page[i]
  }

  /** The first pass: an index by id, empty child lists, and the roots. */
  method IndexPage(page: seq<CategoryEntity>) returns (index: map<Uuid, CategoryEntity>, roots: seq<CategoryEntity>)
    requires DistinctIds(page)
    modifies set c | c in page :: c`children
    ensures IsIndex(index, page, |page|) && roots == WithParent(page, None)
    ensures forall c :: c in page ==> c.children == []
  {
    index, roots := map[], [];
    for i := 0 to |page|
      invariant IsIndex(index, page, i)
      invariant roots == FirstWithParent(page, i, None)
      invariant forall j :: 0 <= j < i ==> page[j].children == []
    {
      index := index[page[i].id := page[i]];
      assert page[i] in page;
      page[i].children := [];
      if page[i].parentId == None {
        roots := roots + [page[i]];
      }
    }
  }

  /** The second pass: every category is appended to the children of its parent, if that is on the page. */
  method AttachChildren(page: seq<CategoryEntity>, index: map<Uuid, CategoryEntity>)
    requires DistinctIds(page) && IsIndex(index, page, |page|) && forall c :: c in page ==> c.children == []
    modifies set c | c in page :: c`children
    ensures forall c :: c in page ==> c.children == WithParent(page, Some(c.id))
  {
    for i := 0 to |page|
      invariant forall j :: 0 <= j < |page| ==> page[j].children == FirstWithParent(page, i, Some(page[j].id))
    {
      var category := page[i];
      if category.parentId.Some? && category.parentId.value in index {
        var parent := index[category.parentId.value];
        assert forall j :: 0 <= j < |page| && page[j].id == parent.id ==> page[j] == parent;
        parent.children := parent.children + [category];
      }
    }
  }

  /** Every category gets exactly the list of the page's categories that name it as their parent, and the
      parentless ones are returned. */
  method BuildHierarchyForCategories(page: seq<CategoryEntity>) returns (roots: seq<CategoryEntity>)
    requires DistinctIds(page)
    modifies set c | c in page :: c`children
    ensures roots == WithParent(page, None)
    ensures forall c :: c in page ==> c.children == WithParent(page, Some(c.id))
  {
    var index: map<Uuid, CategoryEntity>;
    index, roots := IndexPage(page);
    AttachChildren(page, index);
  }

  lemma {:induction false} MoreOfThePage(page: seq<CategoryEntity>, n: nat, m: nat, parent: Option<Uuid>)
    requires n <= m <= |page|
    ensures FirstWithParent(page, n, parent) <= FirstWithParent(page, m, parent)
    decreases m
  {
    if n < m {
      MoreOfThePage(page, n, m - 1, parent);
    }
  }

  /** The children of a category, and the roots, come in the order of the page. */
  lemma {:induction false} ListedInPageOrder(page: seq<CategoryEntity>, a: nat, b: nat, parent: Option<Uuid>) returns (i: nat, j: nat)
    requires a < b < |page| && page[a].parentId == parent && page[b].parentId == parent
    ensures i < j < |WithParent(page, parent)|
    ensures WithParent(page, parent)[i] == page[a] && WithParent(page, parent)[j] == page[b]
  {
    i, j := |FirstWithParent(page, a, parent)|, |FirstWithParent(page, b, parent)|;
    MoreOfThePage(page, a + 1, b, parent);
    MoreOfThePage(page, a + 1, |page|, parent);
    MoreOfThePage(page, b + 1, |page|, parent);
  }

  // ---- Roots, attached children and orphans ----

  predicate OnPage(page: seq<CategoryEntity>, id: Uuid) {
    exists i :: 0 <= i < |page| && page[i].id == id
  }

  lemma {:induction false} FirstWithParentHolds(page: seq<CategoryEntity>, n: nat, parent: Option<Uuid>)
    requires DistinctIds(page) && n <= |page|
    ensures var found := FirstWithParent(page, n, parent);
            && (forall i :: 0 <= i < |found| ==> found[i] in page[..n] && found[i].parentId == parent)
            && (forall i :: 0 <= i < n && page[i].parentId == parent ==> page[i] in found)
            && DistinctIds(found)
  {
    if n > 0 {
      FirstWithParentHolds(page, n - 1, parent);
      assert page[..n] == page[..n - 1] + [page[n - 1]];
    }
  }

  lemma WithParentHolds(page: seq<CategoryEntity>, parent: Option<Uuid>)
    requires DistinctIds(page)
    ensures var found := WithParent(page, parent);
            && (forall i :: 0 <= i < |found| ==> found[i] in page && found[i].parentId == parent)
            && (forall i :: 0 <= i < |page| && page[i].parentId == parent ==> page[i] in found)
            && DistinctIds(found)
  {
    FirstWithParentHolds(page, |page|, parent);
  }

  /** Each category of the page is exactly one of: a root; a child, once, of exactly one category of the
      page; or an orphan whose parent is elsewhere, and orphans are in no list. */
  lemma PagePartitions(page: seq<CategoryEntity>, c: CategoryEntity)
    requires DistinctIds(page) && c in page
    ensures c in WithParent(page, None) <==> c.parentId == None
    ensures (exists p :: p in page && c in WithParent(page, Some(p.id)))
            <==> c.parentId.Some? && OnPage(page, c.parentId.value)
    ensures forall p, q :: p in page && q in page && c in WithParent(page, Some(p.id)) && c in WithParent(page, Some(q.id)) ==>
              p == q && c !in WithParent(page, None)
    ensures forall p :: p in page ==> DistinctIds(WithParent(page, Some(p.id)))
  {
    WithParentHolds(page, None);
    forall p | p in page
      ensures c in WithParent(page, Some(p.id)) <==> c.parentId == Some(p.id)
      ensures DistinctIds(WithParent(page, Some(p.id)))
    {
      WithParentHolds(page, Some(p.id));
    }
    if c.parentId.Some? && OnPage(page, c.parentId.value) {
      var i :| 0 <= i < |page| && page[i].id == c.parentId.value;
      assert page[i] in page;
    }
  }
}
