/** When the calls of the categories service succeed and what exactly a successful one leaves behind, in
    terms of the rows alone. */
module CategoryEffects {
  import opened Common
  import opened CategoryForest
  import opened CategoryRules

  /** All rows but one are as they were. */
  ghost predicate OnlyRow(t: Table, t': Table, id: Uuid) {
    t'.Keys == t.Keys + {id} && forall x :: x in t && x != id ==> t'[x] == t[x]
  }

  /** No live row but `except` has this name below this parent. */
  ghost predicate NameFree(t: Table, name: string, parentId: Option<Uuid>, except: Option<Uuid>) {
    forall x :: x in t && !t[x].deleted && Some(x) != except && t[x].parentId == parentId ==> t[x].name != name
  }

  /** No live row but `except` has this slug. */
  ghost predicate SlugFree(t: Table, slug: string, except: Option<Uuid>) {
    forall x :: x in t && !t[x].deleted && Some(x) != except ==> t[x].slug != slug
  }

  /** Nor has a deleted one. */
  ghost predicate SlugUnused(t: Table, slug: string, except: Uuid) {
    forall x :: x in t && x != except ==> t[x].slug != slug
  }

  // ---- Create ----

  /** A create succeeds exactly if its slug, given or generated, is unused, its parent is live and its name is
      free there. It leaves a live, active row with the given name and parent and the given order or none. */
  lemma CreateExact(t: Table, id: Uuid, dto: NewCategory, slugOf: string -> string)
    requires id !in t
    ensures var slug := if dto.slug.Some? && dto.slug.value != "" then dto.slug.value else slugOf(dto.name);
            var parentLive := dto.parentId.Some? ==> dto.parentId.value in t && !t[dto.parentId.value].deleted;
            var call := CreateCall(id, dto);
            match Outcome(t, call, slugOf)
            case Ok(t') =>
              && SlugUnused(t, slug, id) && parentLive && NameFree(t, dto.name, dto.parentId, None)
              && OnlyRow(t, t', id)
              && var row := t'[id];
                 && row.id == id && row.name == dto.name && row.slug == slug && row.parentId == dto.parentId
                 && row.isActive && !row.deleted
                 && row.sortOrder == if dto.sortOrder.Some? then dto.sortOrder.value else 0
            case Err(Conflict) => !SlugFree(t, slug, None) || !NameFree(t, dto.name, dto.parentId, None)
            case Err(BadRequest) => SlugFree(t, slug, None) && (!parentLive || !SlugUnused(t, slug, id))
            case Err(NotFound) => false
  {
  }

  // ---- Update ----

  /** What a successful update of `id` makes of its row. */
  ghost predicate Updated(before: Category, after: Category, changes: Changes, slugOf: string -> string) {
    && after.id == before.id && after.isActive == before.isActive && after.deleted == before.deleted
    && after.name == NameAfter(before, changes) && after.slug == SlugAfter(before, changes, slugOf)
    && after.sortOrder == (if changes.sortOrder.Some? then changes.sortOrder.value else before.sortOrder)
    && after.parentId == ParentAfter(before.parentId, changes.parent)
  }

  function NameAfter(before: Category, changes: Changes): string {
    if changes.name.Some? then changes.name.value else before.name
  }

  /** An empty slug is generated from the new name. */
  function SlugAfter(before: Category, changes: Changes, slugOf: string -> string): string {
    var kept := if changes.slug.Some? then changes.slug.value else before.slug;
    if kept == "" then slugOf(NameAfter(before, changes)) else kept
  }

  function ParentAfter(before: Option<Uuid>, change: ParentChange): Option<Uuid> {
    if change == Keep then before else if change == ToRoot then None else Some(change.parentId)
  }

  /** The new place is allowed: a live parent that is neither the row, which must be active, nor below it. */
  ghost predicate PlaceAllowed(t: Table, id: Uuid, change: ParentChange) {
    change.Under? ==>
      && change.parentId in t && !t[change.parentId].deleted && id in t && t[id].isActive
      && change.parentId != id && !Descendant(t, id, change.parentId)
  }

  /** The name is looked up only if it or the parent is given: a null parent alone does not count. */
  ghost predicate NameAllowed(t: Table, id: Uuid, changes: Changes)
    requires id in t
  {
    (changes.name.Some? && changes.name.value != "") || changes.parent.Under? ==>
      NameFree(t, if changes.name.Some? && changes.name.value != "" then changes.name.value else t[id].name,
               ParentAfter(t[id].parentId, changes.parent), Some(id))
  }

  /** A new slug must not be a live one's. */
  ghost predicate SlugAllowed(t: Table, id: Uuid, changes: Changes)
    requires id in t
  {
    changes.slug.Some? && changes.slug.value != "" && changes.slug.value != t[id].slug ==>
      SlugFree(t, changes.slug.value, Some(id))
  }

  /** An update succeeds exactly if its row is live, the new place, slug and name are allowed and the slug is
      unused. Then the row has the parent it was moved under, none if it was moved to the root, and otherwise
      the one it had; name, slug and order are the ones given or else the old ones. */
  lemma UpdateExact(t: Table, id: Uuid, changes: Changes, slugOf: string -> string)
    ensures match Outcome(t, UpdateCall(id, changes), slugOf)
            case Ok(t') =>
              && id in t && !t[id].deleted
              && PlaceAllowed(t, id, changes.parent) && SlugAllowed(t, id, changes) && NameAllowed(t, id, changes)
              && OnlyRow(t, t', id) && Updated(t[id], t'[id], changes, slugOf)
              && SlugUnused(t, t'[id].slug, id)
            case Err(e) =>
              if id !in t || t[id].deleted then e == NotFound
              else if !PlaceAllowed(t, id, changes.parent) then e == BadRequest || (e == NotFound && !t[id].isActive)
              else if !SlugAllowed(t, id, changes) || !NameAllowed(t, id, changes) then e == Conflict
              else e == BadRequest && !SlugUnused(t, SlugAfter(t[id], changes, slugOf), id)
  {
  }

  // ---- Remove and status ----

  /** A removal succeeds exactly for a live row without live children and products, and marks it deleted. */
  lemma RemoveExact(t: Table, id: Uuid, productCount: nat, slugOf: string -> string)
    ensures var live := id in t && !t[id].deleted;
            var leaf := forall x :: x in t && !t[x].deleted ==> t[x].parentId != Some(id);
            match Outcome(t, RemoveCall(id, productCount), slugOf)
            case Ok(t') =>
              && live && leaf && productCount == 0 && OnlyRow(t, t', id)
              && t'[id].deleted && t'[id] == t[id].(deleted := true) && !Live(t', id)
            case Err(e) => if live then e == BadRequest && (!leaf || productCount > 0) else e == NotFound
  {
    if Live(t, id) && !HasLiveChild(t, id) {
      forall x | x in t && !t[x].deleted
        ensures t[x].parentId != Some(id)
      {
        assert Live(t, x);
      }
    }
  }

  /** A status call succeeds exactly for a live row, and sets its flag and nothing else. */
  lemma StatusExact(t: Table, id: Uuid, isActive: bool, slugOf: string -> string)
    ensures match Outcome(t, StatusCall(id, isActive), slugOf)
            case Ok(t') =>
              && id in t && !t[id].deleted && OnlyRow(t, t', id)
              && t'[id].isActive == isActive && t'[id] == t[id].(isActive := isActive)
            case Err(e) => e == NotFound && (id !in t || t[id].deleted)
  {
  }

  // ---- What a move does to the hierarchy ----

  /** `t'` has the live rows of `t`, and their parents, except that `a` hangs below `parent`. */
  ghost predicate Rehung(t: Table, t': Table, a: Uuid, parent: Option<Uuid>) {
    && t'.Keys == t.Keys && Live(t, a) && t'[a].parentId == parent
    && (forall x :: x in t ==> t'[x].deleted == t[x].deleted)
    && forall x :: x in t && x != a ==> t'[x].parentId == t[x].parentId
  }

  lemma {:induction false} RehungUnseen(t: Table, t': Table, a: Uuid, parent: Option<Uuid>, x: Uuid, k: nat)
    requires Rehung(t, t', a, parent) && forall j: nat :: j < k ==> Up(t, x, j) != Some(a)
    ensures Up(t', x, k) == Up(t, x, k)
    decreases k
  {
    if k > 0 {
      RehungUnseen(t, t', a, parent, x, k - 1);
    }
  }

  /** Outside the subtree that is moved nothing changes. */
  lemma RehungOutside(t: Table, t': Table, a: Uuid, parent: Option<Uuid>, x: Uuid)
    requires Rehung(t, t', a, parent) && Live(t, x) && !InSubtree(t, a, x)
    ensures forall k: nat :: Up(t', x, k) == Up(t, x, k)
    ensures forall b :: Descendant(t', b, x) <==> Descendant(t, b, x)
  {
    forall k: nat
      ensures Up(t', x, k) == Up(t, x, k)
    {
      forall j: nat | j < k
        ensures Up(t, x, j) != Some(a)
      {
        assert Up(t, x, 0) == Some(x);
      }
      RehungUnseen(t, t', a, parent, x, k);
    }
  }

  /** Who is above whom after `a` has been hung below `parent`: in the subtree of `a` its own rows are where
      they were, and above them are `parent` and what is above that; everywhere else nothing has changed. */
  lemma {:induction false} RehungDescendants(t: Table, t': Table, a: Uuid, parent: Option<Uuid>, b: Uuid, x: Uuid)
    requires Forest(t) && Rehung(t, t', a, parent) && Live(t, x)
    requires parent.Some? ==> Live(t, parent.value) && !InSubtree(t, a, parent.value)
    ensures Descendant(t', b, x) <==>
              if InSubtree(t, a, x) then
                (InSubtree(t, a, b) && Descendant(t, b, x)) || (parent.Some? && InSubtree(t, b, parent.value))
              else Descendant(t, b, x)
    decreases AncestorSet(t, x)
  {
    DescendantOfParent(t', b, x);
    DescendantOfParent(t, b, x);
    if !InSubtree(t, a, x) {
      RehungOutside(t, t', a, parent, x);
    } else if x == a {
      if parent.Some? {
        RehungOutside(t, t', a, parent, parent.value);
      }
      NotBelowItself(t, a, b);
    } else {
      DescendantOfParent(t, a, x);
      ParentHasFewerAncestors(t, x);
      RehungDescendants(t, t', a, parent, b, t[x].parentId.value);
    }
  }

  /** No row is both below and above another, or itself. */
  lemma NotBelowItself(t: Table, a: Uuid, b: Uuid)
    requires Forest(t) && Live(t, a)
    ensures !(InSubtree(t, a, b) && Descendant(t, b, a))
  {
    if InSubtree(t, a, b) && Descendant(t, b, a) {
      var k: nat :| k > 0 && Up(t, a, k) == Some(b);
      if a != b {
        var j: nat :| j > 0 && Up(t, b, j) == Some(a);
        UpAdds(t, a, k, j);
      }
    }
  }

  lemma UpdateRehangs(t: Table, id: Uuid, changes: Changes, slugOf: string -> string)
    requires Forest(t) && Outcome(t, UpdateCall(id, changes), slugOf).Ok?
    ensures var t' := Outcome(t, UpdateCall(id, changes), slugOf).value;
            var parent := ParentAfter(t[id].parentId, changes.parent);
            && Live(t, id) && Rehung(t, t', id, parent)
            && (parent.Some? ==> Live(t, parent.value) && !InSubtree(t, id, parent.value))
  {
    UpdateExact(t, id, changes, slugOf);
    if changes.parent == Keep && t[id].parentId.Some? {
      var p := t[id].parentId.value;
      NotBelowItself(t, id, p);
      DescendantOfParent(t, p, id);
    }
  }

  /** A successful update moves the subtree of its row as a whole: of any two live rows it tells whether the
      one is above the other afterwards. Under a new parent p exactly the old subtree of the row is newly
      below p and what is above p. */
  lemma UpdateMovesSubtree(t: Table, id: Uuid, changes: Changes, slugOf: string -> string, b: Uuid, x: Uuid)
    requires Forest(t) && Outcome(t, UpdateCall(id, changes), slugOf).Ok? && Live(t, x)
    ensures var t' := Outcome(t, UpdateCall(id, changes), slugOf).value;
            var parent := if changes.parent == Keep then t[id].parentId
                          else if changes.parent == ToRoot then None else Some(changes.parent.parentId);
            Descendant(t', b, x) <==>
              if InSubtree(t, id, x) then
                (InSubtree(t, id, b) && Descendant(t, b, x)) || (parent.Some? && InSubtree(t, b, parent.value))
              else Descendant(t, b, x)
  {
    UpdateRehangs(t, id, changes, slugOf);
    RehungDescendants(t, Outcome(t, UpdateCall(id, changes), slugOf).value, id, ParentAfter(t[id].parentId, changes.parent), b, x);
  }

  /** After a move under p the path of the row is the path of p and then its own name, one level deeper. */
  lemma UpdateExtendsPath(
    t: Table, id: Uuid, changes: Changes, slugOf: string -> string, level: nat, path: seq<string>)
    requires Forest(t) && Outcome(t, UpdateCall(id, changes), slugOf).Ok? && changes.parent.Under?
    requires AtLevel(t, changes.parent.parentId, level) && IsPath(t, changes.parent.parentId, level, path)
    ensures var t' := Outcome(t, UpdateCall(id, changes), slugOf).value;
            && id in t' && AtLevel(t', id, level + 1)
            && IsPath(t', id, level + 1, path + [if changes.name.Some? then changes.name.value else t[id].name])
  {
    var t', p := Outcome(t, UpdateCall(id, changes), slugOf).value, changes.parent.parentId;
    UpdateExact(t, id, changes, slugOf);
    UpdateRehangs(t, id, changes, slugOf);
    PathGrows(t, t', id, p, level, path);
  }

  lemma PathGrows(t: Table, t': Table, id: Uuid, p: Uuid, level: nat, path: seq<string>)
    requires Rehung(t, t', id, Some(p)) && Live(t, p) && !InSubtree(t, id, p)
    requires forall x :: x in t && x != id ==> t'[x].name == t[x].name
    requires AtLevel(t, p, level) && IsPath(t, p, level, path)
    ensures AtLevel(t', id, level + 1) && IsPath(t', id, level + 1, path + [t'[id].name])
  {
    RehungOutside(t, t', id, Some(p), p);
    var longer := path + [t'[id].name];
    forall j | 0 <= j <= level + 1
      ensures OnPath(t', id, level + 1 - j, longer[j])
    {
      if j <= level {
        assert OnPath(t, p, level - j, path[j]);
        assert Up(t, p, level - j) != Some(id);
        UpFirst(t', id, level - j);
      }
    }
    UpFirst(t', id, level);
  }

  /** After a move to the root the row is one. */
  lemma UpdateToRoot(t: Table, id: Uuid, changes: Changes, slugOf: string -> string)
    requires Forest(t) && Outcome(t, UpdateCall(id, changes), slugOf).Ok? && changes.parent == ToRoot
    ensures AtLevel(Outcome(t, UpdateCall(id, changes), slugOf).value, id, 0)
  {
    UpdateExact(t, id, changes, slugOf);
  }
}
