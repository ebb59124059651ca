/** What the calls of the categories service do to the category table, and what every sequence of
    them keeps. */
module CategoryRules {
  import opened Common
  import opened CategoryForest

  datatype Failure = NotFound | BadRequest | Conflict

  datatype NewCategory = NewCategory(
    name: string, slug: Option<string>, parentId: Option<Uuid>, sortOrder: Option<int>)

  /** The parent of an update request: absent, null, or an id. */
  datatype ParentChange = Keep | ToRoot | Under(parentId: Uuid)

  datatype Changes = Changes(
    name: Option<string>, slug: Option<string>, parent: ParentChange, sortOrder: Option<int>)

  /** The service treats the empty string as absent. */
  predicate Given(s: Option<string>) {
    s.Some? && s.value != ""
  }

  /** Request validation admits no name shorter than two characters. */
  predicate WellFormed(changes: Changes) {
    changes.name.Some? ==> |changes.name.value| >= 2
  }

  // ---- Look-ups ----

  ghost predicate SlugTaken(t: Table, slug: string, except: Option<Uuid>) {
    exists id :: Live(t, id) && t[id].slug == slug && Some(id) != except
  }

  /** The unique index on slugs spans the deleted rows too. */
  ghost predicate SlugStored(t: Table, slug: string, except: Uuid) {
    exists id :: id in t && id != except && t[id].slug == slug
  }

  ghost predicate NameTaken(t: Table, name: string, parentId: Option<Uuid>, except: Option<Uuid>) {
    exists id :: Live(t, id) && t[id].name == name && t[id].parentId == parentId && Some(id) != except
  }

  ghost predicate HasLiveChild(t: Table, id: Uuid) {
    exists child :: Live(t, child) && t[child].parentId == Some(id)
  }

  // ---- Calls ----

  ghost function Create(t: Table, id: Uuid, dto: NewCategory, slugOf: string -> string): Result<Table, Failure> {
    var slug := if Given(dto.slug) then dto.slug.value else slugOf(dto.name);
    if SlugTaken(t, slug, None) then Err(Conflict)
    else if dto.parentId.Some? && !Live(t, dto.parentId.value) then Err(BadRequest)
    else if NameTaken(t, dto.name, dto.parentId, None) then Err(Conflict)
    else if SlugStored(t, slug, id) then Err(BadRequest)
    else
      var order := if dto.sortOrder.Some? then dto.sortOrder.value else 0;
      Ok(t[id := Category(id, dto.name, slug, dto.parentId, true, order, false)])
  }

  /** The failure, if any, of moving `child` under `parent`. The descendants are asked for through a
      look-up that skips inactive rows, so an inactive child is not found. */
  ghost function ValidateHierarchy(t: Table, parentId: Uuid, childId: Uuid): Option<Failure> {
    if parentId == childId then Some(BadRequest)
    else if !Live(t, parentId) then Some(BadRequest)
    else if !Live(t, childId) then Some(BadRequest)
    else if !t[childId].isActive then Some(NotFound)
    else if Descendant(t, childId, parentId) then Some(BadRequest)
    else None
  }

  function NewParent(row: Category, change: ParentChange): Option<Uuid> {
    match change
    case Keep => row.parentId
    case ToRoot => None
    case Under(p) => Some(p)
  }

  /** The request merged into the row; an empty slug is filled in from the name on saving. */
  function Merged(row: Category, changes: Changes, slugOf: string -> string): Category {
    var name := if changes.name.Some? then changes.name.value else row.name;
    var slug := if changes.slug.Some? then changes.slug.value else row.slug;
    var order := if changes.sortOrder.Some? then changes.sortOrder.value else row.sortOrder;
    row.(name := name, slug := if slug == "" then slugOf(name) else slug,
         parentId := NewParent(row, changes.parent), sortOrder := order)
  }

  ghost function Update(t: Table, id: Uuid, changes: Changes, slugOf: string -> string): Result<Table, Failure> {
    if !Live(t, id) then Err(NotFound)
    else if changes.parent.Under? && ValidateHierarchy(t, changes.parent.parentId, id).Some? then
      Err(ValidateHierarchy(t, changes.parent.parentId, id).value)
    else if Given(changes.slug) && changes.slug.value != t[id].slug && SlugTaken(t, changes.slug.value, Some(id)) then
      Err(Conflict)
    else if && (Given(changes.name) || changes.parent.Under?)
            && NameTaken(t, if Given(changes.name) then changes.name.value else t[id].name,
                         NewParent(t[id], changes.parent), Some(id)) then
      Err(Conflict)
    else
      var row := Merged(t[id], changes, slugOf);
      if SlugStored(t, row.slug, id) then Err(BadRequest) else Ok(t[id := row])
  }

  ghost function Remove(t: Table, id: Uuid, productCount: nat): Result<Table, Failure> {
    if !Live(t, id) then Err(NotFound)
    else if HasLiveChild(t, id) then Err(BadRequest)
    else if productCount > 0 then Err(BadRequest)
    else Ok(t[id := t[id].(deleted := true)])
  }

  ghost function UpdateStatus(t: Table, id: Uuid, isActive: bool): Result<Table, Failure> {
    if !Live(t, id) then Err(NotFound) else Ok(t[id := t[id].(isActive := isActive)])
  }

  // ---- Runs ----

  datatype Call =
    | CreateCall(id: Uuid, dto: NewCategory)
    | UpdateCall(id: Uuid, changes: Changes)
    | RemoveCall(id: Uuid, productCount: nat)
    | StatusCall(id: Uuid, isActive: bool)

  ghost function Outcome(t: Table, call: Call, slugOf: string -> string): Result<Table, Failure> {
    match call
    case CreateCall(id, dto) => Create(t, id, dto, slugOf)
    case UpdateCall(id, changes) => Update(t, id, changes, slugOf)
    case RemoveCall(id, productCount) => Remove(t, id, productCount)
    case StatusCall(id, isActive) => UpdateStatus(t, id, isActive)
  }

  /** The table after a call: a rejected call changes nothing. */
  ghost function After(t: Table, call: Call, slugOf: string -> string): Table {
    match Outcome(t, call, slugOf)
    case Ok(t') => t'
    case Err(_) => t
  }

  /** A new row gets an id never used before. */
  predicate FreshId(t: Table, call: Call) {
    call.CreateCall? ==> call.id !in t
  }

  ghost predicate Possible(t: Table, calls: seq<Call>, slugOf: string -> string)
    decreases calls
  {
    calls != [] ==> FreshId(t, calls[0]) && Possible(After(t, calls[0], slugOf), calls[1..], slugOf)
  }

  ghost function Run(t: Table, calls: seq<Call>, slugOf: string -> string): Table
    decreases calls
  {
    if calls == [] then t else Run(After(t, calls[0], slugOf), calls[1..], slugOf)
  }

  // ---- Invariants ----

  ghost predicate SlugsUnique(t: Table) {
    forall a, b :: a in t && b in t && a != b ==> t[a].slug != t[b].slug
  }

  ghost predicate SiblingNamesUnique(t: Table) {
    forall a, b :: Live(t, a) && Live(t, b) && a != b ==> t[a].name != t[b].name || t[a].parentId != t[b].parentId
  }

  /** Only liveness and parents matter to the forest. */
  lemma SameShapeKeepsForest(t: Table, t': Table)
    requires Forest(t) && Keyed(t')
    requires forall id :: Live(t', id) ==>
               Live(t, id) && (t'[id].parentId == t[id].parentId || t'[id].parentId == None)
    requires forall id :: Live(t', id) && t'[id].parentId.Some? ==> Live(t', t'[id].parentId.value)
    ensures Forest(t')
  {
    var rank := ForestIsRanked(t);
    RankedIsForest(t', rank);
  }

  lemma CreateKeepsForest(t: Table, id: Uuid, dto: NewCategory, slugOf: string -> string)
    requires Forest(t) && id !in t && Create(t, id, dto, slugOf).Ok?
    ensures Forest(Create(t, id, dto, slugOf).value)
  {
    var t' := Create(t, id, dto, slugOf).value;
    var rank := ForestIsRanked(t);
    RankedIsForest(t', rank[id := if dto.parentId.Some? then rank[dto.parentId.value] + 1 else 0]);
  }

  lemma UpdateKeepsForest(t: Table, id: Uuid, changes: Changes, slugOf: string -> string)
    requires Forest(t) && Update(t, id, changes, slugOf).Ok?
    ensures Forest(Update(t, id, changes, slugOf).value)
  {
    var t' := Update(t, id, changes, slugOf).value;
    if changes.parent.Under? {
      MoveKeepsForest(t, id, changes.parent.parentId);
      SameShapeKeepsForest(Moved(t, id, changes.parent.parentId), t');
    } else {
      SameShapeKeepsForest(t, t');
    }
  }

  lemma CallKeepsForest(t: Table, call: Call, slugOf: string -> string)
    requires Forest(t) && FreshId(t, call)
    ensures Forest(After(t, call, slugOf))
  {
    if Outcome(t, call, slugOf).Ok? {
      match call
      case CreateCall(id, dto) => CreateKeepsForest(t, id, dto, slugOf);
      case UpdateCall(id, changes) => UpdateKeepsForest(t, id, changes, slugOf);
      case RemoveCall(id, productCount) => SameShapeKeepsForest(t, After(t, call, slugOf));
      case StatusCall(id, isActive) => SameShapeKeepsForest(t, After(t, call, slugOf));
    }
  }

  lemma CallKeepsSlugsUnique(t: Table, call: Call, slugOf: string -> string)
    requires SlugsUnique(t) && FreshId(t, call)
    ensures SlugsUnique(After(t, call, slugOf))
  {
  }

  /** A call touches one row at most, never drops a row, and a deleted row never changes again. */
  lemma CallTouchesOneRow(t: Table, call: Call, slugOf: string -> string, id: Uuid)
    requires FreshId(t, call) && id in t
    ensures id in After(t, call, slugOf)
    ensures id != call.id || t[id].deleted ==> After(t, call, slugOf)[id] == t[id]
    ensures After(t, call, slugOf)[id].deleted && !t[id].deleted ==>
              && call.RemoveCall? && call.productCount == 0 && !HasLiveChild(t, id)
              && After(t, call, slugOf)[id] == t[id].(deleted := true)
  {
  }

  /** After any sequence of calls every live category has a live parent or none, no category is its own
      ancestor, and no two rows share a slug. */
  lemma {:induction false} RunKeepsForest(t: Table, calls: seq<Call>, slugOf: string -> string)
    requires Forest(t) && SlugsUnique(t) && Possible(t, calls, slugOf)
    ensures Forest(Run(t, calls, slugOf)) && SlugsUnique(Run(t, calls, slugOf))
    decreases calls
  {
    if calls != [] {
      CallKeepsForest(t, calls[0], slugOf);
      CallKeepsSlugsUnique(t, calls[0], slugOf);
      RunKeepsForest(After(t, calls[0], slugOf), calls[1..], slugOf);
    }
  }

  /** The move check accepts exactly the moves of an active row under a live row that leave a forest. */
  lemma ValidateHierarchyExact(t: Table, parentId: Uuid, childId: Uuid)
    requires Forest(t) && Live(t, childId)
    ensures ValidateHierarchy(t, parentId, childId) == None
            <==> Live(t, parentId) && t[childId].isActive && Forest(Moved(t, childId, parentId))
  {
    if Live(t, parentId) {
      MoveKeepsForestIff(t, childId, parentId);
    }
  }

  // ---- Two moves checked on the same table ----

  /** `x` is `c` or below it. */
  ghost predicate InSubtree(t: Table, c: Uuid, x: Uuid) {
    x == c || Descendant(t, c, x)
  }

  /** Outside the subtree that is moved nothing changes. */
  lemma OutsideUnmoved(t: Table, a: Uuid, p: Uuid, b: Uuid, x: Uuid)
    requires Live(t, a) && Live(t, x) && !InSubtree(t, a, x)
    ensures Descendant(Moved(t, a, p), b, x) <==> Descendant(t, b, x)
  {
    var t' := Moved(t, a, p);
    forall k: nat
      ensures Up(t', x, k) == Up(t, x, k)
    {
      assert forall j: nat :: j < k ==> Up(t, x, j) != Some(a);
      MoveUnseenUpTo(t, a, p, x, k);
    }
  }

  /** After `a` has moved under `p`, `b` is newly above exactly the subtree of `a`, and only if it is above
      or at `p`. */
  lemma {:induction false} NewlyAboveIff(t: Table, a: Uuid, p: Uuid, b: Uuid, x: Uuid)
    requires Forest(t) && Live(t, a) && Live(t, p) && !InSubtree(t, a, p) && Live(t, x) && !Descendant(t, b, x)
    ensures Descendant(Moved(t, a, p), b, x) <==> InSubtree(t, b, p) && InSubtree(t, a, x)
    decreases AncestorSet(t, x)
  {
    var t' := Moved(t, a, p);
    DescendantOfParent(t', b, x);
    if x == a {
      OutsideUnmoved(t, a, p, b, p);
    } else {
      DescendantOfParent(t, a, x);
      DescendantOfParent(t, b, x);
      if t[x].parentId.Some? {
        ParentHasFewerAncestors(t, x);
        NewlyAboveIff(t, a, p, b, t[x].parentId.value);
      }
    }
  }

  /** The check reads the table the move is made on. Two moves that each passed it on the same table leave
      a forest, made one after the other, exactly unless each goes into the subtree the other moves. */
  lemma RacingMovesKeepForestIff(t: Table, a: Uuid, p: Uuid, b: Uuid, q: Uuid)
    requires Forest(t) && a != b && Live(t, a) && Live(t, b)
    requires ValidateHierarchy(t, p, a) == None && ValidateHierarchy(t, q, b) == None
    ensures Forest(Moved(Moved(t, a, p), b, q)) <==> !(InSubtree(t, b, p) && InSubtree(t, a, q))
  {
    MoveKeepsForest(t, a, p);
    MoveKeepsForestIff(Moved(t, a, p), b, q);
    NewlyAboveIff(t, a, p, b, q);
  }

  /** Such a pair: of two rows neither of which is below the other, each is moved under the other. */
  lemma RacingMovesMakeCycle(t: Table, a: Uuid, b: Uuid)
    requires Forest(t) && Live(t, a) && Live(t, b) && t[a].isActive && t[b].isActive
    requires a != b && !Descendant(t, a, b) && !Descendant(t, b, a)
    ensures ValidateHierarchy(t, b, a) == None && ValidateHierarchy(t, a, b) == None
    ensures !Acyclic(Moved(Moved(t, a, b), b, a))
  {
    var t' := Moved(Moved(t, a, b), b, a);
    assert Up(t', a, 0) == Some(a);
    assert Up(t', a, 1) == Some(b);
    assert Up(t', a, 2) == Some(a);
  }

  // ---- Names within a level ----

  /** The one way around the name check: a null parent without a name, when a live root already has the name. */
  ghost predicate SlipsToTakenRoot(t: Table, call: Call) {
    && call.UpdateCall? && Live(t, call.id)
    && call.changes.parent == ToRoot && call.changes.name == None
    && NameTaken(t, t[call.id].name, None, Some(call.id))
  }

  /** A successful call keeps the names within each level distinct unless it slips to a taken root name. */
  lemma CallKeepsSiblingNamesIff(t: Table, call: Call, slugOf: string -> string)
    requires SiblingNamesUnique(t) && FreshId(t, call) && Outcome(t, call, slugOf).Ok?
    requires call.UpdateCall? ==> WellFormed(call.changes)
    ensures SiblingNamesUnique(After(t, call, slugOf)) <==> !SlipsToTakenRoot(t, call)
  {
    if call.UpdateCall? {
      UpdateKeepsSiblingNamesIff(t, call.id, call.changes, slugOf);
    }
  }

  lemma UpdateKeepsSiblingNamesIff(t: Table, id: Uuid, changes: Changes, slugOf: string -> string)
    requires SiblingNamesUnique(t) && WellFormed(changes) && Update(t, id, changes, slugOf).Ok?
    ensures SiblingNamesUnique(Update(t, id, changes, slugOf).value) <==> !SlipsToTakenRoot(t, UpdateCall(id, changes))
  {
    var t' := Update(t, id, changes, slugOf).value;
    assert NameTaken(t, t'[id].name, t'[id].parentId, Some(id)) <==> SlipsToTakenRoot(t, UpdateCall(id, changes));
    if SlipsToTakenRoot(t, UpdateCall(id, changes)) {
      var other :| Live(t, other) && t[other].name == t[id].name && t[other].parentId == None && other != id;
      assert Live(t', other) && Live(t', id);
    }
  }

  /** Such a table: a child that carries the name of a root. */
  function Namesakes(): Table {
    map[1 := Category(1, "Books", "books", None, true, 0, false), 2 := Category(2, "Books", "novels", Some(1), true, 0, false)]
  }

  lemma NullParentDuplicatesAName(slugOf: string -> string)
    ensures var move := UpdateCall(2, Changes(None, None, ToRoot, None));
            && Forest(Namesakes()) && SlugsUnique(Namesakes()) && SiblingNamesUnique(Namesakes())
            && Outcome(Namesakes(), move, slugOf).Ok? && !SiblingNamesUnique(After(Namesakes(), move, slugOf))
  {
    var t, move := Namesakes(), UpdateCall(2, Changes(None, None, ToRoot, None));
    RankedIsForest(t, map[1 := 0, 2 := 1]);
    assert "books"[0] != "novels"[0];
    assert NameTaken(t, t[2].name, None, Some(2)) by {
      assert Live(t, 1);
    }
    CallKeepsSiblingNamesIff(t, move, slugOf);
  }
}
