/** The cache-aside decorator of the inventory repository, called one call at a time. */
module CachedRepository {
  import opened Common
  import opened InventoryItems
  import opened Repositories
  import opened UseCaseRules

  type Cache = map<ItemKey, Item>

  /** The rows and the cache in front of them. */
  datatype Store = Store(rows: ItemRows, cache: Cache)

  /** A call, with what goes wrong while it runs: a cache read that fails or misses (`miss`), fills that
      are lost (`lost1`, `lost2`), a database that fails if it is asked (`fault`). Deletions from the cache
      work.
      `Expire` is time passing: any set of entries may vanish between calls. */
  datatype Call =
    | FindByID(id: Uuid, miss: bool, lost1: bool, lost2: bool, fault: bool)
    | FindByProductID(productId: Uuid, miss: bool, lost1: bool, lost2: bool, fault: bool)
    | ExistsByProductID(productId: Uuid, miss: bool, fault: bool)
    | Save(item: Item, lost1: bool, lost2: bool, fault: bool)
    | Update(item: Item, fault: bool)
    | Delete(id: Uuid, fault: bool)
    | IncrementVersion(id: Uuid, readFails: bool, fault: bool)
    | Expire(keys: set<ItemKey>)

  datatype Answer = Row(found: Result<Item, Error>) | Exists(flag: Result<bool, Error>) | Written(error: Option<Error>) | NoAnswer

  function Fill(cache: Cache, key: ItemKey, item: Item, lost: bool): Cache {
    if lost then cache else cache[key := item]
  }

  function Outcome(written: Result<ItemRows, Error>, rows: ItemRows): (ItemRows, Answer) {
    match written
    case Ok(after) => (after, Written(None))
    case Err(e) => (rows, Written(Some(e)))
  }

  /** What the repository without a cache does and answers. */
  ghost function Bare(rows: ItemRows, call: Call): (ItemRows, Answer) {
    match call
    case FindByID(id, _, _, _, fault) => (rows, Row(if fault then Err(StorageError) else FindItem(rows, id)))
    case FindByProductID(productId, _, _, _, fault) =>
      (rows, Row(if fault then Err(StorageError) else FindItemByProduct(rows, productId)))
    case ExistsByProductID(productId, _, fault) =>
      (rows, Exists(if fault then Err(StorageError) else Ok(exists id :: id in rows && rows[id].productId == productId)))
    case Save(item, _, _, fault) => Outcome(InsertItem(rows, item, fault), rows)
    case Update(item, fault) => Outcome(UpdateItem(rows, item, fault), rows)
    case Delete(id, fault) => Outcome(DeleteItem(rows, id, fault), rows)
    case IncrementVersion(id, _, fault) => Outcome(IncrementItem(rows, id, fault), rows)
    case Expire(_) => (rows, NoAnswer)
  }

  /** What the decorated repository does and answers. */
  ghost function Cached(s: Store, call: Call): (Store, Answer) {
    match call
    case FindByID(id, miss, lost1, lost2, _) => Lookup(s, ById(id), Bare(s.rows, call).1.found, miss, lost1, lost2)
    case FindByProductID(productId, miss, lost1, lost2, _) =>
      Lookup(s, ByProduct(productId), Bare(s.rows, call).1.found, miss, lost1, lost2)
    case ExistsByProductID(productId, miss, _) =>
      (s, if !miss && ByProduct(productId) in s.cache then Exists(Ok(true)) else Bare(s.rows, call).1)
    case Save(item, lost1, lost2, _) =>
      var (rows, answer) := Bare(s.rows, call);
      if answer != Written(None) then (s.(rows := rows), answer)
      else (Store(rows, Fill(Fill(s.cache, ById(item.id), item, lost1), ByProduct(item.productId), item, lost2)), answer)
    case Update(item, _) =>
      var (rows, answer) := Bare(s.rows, call);
      if answer != Written(None) then (s.(rows := rows), answer)
      else (Store(rows, s.cache - {ById(item.id), ByProduct(item.productId)}), answer)
    case Delete(id, _) =>
      var (rows, answer) := Bare(s.rows, call);
      if answer != Written(None) then (s.(rows := rows), answer)
      else (Store(rows, s.cache - {ById(id), ByProduct(s.rows[id].productId)}), answer)
    case IncrementVersion(id, readFails, _) =>
      var (rows, answer) := Bare(s.rows, call);
      (Store(rows, s.cache - (if id in s.rows && !readFails then {ById(id), ByProduct(s.rows[id].productId)} else {ById(id)})), answer)
    case Expire(keys) => (s.(cache := s.cache - keys), NoAnswer)
  }

  /** Cache first, then the store, filling both keys of the row found. */
  function Lookup(s: Store, key: ItemKey, found: Result<Item, Error>, miss: bool, lost1: bool, lost2: bool): (Store, Answer) {
    if !miss && key in s.cache then (s, Row(Ok(s.cache[key])))
    else match found
      case Err(_) => (s, Row(found))
      case Ok(item) =>
        (s.(cache := Fill(Fill(s.cache, key, item, lost1), OtherKey(key, item), item, lost2)), Row(found))
  }

  function OtherKey(key: ItemKey, item: Item): ItemKey {
    if key.ById? then ByProduct(item.productId) else ById(item.id)
  }

  /** Every entry is the current row of the item its key names. */
  ghost predicate Coherent(s: Store) {
    && ItemTable(s.rows)
    && forall key :: key in s.cache ==>
         KeyFits(key, s.cache[key]) && s.cache[key].id in s.rows && s.rows[s.cache[key].id] == s.cache[key]
  }

  /** The calls that keep the cache coherent: an item is saved with its version set, an update does not
      move a cached item to another product, and an increment that goes through could read its row. */
  predicate Polite(s: Store, call: Call) {
    match call
    case Save(item, lost1, lost2, fault) =>
      InsertItem(s.rows, item, fault).Ok? && !(lost1 && lost2) ==> item.version != 0
    case Update(item, fault) =>
      UpdateItem(s.rows, item, fault).Ok? ==>
        s.rows[item.id].productId == item.productId || ByProduct(s.rows[item.id].productId) !in s.cache
    case IncrementVersion(id, readFails, fault) =>
      IncrementItem(s.rows, id, fault).Ok? && readFails ==> ByProduct(s.rows[id].productId) !in s.cache
    case _ => true
  }

  /** The call as the database sees it: a read answered from the cache does not reach it, and so cannot
      meet its failure. */
  function Reached(s: Store, call: Call): Call {
    match call
    case FindByID(id, miss, lost1, lost2, fault) =>
      FindByID(id, miss, lost1, lost2, fault && (miss || ById(id) !in s.cache))
    case FindByProductID(productId, miss, lost1, lost2, fault) =>
      FindByProductID(productId, miss, lost1, lost2, fault && (miss || ByProduct(productId) !in s.cache))
    case ExistsByProductID(productId, miss, fault) =>
      ExistsByProductID(productId, miss, fault && (miss || ByProduct(productId) !in s.cache))
    case _ => call
  }

  /** While the cache is coherent a call answers as the bare repository does, but for a failure of the
      database that a cached answer hides, and it does the same to the rows. */
  lemma AnswersAlike(s: Store, call: Call)
    requires Coherent(s)
    ensures Cached(s, call).0.rows == Bare(s.rows, call).0
    ensures Cached(s, call).1 == Bare(s.rows, Reached(s, call)).1
    ensures Cached(s, call).1 == Bare(s.rows, call).1 <==> Reached(s, call) == call
  {
  }

  /** A row is cached under its own two keys only. */
  lemma KeysOfRow(s: Store, key: ItemKey)
    requires Coherent(s) && key in s.cache
    ensures key == ById(s.cache[key].id) || key == ByProduct(s.rows[s.cache[key].id].productId)
  {
  }

  /** Changing one row keeps coherent exactly the caches without an entry of it. */
  lemma ChangeCoherentIff(s: Store, rows: ItemRows, cache: Cache, id: Uuid)
    requires Coherent(s) && ItemTable(rows) && id in rows && id in s.rows && rows[id] != s.rows[id]
    requires rows == s.rows[id := rows[id]]
    requires forall key :: key in cache ==> key in s.cache && cache[key] == s.cache[key]
    ensures Coherent(Store(rows, cache)) <==> (ById(id) !in cache && ByProduct(s.rows[id].productId) !in cache)
  {
    forall key | key in cache && cache[key].id == id
      ensures key == ById(id) || key == ByProduct(s.rows[id].productId)
    {
      KeysOfRow(s, key);
    }
  }

  lemma UpdateCoherentIff(s: Store, item: Item, fault: bool)
    requires Coherent(s)
    ensures Coherent(Cached(s, Update(item, fault)).0) <==> Polite(s, Update(item, fault))
  {
    var t := Cached(s, Update(item, fault)).0;
    if UpdateItem(s.rows, item, fault).Ok? {
      UpdateWritesOneRow(s.rows, item, fault);
      ChangeCoherentIff(s, t.rows, t.cache, item.id);
    }
  }

  lemma IncrementCoherentIff(s: Store, id: Uuid, readFails: bool, fault: bool)
    requires Coherent(s)
    ensures Coherent(Cached(s, IncrementVersion(id, readFails, fault)).0) <==> Polite(s, IncrementVersion(id, readFails, fault))
  {
    if IncrementItem(s.rows, id, fault).Ok? {
      var t := Cached(s, IncrementVersion(id, readFails, fault)).0;
      ChangeCoherentIff(s, t.rows, t.cache, id);
    }
  }

  lemma SaveCoherentIff(s: Store, item: Item, lost1: bool, lost2: bool, fault: bool)
    requires Coherent(s)
    ensures Coherent(Cached(s, Save(item, lost1, lost2, fault)).0) <==> Polite(s, Save(item, lost1, lost2, fault))
  {
    var t := Cached(s, Save(item, lost1, lost2, fault)).0;
    if InsertItem(s.rows, item, fault).Ok? && item.version == 0 && !(lost1 && lost2) {
      var key := if lost2 then ById(item.id) else ByProduct(item.productId);
      assert key in t.cache && t.cache[key] == item;
    }
  }

  /** A coherent cache stays coherent exactly under polite calls. */
  lemma CoherentIffPolite(s: Store, call: Call)
    requires Coherent(s)
    ensures Coherent(Cached(s, call).0) <==> Polite(s, call)
  {
    match call
    case Save(item, lost1, lost2, fault) => SaveCoherentIff(s, item, lost1, lost2, fault);
    case Update(item, fault) => UpdateCoherentIff(s, item, fault);
    case IncrementVersion(id, readFails, fault) => IncrementCoherentIff(s, id, readFails, fault);
    case _ =>
  }

  // ---- What is answered and what is cached ----

  /** What the bare repository answers: by id the row stored under it; by product a row of it, if there is
      one; and that there is one exactly if it can be found. */
  lemma BareAnswersTruly(rows: ItemRows, id: Uuid, productId: Uuid, miss: bool, lost1: bool, lost2: bool)
    ensures Bare(rows, FindByID(id, miss, lost1, lost2, false)).1.found
            == if id in rows then Ok(rows[id]) else Err(ItemNotFound)
    ensures match Bare(rows, FindByProductID(productId, miss, lost1, lost2, false)).1.found
            case Ok(row) => exists x :: x in rows && rows[x] == row && row.productId == productId
            case Err(e) => e == ItemNotFound && forall x :: x in rows ==> rows[x].productId != productId
    ensures Bare(rows, ExistsByProductID(productId, miss, false)).1
            == Exists(Ok(Bare(rows, FindByProductID(productId, miss, lost1, lost2, false)).1.found.Ok?))
  {
  }

  /** The row is cached under both of its keys. */
  predicate CachedTwice(cache: Cache, row: Item) {
    && ById(row.id) in cache && cache[ById(row.id)] == row
    && ByProduct(row.productId) in cache && cache[ByProduct(row.productId)] == row
  }

  /** A finder that has to ask the store caches the row under both keys, unless the fills are lost; an item that
      has been saved is cached likewise. */
  lemma FindAndSaveFill(s: Store, call: Call)
    requires Coherent(s)
    requires match call
             case FindByID(_, _, lost1, lost2, fault) => !lost1 && !lost2 && !fault
             case FindByProductID(_, _, lost1, lost2, fault) => !lost1 && !lost2 && !fault
             case Save(_, lost1, lost2, fault) => !lost1 && !lost2 && !fault
             case _ => false
    ensures var (t, answer) := Cached(s, call);
            match call
            case FindByID(id, miss, _, _, _) =>
              answer.found.Ok? && (miss || ById(id) !in s.cache) ==> CachedTwice(t.cache, answer.found.value)
            case FindByProductID(productId, miss, _, _, _) =>
              answer.found.Ok? && (miss || ByProduct(productId) !in s.cache) ==> CachedTwice(t.cache, answer.found.value)
            case Save(item, _, _, _) => answer == Written(None) ==> CachedTwice(t.cache, item)
            case _ => true
  {
  }

  /** A row that is cached under both keys is found under either without the store, even if that fails. */
  lemma CachedIsFound(s: Store, row: Item, lost1: bool, lost2: bool, fault: bool)
    requires CachedTwice(s.cache, row)
    ensures Cached(s, FindByID(row.id, false, lost1, lost2, fault)) == (s, Row(Ok(row)))
    ensures Cached(s, FindByProductID(row.productId, false, lost1, lost2, fault)) == (s, Row(Ok(row)))
    ensures Cached(s, ExistsByProductID(row.productId, false, fault)) == (s, Exists(Ok(true)))
  {
  }

  /** A successful update, deletion or increment leaves no entry under the keys of the item, the increment only
      if it could read the row; a failing update or deletion leaves the cache alone. */
  lemma WritesDrop(s: Store, call: Call)
    requires call.Update? || call.Delete? || call.IncrementVersion?
    ensures var (t, answer) := Cached(s, call);
            match call
            case Update(item, _) =>
              if answer == Written(None) then
                t.cache == s.cache - {ById(item.id), ByProduct(item.productId)}
              else t == s
            case Delete(id, _) =>
              if answer == Written(None) then
                id in s.rows && t.cache == s.cache - {ById(id), ByProduct(s.rows[id].productId)}
              else t == s
            case IncrementVersion(id, readFails, _) =>
              && ById(id) !in t.cache
              && (id in s.rows && !readFails ==> ByProduct(s.rows[id].productId) !in t.cache)
              && forall key :: key in s.cache && key != ById(id) && (id in s.rows ==> key != ByProduct(s.rows[id].productId)) ==>
                   key in t.cache && t.cache[key] == s.cache[key]
  {
  }

  // ---- Whole sequences of calls ----

  ghost function BareAnswers(rows: ItemRows, calls: seq<Call>): seq<Answer>
    decreases |calls|
  {
    if calls == [] then []
    else [Bare(rows, calls[0]).1] + BareAnswers(Bare(rows, calls[0]).0, calls[1..])
  }

  ghost function CachedAnswers(s: Store, calls: seq<Call>): seq<Answer>
    decreases |calls|
  {
    if calls == [] then []
    else [Cached(s, calls[0]).1] + CachedAnswers(Cached(s, calls[0]).0, calls[1..])
  }

  /** The calls as the database sees them. */
  ghost function AllReached(s: Store, calls: seq<Call>): seq<Call>
    decreases |calls|
  {
    if calls == [] then [] else [Reached(s, calls[0])] + AllReached(Cached(s, calls[0]).0, calls[1..])
  }

  ghost predicate AllPolite(s: Store, calls: seq<Call>)
    decreases |calls|
  {
    calls != [] ==> Polite(s, calls[0]) && AllPolite(Cached(s, calls[0]).0, calls[1..])
  }

  predicate ReadsWork(call: Call) {
    call.FindByID? || call.FindByProductID? || call.ExistsByProductID? ==> !call.fault
  }

  lemma SameRows(s: Store, call: Call)
    ensures Bare(s.rows, Reached(s, call)).0 == Bare(s.rows, call).0
    ensures ReadsWork(call) ==> Reached(s, call) == call
  {
  }

  /** Cache transparency: through every sequence of polite calls, with entries vanishing and cache reads
      and fills failing at will, every answer is the bare repository's, asked the same with those failures
      of the database that its reads meet; so without such failures all answers are its own. */
  lemma {:induction false} CacheIsTransparent(s: Store, calls: seq<Call>)
    requires Coherent(s) && AllPolite(s, calls)
    ensures CachedAnswers(s, calls) == BareAnswers(s.rows, AllReached(s, calls))
    ensures (forall call :: call in calls ==> ReadsWork(call)) ==> CachedAnswers(s, calls) == BareAnswers(s.rows, calls)
    decreases |calls|
  {
    if calls != [] {
      AnswersAlike(s, calls[0]);
      SameRows(s, calls[0]);
      CoherentIffPolite(s, calls[0]);
      CacheIsTransparent(Cached(s, calls[0]).0, calls[1..]);
    }
  }

  /** An update that moves a cached item to another product shows: asked for the old product, the cache
      answers with the row as it was, and the bare repository with nothing. */
  lemma MovedItemIsStale(s: Store, item: Item)
    requires Coherent(s) && UpdateItem(s.rows, item, false).Ok? && !Polite(s, Update(item, false))
    ensures var t, asked := Cached(s, Update(item, false)).0, FindByProductID(s.rows[item.id].productId, false, false, false, false);
            && Cached(t, asked).1 == Row(Ok(s.rows[item.id]))
            && Bare(t.rows, asked).1 == Row(Err(ItemNotFound))
  {
    UpdateWritesOneRow(s.rows, item, false);
    var key := ByProduct(s.rows[item.id].productId);
    assert s.cache[key] == s.rows[item.id];
    var t := Cached(s, Update(item, false)).0;
    assert forall id :: id in t.rows ==> t.rows[id].productId != s.rows[item.id].productId;
  }

  // ---- The code ----

  class CachedInventoryRepository {
    const repo: InventoryRepository
    var cache: Cache

    constructor (repo: InventoryRepository)
      ensures this.repo == repo && cache == map[]
    {
      this.repo, cache := repo, map[];
    }

    ghost function View(): Store
      reads this, repo
    {
      Store(repo.rows, cache)
    }

    /** The answer of a finder. */
    static ghost predicate Answered(answer: Answer, item: InventoryItem?, error: Option<Error>)
      reads if item == null then {} else {item}
    {
      answer.Row? && ReadOutcome(answer.found, item, error)
    }

    method FindByID(id: Uuid, miss: bool, lost1: bool, lost2: bool, fault: bool)
      returns (item: InventoryItem?, error: Option<Error>)
      modifies this
      ensures View() == Cached(old(View()), Call.FindByID(id, miss, lost1, lost2, fault)).0
      ensures Answered(Cached(old(View()), Call.FindByID(id, miss, lost1, lost2, fault)).1, item, error)
    {
      var key := ById(id);
      if !miss && key in cache {
        item := new InventoryItem.FromRow(cache[key]);
        return item, None;
      }
      item, error := repo.FindByID(id, fault);
      if error.Some? {
        return;
      }
      if !lost1 {
        cache := cache[key := item.View()];
      }
      if !lost2 {
        cache := cache[ByProduct(item.productId) := item.View()];
      }
    }

    method FindByProductID(productId: Uuid, miss: bool, lost1: bool, lost2: bool, fault: bool)
      returns (item: InventoryItem?, error: Option<Error>)
      requires ItemTable(repo.rows)
      modifies this
      ensures View() == Cached(old(View()), Call.FindByProductID(productId, miss, lost1, lost2, fault)).0
      ensures Answered(Cached(old(View()), Call.FindByProductID(productId, miss, lost1, lost2, fault)).1, item, error)
    {
      var key := ByProduct(productId);
      if !miss && key in cache {
        item := new InventoryItem.FromRow(cache[key]);
        return item, None;
      }
      item, error := repo.FindByProductID(productId, fault);
      if error.Some? {
        return;
      }
      if !lost1 {
        cache := cache[key := item.View()];
      }
      if !lost2 {
        cache := cache[ById(item.id) := item.View()];
      }
    }

    method ExistsByProductID(productId: Uuid, miss: bool, fault: bool) returns (found: Result<bool, Error>)
      ensures Exists(found) == Cached(View(), Call.ExistsByProductID(productId, miss, fault)).1
    {
      if !miss && ByProduct(productId) in cache {
        return Ok(true);
      }
      if fault {
        return Err(StorageError);
      }
      found := Ok(exists id :: id in repo.rows && repo.rows[id].productId == productId);
    }

    method Save(item: InventoryItem, lost1: bool, lost2: bool, fault: bool) returns (error: Option<Error>)
      modifies this, repo
      ensures (View(), Written(error)) == Cached(old(View()), Call.Save(item.View(), lost1, lost2, fault))
    {
      error := repo.Save(item, fault);
      if error.Some? {
        return;
      }
      if !lost1 {
        cache := cache[ById(item.id) := item.View()];
      }
      if !lost2 {
        cache := cache[ByProduct(item.productId) := item.View()];
      }
    }

    method Update(item: InventoryItem, fault: bool) returns (error: Option<Error>)
      modifies this, repo, item`version
      ensures (View(), Written(error)) == Cached(old(View()), Call.Update(old(item.View()), fault))
    {
      error := repo.Update(item, fault);
      if error.Some? {
        return;
      }
      cache := cache - {ById(item.id), ByProduct(item.productId)};
    }

    method Delete(id: Uuid, fault: bool) returns (error: Option<Error>)
      modifies this, repo
      ensures (View(), Written(error)) == Cached(old(View()), Call.Delete(id, fault))
    {
      var item;
      item, error := repo.FindByID(id, fault);
      if error.Some? {
        return;
      }
      error := repo.Delete(id, fault);
      if error.Some? {
        return;
      }
      cache := cache - {ById(id), ByProduct(item.productId)};
    }

    method IncrementVersion(id: Uuid, readFails: bool, fault: bool) returns (version: GoInt, error: Option<Error>)
      modifies this, repo
      ensures (View(), Written(error)) == Cached(old(View()), Call.IncrementVersion(id, readFails, fault))
      ensures error.None? ==> id in repo.rows && version == repo.rows[id].version
    {
      var item, readError := repo.FindByID(id, readFails);
      if readError.None? {
        cache := cache - {ById(id), ByProduct(item.productId)};
      } else {
        cache := cache - {ById(id)};
      }
      version, error := repo.IncrementVersion(id, fault);
    }
  }
}
