/** The two PostgreSQL repositories of the inventory service: rows as maps, queries as functions
    of the rows. A `fault` stands for a database error that leaves the table untouched. */
module Repositories {
  import opened Common
  import opened InventoryItems
  import opened Reservations

  type ItemRows = map<Uuid, Item>
  type ReservationRows = map<Uuid, Reservation>

  /** What the constraints of `inventory_items` guarantee: rows under their key, counts within
      bounds, one row per product. */
  ghost predicate ItemTable(rows: ItemRows) {
    && (forall id :: id in rows ==> rows[id].id == id && Storable(rows[id]))
    && (forall a, b :: a in rows && b in rows && rows[a].productId == rows[b].productId ==> a == b)
  }

  predicate ProductTaken(rows: ItemRows, productId: Uuid, except: Uuid) {
    exists id :: id in rows && id != except && rows[id].productId == productId
  }

  function FindItem(rows: ItemRows, id: Uuid): Result<Item, Error> {
    if id in rows then Ok(rows[id]) else Err(ItemNotFound)
  }

  ghost function FindItemByProduct(rows: ItemRows, productId: Uuid): Result<Item, Error> {
    if id :| id in rows && rows[id].productId == productId then Ok(rows[id]) else Err(ItemNotFound)
  }

  /** The row an insert writes: the hook of the model numbers an unnumbered item 1. */
  function Hooked(item: Item): Item {
    if item.version == 0 then item.(version := 1) else item
  }

  function InsertItem(rows: ItemRows, item: Item, fault: bool): Result<ItemRows, Error> {
    if fault then Err(StorageError)
    else if item.id in rows || ProductTaken(rows, item.productId, item.id) then Err(ItemAlreadyExists)
    else if !Storable(Hooked(item)) then Err(StorageError)
    else Ok(rows[item.id := Hooked(item)])
  }

  /** The row an optimistic update would write. */
  predicate CanBump(item: Item) {
    item.version < INT32_MAX
  }

  function Bump(item: Item): Item
    requires CanBump(item)
  {
    item.(version := item.version + 1)
  }

  /** The optimistic update: it writes only over a row of the same version. */
  function UpdateItem(rows: ItemRows, item: Item, fault: bool): Result<ItemRows, Error> {
    if fault then Err(StorageError)
    else if item.id !in rows then Err(ItemNotFound)
    else if rows[item.id].version != item.version then Err(OptimisticLockFailure)
    else if !CanBump(item) || !Storable(Bump(item)) || ProductTaken(rows, item.productId, item.id)
      then Err(StorageError)
    else Ok(rows[item.id := Bump(item)])
  }

  /** The row that an operation leaves fits its columns: only a restock can be too large, and the version must
      not be the last one. */
  predicate Fits(item: Item, op: Op) {
    CanBump(item) && (op.AddStock? ==> item.quantity + op.amount <= INT32_MAX)
  }

  lemma FitsIff(item: Item, op: Op)
    requires Storable(item) && Apply(item, op).Ok?
    ensures var after := Apply(item, op).value;
            after.version == item.version && after.id == item.id && after.productId == item.productId
            && (CanBump(after) && Storable(Bump(after)) <==> Fits(item, op))
  {
    OperationKeepsBounds(item, op);
  }

  function DeleteItem(rows: ItemRows, id: Uuid, fault: bool): Result<ItemRows, Error> {
    if fault then Err(StorageError)
    else if id !in rows then Err(ItemNotFound)
    else Ok(rows - {id})
  }

  function IncrementItem(rows: ItemRows, id: Uuid, fault: bool): Result<ItemRows, Error> {
    if fault then Err(StorageError)
    else if id !in rows then Err(ItemNotFound)
    else if !CanBump(rows[id]) then Err(StorageError)
    else Ok(rows[id := Bump(rows[id])])
  }

  /** A successful optimistic update replaces exactly one row, the one the caller's copy was
      numbered after, and keeps the table's constraints. */
  lemma UpdateWritesOneRow(rows: ItemRows, item: Item, fault: bool)
    requires ItemTable(rows) && UpdateItem(rows, item, fault).Ok?
    ensures var after := UpdateItem(rows, item, fault).value;
            && ItemTable(after)
            && after.Keys == rows.Keys
            && (forall id :: id in rows && id != item.id ==> after[id] == rows[id])
            && after[item.id].version == rows[item.id].version + 1
            && after[item.id] == item.(version := item.version + 1)
  {
    var after := UpdateItem(rows, item, fault).value;
    assert after.Keys == rows.Keys;
  }

  /** Of two updates made from copies of the same version, the second one fails. */
  lemma SecondUpdateFails(rows: ItemRows, first: Item, second: Item, fault: bool)
    requires first.id == second.id && first.version == second.version
    requires UpdateItem(rows, first, false).Ok?
    ensures UpdateItem(UpdateItem(rows, first, false).value, second, fault)
            == Err(if fault then StorageError else OptimisticLockFailure)
  {
  }

  // Reservations: rows have no version.

  ghost predicate ReservationTable(rows: ReservationRows) {
    && (forall id :: id in rows ==> rows[id].id == id && rows[id].quantity > 0)
    && (forall a, b :: a in rows && b in rows && rows[a].orderId == rows[b].orderId ==> a == b)
  }

  predicate OrderTaken(rows: ReservationRows, orderId: Uuid) {
    exists id :: id in rows && rows[id].orderId == orderId
  }

  function InsertReservation(rows: ReservationRows, r: Reservation, fault: bool): Result<ReservationRows, Error> {
    if fault then Err(StorageError)
    else if r.id in rows || OrderTaken(rows, r.orderId) then Err(ReservationAlreadyExists)
    else if r.quantity <= 0 || r.quantity > INT32_MAX then Err(StorageError)
    else Ok(rows[r.id := r])
  }

  /** The update overwrites the row whatever it holds by now. */
  function UpdateReservation(rows: ReservationRows, r: Reservation, fault: bool): Result<ReservationRows, Error> {
    if fault then Err(StorageError)
    else if r.id !in rows then Err(ReservationNotFound)
    else if r.quantity <= 0 || r.quantity > INT32_MAX then Err(StorageError)
    else Ok(rows[r.id := r])
  }

  /** The pending reservations past their deadline. */
  ghost function ExpiredIds(rows: ReservationRows, now: Time): set<Uuid> {
    set id | id in rows && rows[id].IsPending() && rows[id].IsExpired(now)
  }

  /** `found` is an answer the query for expired reservations may give: rows of the table, each once,
      earliest deadline first, as many as the limit allows, and none left out that is due before one
      taken. Rows with equal deadlines may come in any order. */
  ghost predicate EarliestExpired(rows: ReservationRows, now: Time, limit: int, found: seq<Reservation>) {
    && (forall i :: 0 <= i < |found| ==>
          found[i].id in ExpiredIds(rows, now) && rows[found[i].id] == found[i])
    && (forall i, j :: 0 <= i < j < |found| ==>
          found[i].id != found[j].id && found[i].expiresAt <= found[j].expiresAt)
    && |found| == (if 0 < limit < |ExpiredIds(rows, now)| then limit else |ExpiredIds(rows, now)|)
    && (forall id, i :: 0 <= i < |found| && id in ExpiredIds(rows, now) && rows[id] !in found ==>
          found[i].expiresAt <= rows[id].expiresAt)
  }

  /** A finite nonempty set of rows has an earliest deadline. */
  lemma {:induction false} EarliestExists(rows: ReservationRows, ids: set<Uuid>)
    requires ids <= rows.Keys && ids != {}
    ensures exists id :: id in ids && forall other :: other in ids ==> rows[id].expiresAt <= rows[other].expiresAt
    decreases |ids|
  {
    var id :| id in ids;
    if ids != {id} {
      EarliestExists(rows, ids - {id});
      var rest :| rest in ids - {id} && forall other :: other in ids - {id} ==> rows[rest].expiresAt <= rows[other].expiresAt;
      var best := if rows[id].expiresAt < rows[rest].expiresAt then id else rest;
      assert best in ids && forall other :: other in ids ==> rows[best].expiresAt <= rows[other].expiresAt;
    }
  }

  // ---- Exactly what each write does ----

  predicate CountsFit(item: Item) {
    0 <= item.reserved <= item.quantity <= 2147483647
  }

  /** A new item is stored exactly if its id and its product are not taken and its columns fit; with version 1
      if it comes without one. */
  lemma InsertItemExact(rows: ItemRows, item: Item, fault: bool)
    ensures var free := item.id !in rows && forall id :: id in rows ==> rows[id].productId != item.productId;
            match InsertItem(rows, item, fault)
            case Ok(after) =>
              && !fault && free && CountsFit(item) && 0 <= item.version <= 2147483647
              && after == rows[item.id := Item(item.id, item.productId, item.quantity, item.reserved,
                                               if item.version == 0 then 1 else item.version)]
            case Err(e) =>
              if fault then e == StorageError
              else if !free then e == ItemAlreadyExists
              else e == StorageError && !(CountsFit(item) && 0 <= item.version <= 2147483647)
  {
  }

  /** An update is stored exactly over a row of its own version, if its columns fit and no other item has its
      product; a missing row is told from a stale copy. */
  lemma UpdateItemExact(rows: ItemRows, item: Item, fault: bool)
    ensures var free := forall id :: id in rows && id != item.id ==> rows[id].productId != item.productId;
            match UpdateItem(rows, item, fault)
            case Ok(after) =>
              && !fault && item.id in rows && rows[item.id].version == item.version
              && free && CountsFit(item) && 0 <= item.version < 2147483647
              && after == rows[item.id := Item(item.id, item.productId, item.quantity, item.reserved, item.version + 1)]
            case Err(e) =>
              if fault then e == StorageError
              else if item.id !in rows then e == ItemNotFound
              else if rows[item.id].version != item.version then e == OptimisticLockFailure
              else e == StorageError && !(free && CountsFit(item) && 0 <= item.version < 2147483647)
  {
  }

  /** Removing an item, and adding one to its version, need only the row. */
  lemma DeleteAndIncrementExact(rows: ItemRows, id: Uuid, fault: bool)
    ensures match DeleteItem(rows, id, fault)
            case Ok(after) =>
              !fault && id in rows && after.Keys == rows.Keys - {id} && forall x :: x in after ==> after[x] == rows[x]
            case Err(e) => if fault then e == StorageError else e == ItemNotFound && id !in rows
    ensures match IncrementItem(rows, id, fault)
            case Ok(after) =>
              && !fault && id in rows && rows[id].version < 2147483647
              && after == rows[id := rows[id].(version := rows[id].version + 1)]
            case Err(e) =>
              if fault then e == StorageError
              else if id !in rows then e == ItemNotFound
              else e == StorageError && rows[id].version >= 2147483647
  {
  }

  /** A reservation is inserted exactly if its id is new, its order has none and its quantity fits; it is
      overwritten, whatever it holds, exactly if it is there and the quantity fits. */
  lemma ReservationWritesExact(rows: ReservationRows, r: Reservation, fault: bool)
    ensures var taken := r.id in rows || exists id :: id in rows && rows[id].orderId == r.orderId;
            match InsertReservation(rows, r, fault)
            case Ok(after) => !fault && !taken && 0 < r.quantity <= 2147483647 && after == rows[r.id := r]
            case Err(e) =>
              if fault then e == StorageError
              else if taken then e == ReservationAlreadyExists
              else e == StorageError && !(0 < r.quantity <= 2147483647)
    ensures match UpdateReservation(rows, r, fault)
            case Ok(after) => !fault && r.id in rows && 0 < r.quantity <= 2147483647 && after == rows[r.id := r]
            case Err(e) =>
              if fault then e == StorageError
              else if r.id !in rows then e == ReservationNotFound
              else e == StorageError && !(0 < r.quantity <= 2147483647)
  {
  }

  class InventoryRepository {
    var rows: ItemRows

    constructor ()
      ensures rows == map[]
    {
      rows := map[];
    }

    method FindByID(id: Uuid, fault: bool) returns (item: InventoryItem?, error: Option<Error>)
      ensures ReadOutcome(if fault then Err(StorageError) else FindItem(rows, id), item, error)
      ensures item != null ==> fresh(item)
    {
      if fault {
        return null, Some(StorageError);
      }
      if id !in rows {
        return null, Some(ItemNotFound);
      }
      item := new InventoryItem.FromRow(rows[id]);
      error := None;
    }

    method FindByProductID(productId: Uuid, fault: bool) returns (item: InventoryItem?, error: Option<Error>)
      requires ItemTable(rows)
      ensures ReadOutcome(if fault then Err(StorageError) else FindItemByProduct(rows, productId), item, error)
      ensures item != null ==> fresh(item)
    {
      if fault {
        return null, Some(StorageError);
      }
      if id :| id in rows && rows[id].productId == productId {
        item := new InventoryItem.FromRow(rows[id]);
        error := None;
      } else {
        return null, Some(ItemNotFound);
      }
    }

    method Save(item: InventoryItem, fault: bool) returns (error: Option<Error>)
      modifies this
      ensures WriteOutcome(old(rows), InsertItem(old(rows), item.View(), fault), rows, error)
    {
      if fault {
        return Some(StorageError);
      }
      var row := item.View();
      if row.id in rows || ProductTaken(rows, row.productId, row.id) {
        return Some(ItemAlreadyExists);
      }
      if !Storable(Hooked(row)) {
        return Some(StorageError);
      }
      rows := rows[row.id := Hooked(row)];
      return None;
    }

    /** On success the entity carries the new version. */
    method Update(item: InventoryItem, fault: bool) returns (error: Option<Error>)
      modifies this, item`version
      ensures WriteOutcome(old(rows), UpdateItem(old(rows), old(item.View()), fault), rows, error)
      ensures item.View() == if error.None? then rows[item.id] else old(item.View())
    {
      if fault {
        return Some(StorageError);
      }
      var row := item.View();
      if row.id !in rows {
        return Some(ItemNotFound);
      }
      if rows[row.id].version != row.version {
        return Some(OptimisticLockFailure);
      }
      if !CanBump(row) || !Storable(Bump(row)) || ProductTaken(rows, row.productId, row.id) {
        return Some(StorageError);
      }
      rows := rows[row.id := Bump(row)];
      item.version := item.version + 1;
      return None;
    }

    method Delete(id: Uuid, fault: bool) returns (error: Option<Error>)
      modifies this
      ensures WriteOutcome(old(rows), DeleteItem(old(rows), id, fault), rows, error)
    {
      if fault {
        return Some(StorageError);
      }
      if id !in rows {
        return Some(ItemNotFound);
      }
      rows := rows - {id};
      return None;
    }

    method IncrementVersion(id: Uuid, fault: bool) returns (version: GoInt, error: Option<Error>)
      modifies this
      ensures WriteOutcome(old(rows), IncrementItem(old(rows), id, fault), rows, error)
      ensures version == if error.None? then rows[id].version else 0
    {
      if fault {
        return 0, Some(StorageError);
      }
      if id !in rows {
        return 0, Some(ItemNotFound);
      }
      if !CanBump(rows[id]) {
        return 0, Some(StorageError);
      }
      rows := rows[id := Bump(rows[id])];
      return rows[id].version, None;
    }
  }

  /** A read returned a copy of the row found, or the error. */
  ghost predicate ReadOutcome(found: Result<Item, Error>, item: InventoryItem?, error: Option<Error>)
    reads if item == null then {} else {item}
  {
    match found
    case Ok(row) => error.None? && item != null && item.View() == row
    case Err(e) => error == Some(e) && item == null
  }

  /** A write left the rows as specified, or failed and left them alone. */
  ghost predicate WriteOutcome<Rows(!new)>(before: Rows, written: Result<Rows, Error>, after: Rows, error: Option<Error>) {
    match written
    case Ok(rows) => error.None? && after == rows
    case Err(e) => error == Some(e) && after == before
  }

  class ReservationRepository {
    var rows: ReservationRows

    constructor ()
      ensures rows == map[]
    {
      rows := map[];
    }

    method FindByID(id: Uuid, fault: bool) returns (r: ReservationEntity?, error: Option<Error>)
      ensures error == if fault then Some(StorageError) else if id in rows then None else Some(ReservationNotFound)
      ensures error.None? ==> r != null && fresh(r) && r.View() == rows[id]
      ensures error.Some? ==> r == null
    {
      if fault {
        return null, Some(StorageError);
      }
      if id !in rows {
        return null, Some(ReservationNotFound);
      }
      r := new ReservationEntity.FromRow(rows[id]);
      error := None;
    }

    method ExistsByOrderID(orderId: Uuid, fault: bool) returns (exists_: bool, error: Option<Error>)
      ensures error == if fault then Some(StorageError) else None
      ensures error.None? ==> exists_ == OrderTaken(rows, orderId)
    {
      if fault {
        return false, Some(StorageError);
      }
      return OrderTaken(rows, orderId), None;
    }

    method Save(r: ReservationEntity, fault: bool) returns (error: Option<Error>)
      modifies this
      ensures WriteOutcome(old(rows), InsertReservation(old(rows), r.View(), fault), rows, error)
    {
      if fault {
        return Some(StorageError);
      }
      var row := r.View();
      if row.id in rows || OrderTaken(rows, row.orderId) {
        return Some(ReservationAlreadyExists);
      }
      if row.quantity <= 0 || row.quantity > INT32_MAX {
        return Some(StorageError);
      }
      rows := rows[row.id := row];
      return None;
    }

    method Update(r: ReservationEntity, fault: bool) returns (error: Option<Error>)
      modifies this
      ensures WriteOutcome(old(rows), UpdateReservation(old(rows), r.View(), fault), rows, error)
    {
      if fault {
        return Some(StorageError);
      }
      var row := r.View();
      if row.id !in rows {
        return Some(ReservationNotFound);
      }
      if row.quantity <= 0 || row.quantity > INT32_MAX {
        return Some(StorageError);
      }
      rows := rows[row.id := row];
      return None;
    }

    /** The pending reservations past their deadline, earliest first, at most `limit` of them when
        the limit is positive. */
    method FindExpired(now: Time, limit: int) returns (found: seq<Reservation>)
      requires ReservationTable(rows)
      ensures EarliestExpired(rows, now, limit, found)
    {
      var remaining := set id | id in rows && rows[id].IsPending() && rows[id].IsExpired(now);
      ghost var all := remaining;
      found := [];
      while remaining != {} && (limit <= 0 || |found| < limit)
        invariant limit > 0 ==> |found| <= limit
        invariant Picked(rows, all, remaining, found)
        decreases |remaining|
      {
        EarliestExists(rows, remaining);
        var id :| id in remaining && forall other :: other in remaining ==> rows[id].expiresAt <= rows[other].expiresAt;
        PickNext(rows, all, remaining, found, id);
        remaining := remaining - {id};
        found := found + [rows[id]];
      }
      assert forall id :: id in all && rows[id] !in found ==> id in remaining;
    }
  }

  /** The state of an enumeration of `all` by deadline: `found` was taken, `remaining` comes later. */
  ghost predicate Picked(rows: ReservationRows, all: set<Uuid>, remaining: set<Uuid>, found: seq<Reservation>) {
    && remaining <= all <= rows.Keys && |found| + |remaining| == |all|
    && (forall i :: 0 <= i < |found| ==> found[i].id in all - remaining && rows[found[i].id] == found[i])
    && (forall i, j :: 0 <= i < j < |found| ==>
          found[i].id != found[j].id && found[i].expiresAt <= found[j].expiresAt)
    && (forall i :: 0 <= i < |found| ==>
          forall id :: id in remaining ==> found[i].expiresAt <= rows[id].expiresAt)
    && (forall id :: id in all - remaining ==> rows[id] in found)
  }

  lemma PickNext(rows: ReservationRows, all: set<Uuid>, remaining: set<Uuid>, found: seq<Reservation>, id: Uuid)
    requires Picked(rows, all, remaining, found) && id in remaining && rows[id].id == id
    requires forall other :: other in remaining ==> rows[id].expiresAt <= rows[other].expiresAt
    ensures Picked(rows, all, remaining - {id}, found + [rows[id]])
  {
    var next := found + [rows[id]];
    assert forall i :: 0 <= i < |found| ==> next[i] == found[i];
    forall other | other in all - (remaining - {id})
      ensures rows[other] in next
    {
      if other != id {
        var i :| 0 <= i < |found| && found[i] == rows[other];
        assert next[i] == rows[other];
      }
    }
  }
}
