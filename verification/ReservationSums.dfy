/** The sum invariant of the reservation protocol when each use case is atomic, and exactly what
    breaks it when the two writes are not in one transaction. */
module ReservationSums {
  import opened Common
  import opened InventoryItems
  import opened Reservations
  import opened Repositories
  import opened UseCaseRules

  /** The units a reservation holds of an item. */
  function Share(r: Reservation, itemId: Uuid): int {
    if r.itemId == itemId && r.IsPending() then r.quantity else 0
  }

  function ShareOf(itemId: Uuid): (Uuid, Reservation) -> int {
    (_, r) => Share(r, itemId)
  }

  /** The units all pending reservations hold of an item. */
  ghost function PendingUnits(rs: ReservationRows, itemId: Uuid): int {
    Total(rs, ShareOf(itemId))
  }

  lemma PendingUnitsChange(rs: ReservationRows, itemId: Uuid, r: Reservation)
    ensures PendingUnits(rs[r.id := r], itemId)
            == PendingUnits(rs, itemId) + Share(r, itemId) - (if r.id in rs then Share(rs[r.id], itemId) else 0)
  {
    TotalChange(rs, ShareOf(itemId), r.id, r);
  }

  /** Every item has exactly the units of its pending reservations reserved. */
  ghost predicate SumsAgree(items: ItemRows, rs: ReservationRows) {
    forall id :: id in items ==> items[id].reserved == PendingUnits(rs, id)
  }

  ghost predicate Referential(items: ItemRows, rs: ReservationRows) {
    forall id :: id in rs ==> rs[id].itemId in items && rs[id].quantity <= INT32_MAX
  }

  ghost predicate Consistent(items: ItemRows, rs: ReservationRows) {
    ItemTable(items) && ReservationTable(rs) && Referential(items, rs) && SumsAgree(items, rs)
  }

  /** Under the sum invariant a pending reservation is always covered by the counts of its item. */
  lemma PendingIsCovered(items: ItemRows, rs: ReservationRows, id: Uuid)
    requires Consistent(items, rs) && id in rs && rs[id].IsPending()
    ensures rs[id].quantity <= items[rs[id].itemId].reserved
    ensures Apply(items[rs[id].itemId], Confirm(rs[id].quantity)).Ok?
    ensures Apply(items[rs[id].itemId], Release(rs[id].quantity)).Ok?
  {
    TotalWithout(rs, ShareOf(rs[id].itemId), id);
    TotalNonnegative(rs - {id}, ShareOf(rs[id].itemId));
  }

  /** The requests clients make; stock is adjusted by restocking or decrementing only. */
  predicate Proper(req: Request) {
    !req.NewItem? && (req.Adjust? ==> req.op.AddStock? || req.op.DecrementStock?)
  }

  /** The reservation write fails: on a database error, or on a reservation id already in use. */
  predicate SecondWriteFails(req: Request, rs: ReservationRows, faults: Faults) {
    !req.Adjust? && (faults.writeReservation || (req.ReserveStock? && req.newId in rs))
  }

  // ---- The two writes ----

  /** A request admitted on the current rows: a reserve for a free order, or a settlement of a
      reservation that is pending. */
  ghost predicate Admitted(req: Request, r: Option<Reservation>, item: Item, items: ItemRows, rs: ReservationRows) {
    && Matches(req, r) && Proper(req)
    && (r.Some? ==> r.value.id in rs && rs[r.value.id] == r.value && r.value.IsPending() && r.value.itemId == item.id)
    && (req.ReserveStock? ==> !OrderTaken(rs, req.orderId))
    && item.id in items && items[item.id] == item
  }

  lemma ItemWriteEffect(items: ItemRows, item: Item, op: Op, fault: bool)
    requires ItemTable(items) && item.id in items && items[item.id] == item
    requires Apply(item, op).Ok? && UpdateItem(items, Apply(item, op).value, fault).Ok?
    ensures var after := UpdateItem(items, Apply(item, op).value, fault).value;
            && ItemTable(after) && after.Keys == items.Keys
            && (forall other :: other in items && other != item.id ==> after[other] == items[other])
            && after[item.id] != item
            && after[item.id].reserved == item.reserved + ReservedDelta(op)
  {
    OperationKeepsBounds(item, op);
    UpdateWritesOneRow(items, Apply(item, op).value, fault);
  }

  /** The reservation to be written takes or gives back exactly the units the operation moves. */
  lemma ShareMovesWithOp(req: Request, r: Option<Reservation>, item: Item, now: Time)
    requires Matches(req, r) && Proper(req) && !req.Adjust?
    requires r.Some? ==> r.value.IsPending() && r.value.itemId == item.id
    requires ReservationWrite(req, r, item, now).Ok?
    ensures var w, delta := ReservationWrite(req, r, item, now).value, ReservedDelta(OpOf(req, r));
            && w.Some? && w.value.itemId == item.id
            && delta == Share(w.value, item.id) - (if r.Some? then Share(r.value, item.id) else 0)
            && (if req.ReserveStock? then w.value.id == req.newId && w.value.orderId == req.orderId && w.value.quantity == req.quantity
                else w.value == r.value.(status := w.value.status))
  {
  }

  /** With both writes made, every sum moves with its count. */
  lemma BothWritesKeepSums(items: ItemRows, after: ItemRows, rs: ReservationRows, w: Reservation, delta: int)
    requires Consistent(items, rs) && ItemTable(after) && after.Keys == items.Keys && w.itemId in items
    requires forall id :: id in items && id != w.itemId ==> after[id] == items[id]
    requires after[w.itemId].reserved == items[w.itemId].reserved + delta
    requires delta == Share(w, w.itemId) - (if w.id in rs then Share(rs[w.id], w.itemId) else 0)
    requires w.id in rs ==> rs[w.id].itemId == w.itemId
    requires ReservationTable(rs[w.id := w]) && w.quantity <= INT32_MAX
    ensures Consistent(after, rs[w.id := w])
  {
    forall id | id in after
      ensures after[id].reserved == PendingUnits(rs[w.id := w], id)
    {
      PendingUnitsChange(rs, id, w);
    }
  }

  lemma DecidedWriteFails(req: Request, r: Option<Reservation>, item: Item, now: Time,
                          items: ItemRows, rs: ReservationRows, faults: Faults)
    requires Consistent(items, rs) && Admitted(req, r, item, items, rs) && !req.Adjust?
    requires Decide(req, r, item, now).Ok?
    ensures var w := Decide(req, r, item, now).value.reservation;
            && w.Some? && 0 < w.value.quantity <= INT32_MAX
            && (WriteReservation(req, w.value, rs, faults.writeReservation).Err? <==> SecondWriteFails(req, rs, faults))
            && (!SecondWriteFails(req, rs, faults) ==>
                  && WriteReservation(req, w.value, rs, faults.writeReservation) == Ok(rs[w.value.id := w.value])
                  && ReservationTable(rs[w.value.id := w.value])
                  && (w.value.id in rs ==> r == Some(rs[w.value.id])))
  {
    OperationKeepsBounds(item, OpOf(req, r));
    ShareMovesWithOp(req, r, item, now);
  }

  /** The item write of an admitted request goes through exactly if the database can be reached and the row
      fits its columns; only then does anything change. */
  lemma ItemWriteIff(item: Item, op: Op, items: ItemRows, fault: bool)
    requires ItemTable(items) && item.id in items && items[item.id] == item && Apply(item, op).Ok?
    ensures UpdateItem(items, Apply(item, op).value, fault).Ok? <==> !fault && Fits(item, op)
  {
    FitsIff(item, op);
  }

  /** The two writes of an admitted request break consistency exactly when the item write goes through and
      the reservation write does not, which is then reported. */
  lemma PerformKeepsSumsIff(req: Request, r: Option<Reservation>, item: Item, now: Time,
                            items: ItemRows, rs: ReservationRows, faults: Faults)
    requires Consistent(items, rs) && Admitted(req, r, item, items, rs)
    requires Decide(req, r, item, now).Ok?
    ensures var o := Perform(req, Decide(req, r, item, now).value, items, rs, faults);
            && (Consistent(o.items, o.reservations)
                <==> !(!faults.writeItem && Fits(item, OpOf(req, r)) && SecondWriteFails(req, rs, faults)))
            && (o.items != items <==> !faults.writeItem && Fits(item, OpOf(req, r)))
            && (SecondWriteFails(req, rs, faults) ==> o.error.Some?)
            && (o.items == items ==> o.reservations == rs)
  {
    var plan := Decide(req, r, item, now).value;
    ItemWriteIff(item, OpOf(req, r), items, faults.writeItem);
    if UpdateItem(items, plan.item, faults.writeItem).Ok? {
      var after := UpdateItem(items, plan.item, faults.writeItem).value;
      ItemWriteEffect(items, item, OpOf(req, r), faults.writeItem);
      if req.Adjust? {
        CountsKept(items, after, rs);
      } else {
        DecidedWriteFails(req, r, item, now, items, rs, faults);
        ShareMovesWithOp(req, r, item, now);
        if SecondWriteFails(req, rs, faults) {
          CountMoved(items, after, rs, item.id);
        } else {
          BothWritesKeepSums(items, after, rs, plan.reservation.value, ReservedDelta(OpOf(req, r)));
        }
      }
    }
  }

  lemma CountsKept(items: ItemRows, after: ItemRows, rs: ReservationRows)
    requires Consistent(items, rs) && ItemTable(after) && after.Keys == items.Keys
    requires forall id :: id in items ==> after[id].reserved == items[id].reserved
    ensures Consistent(after, rs)
  {
  }

  lemma CountMoved(items: ItemRows, after: ItemRows, rs: ReservationRows, id: Uuid)
    requires Consistent(items, rs) && id in items && id in after
    requires after[id].reserved != items[id].reserved
    ensures !Consistent(after, rs)
  {
    assert items[id].reserved == PendingUnits(rs, id);
  }

  // ---- Whole use cases ----

  lemma AdmissionIsAdmitted(req: Request, items: ItemRows, rs: ReservationRows, now: Time, faults: Faults)
    requires Consistent(items, rs) && Proper(req)
    ensures match Admit(req, rs, now, faults.first)
            case Ok(Proceed(r)) =>
              && Matches(req, r)
              && var read := ReadItem(req, r, items, faults.readItem);
                 read.Ok? ==> Admitted(req, r, read.value, items, rs)
            case _ => true
  {
  }

  /** The use case gets as far as writing its item: it is admitted, the item can be read, the rules allow the
      change, the database can be reached and the changed row fits its columns. */
  ghost predicate WritesItem(
    req: Request, items: ItemRows, rs: ReservationRows, admitted: Time, decided: Time, faults: Faults)
    requires !req.NewItem?
  {
    match Admit(req, rs, admitted, faults.first)
    case Ok(Proceed(r)) =>
      && Matches(req, r)
      && var read := ReadItem(req, r, items, faults.readItem);
         && read.Ok? && Decide(req, r, read.value, decided).Ok?
         && !faults.writeItem && Fits(read.value, OpOf(req, r))
    case _ => false
  }

  /** A use case with no transaction around its writes breaks consistency exactly when it gets as far as
      writing its item and its reservation write fails. The caller is told then, so rolling back on every
      error is enough. */
  lemma TransactKeepsSumsIff(req: Request, items: ItemRows, rs: ReservationRows, admitted: Time, decided: Time, faults: Faults)
    requires Consistent(items, rs) && Proper(req)
    ensures var o := Transact(req, items, rs, admitted, decided, faults);
            && (Consistent(o.items, o.reservations)
                <==> !(WritesItem(req, items, rs, admitted, decided, faults) && SecondWriteFails(req, rs, faults)))
            && (o.items != items <==> WritesItem(req, items, rs, admitted, decided, faults))
            && (o.error.None? ==> Consistent(o.items, o.reservations))
  {
    AdmissionIsAdmitted(req, items, rs, admitted, faults);
    match Admit(req, rs, admitted, faults.first)
    case Ok(Proceed(r)) =>
      var read := ReadItem(req, r, items, faults.readItem);
      if read.Ok? && Decide(req, r, read.value, decided).Ok? {
        PerformKeepsSumsIff(req, r, read.value, decided, items, rs, faults);
      }
    case _ =>
  }

  /** One call as the comments of the use cases ask for it: in a transaction, rolled back on an error.
      Besides the use cases, an item is created or a version number incremented. */
  datatype Call =
    | UseCase(req: Request, admitted: Time, decided: Time, faults: Faults)
    | CreateItem(id: Uuid, productId: Uuid, quantity: GoInt, fault: bool)
    | IncrementVersion(id: Uuid, fault: bool)

  predicate Allowed(call: Call) {
    call.UseCase? ==> Proper(call.req)
  }

  ghost function Atomically(items: ItemRows, rs: ReservationRows, call: Call): Outcome
    requires Allowed(call)
  {
    match call
    case UseCase(req, admitted, decided, faults) =>
      var o := Transact(req, items, rs, admitted, decided, faults);
      if o.error.Some? then Outcome(items, rs, o.error) else o
    case CreateItem(id, productId, quantity, fault) =>
      if quantity < 0 then Outcome(items, rs, Some(InvalidQuantity))
      else Rewritten(items, rs, InsertItem(items, Item(id, productId, quantity, 0, 1), fault))
    case IncrementVersion(id, fault) => Rewritten(items, rs, IncrementItem(items, id, fault))
  }

  function Rewritten(items: ItemRows, rs: ReservationRows, written: Result<ItemRows, Error>): Outcome {
    match written
    case Ok(after) => Outcome(after, rs, None)
    case Err(e) => Outcome(items, rs, Some(e))
  }

  ghost function AtomicRun(items: ItemRows, rs: ReservationRows, calls: seq<Call>): Outcome
    requires forall i :: 0 <= i < |calls| ==> Allowed(calls[i])
    decreases |calls|
  {
    if calls == [] then Outcome(items, rs, None)
    else
      var o := Atomically(items, rs, calls[0]);
      AtomicRun(o.items, o.reservations, calls[1..])
  }

  lemma NothingPending(rs: ReservationRows, itemId: Uuid)
    requires forall id :: id in rs ==> rs[id].itemId != itemId
    ensures PendingUnits(rs, itemId) == 0
  {
    TotalZero(rs, ShareOf(itemId));
  }

  /** A new item has nothing reserved, and no reservation can refer to it yet. */
  lemma CreateKeepsSums(items: ItemRows, rs: ReservationRows, item: Item, fault: bool)
    requires Consistent(items, rs) && item.reserved == 0 && InsertItem(items, item, fault).Ok?
    ensures Consistent(InsertItem(items, item, fault).value, rs)
  {
    NothingPending(rs, item.id);
  }

  lemma IncrementKeepsSums(items: ItemRows, rs: ReservationRows, id: Uuid, fault: bool)
    requires Consistent(items, rs) && IncrementItem(items, id, fault).Ok?
    ensures Consistent(IncrementItem(items, id, fault).value, rs)
  {
    CountsKept(items, IncrementItem(items, id, fault).value, rs);
  }

  lemma CallKeepsSums(items: ItemRows, rs: ReservationRows, call: Call)
    requires Allowed(call) && Consistent(items, rs)
    ensures Consistent(Atomically(items, rs, call).items, Atomically(items, rs, call).reservations)
  {
    match call
    case UseCase(req, admitted, decided, faults) => TransactKeepsSumsIff(req, items, rs, admitted, decided, faults);
    case CreateItem(id, productId, quantity, fault) =>
      var item := Item(id, productId, quantity, 0, 1);
      if InsertItem(items, item, fault).Ok? {
        CreateKeepsSums(items, rs, item, fault);
      }
    case IncrementVersion(id, fault) =>
      if IncrementItem(items, id, fault).Ok? {
        IncrementKeepsSums(items, rs, id, fault);
      }
  }

  /** The reservation sum: through every sequence of atomic use cases, item creations and version
      increments, whatever fails, every item has exactly the units of its pending reservations reserved
      and every order has one reservation. */
  lemma {:induction false} AtomicRunKeepsSums(items: ItemRows, rs: ReservationRows, calls: seq<Call>)
    requires forall i :: 0 <= i < |calls| ==> Allowed(calls[i])
    requires Consistent(items, rs)
    ensures var o := AtomicRun(items, rs, calls); Consistent(o.items, o.reservations)
    decreases |calls|
  {
    if calls != [] {
      CallKeepsSums(items, rs, calls[0]);
      var o := Atomically(items, rs, calls[0]);
      AtomicRunKeepsSums(o.items, o.reservations, calls[1..]);
    }
  }

  /** The row of an item after one write: counts changed, version one up, identity kept. */
  ghost predicate Moved(before: Item, after: Item, quantity: int, reserved: int) {
    && after.id == before.id && after.productId == before.productId && after.version == before.version + 1
    && after.quantity == before.quantity + quantity && after.reserved == before.reserved + reserved
  }

  /** Only the row of this item has changed, by these amounts. */
  ghost predicate OnlyItemMoved(items: ItemRows, after: ItemRows, id: Uuid, quantity: int, reserved: int) {
    && id in items && after.Keys == items.Keys && Moved(items[id], after[id], quantity, reserved)
    && forall other :: other in items && other != id ==> after[other] == items[other]
  }

  /** On a consistent database and with storage working, a confirm succeeds exactly when its
      reservation exists and is active both times the clock is read (and version numbers remain): it
      never fails for lack of reserved units. It takes the units from both counts and confirms the row.
      Expiry is reported ahead of a status that is not pending. */
  lemma ConfirmSucceedsIff(items: ItemRows, rs: ReservationRows, id: Uuid, admitted: Time, decided: Time)
    requires Consistent(items, rs)
    requires id in rs ==> CanBump(items[rs[id].itemId])
    ensures var o := Transact(ConfirmStock(id), items, rs, admitted, decided, NO_FAULTS);
            && o.error == (if id !in rs then Some(ReservationNotFound)
                           else if admitted > rs[id].expiresAt then Some(ReservationExpired)
                           else if rs[id].status != Pending then Some(ReservationNotPending)
                           else if decided > rs[id].expiresAt then Some(ReservationExpired)
                           else None)
            && (o.error.None? ==>
                  && o.reservations == rs[id := rs[id].(status := Confirmed)]
                  && OnlyItemMoved(items, o.items, rs[id].itemId, -(rs[id].quantity as int), -(rs[id].quantity as int)))
            && (o.error.Some? ==> o.items == items && o.reservations == rs)
  {
    if id in rs && rs[id].IsPending() {
      PendingIsCovered(items, rs, id);
    }
  }

  /** Likewise a release succeeds exactly when its reservation exists and is pending, expired or not. It gives
      the units back and releases the row. */
  lemma ReleaseSucceedsIff(items: ItemRows, rs: ReservationRows, id: Uuid, admitted: Time, decided: Time)
    requires Consistent(items, rs)
    requires id in rs ==> CanBump(items[rs[id].itemId])
    ensures var o := Transact(ReleaseStock(id), items, rs, admitted, decided, NO_FAULTS);
            && o.error == (if id !in rs then Some(ReservationNotFound)
                           else if rs[id].status != Pending then Some(ReservationNotPending)
                           else None)
            && (o.error.None? ==>
                  && o.reservations == rs[id := rs[id].(status := Released)]
                  && OnlyItemMoved(items, o.items, rs[id].itemId, 0, -(rs[id].quantity as int)))
            && (o.error.Some? ==> o.items == items && o.reservations == rs)
  {
    if id in rs && rs[id].IsPending() {
      PendingIsCovered(items, rs, id);
    }
  }

  /** The job gives a reservation back, and calls it expired, exactly when it is pending and past its
      deadline; otherwise it changes nothing. */
  lemma JobSettlesIff(items: ItemRows, rs: ReservationRows, id: Uuid, now: Time)
    requires Consistent(items, rs)
    requires id in rs ==> CanBump(items[rs[id].itemId])
    ensures var o := Transact(ExpireByJob(id), items, rs, now, now, NO_FAULTS);
            if id in rs && rs[id].status == Pending && now > rs[id].expiresAt then
              && o.error.None? && o.reservations == rs[id := rs[id].(status := Expired)]
              && OnlyItemMoved(items, o.items, rs[id].itemId, 0, -(rs[id].quantity as int))
            else o == Outcome(items, rs, if id !in rs then Some(ReservationNotFound) else None)
  {
    if id in rs && rs[id].IsPending() {
      PendingIsCovered(items, rs, id);
    }
  }

  /** So does the batch, which calls it released and takes no notice of a missing one. */
  lemma SweepSettlesIff(items: ItemRows, rs: ReservationRows, id: Uuid, now: Time)
    requires Consistent(items, rs)
    requires id in rs ==> CanBump(items[rs[id].itemId])
    ensures var o := Transact(SweepExpired(id), items, rs, now, now, NO_FAULTS);
            if id in rs && rs[id].status == Pending && now > rs[id].expiresAt then
              && o.error.None? && o.reservations == rs[id := rs[id].(status := Released)]
              && OnlyItemMoved(items, o.items, rs[id].itemId, 0, -(rs[id].quantity as int))
            else o == Outcome(items, rs, None)
  {
    if id in rs && rs[id].IsPending() {
      PendingIsCovered(items, rs, id);
    }
  }

  /** How long a reserve asks to hold its units: fifteen minutes, in nanoseconds, unless it says so. */
  function Lifetime(duration: Option<int>): int {
    if duration.Some? then duration.value else 900_000_000_000
  }

  /** The item a product names is unique. */
  lemma ReadsProduct(items: ItemRows, i: Uuid)
    requires ItemTable(items) && i in items
    ensures FindItemByProduct(items, items[i].productId) == Ok(items[i])
  {
  }

  /** A reserve of a stocked product succeeds exactly for a positive quantity that the item has available, an
      order without a reservation, a positive duration and an unused reservation id. It reserves the units on
      the item and inserts a pending row of them that expires when the lifetime is over. When the reservation
      id is in use the item has been written all the same. */
  lemma ReserveEffect(items: ItemRows, rs: ReservationRows, req: Request, i: Uuid, admitted: Time, decided: Time)
    requires Consistent(items, rs) && req.ReserveStock?
    requires i in items && items[i].productId == req.productId && CanBump(items[i])
    ensures var o := Transact(req, items, rs, admitted, decided, NO_FAULTS);
            && o.error == (if req.quantity <= 0 then Some(InvalidQuantity)
                           else if exists r :: r in rs && rs[r].orderId == req.orderId then Some(ReservationAlreadyExists)
                           else if req.quantity > items[i].quantity - items[i].reserved then Some(InsufficientStock)
                           else if Lifetime(req.duration) <= 0 then Some(InvalidDuration)
                           else if req.newId in rs then Some(ReservationAlreadyExists)
                           else None)
            && (o.error.None? ==>
                  && OnlyItemMoved(items, o.items, i, 0, req.quantity)
                  && o.reservations == rs[req.newId := Reservation(req.newId, i, req.orderId, req.quantity, Pending,
                                                                    decided + Lifetime(req.duration))])
            && (o.error.Some? ==> o.reservations == rs)
  {
    ReadsProduct(items, i);
    if req.quantity > 0 {
      OperationSucceedsIff(items[i], Reserve(req.quantity));
      if Decide(req, None, items[i], decided).Ok? {
        OperationKeepsBounds(items[i], Reserve(req.quantity));
      }
    }
  }

  /** So a reserve succeeds exactly when all that holds and the product is stocked. */
  lemma ReserveSucceedsIff(items: ItemRows, rs: ReservationRows, req: Request, admitted: Time, decided: Time)
    requires Consistent(items, rs) && req.ReserveStock?
    requires forall i :: i in items ==> CanBump(items[i])
    ensures var o := Transact(req, items, rs, admitted, decided, NO_FAULTS);
            && (o.error.None? <==>
                  && req.quantity > 0 && (req.duration.Some? ==> req.duration.value > 0)
                  && !OrderTaken(rs, req.orderId) && req.newId !in rs
                  && exists i :: i in items && items[i].productId == req.productId
                                 && req.quantity <= items[i].quantity - items[i].reserved)
            && ((forall i :: i in items ==> items[i].productId != req.productId) ==>
                  && o.items == items && o.reservations == rs
                  && o.error == Some(if req.quantity <= 0 then InvalidQuantity
                                     else if OrderTaken(rs, req.orderId) then ReservationAlreadyExists
                                     else ItemNotFound))
  {
    if i :| i in items && items[i].productId == req.productId {
      ReserveEffect(items, rs, req, i, admitted, decided);
    }
  }

  /** A restock or a direct sale succeeds exactly for a positive amount that fits: the sale only takes units
      that are available, the restock must leave the column wide enough. It moves the quantity alone. */
  lemma AdjustEffect(items: ItemRows, rs: ReservationRows, id: Uuid, op: Op, now: Time)
    requires Consistent(items, rs) && (op.AddStock? || op.DecrementStock?)
    ensures var o := Transact(Adjust(id, op), items, rs, now, now, NO_FAULTS);
            && (o.error.None? <==>
                  && id in items && op.amount > 0 && items[id].version < 2147483647
                  && if op.AddStock? then items[id].quantity + op.amount <= 2147483647
                     else op.amount <= items[id].quantity - items[id].reserved)
            && o.reservations == rs
            && (o.error.None? ==>
                  OnlyItemMoved(items, o.items, id, if op.AddStock? then op.amount as int else -(op.amount as int), 0))
            && (o.error.Some? ==> o.items == items)
  {
    if id in items && Apply(items[id], op).Ok? {
      FitsIff(items[id], op);
      OperationKeepsBounds(items[id], op);
    }
  }

  /** The failures that a use case cannot have met if it has written something and succeeded. */
  predicate NoneMet(req: Request, faults: Faults) {
    !faults.readItem && !faults.writeItem && (req.Adjust? || (!faults.first && !faults.writeReservation))
  }

  lemma WriteFaultsStop(req: Request, plan: Plan, items: ItemRows, rs: ReservationRows, faults: Faults)
    requires plan.reservation.None? <==> req.Adjust?
    ensures var o := Perform(req, plan, items, rs, faults);
            && (faults.writeItem ==> o.items == items && o.reservations == rs && o.error.Some?)
            && (faults.writeReservation ==> o.reservations == rs && (!req.Adjust? ==> o.error.Some?))
            && (!faults.writeItem && (req.Adjust? || !faults.writeReservation) ==> o == Perform(req, plan, items, rs, NO_FAULTS))
  {
  }

  lemma FinishFaultsStop(req: Request, r: Option<Reservation>, items: ItemRows, rs: ReservationRows, now: Time, faults: Faults)
    requires Matches(req, r) && !req.NewItem?
    ensures var o := Finish(req, r, items, rs, now, faults);
            && (faults.readItem || faults.writeItem ==> o.items == items && o.reservations == rs)
            && (faults.writeReservation ==> o.reservations == rs)
            && (o.error.None? ==>
                  && !faults.readItem && !faults.writeItem && (req.Adjust? || !faults.writeReservation)
                  && o == Finish(req, r, items, rs, now, NO_FAULTS))
  {
    var read := ReadItem(req, r, items, faults.readItem);
    if read.Ok? && Decide(req, r, read.value, now).Ok? {
      WriteFaultsStop(req, Decide(req, r, read.value, now).value, items, rs, faults);
    }
  }

  /** A storage access that fails stops the use case there: before the item write nothing has changed, after it
      the reservations have not; and a use case that succeeds with something written met no failure. */
  lemma FaultsStop(req: Request, items: ItemRows, rs: ReservationRows, admitted: Time, decided: Time, faults: Faults)
    requires !req.NewItem?
    ensures var o := Transact(req, items, rs, admitted, decided, faults);
            && (faults.readItem || faults.writeItem ==> o.items == items && o.reservations == rs)
            && (faults.writeReservation ==> o.reservations == rs)
            && (faults.first && !req.Adjust? ==>
                  && o.items == items && o.reservations == rs
                  && o.error == Some(if req.ReserveStock? && req.quantity <= 0 then InvalidQuantity
                                     else if req.ConfirmStock? || req.ReleaseStock? then ReservationNotFound
                                     else StorageError))
            && (match Admit(req, rs, admitted, faults.first)
                case Ok(Proceed(r)) =>
                  faults.readItem && Matches(req, r) ==>
                    o.error == Some(if req.ReserveStock? || req.ConfirmStock? || req.ReleaseStock? then ItemNotFound
                                    else StorageError)
                case _ => true)
            && (o.error.None? && (o.items != items || o.reservations != rs) ==>
                  NoneMet(req, faults) && o == Transact(req, items, rs, admitted, decided, NO_FAULTS))
  {
    match Admit(req, rs, admitted, faults.first)
    case Ok(Proceed(r)) =>
      assert req.Adjust? || !faults.first;
      if Matches(req, r) {
        FinishFaultsStop(req, r, items, rs, decided, faults);
      }
    case _ =>
  }
}
