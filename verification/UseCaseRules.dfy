/** What each use case of the inventory service checks and computes between its storage accesses.
    The interleaved machine and the use-case methods share these rules. */
module UseCaseRules {
  import opened Common
  import opened InventoryItems
  import opened Reservations
  import opened Repositories

  datatype Request =
    | ReserveStock(productId: Uuid, orderId: Uuid, quantity: GoInt, duration: Option<int>, newId: Uuid)
    | ConfirmStock(reservationId: Uuid)
    | ReleaseStock(reservationId: Uuid)
    | SweepExpired(reservationId: Uuid)      // one round of the release-expired batch
    | ExpireByJob(reservationId: Uuid)       // one round of the expire job
    | Adjust(itemId: Uuid, op: Op)           // load, apply one entity operation, update
    | NewItem(id: Uuid, productId: Uuid, quantity: GoInt)

  /** Where a use case looks its item up. */
  datatype ItemKey = ById(id: Uuid) | ByProduct(productId: Uuid)

  /** The first access to the reservations: go on, possibly with a reservation in hand, or stop
      without having anything to do. */
  datatype Admission = Proceed(reservation: Option<Reservation>) | NothingToDo

  function Admit(req: Request, rows: ReservationRows, now: Time, fault: bool): Result<Admission, Error> {
    match req
    case ReserveStock(_, orderId, quantity, _, _) =>
      if quantity <= 0 then Err(InvalidQuantity)
      else if fault then Err(StorageError)
      else if OrderTaken(rows, orderId) then Err(ReservationAlreadyExists)
      else Ok(Proceed(None))
    case ConfirmStock(id) =>
      if fault || id !in rows then Err(ReservationNotFound)
      else if rows[id].IsActive(now) then Ok(Proceed(Some(rows[id])))
      else if rows[id].IsExpired(now) then Err(ReservationExpired)
      else Err(ReservationNotPending)
    case ReleaseStock(id) =>
      if fault || id !in rows then Err(ReservationNotFound)
      else if rows[id].IsPending() then Ok(Proceed(Some(rows[id])))
      else Err(ReservationNotPending)
    case SweepExpired(id) =>
      if fault then Err(StorageError)
      else if id in rows && rows[id].IsPending() && rows[id].IsExpired(now) then Ok(Proceed(Some(rows[id])))
      else Ok(NothingToDo)
    case ExpireByJob(id) =>
      if fault then Err(StorageError)
      else if id !in rows then Err(ReservationNotFound)
      else if rows[id].IsPending() && rows[id].IsExpired(now) then Ok(Proceed(Some(rows[id])))
      else Ok(NothingToDo)
    case Adjust(_, _) => Ok(Proceed(None))
    case NewItem(_, _, quantity) => if quantity < 0 then Err(InvalidQuantity) else Ok(Proceed(None))
  }

  /** A settlement works on a reservation it has read; the other requests carry what they need. */
  predicate Matches(req: Request, r: Option<Reservation>) {
    match req
    case ConfirmStock(id) => r.Some? && r.value.id == id
    case ReleaseStock(id) => r.Some? && r.value.id == id
    case SweepExpired(id) => r.Some? && r.value.id == id
    case ExpireByJob(id) => r.Some? && r.value.id == id
    case _ => r.None?
  }

  function KeyOf(req: Request, r: Option<Reservation>): ItemKey
    requires Matches(req, r)
  {
    match req
    case ReserveStock(productId, _, _, _, _) => ByProduct(productId)
    case Adjust(itemId, _) => ById(itemId)
    case NewItem(id, _, _) => ById(id)
    case _ => ById(r.value.itemId)
  }

  predicate KeyFits(key: ItemKey, item: Item) {
    match key
    case ById(id) => item.id == id
    case ByProduct(productId) => item.productId == productId
  }

  /** The error a use case reports when its item cannot be read. */
  function ItemReadError(req: Request, e: Error): Error {
    if req.ReserveStock? || req.ConfirmStock? || req.ReleaseStock? then ItemNotFound else e
  }

  /** The one entity operation a request performs on its item. */
  function OpOf(req: Request, r: Option<Reservation>): Op
    requires Matches(req, r) && !req.NewItem?
  {
    match req
    case ReserveStock(_, _, quantity, _, _) => Reserve(quantity)
    case ConfirmStock(_) => Confirm(r.value.quantity)
    case ReleaseStock(_) => Release(r.value.quantity)
    case SweepExpired(_) => Release(r.value.quantity)
    case ExpireByJob(_) => Release(r.value.quantity)
    case Adjust(_, op) => op
  }

  /** What is to be written: the changed item, then the reservation if there is one. */
  datatype Plan = Plan(item: Item, reservation: Option<Reservation>)

  /** The computation in memory: change the item, then make or settle the reservation. */
  function Decide(req: Request, r: Option<Reservation>, item: Item, now: Time): Result<Plan, Error>
    requires Matches(req, r) && !req.NewItem?
  {
    match Apply(item, OpOf(req, r))
    case Err(e) => Err(e)
    case Ok(changed) =>
      match ReservationWrite(req, r, item, now)
      case Err(e) => Err(e)
      case Ok(w) => Ok(Plan(changed, w))
  }

  function ReservationWrite(req: Request, r: Option<Reservation>, item: Item, now: Time)
    : Result<Option<Reservation>, Error>
    requires Matches(req, r) && !req.NewItem?
  {
    if req.Adjust? then Ok(None)
    else
      var outcome :=
        if req.ReserveStock? then
          NewReservation(req.newId, item.id, req.orderId, req.quantity,
                         if req.duration.Some? then req.duration.value else DEFAULT_RESERVATION_DURATION, now)
        else if req.ConfirmStock? then Transit(r.value, ToConfirmed, now)
        else if req.ExpireByJob? then Transit(r.value, ToExpired, now)
        else Transit(r.value, ToReleased, now);
      match outcome
      case Err(e) => Err(e)
      case Ok(w) => Ok(Some(w))
  }

  /** The write that ends a use case: a new row for a reserve, an overwritten one for a settlement. */
  function WriteReservation(req: Request, w: Reservation, rows: ReservationRows, fault: bool)
    : Result<ReservationRows, Error>
  {
    if req.ReserveStock? then InsertReservation(rows, w, fault) else UpdateReservation(rows, w, fault)
  }

  /** Which storage accesses of a use case fail. */
  datatype Faults = Faults(first: bool, readItem: bool, writeItem: bool, writeReservation: bool)

  const NO_FAULTS := Faults(false, false, false, false)

  /** Both tables after a use case, and the error it returned. */
  datatype Outcome = Outcome(items: ItemRows, reservations: ReservationRows, error: Option<Error>)

  ghost function ReadItem(req: Request, r: Option<Reservation>, items: ItemRows, fault: bool): Result<Item, Error>
    requires Matches(req, r)
  {
    if fault then Err(StorageError)
    else match KeyOf(req, r)
      case ById(id) => FindItem(items, id)
      case ByProduct(productId) => FindItemByProduct(items, productId)
  }

  /** A whole use case without interference. The clock is read twice: at `admitted`, when the
      reservation is checked, and at `decided`, when its status is changed. */
  ghost function Transact(
    req: Request, items: ItemRows, rs: ReservationRows, admitted: Time, decided: Time, faults: Faults): Outcome
    requires !req.NewItem?
  {
    match Admit(req, rs, admitted, faults.first)
    case Err(e) => Outcome(items, rs, Some(e))
    case Ok(NothingToDo) => Outcome(items, rs, None)
    case Ok(Proceed(r)) =>
      if !Matches(req, r) then Outcome(items, rs, None) else Finish(req, r, items, rs, decided, faults)
  }

  /** The part of a use case after its reservation has been read. */
  ghost function Finish(
    req: Request, r: Option<Reservation>, items: ItemRows, rs: ReservationRows, now: Time, faults: Faults): Outcome
    requires Matches(req, r) && !req.NewItem?
  {
    match ReadItem(req, r, items, faults.readItem)
    case Err(e) => Outcome(items, rs, Some(ItemReadError(req, e)))
    case Ok(item) =>
      match Decide(req, r, item, now)
      case Err(e) => Outcome(items, rs, Some(e))
      case Ok(plan) => Perform(req, plan, items, rs, faults)
  }

  /** The two writes. There is no transaction around them: when the second fails the first stays. */
  function Perform(req: Request, plan: Plan, items: ItemRows, rs: ReservationRows, faults: Faults): Outcome {
    match UpdateItem(items, plan.item, faults.writeItem)
    case Err(e) => Outcome(items, rs, Some(e))
    case Ok(rows) =>
      if plan.reservation.None? then Outcome(rows, rs, None)
      else match WriteReservation(req, plan.reservation.value, rs, faults.writeReservation)
        case Err(e) => Outcome(rows, rs, Some(e))
        case Ok(written) => Outcome(rows, written, None)
  }
}
