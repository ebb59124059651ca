/** How long a new reservation lasts: what confirm, release and both expiry paths make of it, and when. */
module ReservationLifetime {
  import opened Common
  import opened InventoryItems
  import opened Reservations
  import opened Repositories
  import opened UseCaseRules
  import opened ReservationSums

  /** The database that a successful reserve of `req` at time `made` has left. */
  ghost predicate JustReserved(
    before: ItemRows, rs: ReservationRows, req: Request, made: Time, items: ItemRows, reservations: ReservationRows)
  {
    && req.ReserveStock? && Consistent(before, rs)
    && Transact(req, before, rs, made, made, NO_FAULTS) == Outcome(items, reservations, None)
    && forall i :: i in before ==> before[i].version + 1 < INT32_MAX
  }

  /** The reservation is stored, pending, until its lifetime is over, and the database is still consistent. */
  lemma ReserveLeaves(
    before: ItemRows, rs: ReservationRows, req: Request, made: Time, items: ItemRows, reservations: ReservationRows)
    returns (i: Uuid)
    requires JustReserved(before, rs, req, made, items, reservations)
    ensures Consistent(items, reservations)
    ensures i in before && before[i].productId == req.productId && OnlyItemMoved(before, items, i, 0, req.quantity)
    ensures req.newId !in rs && CanBump(items[i])
    ensures reservations == rs[req.newId := Reservation(req.newId, i, req.orderId, req.quantity, Pending,
                                                        made + Lifetime(req.duration))]
  {
    ReserveSucceedsIff(before, rs, req, made, made);
    TransactKeepsSumsIff(req, before, rs, made, made, NO_FAULTS);
    i :| i in before && before[i].productId == req.productId;
    ReserveEffect(before, rs, req, i, made, made);
  }

  /** The lifetime law. A reservation made at a time for a duration (fifteen minutes if none is given) can be
      confirmed exactly as long as that lasts, at both readings of the clock; it is found as expired, and given
      back by either expiry path, exactly afterwards; and it can be released at any time. */
  lemma LifetimeLaw(
    before: ItemRows, rs: ReservationRows, req: Request, made: Time, items: ItemRows, reservations: ReservationRows,
    now: Time, decided: Time)
    requires JustReserved(before, rs, req, made, items, reservations)
    ensures var over := made + if req.duration.Some? then req.duration.value else 900_000_000_000;
            && (Transact(ConfirmStock(req.newId), items, reservations, now, decided, NO_FAULTS).error.None?
                <==> now <= over && decided <= over)
            && (req.newId in ExpiredIds(reservations, now) <==> now > over)
            && (forall byJob :: ExpiresBy(req.newId, items, reservations, now, byJob) <==> now > over)
            && Transact(ReleaseStock(req.newId), items, reservations, now, decided, NO_FAULTS).error.None?
  {
    var i := ReserveLeaves(before, rs, req, made, items, reservations);
    ConfirmSucceedsIff(items, reservations, req.newId, now, decided);
    ReleaseSucceedsIff(items, reservations, req.newId, now, decided);
    forall byJob
      ensures ExpiresBy(req.newId, items, reservations, now, byJob) <==> now > made + Lifetime(req.duration)
    {
      JobSettlesIff(items, reservations, req.newId, now);
      SweepSettlesIff(items, reservations, req.newId, now);
    }
  }

  /** The job, or else the batch, takes the reservation out of Pending. */
  ghost predicate ExpiresBy(id: Uuid, items: ItemRows, rs: ReservationRows, now: Time, byJob: bool) {
    var o := Transact(if byJob then ExpireByJob(id) else SweepExpired(id), items, rs, now, now, NO_FAULTS);
    id in o.reservations && o.reservations[id].status == if byJob then Expired else Released
  }

  /** A reserve that is released, or expires, leaves the counts of every item as they were before it; one that
      is confirmed leaves what is available and takes the quantity out of the stock. */
  lemma ReserveComesToNothing(
    before: ItemRows, rs: ReservationRows, req: Request, made: Time, items: ItemRows, reservations: ReservationRows,
    settle: Request, now: Time)
    requires JustReserved(before, rs, req, made, items, reservations)
    requires settle in {ReleaseStock(req.newId), SweepExpired(req.newId), ExpireByJob(req.newId), ConfirmStock(req.newId)}
    requires var o := Transact(settle, items, reservations, now, now, NO_FAULTS);
             o.error.None? && req.newId in o.reservations && !o.reservations[req.newId].IsPending()
    ensures var o := Transact(settle, items, reservations, now, now, NO_FAULTS);
            && o.items.Keys == before.Keys
            && forall id :: id in before ==>
                 && o.items[id].reserved == before[id].reserved
                 && o.items[id].quantity
                    == before[id].quantity - if settle.ConfirmStock? && before[id].productId == req.productId
                                             then req.quantity else 0
  {
    assert ItemTable(before);
    var i := ReserveLeaves(before, rs, req, made, items, reservations);
    SettleMoves(items, reservations, settle, req.newId, now);
  }

  /** What settles a pending reservation takes its units from the reserved count of its item, and a confirm
      also from the stock. */
  lemma SettleMoves(items: ItemRows, rs: ReservationRows, settle: Request, id: Uuid, now: Time)
    requires Consistent(items, rs) && id in rs && rs[id].IsPending() && CanBump(items[rs[id].itemId])
    requires settle in {ReleaseStock(id), SweepExpired(id), ExpireByJob(id), ConfirmStock(id)}
    requires var o := Transact(settle, items, rs, now, now, NO_FAULTS);
             o.error.None? && id in o.reservations && !o.reservations[id].IsPending()
    ensures OnlyItemMoved(items, Transact(settle, items, rs, now, now, NO_FAULTS).items, rs[id].itemId,
                          if settle.ConfirmStock? then -(rs[id].quantity as int) else 0, -(rs[id].quantity as int))
  {
    match settle
    case ConfirmStock(_) => ConfirmSucceedsIff(items, rs, id, now, now);
    case ReleaseStock(_) => ReleaseSucceedsIff(items, rs, id, now, now);
    case SweepExpired(_) => SweepSettlesIff(items, rs, id, now);
    case ExpireByJob(_) => JobSettlesIff(items, rs, id, now);
  }
}
