/** The reservation use cases of the inventory service as they are written: a reservation read, an
    item read, changes in memory, and two separate writes. Each is proved to do what `Transact` says. */
module UseCases {
  import opened Common
  import opened InventoryItems
  import opened Reservations
  import opened Repositories
  import opened UseCaseRules

  class ReserveStockUseCase {
    const inventoryRepo: InventoryRepository
    const reservationRepo: ReservationRepository

    constructor (inventoryRepo: InventoryRepository, reservationRepo: ReservationRepository)
      ensures this.inventoryRepo == inventoryRepo && this.reservationRepo == reservationRepo
    {
      this.inventoryRepo, this.reservationRepo := inventoryRepo, reservationRepo;
    }

    /** Returns the units of the item still available after the reservation. */
    method Execute(productId: Uuid, orderId: Uuid, quantity: GoInt, duration: Option<int>, newId: Uuid,
                   now: Time, faults: Faults)
      returns (remaining: GoInt, error: Option<Error>)
      requires ItemTable(inventoryRepo.rows)
      modifies inventoryRepo, reservationRepo
      ensures Outcome(inventoryRepo.rows, reservationRepo.rows, error)
              == Transact(ReserveStock(productId, orderId, quantity, duration, newId),
                          old(inventoryRepo.rows), old(reservationRepo.rows), now, now, faults)
      ensures error.None? ==>
                && newId in reservationRepo.rows && reservationRepo.rows[newId].itemId in inventoryRepo.rows
                && remaining == Available(inventoryRepo.rows[reservationRepo.rows[newId].itemId])
    {
      remaining := 0;
      if quantity <= 0 {
        return 0, Some(InvalidQuantity);
      }
      var taken;
      taken, error := reservationRepo.ExistsByOrderID(orderId, faults.first);
      if error.Some? {
        return;
      }
      if taken {
        return 0, Some(ReservationAlreadyExists);
      }
      var item;
      item, error := inventoryRepo.FindByProductID(productId, faults.readItem);
      if error.Some? {
        return 0, Some(ItemNotFound);
      }
      error := item.Reserve(quantity);
      if error.Some? {
        return;
      }
      var made := NewReservation(newId, item.id, orderId, quantity,
                                 if duration.Some? then duration.value else DEFAULT_RESERVATION_DURATION, now);
      if made.Err? {
        var _ := item.ReleaseReservation(quantity);
        return 0, Some(made.error);
      }
      var reservation := new ReservationEntity.FromRow(made.value);
      error := inventoryRepo.Update(item, faults.writeItem);
      if error.Some? {
        return;
      }
      error := reservationRepo.Save(reservation, faults.writeReservation);
      if error.Some? {
        return;
      }
      remaining := Available(item.View());
    }
  }

  class ConfirmReservationUseCase {
    const inventoryRepo: InventoryRepository
    const reservationRepo: ReservationRepository

    constructor (inventoryRepo: InventoryRepository, reservationRepo: ReservationRepository)
      ensures this.inventoryRepo == inventoryRepo && this.reservationRepo == reservationRepo
    {
      this.inventoryRepo, this.reservationRepo := inventoryRepo, reservationRepo;
    }

    /** The clock is read when the reservation is checked and again when it is confirmed. Returns the
        counts of the item after the confirmation. */
    method Execute(reservationId: Uuid, admitted: Time, decided: Time, faults: Faults)
      returns (finalStock: GoInt, reservedStock: GoInt, error: Option<Error>)
      requires ReservationTable(reservationRepo.rows)
      modifies inventoryRepo, reservationRepo
      ensures Outcome(inventoryRepo.rows, reservationRepo.rows, error)
              == Transact(ConfirmStock(reservationId),
                          old(inventoryRepo.rows), old(reservationRepo.rows), admitted, decided, faults)
      ensures error.None? ==>
                && reservationId in reservationRepo.rows
                && var itemId := reservationRepo.rows[reservationId].itemId;
                   && itemId in inventoryRepo.rows
                   && finalStock == inventoryRepo.rows[itemId].quantity
                   && reservedStock == inventoryRepo.rows[itemId].reserved
    {
      finalStock, reservedStock := 0, 0;
      var reservation;
      reservation, error := reservationRepo.FindByID(reservationId, faults.first);
      if error.Some? {
        return 0, 0, Some(ReservationNotFound);
      }
      if !reservation.View().IsActive(admitted) {
        if reservation.View().IsExpired(admitted) {
          return 0, 0, Some(ReservationExpired);
        }
        return 0, 0, Some(ReservationNotPending);
      }
      var item;
      item, error := inventoryRepo.FindByID(reservation.itemId, faults.readItem);
      if error.Some? {
        return 0, 0, Some(ItemNotFound);
      }
      error := item.ConfirmReservation(reservation.quantity);
      if error.Some? {
        return;
      }
      error := reservation.Confirm(decided);
      if error.Some? {
        var _ := item.Reserve(reservation.quantity);
        return;
      }
      error := inventoryRepo.Update(item, faults.writeItem);
      if error.Some? {
        return;
      }
      error := reservationRepo.Update(reservation, faults.writeReservation);
      if error.Some? {
        return;
      }
      finalStock, reservedStock := item.quantity, item.reserved;
    }
  }

  class ReleaseReservationUseCase {
    const inventoryRepo: InventoryRepository
    const reservationRepo: ReservationRepository

    constructor (inventoryRepo: InventoryRepository, reservationRepo: ReservationRepository)
      ensures this.inventoryRepo == inventoryRepo && this.reservationRepo == reservationRepo
    {
      this.inventoryRepo, this.reservationRepo := inventoryRepo, reservationRepo;
    }

    method Execute(reservationId: Uuid, now: Time, faults: Faults) returns (error: Option<Error>)
      requires ReservationTable(reservationRepo.rows)
      modifies inventoryRepo, reservationRepo
      ensures Outcome(inventoryRepo.rows, reservationRepo.rows, error)
              == Transact(ReleaseStock(reservationId),
                          old(inventoryRepo.rows), old(reservationRepo.rows), now, now, faults)
    {
      var reservation;
      reservation, error := reservationRepo.FindByID(reservationId, faults.first);
      if error.Some? {
        return Some(ReservationNotFound);
      }
      if !reservation.View().IsPending() {
        return Some(ReservationNotPending);
      }
      var item;
      item, error := inventoryRepo.FindByID(reservation.itemId, faults.readItem);
      if error.Some? {
        return Some(ItemNotFound);
      }
      error := item.ReleaseReservation(reservation.quantity);
      if error.Some? {
        return;
      }
      error := reservation.Release(now);
      assert error.None?;  // the reservation is pending, so the rollback that follows here is dead code
      error := inventoryRepo.Update(item, faults.writeItem);
      if error.Some? {
        return;
      }
      error := reservationRepo.Update(reservation, faults.writeReservation);
    }
  }
}
