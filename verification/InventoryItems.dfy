/** The inventory item of the inventory service: stock counts and the operations on them. */
module InventoryItems {
  import opened Common

  const INT64_MIN: int := -0x8000_0000_0000_0000
  const INT64_MAX: int := 0x7fff_ffff_ffff_ffff
  const INT32_MAX: int := 0x7fff_ffff

  /** Go's `int` on the 64-bit platforms the service runs on. */
  type GoInt = x: int | INT64_MIN <= x <= INT64_MAX

  /** The value Go keeps of a sum or difference of two ints. */
  function Wrap64(x: int): (r: GoInt)
    requires 2 * INT64_MIN <= x <= 2 * INT64_MAX + 1
    ensures (x - r) % 0x1_0000_0000_0000_0000 == 0
  {
    if x > INT64_MAX then x - 0x1_0000_0000_0000_0000
    else if x < INT64_MIN then x + 0x1_0000_0000_0000_0000
    else x
  }

  datatype Error =
    | InvalidQuantity
    | InvalidDuration
    | InsufficientStock
    | InvalidReservationRelease
    | InvalidReservationConfirm
    | ItemNotFound
    | ItemAlreadyExists
    | OptimisticLockFailure
    | ReservationNotFound
    | ReservationAlreadyExists
    | ReservationExpired
    | ReservationNotPending
    | ReservationNotExpired
    | StorageError

  /** A row of `inventory_items`, and equally the value of an `InventoryItem` entity. */
  datatype Item = Item(id: Uuid, productId: Uuid, quantity: GoInt, reserved: GoInt, version: GoInt)

  /** The entity operations that change the counts. */
  datatype Op =
    | Reserve(amount: GoInt)
    | Release(amount: GoInt)
    | Confirm(amount: GoInt)
    | AddStock(amount: GoInt)
    | DecrementStock(amount: GoInt)

  function Available(item: Item): GoInt {
    Wrap64(item.quantity - item.reserved)
  }

  /** What an operation makes of an item, or the error it returns instead. */
  function Apply(item: Item, op: Op): Result<Item, Error> {
    if op.amount <= 0 then Err(InvalidQuantity)
    else match op
      case Reserve(n) =>
        if Available(item) < n then Err(InsufficientStock)
        else Ok(item.(reserved := Wrap64(item.reserved + n)))
      case Release(n) =>
        if item.reserved < n then Err(InvalidReservationRelease)
        else Ok(item.(reserved := Wrap64(item.reserved - n)))
      case Confirm(n) =>
        if item.reserved < n then Err(InvalidReservationConfirm)
        else if item.quantity < n then Err(InsufficientStock)
        else Ok(item.(reserved := Wrap64(item.reserved - n), quantity := Wrap64(item.quantity - n)))
      case AddStock(n) =>
        Ok(item.(quantity := Wrap64(item.quantity + n)))
      case DecrementStock(n) =>
        if Available(item) < n then Err(InsufficientStock)
        else Ok(item.(quantity := Wrap64(item.quantity - n)))
  }

  /** The CHECK constraints and column widths of the table. */
  predicate Storable(item: Item) {
    0 <= item.reserved <= item.quantity <= INT32_MAX && 1 <= item.version <= INT32_MAX
  }

  /** How an operation moves the two counts when nothing wraps. */
  function QuantityDelta(op: Op): int {
    match op
    case Reserve(_) => 0
    case Release(_) => 0
    case Confirm(n) => -(n as int)
    case AddStock(n) => n
    case DecrementStock(n) => -(n as int)
  }

  function ReservedDelta(op: Op): int {
    match op
    case Reserve(n) => n
    case Release(n) => -(n as int)
    case Confirm(n) => -(n as int)
    case AddStock(_) => 0
    case DecrementStock(_) => 0
  }

  /** On a stored row no operation but a huge restock can leave the table's bounds, and the counts
      move by exactly the operation's amount whenever the outcome can be stored again. */
  lemma OperationKeepsBounds(item: Item, op: Op)
    requires Storable(item) && Apply(item, op).Ok?
    ensures var after := Apply(item, op).value;
            && after == item.(quantity := after.quantity, reserved := after.reserved)
            && (!op.AddStock? ==> Storable(after))
            && (Storable(after) ==>
                  && after.quantity == item.quantity + QuantityDelta(op)
                  && after.reserved == item.reserved + ReservedDelta(op))
  {
  }

  /** Exactly when an operation succeeds on a stored row. */
  lemma OperationSucceedsIff(item: Item, op: Op)
    requires Storable(item)
    ensures Apply(item, op).Ok? <==>
            && op.amount > 0
            && match op
               case Reserve(n) => n <= item.quantity - item.reserved
               case Release(n) => n <= item.reserved
               case Confirm(n) => n <= item.reserved
               case AddStock(_) => true
               case DecrementStock(n) => n <= item.quantity - item.reserved
  {
  }

  /** And which error it reports otherwise. */
  lemma OperationFailsWith(item: Item, op: Op)
    requires Storable(item)
    ensures match Apply(item, op)
            case Ok(_) => op.amount > 0
            case Err(InvalidQuantity) => op.amount <= 0
            case Err(InsufficientStock) =>
              (op.Reserve? || op.DecrementStock?) && 0 < op.amount && op.amount > item.quantity - item.reserved
            case Err(InvalidReservationRelease) => op.Release? && 0 < op.amount && op.amount > item.reserved
            case Err(InvalidReservationConfirm) => op.Confirm? && 0 < op.amount && op.amount > item.reserved
            case Err(_) => false
  {
  }

  /** Confirming a reservation takes units out of the stock without changing what is available. */
  lemma ConfirmKeepsAvailable(item: Item, n: GoInt)
    requires Storable(item) && Apply(item, Confirm(n)).Ok?
    ensures Available(Apply(item, Confirm(n)).value) == Available(item)
    ensures Apply(item, Confirm(n)).value.quantity < item.quantity
  {
  }

  /** Releasing undoes reserving. */
  lemma ReleaseUndoesReserve(item: Item, n: GoInt)
    requires Storable(item) && Apply(item, Reserve(n)).Ok?
    ensures Apply(Apply(item, Reserve(n)).value, Release(n)) == Ok(item)
  {
  }

  /** The in-memory rollback of the confirm use case calls Reserve. It succeeds exactly when the
      confirmed amount is still available, and then gives the reservation back but never the stock. */
  lemma ConfirmRollbackLosesStock(item: Item, n: GoInt)
    requires Storable(item) && Apply(item, Confirm(n)).Ok?
    ensures var rolledBack := Apply(Apply(item, Confirm(n)).value, Reserve(n));
            && (rolledBack.Ok? <==> n <= Available(item))
            && (rolledBack.Ok? ==> rolledBack.value == item.(quantity := item.quantity - n))
            && rolledBack != Ok(item)
  {
  }

  /** The entity the use cases work on. */
  class InventoryItem {
    const id: Uuid
    const productId: Uuid
    var quantity: GoInt
    var reserved: GoInt
    var version: GoInt

    /** The value of the entity. */
    function View(): Item
      reads this
    {
      Item(id, productId, quantity, reserved, version)
    }

    constructor FromRow(row: Item)
      ensures View() == row
    {
      id, productId := row.id, row.productId;
      quantity, reserved, version := row.quantity, row.reserved, row.version;
    }

    method CanReserve(n: GoInt) returns (can: bool)
      ensures can <==> n <= Available(View())
    {
      can := Available(View()) >= n;
    }

    method Reserve(n: GoInt) returns (error: Option<Error>)
      modifies this`reserved
      ensures Outcome(old(View()), Op.Reserve(n), View(), error)
    {
      if n <= 0 {
        return Some(InvalidQuantity);
      }
      var can := CanReserve(n);
      if !can {
        return Some(InsufficientStock);
      }
      reserved := Wrap64(reserved + n);
      return None;
    }

    method ReleaseReservation(n: GoInt) returns (error: Option<Error>)
      modifies this`reserved
      ensures Outcome(old(View()), Op.Release(n), View(), error)
    {
      if n <= 0 {
        return Some(InvalidQuantity);
      }
      if reserved < n {
        return Some(InvalidReservationRelease);
      }
      reserved := Wrap64(reserved - n);
      return None;
    }

    method ConfirmReservation(n: GoInt) returns (error: Option<Error>)
      modifies this`reserved, this`quantity
      ensures Outcome(old(View()), Op.Confirm(n), View(), error)
    {
      if n <= 0 {
        return Some(InvalidQuantity);
      }
      if reserved < n {
        return Some(InvalidReservationConfirm);
      }
      if quantity < n {
        return Some(InsufficientStock);
      }
      reserved := Wrap64(reserved - n);
      quantity := Wrap64(quantity - n);
      return None;
    }

    method AddStock(n: GoInt) returns (error: Option<Error>)
      modifies this`quantity
      ensures Outcome(old(View()), Op.AddStock(n), View(), error)
    {
      if n <= 0 {
        return Some(InvalidQuantity);
      }
      quantity := Wrap64(quantity + n);
      return None;
    }

    method DecrementStock(n: GoInt) returns (error: Option<Error>)
      modifies this`quantity
      ensures Outcome(old(View()), Op.DecrementStock(n), View(), error)
    {
      if n <= 0 {
        return Some(InvalidQuantity);
      }
      var can := CanReserve(n);
      if !can {
        return Some(InsufficientStock);
      }
      quantity := Wrap64(quantity - n);
      return None;
    }
  }

  /** A method call turned `before` into `after` as the operation says; on an error nothing moved. */
  predicate Outcome(before: Item, op: Op, after: Item, error: Option<Error>) {
    match Apply(before, op)
    case Ok(item) => error.None? && after == item
    case Err(e) => error == Some(e) && after == before
  }
}
