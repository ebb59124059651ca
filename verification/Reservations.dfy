/** Stock reservations of the inventory service and their status machine. */
module Reservations {
  import opened Common
  import opened InventoryItems

  /** Fifteen minutes, in nanoseconds. */
  const DEFAULT_RESERVATION_DURATION: int := 15 * 60 * 1_000_000_000

  datatype Status = Pending | Confirmed | Released | Expired

  /** A row of `reservations`, and equally the value of a `Reservation` entity. */
  datatype Reservation = Reservation(
    id: Uuid, itemId: Uuid, orderId: Uuid, quantity: GoInt, status: Status, expiresAt: Time)
  {
    predicate IsExpired(now: Time) {
      now > expiresAt
    }

    predicate IsPending() {
      status == Pending
    }

    predicate IsActive(now: Time) {
      IsPending() && !IsExpired(now)
    }
  }

  /** The transitions a reservation can be asked for. */
  datatype Transition = ToConfirmed | ToReleased | ToExpired

  /** The reservation after a transition at time `now`, or the error returned instead. */
  function Transit(r: Reservation, t: Transition, now: Time): Result<Reservation, Error> {
    match t
    case ToConfirmed =>
      if r.IsActive(now) then Ok(r.(status := Confirmed))
      else if r.IsExpired(now) then Err(ReservationExpired)
      else Err(ReservationNotPending)
    case ToReleased =>
      if r.IsPending() then Ok(r.(status := Released)) else Err(ReservationNotPending)
    case ToExpired =>
      if !r.IsPending() then Err(ReservationNotPending)
      else if !r.IsExpired(now) then Err(ReservationNotExpired)
      else Ok(r.(status := Expired))
  }

  function NewReservation(id: Uuid, itemId: Uuid, orderId: Uuid, quantity: GoInt, duration: int, now: Time)
    : Result<Reservation, Error>
  {
    if quantity <= 0 then Err(InvalidQuantity)
    else if duration <= 0 then Err(InvalidDuration)
    else Ok(Reservation(id, itemId, orderId, quantity, Pending, now + duration))
  }

  /** A run of transition requests, refused ones leaving the reservation as it is. */
  function TransitAll(r: Reservation, ts: seq<(Transition, Time)>): Reservation
    decreases |ts|
  {
    if ts == [] then r
    else
      var next := Transit(r, ts[0].0, ts[0].1);
      TransitAll(if next.Ok? then next.value else r, ts[1..])
  }

  /** Whatever a reservation is asked, in whatever order and at whatever times, it settles at most
      once: the status it ends with is Pending or the target of the first request that is accepted. */
  lemma {:induction false} SettlesOnce(r: Reservation, ts: seq<(Transition, Time)>)
    ensures TransitAll(r, ts) == r.(status := TransitAll(r, ts).status)
    ensures r.status != Pending ==> TransitAll(r, ts) == r
    ensures r.status == Pending && TransitAll(r, ts).status != Pending ==>
              exists i ::
                && 0 <= i < |ts|
                && Transit(r, ts[i].0, ts[i].1) == Ok(TransitAll(r, ts))
                && forall j :: 0 <= j < i ==> Transit(r, ts[j].0, ts[j].1).Err?
    decreases |ts|
  {
    if ts == [] {
    } else {
      var next := Transit(r, ts[0].0, ts[0].1);
      SettlesOnce(if next.Ok? then next.value else r, ts[1..]);
      if r.status == Pending && TransitAll(r, ts).status != Pending {
        if next.Ok? {
          assert Transit(r, ts[0].0, ts[0].1) == Ok(TransitAll(r, ts));
        } else {
          var i :| 0 <= i < |ts[1..]|
            && Transit(r, ts[1..][i].0, ts[1..][i].1) == Ok(TransitAll(r, ts[1..]))
            && forall j :: 0 <= j < i ==> Transit(r, ts[1..][j].0, ts[1..][j].1).Err?;
          forall j | 0 <= j < i + 1
            ensures Transit(r, ts[j].0, ts[j].1).Err?
          {
            assert j > 0 ==> ts[j] == ts[1..][j - 1];
          }
          assert Transit(r, ts[i + 1].0, ts[i + 1].1) == Ok(TransitAll(r, ts));
        }
      }
    }
  }

  /** Confirming and expiring exclude each other at every instant, and one of them is always
      possible for a pending reservation; releasing is possible for every pending one. */
  lemma ConfirmXorExpire(r: Reservation, now: Time)
    ensures Transit(r, ToConfirmed, now).Ok? ==> Transit(r, ToExpired, now).Err?
    ensures r.IsPending() <==> (Transit(r, ToConfirmed, now).Ok? || Transit(r, ToExpired, now).Ok?)
    ensures r.IsPending() <==> Transit(r, ToReleased, now).Ok?
    ensures Transit(r, ToConfirmed, now).Ok? <==> r.status == Pending && now <= r.expiresAt
    ensures Transit(r, ToConfirmed, now) == Err(ReservationExpired) <==> now > r.expiresAt
    ensures Transit(r, ToExpired, now) == Err(ReservationNotExpired) <==> r.status == Pending && now <= r.expiresAt
    ensures forall t :: Transit(r, t, now).Ok? ==>
              Transit(r, t, now).value.status == match t case ToConfirmed => Confirmed case ToReleased => Released case ToExpired => Expired
  {
  }

  /** The entity the use cases work on. */
  class ReservationEntity {
    const id: Uuid
    const itemId: Uuid
    const orderId: Uuid
    const quantity: GoInt
    var status: Status
    var expiresAt: Time

    function View(): Reservation
      reads this
    {
      Reservation(id, itemId, orderId, quantity, status, expiresAt)
    }

    constructor FromRow(row: Reservation)
      ensures View() == row
    {
      id, itemId, orderId, quantity := row.id, row.itemId, row.orderId, row.quantity;
      status, expiresAt := row.status, row.expiresAt;
    }

    method Confirm(now: Time) returns (error: Option<Error>)
      modifies this`status
      ensures TransitOutcome(old(View()), ToConfirmed, now, View(), error)
    {
      if !View().IsActive(now) {
        if View().IsExpired(now) {
          return Some(ReservationExpired);
        }
        return Some(ReservationNotPending);
      }
      status := Confirmed;
      return None;
    }

    method Release(ghost now: Time) returns (error: Option<Error>)
      modifies this`status
      ensures TransitOutcome(old(View()), ToReleased, now, View(), error)
    {
      if !View().IsPending() {
        return Some(ReservationNotPending);
      }
      status := Released;
      return None;
    }

    method MarkAsExpired(now: Time) returns (error: Option<Error>)
      modifies this`status
      ensures TransitOutcome(old(View()), ToExpired, now, View(), error)
    {
      if !View().IsPending() {
        return Some(ReservationNotPending);
      }
      if !View().IsExpired(now) {
        return Some(ReservationNotExpired);
      }
      status := Expired;
      return None;
    }

    /** Extending moves the deadline of an active reservation and keeps it active. */
    method Extend(duration: int, now: Time) returns (error: Option<Error>)
      modifies this`expiresAt
      ensures error.None? <==> duration > 0 && old(View()).IsActive(now)
      ensures error.None? ==> View() == old(View()).(expiresAt := old(expiresAt) + duration) && View().IsActive(now)
      ensures error.Some? ==> View() == old(View())
      ensures error.Some? ==>
                error.value == if duration <= 0 then InvalidDuration
                               else if old(View()).IsExpired(now) then ReservationExpired
                               else ReservationNotPending
    {
      if duration <= 0 {
        return Some(InvalidDuration);
      }
      if !View().IsActive(now) {
        if View().IsExpired(now) {
          return Some(ReservationExpired);
        }
        return Some(ReservationNotPending);
      }
      expiresAt := expiresAt + duration;
      return None;
    }
  }

  predicate TransitOutcome(before: Reservation, t: Transition, now: Time, after: Reservation, error: Option<Error>) {
    match Transit(before, t, now)
    case Ok(r) => error.None? && after == r
    case Err(e) => error == Some(e) && after == before
  }
}
