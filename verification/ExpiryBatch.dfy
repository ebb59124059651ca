/** The two batch jobs that give the units of expired reservations back. */
module ExpiryBatch {
  import opened Common
  import opened InventoryItems
  import opened Reservations
  import opened Repositories
  import opened UseCaseRules
  import opened ReservationSums

  const BATCH_LIMIT: int := 1000

  /** The release-expired use case works on the copies its query returned and marks them released;
      the expire job reads each reservation again and marks it expired. */
  datatype Path = ByUseCase | ByJob

  function FinalStatus(path: Path): Status {
    if path.ByJob? then Expired else Released
  }

  ghost function SettleOne(
    path: Path, r: Reservation, items: ItemRows, rs: ReservationRows, now: Time, faults: Faults): Outcome {
    match path
    case ByUseCase => Finish(SweepExpired(r.id), Some(r), items, rs, now, faults)
    case ByJob => Transact(ExpireByJob(r.id), items, rs, now, now, faults)
  }

  /** What a sweep over some reservations has done so far. */
  datatype Sweep = Sweep(items: ItemRows, reservations: ReservationRows, released: seq<Uuid>, failed: seq<(Uuid, Error)>)

  function Tally(s: Sweep, r: Reservation, o: Outcome): Sweep {
    match o.error
    case None => Sweep(o.items, o.reservations, s.released + [r.id], s.failed)
    case Some(e) => Sweep(o.items, o.reservations, s.released, s.failed + [(r.id, e)])
  }

  ghost function SweepStep(path: Path, s: Sweep, r: Reservation, now: Time, faults: Faults): Sweep {
    Tally(s, r, SettleOne(path, r, s.items, s.reservations, now, faults))
  }

  /** Releasing the reservations found one after the other, going on after a failure. */
  ghost function SweepAll(
    path: Path, found: seq<Reservation>, items: ItemRows, rs: ReservationRows, now: Time, faults: nat -> Faults): Sweep
    decreases |found|
  {
    if found == [] then Sweep(items, rs, [], [])
    else
      var n := |found| - 1;
      SweepStep(path, SweepAll(path, found[..n], items, rs, now, faults), found[n], now, faults(n))
  }

  lemma SweepNext(
    path: Path, found: seq<Reservation>, i: nat, items: ItemRows, rs: ReservationRows, now: Time, faults: nat -> Faults)
    requires i < |found|
    ensures var s := SweepAll(path, found[..i], items, rs, now, faults);
            SweepAll(path, found[..i + 1], items, rs, now, faults)
            == Tally(s, found[i], SettleOne(path, found[i], s.items, s.reservations, now, faults(i)))
  {
    assert found[..i + 1][..i] == found[..i];
  }

  /** `xs` and `ys` interleave to `ids`, each keeping its order. */
  predicate Splits(ids: seq<Uuid>, xs: seq<Uuid>, ys: seq<Uuid>)
    decreases |ids|
  {
    if ids == [] then xs == [] && ys == []
    else
      var n, last := |ids| - 1, ids[|ids| - 1];
      || (xs != [] && xs[|xs| - 1] == last && Splits(ids[..n], xs[..|xs| - 1], ys))
      || (ys != [] && ys[|ys| - 1] == last && Splits(ids[..n], xs, ys[..|ys| - 1]))
  }

  function Ids(found: seq<Reservation>): seq<Uuid> {
    seq(|found|, i requires 0 <= i < |found| => found[i].id)
  }

  function FailedIds(failed: seq<(Uuid, Error)>): seq<Uuid> {
    seq(|failed|, i requires 0 <= i < |failed| => failed[i].0)
  }

  lemma SplitsGrow(ids: seq<Uuid>, xs: seq<Uuid>, ys: seq<Uuid>, id: Uuid)
    requires Splits(ids, xs, ys)
    ensures Splits(ids + [id], xs + [id], ys) && Splits(ids + [id], xs, ys + [id])
  {
    assert (ids + [id])[..|ids|] == ids && (xs + [id])[..|xs|] == xs && (ys + [id])[..|ys|] == ys;
  }

  lemma StepSplits(path: Path, ids: seq<Uuid>, s: Sweep, r: Reservation, now: Time, faults: Faults)
    requires Splits(ids, s.released, FailedIds(s.failed))
    ensures var t := SweepStep(path, s, r, now, faults); Splits(ids + [r.id], t.released, FailedIds(t.failed))
  {
    SplitsGrow(ids, s.released, FailedIds(s.failed), r.id);
    var o := SettleOne(path, r, s.items, s.reservations, now, faults);
    if o.error.Some? {
      assert FailedIds(s.failed + [(r.id, o.error.value)]) == FailedIds(s.failed) + [r.id];
    }
  }

  lemma IdsOfFront(found: seq<Reservation>)
    requires found != []
    ensures Ids(found) == Ids(found[..|found| - 1]) + [found[|found| - 1].id]
  {
  }

  /** Whatever fails, the released and the failed reservations partition those found, in order. */
  lemma {:induction false} SweepPartitions(
    path: Path, found: seq<Reservation>, items: ItemRows, rs: ReservationRows, now: Time, faults: nat -> Faults)
    ensures var s := SweepAll(path, found, items, rs, now, faults);
            Splits(Ids(found), s.released, FailedIds(s.failed))
    decreases |found|
  {
    if found != [] {
      var n := |found| - 1;
      SweepPartitions(path, found[..n], items, rs, now, faults);
      StepSplits(path, Ids(found[..n]), SweepAll(path, found[..n], items, rs, now, faults), found[n], now, faults(n));
      IdsOfFront(found);
    }
  }

  // ---- A batch without faults ----

  ghost predicate VersionRoom(items: ItemRows, n: int) {
    forall id :: id in items ==> items[id].version + n <= INT32_MAX
  }

  predicate GivenBack(status: Status, r: Reservation, items: ItemRows, rs: ReservationRows, o: Outcome) {
    && o.error == None
    && o.reservations == rs[r.id := r.(status := status)]
    && o.items.Keys == items.Keys
    && forall id :: id in items ==> o.items[id].version <= items[id].version + 1 && o.items[id].quantity == items[id].quantity
  }

  lemma FinishOne(req: Request, items: ItemRows, rs: ReservationRows, r: Reservation, now: Time)
    requires Consistent(items, rs) && r.id in rs && rs[r.id] == r && r.IsPending() && r.IsExpired(now)
    requires req == SweepExpired(r.id) || req == ExpireByJob(r.id)
    requires CanBump(items[r.itemId])
    ensures var o := Finish(req, Some(r), items, rs, now, NO_FAULTS);
            && GivenBack(if req.ExpireByJob? then Expired else Released, r, items, rs, o)
            && Consistent(o.items, o.reservations)
  {
    PendingIsCovered(items, rs, r.id);
    var item := items[r.itemId];
    OperationKeepsBounds(item, Release(r.quantity));
    UpdateWritesOneRow(items, Apply(item, Release(r.quantity)).value, false);
    PerformKeepsSumsIff(req, Some(r), item, now, items, rs, NO_FAULTS);
  }

  function RequestOf(path: Path, r: Reservation): Request {
    if path.ByJob? then ExpireByJob(r.id) else SweepExpired(r.id)
  }

  /** The second reading of the job finds what the query found. */
  lemma SettleOneFinishes(path: Path, r: Reservation, items: ItemRows, rs: ReservationRows, now: Time)
    requires r.id in rs && rs[r.id] == r && r.IsPending() && r.IsExpired(now)
    ensures SettleOne(path, r, items, rs, now, NO_FAULTS)
            == Finish(RequestOf(path, r), Some(r), items, rs, now, NO_FAULTS)
  {
    if path.ByJob? {
      assert Admit(ExpireByJob(r.id), rs, now, false) == Ok(Proceed(Some(r)));
    }
  }

  /** One expired reservation of a consistent database is given back without fail. */
  lemma SweepOne(path: Path, items: ItemRows, rs: ReservationRows, r: Reservation, now: Time)
    requires Consistent(items, rs) && r.id in rs && rs[r.id] == r && r.IsPending() && r.IsExpired(now)
    requires VersionRoom(items, 1)
    ensures var o := SettleOne(path, r, items, rs, now, NO_FAULTS);
            GivenBack(FinalStatus(path), r, items, rs, o) && Consistent(o.items, o.reservations)
  {
    FinishOne(RequestOf(path, r), items, rs, r, now);
    SettleOneFinishes(path, r, items, rs, now);
  }

  /** The reservations in `ids` have been settled and no other row has changed. */
  ghost predicate SettledExactly(status: Status, before: ReservationRows, after: ReservationRows, ids: seq<Uuid>) {
    && after.Keys == before.Keys
    && forall id :: id in before ==> after[id] == if id in ids then before[id].(status := status) else before[id]
  }

  /** `s` has settled all of `found`, starting from consistent tables. */
  ghost predicate SweptClean(path: Path, found: seq<Reservation>, items: ItemRows, rs: ReservationRows, s: Sweep) {
    && s.released == Ids(found) && s.failed == []
    && Consistent(s.items, s.reservations)
    && SettledExactly(FinalStatus(path), rs, s.reservations, Ids(found))
    && s.items.Keys == items.Keys
    && forall id :: id in items ==>
         s.items[id].version <= items[id].version + |found| && s.items[id].quantity == items[id].quantity
  }

  ghost predicate DueRows(found: seq<Reservation>, rs: ReservationRows, now: Time) {
    && (forall i :: 0 <= i < |found| ==> found[i].id in rs && rs[found[i].id] == found[i] && found[i].IsPending() && found[i].IsExpired(now))
    && (forall i, j :: 0 <= i < j < |found| ==> found[i].id != found[j].id)
  }

  lemma SettleOneMore(status: Status, before: ReservationRows, mid: ReservationRows, ids: seq<Uuid>, r: Reservation)
    requires SettledExactly(status, before, mid, ids) && r.id in before && before[r.id] == r && r.id !in ids
    ensures r.id in mid && mid[r.id] == r
    ensures SettledExactly(status, before, mid[r.id := r.(status := status)], ids + [r.id])
  {
  }

  lemma IdsSnoc(found: seq<Reservation>, r: Reservation, rs: ReservationRows, now: Time)
    requires DueRows(found + [r], rs, now)
    ensures Ids(found + [r]) == Ids(found) + [r.id] && r.id !in Ids(found)
    ensures r.id in rs && rs[r.id] == r && r.IsPending() && r.IsExpired(now)
  {
    var all := found + [r];
    assert all[|found|] == r;
    assert forall i :: 0 <= i < |found| ==> all[i] == found[i] && Ids(found)[i] == all[i].id;
  }

  lemma SweepOneMore(
    path: Path, found: seq<Reservation>, r: Reservation, items: ItemRows, rs: ReservationRows, s: Sweep, now: Time)
    requires SweptClean(path, found, items, rs, s) && DueRows(found + [r], rs, now)
    requires VersionRoom(items, |found| + 1)
    ensures SweptClean(path, found + [r], items, rs, SweepStep(path, s, r, now, NO_FAULTS))
  {
    IdsSnoc(found, r, rs, now);
    SettleOneMore(FinalStatus(path), rs, s.reservations, Ids(found), r);
    assert VersionRoom(s.items, 1);
    SweepOne(path, s.items, s.reservations, r, now);
  }

  predicate NeverFails(faults: nat -> Faults, n: nat) {
    forall i :: 0 <= i < n ==> faults(i) == NO_FAULTS
  }

  /** Without faults a sweep of reservations that are due settles them all, keeps the sums, and touches
      neither a quantity nor any other reservation. */
  lemma {:induction false} SweepSettlesAll(
    path: Path, found: seq<Reservation>, items: ItemRows, rs: ReservationRows, now: Time, faults: nat -> Faults)
    requires Consistent(items, rs) && VersionRoom(items, |found|) && DueRows(found, rs, now)
    requires NeverFails(faults, |found|)
    ensures SweptClean(path, found, items, rs, SweepAll(path, found, items, rs, now, faults))
    decreases |found|
  {
    if found != [] {
      var n := |found| - 1;
      var init, last := found[..n], found[n];
      assert init + [last] == found;
      assert DueRows(init, rs, now) && VersionRoom(items, n);
      SweepSettlesAll(path, init, items, rs, now, faults);
      var s := SweepAll(path, init, items, rs, now, faults);
      SweepOneMore(path, init, last, items, rs, s, now);
      assert SweepAll(path, found, items, rs, now, faults) == SweepStep(path, s, last, now, NO_FAULTS);
    }
  }

  // ---- Draining ----

  lemma DistinctIds(found: seq<Reservation>) returns (ids: set<Uuid>)
    requires forall i, j :: 0 <= i < j < |found| ==> found[i].id != found[j].id
    ensures |ids| == |found| && forall id :: id in ids <==> id in Ids(found)
  {
    ids := {};
    var k := 0;
    while k < |found|
      invariant 0 <= k <= |found| && |ids| == k
      invariant forall id :: id in ids <==> exists i :: 0 <= i < k && found[i].id == id
    {
      ids := ids + {found[k].id};
      k := k + 1;
    }
    forall id
      ensures id in ids <==> id in Ids(found)
    {
      if id in ids {
        var i :| 0 <= i < k && found[i].id == id;
        assert Ids(found)[i] == id;
      }
    }
  }

  lemma FoundIsDue(rs: ReservationRows, now: Time, limit: int, found: seq<Reservation>)
    requires EarliestExpired(rs, now, limit, found)
    ensures DueRows(found, rs, now)
  {
    assert forall i :: 0 <= i < |found| ==> rs[found[i].id] == found[i];
  }

  lemma LeftAreNotFound(
    rs: ReservationRows, after: ReservationRows, status: Status, due: Time, found: seq<Reservation>, ids: set<Uuid>)
    requires ReservationTable(rs) && status != Pending && SettledExactly(status, rs, after, Ids(found))
    requires forall id :: id in ids <==> id in Ids(found)
    ensures ExpiredIds(after, due) == ExpiredIds(rs, due) - ids
  {
  }

  lemma LeftOverMeansEarlier(
    rs: ReservationRows, now: Time, due: Time, limit: int, found: seq<Reservation>, ids: set<Uuid>, id: Uuid)
    requires ReservationTable(rs) && EarliestExpired(rs, now, limit, found) && due <= now
    requires forall other :: other in ids <==> other in Ids(found)
    requires id in ExpiredIds(rs, due) && id !in ids
    ensures ids <= ExpiredIds(rs, due) <= ExpiredIds(rs, now)
  {
    assert forall i :: 0 <= i < |found| ==> Ids(found)[i] == found[i].id;
    assert rs[id] !in found;
    forall other | other in ids
      ensures other in ExpiredIds(rs, due)
    {
      var i :| 0 <= i < |found| && Ids(found)[i] == other;
      assert found[i].id == other && rs[other] == found[i];
      assert found[i].expiresAt <= rs[id].expiresAt;
    }
  }

  /** `ids` were taken from `before`, up to `limit` of them, all of them before anything else. */
  lemma TakenFirst(before: set<Uuid>, all: set<Uuid>, ids: set<Uuid>, limit: int)
    requires limit > 0 && before <= all && |ids| == (if limit < |all| then limit else |all|)
    requires before - ids != {} ==> ids <= before
    ensures |before - ids| == if |before| <= limit then 0 else |before| - limit
  {
    if before - ids == {} {
      assert before == before * ids;
      SubsetSize(before, ids);
    } else {
      var id :| id in before - ids;
      SubsetSize(ids + {id}, all);
      SubsetSize(ids + {id}, before);
      assert before == (before - ids) + ids;
    }
  }

  /** Settling the earliest reservations due at `now` leaves, of those due by an earlier `due`, all
      but the limit. */
  lemma EarliestFirst(
    rs: ReservationRows, after: ReservationRows, status: Status, now: Time, due: Time, limit: int, found: seq<Reservation>)
    requires EarliestExpired(rs, now, limit, found) && due <= now && limit > 0
    requires ReservationTable(rs) && status != Pending && SettledExactly(status, rs, after, Ids(found))
    ensures var n := |ExpiredIds(rs, due)|; |ExpiredIds(after, due)| == if n <= limit then 0 else n - limit
  {
    var ids := DistinctIds(found);
    var before, all := ExpiredIds(rs, due), ExpiredIds(rs, now);
    LeftAreNotFound(rs, after, status, due, found, ids);
    if before - ids != {} {
      var id :| id in before - ids;
      LeftOverMeansEarlier(rs, now, due, limit, found, ids, id);
    }
    TakenFirst(before, all, ids, limit);
  }

  /** One fault-free batch at `now` with nobody else writing. */
  ghost predicate BatchDone(
    path: Path, limit: int, items: ItemRows, rs: ReservationRows, now: Time, items': ItemRows, rs': ReservationRows) {
    exists found: seq<Reservation>, faults: nat -> Faults ::
      && EarliestExpired(rs, now, limit, found) && NeverFails(faults, |found|)
      && SweepAll(path, found, items, rs, now, faults).items == items'
      && SweepAll(path, found, items, rs, now, faults).reservations == rs'
  }

  /** A fault-free batch fails nothing: it settles exactly the earliest reservations due, as many as its
      limit allows, and keeps the reservation sum. */
  lemma BatchSettlesEarliest(path: Path, found: seq<Reservation>, items: ItemRows, rs: ReservationRows,
                             now: Time, limit: int, faults: nat -> Faults)
    requires Consistent(items, rs) && VersionRoom(items, |found|)
    requires EarliestExpired(rs, now, limit, found) && NeverFails(faults, |found|)
    ensures var s := SweepAll(path, found, items, rs, now, faults);
            && s.failed == [] && s.released == Ids(found)
            && Consistent(s.items, s.reservations)
            && SettledExactly(FinalStatus(path), rs, s.reservations, Ids(found))
            && |found| == (if 0 < limit < |ExpiredIds(rs, now)| then limit else |ExpiredIds(rs, now)|)
  {
    FoundIsDue(rs, now, limit, found);
    SweepSettlesAll(path, found, items, rs, now, faults);
  }

  lemma BatchStep(
    items: ItemRows, rs: ReservationRows, now: Time, due: Time, room: int, items': ItemRows, rs': ReservationRows)
    requires BatchDone(ByUseCase, BATCH_LIMIT, items, rs, now, items', rs') && due <= now
    requires Consistent(items, rs) && VersionRoom(items, room) && BATCH_LIMIT <= room
    ensures Consistent(items', rs') && VersionRoom(items', room - BATCH_LIMIT)
    ensures var n := |ExpiredIds(rs, due)|; |ExpiredIds(rs', due)| == if n <= BATCH_LIMIT then 0 else n - BATCH_LIMIT
  {
    var found: seq<Reservation>, faults: nat -> Faults :|
      && EarliestExpired(rs, now, BATCH_LIMIT, found) && NeverFails(faults, |found|)
      && SweepAll(ByUseCase, found, items, rs, now, faults).items == items'
      && SweepAll(ByUseCase, found, items, rs, now, faults).reservations == rs';
    FoundIsDue(rs, now, BATCH_LIMIT, found);
    SweepSettlesAll(ByUseCase, found, items, rs, now, faults);
    EarliestFirst(rs, rs', Released, now, due, BATCH_LIMIT, found);
  }

  /** Databases between consecutive batches of the release-expired use case, run at `times`. */
  ghost predicate Batches(dbs: seq<(ItemRows, ReservationRows)>, times: seq<Time>) {
    && |dbs| == |times| + 1
    && forall k :: 0 <= k < |times| ==>
         BatchDone(ByUseCase, BATCH_LIMIT, dbs[k].0, dbs[k].1, times[k], dbs[k + 1].0, dbs[k + 1].1)
  }

  /** Of n reservations due by some moment, m later batches leave n - 1000 m, or none: ceil(n / 1000)
      batches clear them, even if further reservations expire in between. */
  lemma {:induction false} BatchesDrain(dbs: seq<(ItemRows, ReservationRows)>, times: seq<Time>, due: Time)
    requires Batches(dbs, times) && forall k :: 0 <= k < |times| ==> due <= times[k]
    requires Consistent(dbs[0].0, dbs[0].1) && VersionRoom(dbs[0].0, BATCH_LIMIT * |times|)
    ensures var n, m := |ExpiredIds(dbs[0].1, due)|, |times|;
            && Consistent(dbs[m].0, dbs[m].1)
            && |ExpiredIds(dbs[m].1, due)| == if n <= 1000 * m then 0 else n - 1000 * m
    decreases |times|
  {
    if times != [] {
      assert BatchDone(ByUseCase, BATCH_LIMIT, dbs[0].0, dbs[0].1, times[0], dbs[1].0, dbs[1].1);
      BatchStep(dbs[0].0, dbs[0].1, times[0], due, BATCH_LIMIT * |times|, dbs[1].0, dbs[1].1);
      BatchesDrain(dbs[1..], times[1..], due);
    }
  }

  // ---- The code ----

  class ReleaseExpiredReservationsUseCase {
    const inventoryRepo: InventoryRepository
    const reservationRepo: ReservationRepository

    constructor (inventoryRepo: InventoryRepository, reservationRepo: ReservationRepository)
      ensures this.inventoryRepo == inventoryRepo && this.reservationRepo == reservationRepo
    {
      this.inventoryRepo, this.reservationRepo := inventoryRepo, reservationRepo;
    }

    method ReleaseReservation(r: Reservation, now: Time, faults: Faults) returns (error: Option<Error>)
      requires r.IsPending()
      modifies inventoryRepo, reservationRepo
      ensures Outcome(inventoryRepo.rows, reservationRepo.rows, error)
              == SettleOne(ByUseCase, r, old(inventoryRepo.rows), old(reservationRepo.rows), now, faults)
    {
      var reservation := new ReservationEntity.FromRow(r);
      var item;
      item, error := inventoryRepo.FindByID(r.itemId, faults.readItem);
      if error.Some? {
        return;
      }
      error := item.ReleaseReservation(r.quantity);
      if error.Some? {
        return;
      }
      error := reservation.Release(now);
      assert error.None?;  // the reservation is pending, so the rollback that follows here is dead code
      error := inventoryRepo.Update(item, faults.writeItem);
      if error.Some? {
        return;
      }
      error := reservationRepo.Update(reservation, faults.writeReservation);
    }

    /** The loop over what one query found, keeping count of what could not be released. */
    method ReleaseAll(found: seq<Reservation>, now: Time, faults: nat -> Faults)
      returns (released: seq<Uuid>, failed: seq<(Uuid, Error)>)
      requires forall i :: 0 <= i < |found| ==> found[i].IsPending()
      modifies inventoryRepo, reservationRepo
      ensures Sweep(inventoryRepo.rows, reservationRepo.rows, released, failed)
              == SweepAll(ByUseCase, found, old(inventoryRepo.rows), old(reservationRepo.rows), now, faults)
    {
      released, failed := [], [];
      ghost var sweep := SweepAll(ByUseCase, found[..0], inventoryRepo.rows, reservationRepo.rows, now, faults);
      var i := 0;
      while i < |found|
        invariant 0 <= i <= |found|
        invariant sweep == SweepAll(ByUseCase, found[..i], old(inventoryRepo.rows), old(reservationRepo.rows), now, faults)
        invariant sweep == Sweep(inventoryRepo.rows, reservationRepo.rows, released, failed)
      {
        SweepNext(ByUseCase, found, i, old(inventoryRepo.rows), old(reservationRepo.rows), now, faults);
        var failure := ReleaseReservation(found[i], now, faults(i));
        if failure.Some? {
          failed := failed + [(found[i].id, failure.value)];
        } else {
          released := released + [found[i].id];
        }
        sweep := Tally(sweep, found[i], Outcome(inventoryRepo.rows, reservationRepo.rows, failure));
        i := i + 1;
      }
      assert found[..i] == found;
    }

    /** Releases what one query finds. */
    method Execute(now: Time, findFails: bool, faults: nat -> Faults)
      returns (found: seq<Reservation>, released: seq<Uuid>, failed: seq<(Uuid, Error)>, error: Option<Error>)
      requires ReservationTable(reservationRepo.rows)
      modifies inventoryRepo, reservationRepo
      ensures findFails ==>
                && error == Some(StorageError)
                && inventoryRepo.rows == old(inventoryRepo.rows) && reservationRepo.rows == old(reservationRepo.rows)
      ensures !findFails ==> error == None
      ensures !findFails ==> EarliestExpired(old(reservationRepo.rows), now, BATCH_LIMIT, found)
      ensures !findFails ==>
                Sweep(inventoryRepo.rows, reservationRepo.rows, released, failed)
                == SweepAll(ByUseCase, found, old(inventoryRepo.rows), old(reservationRepo.rows), now, faults)
    {
      found, released, failed, error := [], [], [], None;
      if findFails {
        return [], [], [], Some(StorageError);
      }
      found := reservationRepo.FindExpired(now, BATCH_LIMIT);
      if |found| == 0 {
        return;
      }
      FoundIsDue(reservationRepo.rows, now, BATCH_LIMIT, found);
      released, failed := ReleaseAll(found, now, faults);
    }
  }

  class ExpireReservationsJob {
    const inventoryRepo: InventoryRepository
    const reservationRepo: ReservationRepository

    constructor (inventoryRepo: InventoryRepository, reservationRepo: ReservationRepository)
      ensures this.inventoryRepo == inventoryRepo && this.reservationRepo == reservationRepo
    {
      this.inventoryRepo, this.reservationRepo := inventoryRepo, reservationRepo;
    }

    method ProcessExpiredReservation(id: Uuid, now: Time, faults: Faults) returns (error: Option<Error>)
      requires forall k :: k in reservationRepo.rows ==> reservationRepo.rows[k].id == k
      modifies inventoryRepo, reservationRepo
      ensures Outcome(inventoryRepo.rows, reservationRepo.rows, error)
              == Transact(ExpireByJob(id), old(inventoryRepo.rows), old(reservationRepo.rows), now, now, faults)
      ensures forall k :: k in reservationRepo.rows ==> reservationRepo.rows[k].id == k
    {
      var reservation;
      reservation, error := reservationRepo.FindByID(id, faults.first);
      if error.Some? {
        return;
      }
      if !reservation.View().IsPending() || !reservation.View().IsExpired(now) {
        return None;
      }
      var item;
      item, error := inventoryRepo.FindByID(reservation.itemId, faults.readItem);
      if error.Some? {
        return;
      }
      error := item.ReleaseReservation(reservation.quantity);
      if error.Some? {
        return;
      }
      error := reservation.MarkAsExpired(now);
      assert error.None?;  // checked above, so the rollback that follows here is dead code
      error := inventoryRepo.Update(item, faults.writeItem);
      if error.Some? {
        var _ := item.Reserve(reservation.quantity);
        return;
      }
      error := reservationRepo.Update(reservation, faults.writeReservation);
    }

    /** Processes everything due, without a limit. */
    method Execute(now: Time, findFails: bool, faults: nat -> Faults)
      returns (found: seq<Reservation>, processedCount: nat, errorCount: nat, error: Option<Error>)
      requires ReservationTable(reservationRepo.rows)
      modifies inventoryRepo, reservationRepo
      ensures findFails ==>
                && error == Some(StorageError)
                && inventoryRepo.rows == old(inventoryRepo.rows) && reservationRepo.rows == old(reservationRepo.rows)
      ensures !findFails ==> error == None
      ensures !findFails ==> EarliestExpired(old(reservationRepo.rows), now, 0, found)
      ensures !findFails ==>
                var s := SweepAll(ByJob, found, old(inventoryRepo.rows), old(reservationRepo.rows), now, faults);
                && inventoryRepo.rows == s.items && reservationRepo.rows == s.reservations
                && processedCount == |s.released| && errorCount == |s.failed|
    {
      found, processedCount, errorCount, error := [], 0, 0, None;
      if findFails {
        return [], 0, 0, Some(StorageError);
      }
      found := reservationRepo.FindExpired(now, 0);
      if |found| == 0 {
        return;
      }
      var i := 0;
      ghost var sweep := SweepAll(ByJob, found[..0], inventoryRepo.rows, reservationRepo.rows, now, faults);
      while i < |found|
        invariant 0 <= i <= |found|
        invariant forall k :: k in reservationRepo.rows ==> reservationRepo.rows[k].id == k
        invariant sweep == SweepAll(ByJob, found[..i], old(inventoryRepo.rows), old(reservationRepo.rows), now, faults)
        invariant inventoryRepo.rows == sweep.items && reservationRepo.rows == sweep.reservations
        invariant processedCount == |sweep.released| && errorCount == |sweep.failed|
      {
        SweepNext(ByJob, found, i, old(inventoryRepo.rows), old(reservationRepo.rows), now, faults);
        var failure := ProcessExpiredReservation(found[i].id, now, faults(i));
        if failure.Some? {
          errorCount := errorCount + 1;
        } else {
          processedCount := processedCount + 1;
        }
        sweep := Tally(sweep, found[i], Outcome(inventoryRepo.rows, reservationRepo.rows, failure));
        i := i + 1;
      }
      assert found[..i] == found;
    }
  }
}
