/** On which stores fault-free polls of the outbox make progress: when they can, when they must, and how
    long they take. */
module OutboxProgress {
  import opened Common
  import opened Outbox

  predicate Known(e: OutboxEvent) {
    RouteOf(e) != NoQueue
  }

  function PendingKnown(rows: Rows): set<Uuid> {
    set id | id in rows && !rows[id].processed && Known(rows[id])
  }

  function PendingUnknown(rows: Rows): set<Uuid> {
    set id | id in rows && !rows[id].processed && !Known(rows[id])
  }

  // ---- The batches that the order of creation leaves open ----

  /** Creation order, with ties broken in favour of the known events or of the unknown ones. */
  predicate Before(a: OutboxEvent, b: OutboxEvent, knownFirst: bool) {
    NotAfter(a, b) && (NotAfter(b, a) ==> Known(a) == knownFirst || Known(b) != knownFirst)
  }

  lemma BeforeIsOrder(a: OutboxEvent, b: OutboxEvent, c: OutboxEvent, knownFirst: bool)
    ensures Before(a, b, knownFirst) || Before(b, a, knownFirst)
    ensures Before(a, b, knownFirst) && Before(b, c, knownFirst) ==> Before(a, c, knownFirst)
  {
  }

  lemma {:induction false} Least(rows: Rows, ids: set<Uuid>, knownFirst: bool) returns (least: Uuid)
    requires ids != {} && ids <= rows.Keys
    ensures least in ids && forall id :: id in ids ==> Before(rows[least], rows[id], knownFirst)
    decreases |ids|
  {
    var first :| first in ids;
    if ids == {first} {
      least := first;
    } else {
      assert ids - {first} != {};
      var other := Least(rows, ids - {first}, knownFirst);
      least := if Before(rows[first], rows[other], knownFirst) then first else other;
      forall id | id in ids
        ensures Before(rows[least], rows[id], knownFirst)
      {
        BeforeIsOrder(rows[first], rows[other], rows[id], knownFirst);
      }
    }
  }

  /** Exactly the rows with these ids, in this order. */
  ghost predicate Lists(rows: Rows, ids: set<Uuid>, queue: seq<OutboxEvent>, knownFirst: bool) {
    && DistinctEvents(queue)
    && (forall i :: 0 <= i < |queue| ==> queue[i].id in ids && queue[i].id in rows && rows[queue[i].id] == queue[i])
    && (forall i, j :: 0 <= i < j < |queue| ==> Before(queue[i], queue[j], knownFirst))
    && (forall id :: id in ids ==> id in rows && rows[id] in queue)
  }

  lemma {:induction false} Sorted(rows: Rows, ids: set<Uuid>, knownFirst: bool) returns (queue: seq<OutboxEvent>)
    requires Keyed(rows) && ids <= rows.Keys
    ensures Lists(rows, ids, queue, knownFirst)
    decreases |ids|
  {
    queue := [];
    if ids != {} {
      var least := Least(rows, ids, knownFirst);
      var rest := Sorted(rows, ids - {least}, knownFirst);
      queue := [rows[least]] + rest;
    }
  }

  /** The database may return the first fifty with ties broken either way. */
  lemma FirstFifty(rows: Rows, now: Time, knownFirst: bool) returns (batch: seq<OutboxEvent>)
    requires Keyed(rows)
    ensures IsBatch(rows, now, batch)
    ensures forall i, id :: 0 <= i < |batch| && id in rows && !rows[id].processed && rows[id] !in batch ==>
              Before(batch[i], rows[id], knownFirst)
  {
    var ids := set id | id in rows && !rows[id].processed;
    var queue := Sorted(rows, ids, knownFirst);
    batch := if |queue| <= BATCH_SIZE then queue else queue[..BATCH_SIZE];
    forall id | id in rows && !rows[id].processed && rows[id] !in batch
      ensures |batch| == BATCH_SIZE && forall i :: 0 <= i < |batch| ==> Before(batch[i], rows[id], knownFirst)
    {
      assert id in ids;
      var j :| 0 <= j < |queue| && queue[j] == rows[id];
      assert j >= |batch|;
    }
  }

  ghost predicate AllUnknown(batch: seq<OutboxEvent>) {
    forall k :: 0 <= k < |batch| ==> !Known(batch[k])
  }

  /** A batch without a known event, returned while one is pending, is fifty events that go first. */
  lemma UnknownBatchIsFull(rows: Rows, now: Time, batch: seq<OutboxEvent>)
    requires Keyed(rows) && PendingKnown(rows) != {} && IsBatch(rows, now, batch) && AllUnknown(batch)
    ensures |batch| == BATCH_SIZE
    ensures forall i, id :: 0 <= i < |batch| && id in PendingKnown(rows) ==>
              rows[id] !in batch && NotAfter(batch[i], rows[id])
  {
    var id :| id in PendingKnown(rows);
    assert Due(rows[id], now) && rows[id] !in batch;
    forall i, id | 0 <= i < |batch| && id in PendingKnown(rows)
      ensures rows[id] !in batch && NotAfter(batch[i], rows[id])
    {
      assert Due(rows[id], now);
    }
  }

  // ---- When polls can make progress ----

  /** Some fault-free polls, with batches the database may return, change something. */
  ghost predicate CanProgress(s: Store, lower: string -> string) {
    exists polls :: CleanPolls(s, polls, lower) && AfterPolls(s, polls, lower) != s
  }

  /** A known event is pending, and not every one of them has the same fifty unknown ones before it. */
  ghost predicate Moving(rows: Rows) {
    PendingKnown(rows) != {} && !Stuck(rows)
  }

  lemma OnePoll(s: Store, now: Time, batch: seq<OutboxEvent>, k: nat, lower: string -> string)
    requires IsBatch(s.rows, now, batch) && k < |batch| && Known(batch[k])
    ensures CanProgress(s, lower)
  {
    var fates := seq(|batch|, _ => Fates(Added, Saved, now));
    ProgressIff(s, now, batch, fates, lower);
    var polls := [PollRun(now, batch, fates)];
    var t := ProcessBatch(s, batch, fates, lower);
    assert polls[1..] == [] && CleanPolls(t, [], lower) && AfterPolls(t, [], lower) == t;
    assert CleanPolls(s, polls, lower) && AfterPolls(s, polls, lower) == t;
  }

  lemma {:induction false} NothingKnown(s: Store, polls: seq<PollRun>, lower: string -> string)
    requires PendingKnown(s.rows) == {} && CleanPolls(s, polls, lower)
    ensures AfterPolls(s, polls, lower) == s
    decreases polls
  {
    if polls != [] {
      var p := polls[0];
      forall k | 0 <= k < |p.batch|
        ensures !Known(p.batch[k])
      {
        assert p.batch[k].id !in PendingKnown(s.rows);
      }
      UnknownChangesNothing(s, p, lower);
      NothingKnown(s, polls[1..], lower);
    }
  }

  /** If the events of unknown type go last among events created together, the first fifty hold a known
      event unless fifty others go strictly before all of those. */
  lemma KnownComes(rows: Rows, now: Time) returns (batch: seq<OutboxEvent>, k: nat)
    requires Keyed(rows) && Moving(rows)
    ensures IsBatch(rows, now, batch) && k < |batch| && Known(batch[k])
  {
    batch := FirstFifty(rows, now, true);
    if AllUnknown(batch) {
      UnknownBatchIsFull(rows, now, batch);
      assert forall i, id :: 0 <= i < |batch| && id in PendingKnown(rows) ==> Before(batch[i], rows[id], true);
      assert Blocks(rows, batch);
      assert false;
    }
    k :| 0 <= k < |batch| && Known(batch[k]);
  }

  /** Polls can make progress, now or ever, exactly if a known event is pending and the store is not stuck:
      then some batch the database may return at once holds a known event; otherwise no number of fault-free
      polls changes a row or queues a job. */
  lemma ProgressPossibleIff(s: Store, now: Time, lower: string -> string)
    requires Keyed(s.rows)
    ensures CanProgress(s, lower) <==> Moving(s.rows)
    ensures CanProgress(s, lower) <==> exists batch :: IsBatch(s.rows, now, batch) && !AllUnknown(batch)
  {
    if Moving(s.rows) {
      var batch, k := KnownComes(s.rows, now);
      OnePoll(s, now, batch, k, lower);
      assert !AllUnknown(batch);
    } else {
      forall polls | CleanPolls(s, polls, lower)
        ensures AfterPolls(s, polls, lower) == s
      {
        if Stuck(s.rows) {
          StuckForEver(s, polls, lower);
        } else {
          NothingKnown(s, polls, lower);
        }
      }
      forall batch | IsBatch(s.rows, now, batch)
        ensures AllUnknown(batch)
      {
        if k :| 0 <= k < |batch| && Known(batch[k]) {
          OnePoll(s, now, batch, k, lower);
        }
      }
    }
  }

  // ---- When polls must make progress ----

  /** Fifty pending events of an unknown type, none of them created after a pending known one. */
  ghost predicate MayWait(rows: Rows) {
    exists head: seq<OutboxEvent> :: Delays(rows, head)
  }

  ghost predicate Delays(rows: Rows, head: seq<OutboxEvent>) {
    && |head| == BATCH_SIZE && InRows(rows, head)
    && (forall i :: 0 <= i < |head| ==> !head[i].processed && !Known(head[i]))
    && forall i, id :: 0 <= i < |head| && id in PendingKnown(rows) ==> NotAfter(head[i], rows[id])
  }

  lemma UnknownFill(rows: Rows, head: seq<OutboxEvent>, now: Time) returns (batch: seq<OutboxEvent>)
    requires Keyed(rows) && Delays(rows, head)
    ensures IsBatch(rows, now, batch) && AllUnknown(batch)
  {
    batch := FirstFifty(rows, now, false);
    if k :| 0 <= k < |batch| && Known(batch[k]) {
      assert batch[k].id in PendingKnown(rows);
      forall i | 0 <= i < |head|
        ensures head[i] in batch
      {
        assert rows[head[i].id] == head[i] && NotAfter(head[i], batch[k]);
        assert head[i] !in batch ==> Before(batch[k], head[i], false);
      }
      NoRoomFor(head, batch, k);
      assert false;
    }
  }

  /** While a known event is pending, every batch the database may return makes progress exactly if there are
      no fifty unknown events of which none is created after a known one. */
  lemma ProgressCertainIff(rows: Rows, now: Time)
    requires Keyed(rows) && PendingKnown(rows) != {}
    ensures (forall batch :: IsBatch(rows, now, batch) ==> !AllUnknown(batch)) <==> !MayWait(rows)
  {
    if head :| Delays(rows, head) {
      var batch := UnknownFill(rows, head, now);
    } else {
      forall batch | IsBatch(rows, now, batch)
        ensures !AllUnknown(batch)
      {
        if AllUnknown(batch) {
          UnknownBatchIsFull(rows, now, batch);
          assert Delays(rows, batch);
          assert false;
        }
      }
    }
  }

  // ---- How long it takes ----

  lemma FewUnknown(rows: Rows, head: seq<OutboxEvent>)
    requires |PendingUnknown(rows)| < BATCH_SIZE
    ensures !Delays(rows, head)
  {
    if Delays(rows, head) {
      CountIds(head);
      SubsetSize(IdsOf(head), PendingUnknown(rows));
    }
  }

  /** A fault-free poll processes the known events of its batch and leaves everything else pending. */
  lemma PollSettles(s: Store, p: PollRun, lower: string -> string)
    requires Keyed(s.rows) && |p.batch| == |p.fates| && FaultFree(p.fates) && IsBatch(s.rows, p.now, p.batch)
    ensures var after := ProcessBatch(s, p.batch, p.fates, lower).rows;
            && Keyed(after) && PendingUnknown(after) == PendingUnknown(s.rows)
            && PendingKnown(after) == PendingKnown(s.rows) - IdsOf(p.batch)
  {
    FaultFreeBatch(s, p.batch, p.fates, lower);
    var after := ProcessBatch(s, p.batch, p.fates, lower).rows;
    forall id | id in s.rows
      ensures after[id].id == id && (after[id] == s.rows[id] || (Known(s.rows[id]) && after[id].processed))
      ensures id in IdsOf(p.batch) && Known(s.rows[id]) ==> after[id].processed
      ensures id !in IdsOf(p.batch) ==> after[id] == s.rows[id]
      ensures RouteOf(after[id]) == RouteOf(s.rows[id])
    {
      if i :| 0 <= i < |p.batch| && p.batch[i].id == id {
        assert after[p.batch[i].id] == Settled(p.batch[i], p.fates[i].now);
      }
    }
  }

  /** With fewer than fifty unknown events pending, every fault-free poll processes at least one known event
      as long as there is one: after as many polls as there are known events none is left, whatever the
      database returns. */
  lemma {:induction false} PollsDrain(s: Store, polls: seq<PollRun>, lower: string -> string)
    requires Keyed(s.rows) && |PendingUnknown(s.rows)| < BATCH_SIZE && CleanPolls(s, polls, lower)
    ensures var left, n := |PendingKnown(AfterPolls(s, polls, lower).rows)|, |PendingKnown(s.rows)|;
            left <= if n <= |polls| then 0 else n - |polls|
    decreases polls
  {
    if polls != [] {
      var p := polls[0];
      var t := ProcessBatch(s, p.batch, p.fates, lower);
      PollSettles(s, p, lower);
      if PendingKnown(s.rows) != {} {
        KnownInBatch(s.rows, p);
        SubsetSize(PendingKnown(t.rows), PendingKnown(s.rows));
      }
      PollsDrain(t, polls[1..], lower);
    }
  }

  lemma KnownInBatch(rows: Rows, p: PollRun)
    requires Keyed(rows) && |PendingUnknown(rows)| < BATCH_SIZE && PendingKnown(rows) != {}
    requires IsBatch(rows, p.now, p.batch)
    ensures PendingKnown(rows) - IdsOf(p.batch) != PendingKnown(rows)
  {
    forall head: seq<OutboxEvent>
      ensures !Delays(rows, head)
    {
      FewUnknown(rows, head);
    }
    ProgressCertainIff(rows, p.now);
    assert !AllUnknown(p.batch);
    var k :| 0 <= k < |p.batch| && Known(p.batch[k]);
    assert p.batch[k].id in PendingKnown(rows) && p.batch[k].id in IdsOf(p.batch);
  }
}
