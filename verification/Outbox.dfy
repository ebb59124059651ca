/** The outbox processor: which events a batch takes, and what happens to each of them. */
module Outbox {
  import opened Common

  const BATCH_SIZE := 50
  const RETRY_DELAY := 1000

  datatype OutboxEvent = OutboxEvent(
    id: Uuid, aggregateType: string, eventType: string, sequenceNumber: int, createdAt: Time,
    processed: bool, processedAt: Option<Time>)

  type Rows = map<Uuid, OutboxEvent>

  /** Every row is under its id, and none that is not processed has a time, as every run keeps it. */
  ghost predicate Keyed(rows: Rows) {
    forall id :: id in rows ==> rows[id].id == id && (!rows[id].processed ==> rows[id].processedAt == None)
  }

  datatype Queue = OrderQueue | InventoryQueue | PaymentQueue

  datatype Job = Job(queue: Queue, jobType: string, eventId: Uuid)

  /** Whether a queue takes a job: it does, it does not, or it does but the reply is lost. */
  datatype AddFate = Added | NotAdded | AddedSilently

  /** Whether the database saves a row, likewise. */
  datatype SaveFate = Saved | NotSaved | SavedSilently

  // ---- Fetching a batch ----

  /** Not processed, and either never attempted or last attempted long enough ago. */
  predicate Due(e: OutboxEvent, now: Time) {
    !e.processed && (e.processedAt.Some? ==> e.processedAt.value < now - RETRY_DELAY)
  }

  predicate NotAfter(a: OutboxEvent, b: OutboxEvent) {
    a.createdAt < b.createdAt || (a.createdAt == b.createdAt && a.sequenceNumber <= b.sequenceNumber)
  }

  ghost predicate DistinctEvents(batch: seq<OutboxEvent>) {
    forall i, j :: 0 <= i < j < |batch| ==> batch[i].id != batch[j].id
  }

  /** `batch` is the first fifty due rows in creation order; the database breaks ties as it likes. */
  ghost predicate IsBatch(rows: Rows, now: Time, batch: seq<OutboxEvent>) {
    && |batch| <= BATCH_SIZE && DistinctEvents(batch)
    && (forall i :: 0 <= i < |batch| ==>
          batch[i].id in rows && rows[batch[i].id] == batch[i] && Due(batch[i], now))
    && (forall i, j :: 0 <= i < j < |batch| ==> NotAfter(batch[i], batch[j]))
    && (forall id :: id in rows && Due(rows[id], now) && rows[id] !in batch ==>
          |batch| == BATCH_SIZE && forall i :: 0 <= i < |batch| ==> NotAfter(batch[i], rows[id]))
  }

  // ---- Routing ----

  function QueueFor(aggregateType: string): Option<Queue> {
    match aggregateType
    case "Order" => Some(OrderQueue)
    case "Inventory" => Some(InventoryQueue)
    case "Payment" => Some(PaymentQueue)
    case _ => None
  }

  function JobTypeFor(eventType: string, lower: string -> string): string {
    match eventType
    case "OrderCreated" => "create-order"
    case "OrderConfirmed" => "confirm-order"
    case "OrderCancelled" => "cancel-order"
    case "InventoryReserved" => "reserve-inventory"
    case "InventoryReleased" => "release-inventory"
    case "PaymentProcessed" => "process-payment"
    case "PaymentRefunded" => "refund-payment"
    case _ => lower(eventType)
  }

  datatype Route = Skip | NoQueue | To(queue: Queue)

  /** Order events have been queued by the orders service itself. */
  function RouteOf(e: OutboxEvent): Route {
    if e.aggregateType == "Order" then Skip
    else
      match QueueFor(e.aggregateType)
      case None => NoQueue
      case Some(q) => To(q)
  }

  function JobOf(e: OutboxEvent, lower: string -> string): Job
    requires RouteOf(e).To?
  {
    Job(RouteOf(e).queue, JobTypeFor(e.eventType, lower), e.id)
  }

  /** The row written for an event; after a failed routing the time is left out of the write, so the stored
      one stays. */
  function Marked(rows: Rows, e: OutboxEvent, success: bool, now: Time): OutboxEvent {
    e.(processed := success,
       processedAt := if success then Some(now) else if e.id in rows then rows[e.id].processedAt else None)
  }

  function SaveRow(rows: Rows, e: OutboxEvent, success: bool, now: Time, fate: SaveFate): Rows {
    if fate == NotSaved then rows else rows[e.id := Marked(rows, e, success, now)]
  }

  // ---- One event, one batch ----

  datatype Fates = Fates(add: AddFate, save: SaveFate, now: Time)

  datatype Store = Store(rows: Rows, jobs: seq<Job>)

  function ProcessEvent(s: Store, e: OutboxEvent, f: Fates, lower: string -> string): Store {
    match RouteOf(e)
    case Skip => s.(rows := SaveRow(s.rows, e, true, f.now, f.save))
    case NoQueue => s.(rows := SaveRow(s.rows, e, false, f.now, f.save))
    case To(_) =>
      match f.add
      case NotAdded => s
      case AddedSilently => s.(jobs := s.jobs + [JobOf(e, lower)])
      case Added => Store(SaveRow(s.rows, e, true, f.now, f.save), s.jobs + [JobOf(e, lower)])
  }

  /** The events in order, the last of them last. */
  function ProcessBatch(s: Store, batch: seq<OutboxEvent>, fates: seq<Fates>, lower: string -> string): Store
    requires |batch| == |fates|
  {
    if batch == [] then s
    else
      var n := |batch| - 1;
      ProcessEvent(ProcessBatch(s, batch[..n], fates[..n], lower), batch[n], fates[n], lower)
  }

  predicate FaultFree(fates: seq<Fates>) {
    forall i :: 0 <= i < |fates| ==> fates[i].add == Added && fates[i].save == Saved
  }

  /** The routed events of a batch, as jobs in order. */
  function JobsOf(batch: seq<OutboxEvent>, lower: string -> string): seq<Job> {
    if batch == [] then []
    else
      var n := |batch| - 1;
      JobsOf(batch[..n], lower) + if RouteOf(batch[n]).To? then [JobOf(batch[n], lower)] else []
  }

  ghost predicate InRows(rows: Rows, batch: seq<OutboxEvent>) {
    DistinctEvents(batch) && forall i :: 0 <= i < |batch| ==> batch[i].id in rows && rows[batch[i].id] == batch[i]
  }

  /** An event after a faultless attempt. */
  function Settled(e: OutboxEvent, now: Time): OutboxEvent {
    if RouteOf(e) == NoQueue then e else e.(processed := true, processedAt := Some(now))
  }

  lemma FaultFreeEvent(s: Store, e: OutboxEvent, f: Fates, lower: string -> string)
    requires f.add == Added && f.save == Saved && e.id in s.rows && s.rows[e.id] == e && !e.processed
    ensures var t := ProcessEvent(s, e, f, lower);
            && t.rows == s.rows[e.id := Settled(e, f.now)]
            && t.jobs == s.jobs + if RouteOf(e).To? then [JobOf(e, lower)] else []
  {
  }

  /** The events of the batch are settled, and no other row has changed. */
  ghost predicate OnlySettled(before: Rows, after: Rows, batch: seq<OutboxEvent>, fates: seq<Fates>)
    requires |batch| == |fates|
  {
    && after.Keys == before.Keys
    && (forall i :: 0 <= i < |batch| ==> batch[i].id in after && after[batch[i].id] == Settled(batch[i], fates[i].now))
    && forall id :: id in before && (forall i :: 0 <= i < |batch| ==> batch[i].id != id) ==> after[id] == before[id]
  }

  lemma OneMoreSettled(before: Rows, mid: Rows, batch: seq<OutboxEvent>, fates: seq<Fates>, n: nat)
    requires |batch| == |fates| == n + 1 && InRows(before, batch) && OnlySettled(before, mid, batch[..n], fates[..n])
    ensures mid[batch[n].id] == batch[n]
    ensures OnlySettled(before, mid[batch[n].id := Settled(batch[n], fates[n].now)], batch, fates)
  {
    var front := batch[..n];
    forall i | 0 <= i < n
      ensures front[i] == batch[i] && fates[..n][i] == fates[i] && batch[i].id != batch[n].id
    {
    }
  }

  /** Without faults a batch queues each event that has a queue once and in order, processes exactly its
      events with a known aggregate type, and touches no other row. */
  lemma {:induction false} FaultFreeBatch(s: Store, batch: seq<OutboxEvent>, fates: seq<Fates>, lower: string -> string)
    requires |batch| == |fates| && FaultFree(fates) && InRows(s.rows, batch)
    requires forall i :: 0 <= i < |batch| ==> !batch[i].processed
    ensures var t := ProcessBatch(s, batch, fates, lower);
            t.jobs == s.jobs + JobsOf(batch, lower) && OnlySettled(s.rows, t.rows, batch, fates)
    decreases |batch|
  {
    if batch != [] {
      var n := |batch| - 1;
      FaultFreeBatch(s, batch[..n], fates[..n], lower);
      var t := ProcessBatch(s, batch[..n], fates[..n], lower);
      OneMoreSettled(s.rows, t.rows, batch, fates, n);
      FaultFreeEvent(t, batch[n], fates[n], lower);
    }
  }

  /** A fault-free batch leaves pending exactly its events whose aggregate type no queue takes. */
  lemma {:induction false} LeavesUnknownPending(s: Store, now: Time, batch: seq<OutboxEvent>, fates: seq<Fates>, lower: string -> string)
    requires |batch| == |fates| && FaultFree(fates) && IsBatch(s.rows, now, batch)
    ensures var t := ProcessBatch(s, batch, fates, lower);
            forall i :: 0 <= i < |batch| ==>
              batch[i].id in t.rows && (t.rows[batch[i].id].processed <==> RouteOf(batch[i]) != NoQueue)
  {
    FaultFreeBatch(s, batch, fates, lower);
  }

  /** A fault-free batch changes something exactly when it holds an event of a known aggregate type. */
  lemma {:induction false} ProgressIff(s: Store, now: Time, batch: seq<OutboxEvent>, fates: seq<Fates>, lower: string -> string)
    requires |batch| == |fates| && FaultFree(fates) && IsBatch(s.rows, now, batch)
    ensures ProcessBatch(s, batch, fates, lower).rows != s.rows
            <==> exists i :: 0 <= i < |batch| && RouteOf(batch[i]) != NoQueue
  {
    FaultFreeBatch(s, batch, fates, lower);
    var t := ProcessBatch(s, batch, fates, lower);
    if i :| 0 <= i < |batch| && RouteOf(batch[i]) != NoQueue {
      assert t.rows[batch[i].id].processed && !s.rows[batch[i].id].processed;
    } else {
      forall id | id in s.rows
        ensures t.rows[id] == s.rows[id]
      {
        if i :| 0 <= i < |batch| && batch[i].id == id {
          assert t.rows[batch[i].id] == batch[i];
        }
      }
      assert t.rows == s.rows;
    }
  }

  // ---- A store that is stuck ----

  /** Fifty pending events of an unknown type, each created strictly before every pending known one. */
  ghost predicate Stuck(rows: Rows) {
    exists head: seq<OutboxEvent> :: Blocks(rows, head)
  }

  ghost predicate Blocks(rows: Rows, head: seq<OutboxEvent>) {
    && |head| == BATCH_SIZE && InRows(rows, head)
    && (forall i :: 0 <= i < |head| ==> !head[i].processed && head[i].processedAt == None && RouteOf(head[i]) == NoQueue)
    && forall i, id :: 0 <= i < |head| && id in rows && !rows[id].processed && RouteOf(rows[id]) != NoQueue ==>
         !NotAfter(rows[id], head[i])
  }

  function IdsOf(batch: seq<OutboxEvent>): set<Uuid> {
    set i | 0 <= i < |batch| :: batch[i].id
  }

  lemma {:induction false} CountIds(batch: seq<OutboxEvent>)
    requires DistinctEvents(batch)
    ensures |IdsOf(batch)| == |batch|
  {
    if batch != [] {
      var n := |batch| - 1;
      CountIds(batch[..n]);
      assert IdsOf(batch) == IdsOf(batch[..n]) + {batch[n].id};
      assert batch[n].id !in IdsOf(batch[..n]);
    }
  }

  /** A batch that holds fifty others besides this event would be too long. */
  lemma NoRoomFor(head: seq<OutboxEvent>, batch: seq<OutboxEvent>, k: nat)
    requires |head| == BATCH_SIZE && DistinctEvents(head) && DistinctEvents(batch) && |batch| <= BATCH_SIZE && k < |batch|
    requires forall i :: 0 <= i < |head| ==> head[i] in batch
    ensures exists i :: 0 <= i < |head| && head[i].id == batch[k].id
  {
    CountIds(head);
    CountIds(batch);
    if batch[k].id !in IdsOf(head) {
      assert IdsOf(head) <= IdsOf(batch) - {batch[k].id};
      SubsetSize(IdsOf(head), IdsOf(batch) - {batch[k].id});
    }
  }

  /** Whatever batch the database returns, it is the fifty, or others of an unknown type. */
  lemma BatchIsUnknown(rows: Rows, head: seq<OutboxEvent>, now: Time, batch: seq<OutboxEvent>, k: nat)
    requires Blocks(rows, head) && IsBatch(rows, now, batch) && k < |batch|
    ensures RouteOf(batch[k]) == NoQueue
  {
    if RouteOf(batch[k]) != NoQueue {
      forall i | 0 <= i < |head|
        ensures head[i] in batch
      {
        assert Due(rows[head[i].id], now);
        assert !NotAfter(rows[batch[k].id], head[i]);
      }
      NoRoomFor(head, batch, k);
    }
  }

  lemma {:induction false} NoJobs(batch: seq<OutboxEvent>, lower: string -> string)
    requires forall i :: 0 <= i < |batch| ==> RouteOf(batch[i]) == NoQueue
    ensures JobsOf(batch, lower) == []
  {
    if batch != [] {
      NoJobs(batch[..|batch| - 1], lower);
    }
  }

  datatype PollRun = PollRun(now: Time, batch: seq<OutboxEvent>, fates: seq<Fates>)

  /** Polls one after the other, each fault-free and with a batch the database may return. */
  ghost predicate CleanPolls(s: Store, polls: seq<PollRun>, lower: string -> string)
    decreases polls
  {
    polls != [] ==>
      var p := polls[0];
      && |p.batch| == |p.fates| && FaultFree(p.fates) && IsBatch(s.rows, p.now, p.batch)
      && CleanPolls(ProcessBatch(s, p.batch, p.fates, lower), polls[1..], lower)
  }

  ghost function AfterPolls(s: Store, polls: seq<PollRun>, lower: string -> string): Store
    requires CleanPolls(s, polls, lower)
    decreases polls
  {
    if polls == [] then s else AfterPolls(ProcessBatch(s, polls[0].batch, polls[0].fates, lower), polls[1..], lower)
  }

  /** A fault-free poll that gets no event of a known type changes nothing at all. */
  lemma UnknownChangesNothing(s: Store, p: PollRun, lower: string -> string)
    requires |p.batch| == |p.fates| && FaultFree(p.fates) && IsBatch(s.rows, p.now, p.batch)
    requires forall k :: 0 <= k < |p.batch| ==> RouteOf(p.batch[k]) == NoQueue
    ensures ProcessBatch(s, p.batch, p.fates, lower) == s
  {
    ProgressIff(s, p.now, p.batch, p.fates, lower);
    FaultFreeBatch(s, p.batch, p.fates, lower);
    NoJobs(p.batch, lower);
  }

  /** Fifty unknown events ahead of all known ones come back for ever: no number of fault-free polls changes
      a row or queues a job. */
  lemma {:induction false} StuckForEver(s: Store, polls: seq<PollRun>, lower: string -> string)
    requires Stuck(s.rows) && CleanPolls(s, polls, lower)
    ensures AfterPolls(s, polls, lower) == s
    decreases polls
  {
    if polls != [] {
      var p := polls[0];
      var head :| Blocks(s.rows, head);
      forall k | 0 <= k < |p.batch|
        ensures RouteOf(p.batch[k]) == NoQueue
      {
        BatchIsUnknown(s.rows, head, p.now, p.batch, k);
      }
      UnknownChangesNothing(s, p, lower);
      StuckForEver(s, polls[1..], lower);
    }
  }

  // ---- The processor ----

  class OutboxProcessor {
    var rows: Rows
    var jobs: seq<Job>
    var isProcessing: bool
    const lower: string -> string

    constructor (lower: string -> string)
      ensures rows == map[] && jobs == [] && !isProcessing && this.lower == lower
    {
      rows, jobs, isProcessing, this.lower := map[], [], false, lower;
    }

    function View(): Store
      reads this
    {
      Store(rows, jobs)
    }

    method MarkAsProcessed(event: OutboxEvent, success: bool, now: Time, fate: SaveFate) returns (ok: bool)
      modifies `rows
      ensures rows == SaveRow(old(rows), event, success, now, fate)
      ensures ok <==> fate == Saved
    {
      if fate != NotSaved {
        rows := rows[event.id := Marked(rows, event, success, now)];
      }
      return fate == Saved;
    }

    /** `add` fails by throwing, whether or not the queue has taken the job. */
    method Enqueue(job: Job, fate: AddFate) returns (ok: bool)
      modifies `jobs
      ensures jobs == old(jobs) + if fate == NotAdded then [] else [job]
      ensures ok <==> fate == Added
    {
      if fate != NotAdded {
        jobs := jobs + [job];
      }
      return fate == Added;
    }

    method ProcessOne(event: OutboxEvent, f: Fates)
      modifies `rows, `jobs
      ensures View() == ProcessEvent(old(View()), event, f, lower)
    {
      var saved: bool;
      if event.aggregateType == "Order" {
        saved := MarkAsProcessed(event, true, f.now, f.save);
        return;
      }
      var queue := QueueFor(event.aggregateType);
      if queue == None {
        saved := MarkAsProcessed(event, false, f.now, f.save);
        return;
      }
      var added := Enqueue(Job(queue.value, JobTypeFor(event.eventType, lower), event.id), f.add);
      if !added {
        return;
      }
      saved := MarkAsProcessed(event, true, f.now, f.save);
    }

    /** One poll from start to end; `fetched` is what the database returns, or nothing if the query fails. */
    method ProcessPendingEvents(fetched: Option<seq<OutboxEvent>>, fates: seq<Fates>)
      requires fetched.Some? ==> |fates| == |fetched.value|
      modifies this
      ensures old(isProcessing) || fetched == None ==> View() == old(View())
      ensures !old(isProcessing) && fetched.Some? ==> View() == ProcessBatch(old(View()), fetched.value, fates, lower)
      ensures isProcessing == old(isProcessing)
    {
      if isProcessing {
        return;
      }
      isProcessing := true;
      if fetched.Some? && |fetched.value| > 0 {
        var batch := fetched.value;
        for i := 0 to |batch|
          invariant View() == ProcessBatch(old(View()), batch[..i], fates[..i], lower)
          invariant isProcessing
        {
          assert batch[..i + 1][..i] == batch[..i] && fates[..i + 1][..i] == fates[..i];
          ProcessOne(batch[i], fates[i]);
        }
        assert batch[..|batch|] == batch && fates[..|batch|] == fates;
      }
      isProcessing := false;
    }
  }
}
