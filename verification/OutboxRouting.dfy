/** Which events become jobs, of which type and in which queue, in terms of the types the events carry. */
module OutboxRouting {
  import opened Common
  import opened Outbox
  import opened OutboxRuns

  /** The jobs of an event, by their places in the log. */
  function JobsFor(jobs: seq<Job>, id: Uuid): set<nat> {
    set i | 0 <= i < |jobs| && jobs[i].eventId == id
  }

  lemma {:induction false} CountsJobs(jobs: seq<Job>, id: Uuid)
    ensures CountJobs(jobs, id) == |JobsFor(jobs, id)|
  {
    if jobs != [] {
      var n := |jobs| - 1;
      CountsJobs(jobs[..n], id);
      assert n !in JobsFor(jobs[..n], id);
      assert JobsFor(jobs, id) == JobsFor(jobs[..n], id) + if jobs[n].eventId == id then {n} else {};
    }
  }

  /** Order events are never enqueued, because the orders service has done that itself. Inventory and payment
      events have one job if they are processed, one if they wait for their save and one for each save that
      was lost. An event of any other type has no job and is never processed. */
  lemma {:induction false} TypesDecide(events: seq<Event>, id: Uuid, lower: string -> string)
    requires Feasible(START, events, lower) && id in Run(START, events, lower).rows
    ensures var s := Run(START, events, lower);
            var e, jobs := s.rows[id], |JobsFor(s.jobs, id)|;
            if e.aggregateType == "Order" then jobs == 0
            else if e.aggregateType == "Inventory" || e.aggregateType == "Payment" then
              jobs == (if e.processed then 1 else 0) + Awaiting(s.active, id) + LostSaves(START, events, id, lower)
            else jobs == 0 && !e.processed
  {
    Accounts(events, id, lower);
    StartFits(lower);
    UnknownStaysPending(START, events, lower);
    CountsJobs(Run(START, events, lower).jobs, id);
  }

  const NAMED_TYPES := {"OrderCreated", "OrderConfirmed", "OrderCancelled", "InventoryReserved", "InventoryReleased",
                        "PaymentProcessed", "PaymentRefunded"}

  /** The job type of an event: a name of its own for the types that have one, else the type in lower case. */
  predicate NamedFor(jobType: string, eventType: string, lower: string -> string) {
    && (eventType == "OrderCreated" ==> jobType == "create-order")
    && (eventType == "OrderConfirmed" ==> jobType == "confirm-order")
    && (eventType == "OrderCancelled" ==> jobType == "cancel-order")
    && (eventType == "InventoryReserved" ==> jobType == "reserve-inventory")
    && (eventType == "InventoryReleased" ==> jobType == "release-inventory")
    && (eventType == "PaymentProcessed" ==> jobType == "process-payment")
    && (eventType == "PaymentRefunded" ==> jobType == "refund-payment")
    && (eventType !in NAMED_TYPES ==> jobType == lower(eventType))
  }

  lemma JobTypeNamed(eventType: string, lower: string -> string)
    ensures NamedFor(JobTypeFor(eventType, lower), eventType, lower)
  {
  }

  /** Every job of a run is of a stored inventory or payment event, in the queue of that aggregate and of the
      type that its event type is mapped to. */
  lemma {:induction false} JobsFollowTypes(events: seq<Event>, i: nat, lower: string -> string)
    requires Feasible(START, events, lower) && i < |Run(START, events, lower).jobs|
    ensures var s := Run(START, events, lower);
            var job := s.jobs[i];
            && job.eventId in s.rows
            && var e := s.rows[job.eventId];
               && (e.aggregateType == "Inventory" || e.aggregateType == "Payment")
               && job.queue == (if e.aggregateType == "Inventory" then InventoryQueue else PaymentQueue)
               && NamedFor(job.jobType, e.eventType, lower)
  {
    StartFits(lower);
    RunKeepsInv(START, events, lower);
    var s := Run(START, events, lower);
    assert Routed(s.rows, s.jobs, lower);
    JobTypeNamed(s.rows[s.jobs[i].eventId].eventType, lower);
  }

  /** What a poll does next with the event at its head: an order event is saved as processed at once; an
      inventory or payment event is first put into its queue; any other is saved as it was. */
  lemma HeadStep(s: State, p: PollId, now: Time, lower: string -> string)
    requires Inv(s, lower) && AtHead(s, p) && !s.active[p].added
    ensures var e := s.active[p].batch[0];
            && e.id in s.rows && s.rows[e.id] == e && !e.processed
            && if e.aggregateType == "Inventory" || e.aggregateType == "Payment" then
                 && !Possible(s, Save(p, now, Saved)) && Possible(s, Enqueue(p, Added))
                 && var t := Next(s, Enqueue(p, Added), lower);
                    && |t.jobs| == |s.jobs| + 1 && t.jobs[..|s.jobs|] == s.jobs && t.jobs[|s.jobs|].eventId == e.id
                    && t.rows == s.rows && Possible(t, Save(p, now, Saved))
                    && Next(t, Save(p, now, Saved), lower).rows
                       == s.rows[e.id := e.(processed := true, processedAt := Some(now))]
               else
                 && Possible(s, Save(p, now, Saved)) && (forall fate :: !Possible(s, Enqueue(p, fate)))
                 && var t := Next(s, Save(p, now, Saved), lower);
                    && t.jobs == s.jobs
                    && t.rows == if e.aggregateType == "Order"
                                 then s.rows[e.id := e.(processed := true, processedAt := Some(now))] else s.rows
  {
    SaveChanges(s, p, now, Saved);
    assert s.active[p].batch[0] in s.active[p].batch;
  }

  /** Only pending events are fetched, and after an attempt that left its time not for a second. */
  lemma BatchIsDue(rows: Rows, now: Time, batch: seq<OutboxEvent>, i: nat)
    requires IsBatch(rows, now, batch) && i < |batch|
    ensures !batch[i].processed && (batch[i].processedAt == None || batch[i].processedAt.value + 1_000 < now)
  {
  }

  /** A batch is the oldest pending events, at most fifty, in order of their creation and then of their
      sequence numbers; whatever is left out comes no earlier than anything taken. */
  lemma BatchIsOldest(rows: Rows, now: Time, batch: seq<OutboxEvent>)
    requires Keyed(rows) && IsBatch(rows, now, batch)
    ensures |batch| <= 50
    ensures forall i :: 0 <= i < |batch| ==> batch[i].id in rows && rows[batch[i].id] == batch[i] && !batch[i].processed
    ensures forall i, j :: 0 <= i < j < |batch| ==> batch[i].id != batch[j].id
    ensures forall i, j :: 0 <= i < j < |batch| ==>
              || batch[i].createdAt < batch[j].createdAt
              || (batch[i].createdAt == batch[j].createdAt && batch[i].sequenceNumber <= batch[j].sequenceNumber)
    ensures forall id, i :: id in rows && !rows[id].processed && rows[id] !in batch && 0 <= i < |batch| ==>
              && |batch| == 50
              && (|| batch[i].createdAt < rows[id].createdAt
                  || (batch[i].createdAt == rows[id].createdAt && batch[i].sequenceNumber <= rows[id].sequenceNumber))
    ensures batch == [] ==> forall id :: id in rows ==> rows[id].processed
  {
    forall id | id in rows && !rows[id].processed && rows[id] !in batch
      ensures |batch| == 50
    {
      assert Due(rows[id], now);
    }
  }
}
