/** Whole runs of the outbox processor: polls that may overlap, rows arriving at any time, faults and
    crashes. */
module OutboxRuns {
  import opened Common
  import opened Outbox

  type PollId = nat

  /** What a poll is doing: waiting for its query, or working off a batch; `added` says that the first event
      left is in its queue and waits to be saved. */
  datatype Work = Fetching | Working(batch: seq<OutboxEvent>, added: bool)

  /** `active` are the polls under way. */
  datatype State = State(rows: Rows, jobs: seq<Job>, isProcessing: bool, active: map<PollId, Work>)

  datatype Event =
    | Insert(row: OutboxEvent)
    | Poll(poll: PollId)
    | Fetch(poll: PollId, now: Time, found: Option<seq<OutboxEvent>>)
    | Enqueue(poll: PollId, added: AddFate)
    | Save(poll: PollId, now: Time, saved: SaveFate)
    | Finish(poll: PollId)
    | Crash

  const START := State(map[], [], false, map[])

  predicate AtHead(s: State, p: PollId) {
    p in s.active && s.active[p].Working? && s.active[p].batch != []
  }

  ghost predicate Possible(s: State, e: Event) {
    match e
    case Insert(row) => row.id !in s.rows && !row.processed && row.processedAt == None
    case Poll(p) => p !in s.active
    case Fetch(p, now, found) =>
      p in s.active && s.active[p].Fetching? && (found.Some? ==> IsBatch(s.rows, now, found.value))
    case Enqueue(p, _) => AtHead(s, p) && !s.active[p].added && RouteOf(s.active[p].batch[0]).To?
    case Save(p, _, _) => AtHead(s, p) && (RouteOf(s.active[p].batch[0]).To? ==> s.active[p].added)
    case Finish(p) => p in s.active && s.active[p].Working? && s.active[p].batch == []
    case Crash => true
  }

  // ---- Steps ----

  function Ended(s: State, p: PollId): State {
    s.(active := s.active - {p}, isProcessing := false)
  }

  function Polled(s: State, p: PollId): State {
    if s.isProcessing then s else s.(isProcessing := true, active := s.active[p := Fetching])
  }

  function Fetched(s: State, p: PollId, found: Option<seq<OutboxEvent>>): State {
    if found == None then Ended(s, p) else s.(active := s.active[p := Working(found.value, false)])
  }

  function Enqueued(s: State, p: PollId, fate: AddFate, lower: string -> string): State
    requires AtHead(s, p) && RouteOf(s.active[p].batch[0]).To?
  {
    var work := s.active[p];
    var e := work.batch[0];
    if fate == NotAdded then s.(active := s.active[p := Working(work.batch[1..], false)])
    else s.(
      jobs := s.jobs + [JobOf(e, lower)],
      active := s.active[p := if fate == Added then work.(added := true) else Working(work.batch[1..], false)])
  }

  function SaveDone(s: State, p: PollId, now: Time, fate: SaveFate): State
    requires AtHead(s, p)
  {
    var work := s.active[p];
    var e := work.batch[0];
    s.(rows := SaveRow(s.rows, e, RouteOf(e) != NoQueue, now, fate),
       active := s.active[p := Working(work.batch[1..], false)])
  }

  ghost function Next(s: State, e: Event, lower: string -> string): State
    requires Possible(s, e)
  {
    match e
    case Insert(row) => s.(rows := s.rows[row.id := row])
    case Poll(p) => Polled(s, p)
    case Fetch(p, _, found) => Fetched(s, p, found)
    case Enqueue(p, fate) => Enqueued(s, p, fate, lower)
    case Save(p, now, fate) => SaveDone(s, p, now, fate)
    case Finish(p) => Ended(s, p)
    case Crash => s.(active := map[], isProcessing := false)
  }

  ghost predicate Feasible(s: State, events: seq<Event>, lower: string -> string)
    decreases events
  {
    events != [] ==> Possible(s, events[0]) && Feasible(Next(s, events[0], lower), events[1..], lower)
  }

  ghost function Run(s: State, events: seq<Event>, lower: string -> string): State
    requires Feasible(s, events, lower)
    decreases events
  {
    if events == [] then s else Run(Next(s, events[0], lower), events[1..], lower)
  }

  // ---- Invariants ----

  /** The guard keeps polls apart. */
  ghost predicate Guarded(s: State) {
    && (s.isProcessing <==> s.active != map[])
    && forall p, q :: p in s.active && q in s.active ==> p == q
  }

  /** What a poll still has to do is as it fetched it, and not processed. */
  ghost predicate Current(rows: Rows, active: map<PollId, Work>) {
    forall p :: p in active && active[p].Working? ==>
      InRows(rows, active[p].batch) && forall e :: e in active[p].batch ==> !e.processed
  }


  ghost predicate Routed(rows: Rows, jobs: seq<Job>, lower: string -> string) {
    forall i :: 0 <= i < |jobs| ==>
      var id := jobs[i].eventId; id in rows && RouteOf(rows[id]).To? && jobs[i] == JobOf(rows[id], lower)
  }

  function CountJobs(jobs: seq<Job>, id: Uuid): nat {
    if jobs == [] then 0
    else CountJobs(jobs[..|jobs| - 1], id) + if jobs[|jobs| - 1].eventId == id then 1 else 0
  }

  function Processed(rows: Rows, id: Uuid): nat {
    if id in rows && rows[id].processed && RouteOf(rows[id]).To? then 1 else 0
  }

  /** Only an event with a queue waits for its save. */
  ghost predicate Awaited(active: map<PollId, Work>) {
    forall p :: p in active && active[p].Working? && active[p].added ==>
      active[p].batch != [] && RouteOf(active[p].batch[0]).To?
  }

  ghost predicate Inv(s: State, lower: string -> string) {
    Guarded(s) && Current(s.rows, s.active) && Keyed(s.rows) && Routed(s.rows, s.jobs, lower) && Awaited(s.active)
  }

  lemma StepKeepsGuarded(s: State, e: Event, lower: string -> string)
    requires Guarded(s) && Possible(s, e)
    ensures Guarded(Next(s, e, lower))
  {
  }

  /** The same rows, except perhaps for one. */
  ghost predicate SameBut(rows: Rows, rows': Rows, id: Uuid) {
    rows'.Keys == rows.Keys && forall other :: other in rows && other != id ==> rows'[other] == rows[other]
  }

  lemma RestInRows(rows: Rows, rows': Rows, batch: seq<OutboxEvent>)
    requires batch != [] && InRows(rows, batch) && SameBut(rows, rows', batch[0].id)
    ensures InRows(rows', batch[1..])
  {
    forall i | 0 <= i < |batch| - 1
      ensures batch[1..][i] == batch[i + 1] && batch[i + 1].id != batch[0].id
    {
    }
  }

  lemma FetchKeepsCurrent(s: State, p: PollId, now: Time, batch: seq<OutboxEvent>)
    requires Current(s.rows, s.active) && IsBatch(s.rows, now, batch)
    ensures Current(s.rows, s.active[p := Working(batch, false)])
  {
  }

  lemma AdvanceKeepsCurrent(s: State, p: PollId, rows: Rows)
    requires Guarded(s) && Current(s.rows, s.active) && AtHead(s, p)
    requires SameBut(s.rows, rows, s.active[p].batch[0].id)
    ensures Current(rows, s.active[p := Working(s.active[p].batch[1..], false)])
  {
    RestInRows(s.rows, rows, s.active[p].batch);
  }

  lemma StepKeepsCurrent(s: State, e: Event, lower: string -> string)
    requires Guarded(s) && Current(s.rows, s.active) && Possible(s, e)
    ensures Current(Next(s, e, lower).rows, Next(s, e, lower).active)
  {
    match e
    case Fetch(p, now, found) =>
      if found.Some? {
        FetchKeepsCurrent(s, p, now, found.value);
      }
    case Enqueue(p, fate) => AdvanceKeepsCurrent(s, p, s.rows);
    case Save(p, now, fate) =>
      SaveChanges(s, p, now, fate);
      AdvanceKeepsCurrent(s, p, SaveDone(s, p, now, fate).rows);
    case _ =>
  }

  /** A save changes at most the row it is for, which is not processed yet; the row keeps its type. */
  lemma SaveChanges(s: State, p: PollId, now: Time, fate: SaveFate)
    requires Current(s.rows, s.active) && AtHead(s, p)
    ensures var head := s.active[p].batch[0];
            var t := SaveDone(s, p, now, fate);
            && head.id in s.rows && s.rows[head.id] == head && !head.processed
            && SameBut(s.rows, t.rows, head.id)
            && RouteOf(t.rows[head.id]) == RouteOf(head) && t.rows[head.id].eventType == head.eventType
            && t.rows[head.id].id == head.id
            && (t.rows[head.id].processed <==> fate != NotSaved && RouteOf(head) != NoQueue)
            && (!t.rows[head.id].processed ==> t.rows[head.id].processedAt == head.processedAt)
  {
    assert s.active[p].batch[0] in s.active[p].batch;
  }

  lemma StepKeepsKeyed(s: State, e: Event, lower: string -> string)
    requires Current(s.rows, s.active) && Keyed(s.rows) && Possible(s, e)
    ensures Keyed(Next(s, e, lower).rows)
  {
    if e.Save? {
      SaveChanges(s, e.poll, e.now, e.saved);
    }
  }

  lemma StepKeepsRouted(s: State, e: Event, lower: string -> string)
    requires Current(s.rows, s.active) && Routed(s.rows, s.jobs, lower) && Possible(s, e)
    ensures Routed(Next(s, e, lower).rows, Next(s, e, lower).jobs, lower)
  {
    if e.Save? {
      SaveChanges(s, e.poll, e.now, e.saved);
    } else if e.Enqueue? {
      var head := s.active[e.poll].batch[0];
      assert s.rows[head.id] == head;
    }
  }

  lemma {:induction false} OnlyRoutedJobs(rows: Rows, jobs: seq<Job>, id: Uuid, lower: string -> string)
    requires Routed(rows, jobs, lower) && (id in rows ==> !RouteOf(rows[id]).To?)
    ensures CountJobs(jobs, id) == 0
  {
    if jobs != [] {
      OnlyRoutedJobs(rows, jobs[..|jobs| - 1], id, lower);
    }
  }

  lemma StepKeepsAwaited(s: State, e: Event, lower: string -> string)
    requires Guarded(s) && Awaited(s.active) && Possible(s, e)
    ensures Awaited(Next(s, e, lower).active)
  {
    match e
    case Enqueue(p, fate) => assert forall q :: q in s.active ==> q == p;
    case Save(p, now, fate) => assert forall q :: q in s.active ==> q == p;
    case _ =>
  }

  lemma StepKeepsInv(s: State, e: Event, lower: string -> string)
    requires Inv(s, lower) && Possible(s, e)
    ensures Inv(Next(s, e, lower), lower)
  {
    StepKeepsGuarded(s, e, lower);
    StepKeepsCurrent(s, e, lower);
    StepKeepsKeyed(s, e, lower);
    StepKeepsRouted(s, e, lower);
    StepKeepsAwaited(s, e, lower);
  }

  lemma {:induction false} RunKeepsInv(s: State, events: seq<Event>, lower: string -> string)
    requires Inv(s, lower) && Feasible(s, events, lower)
    ensures Inv(Run(s, events, lower), lower)
    decreases events
  {
    if events != [] {
      StepKeepsInv(s, events[0], lower);
      RunKeepsInv(Next(s, events[0], lower), events[1..], lower);
    }
  }

  // ---- Over whole runs ----

  lemma StartFits(lower: string -> string)
    ensures Inv(START, lower)
  {
  }

  /** At most one batch is ever under way. */
  lemma BatchesNeverOverlap(events: seq<Event>, lower: string -> string, p: PollId, q: PollId)
    requires Feasible(START, events, lower)
    requires p in Run(START, events, lower).active && q in Run(START, events, lower).active
    ensures p == q && Run(START, events, lower).isProcessing
  {
    StartFits(lower);
    RunKeepsInv(START, events, lower);
  }

  lemma StepKeepsProcessed(s: State, e: Event, id: Uuid, lower: string -> string)
    requires Inv(s, lower) && Possible(s, e) && id in s.rows && s.rows[id].processed
    ensures id in Next(s, e, lower).rows && Next(s, e, lower).rows[id] == s.rows[id]
  {
    if e.Save? {
      SaveChanges(s, e.poll, e.now, e.saved);
    }
  }

  /** A processed row never changes again. */
  lemma {:induction false} ProcessedNeverReverts(s: State, events: seq<Event>, id: Uuid, lower: string -> string)
    requires Inv(s, lower) && Feasible(s, events, lower) && id in s.rows && s.rows[id].processed
    ensures id in Run(s, events, lower).rows && Run(s, events, lower).rows[id] == s.rows[id]
    decreases events
  {
    if events != [] {
      StepKeepsProcessed(s, events[0], id, lower);
      StepKeepsInv(s, events[0], lower);
      ProcessedNeverReverts(Next(s, events[0], lower), events[1..], id, lower);
    }
  }

  // ---- Accounts ----

  /** Is the event in its queue and waiting for its save? */
  ghost predicate Awaits(active: map<PollId, Work>, id: Uuid) {
    exists p :: p in active && active[p].Working? && active[p].added && active[p].batch != [] && active[p].batch[0].id == id
  }

  ghost function Awaiting(active: map<PollId, Work>, id: Uuid): nat {
    if Awaits(active, id) then 1 else 0
  }

  /** The jobs of an event whose save this step loses: a job taken without a reply, a save refused after
      the job was taken, a crash between the two. */
  ghost function LostBy(s: State, e: Event, id: Uuid): nat
    requires Possible(s, e)
  {
    match e
    case Enqueue(p, fate) => if fate == AddedSilently && s.active[p].batch[0].id == id then 1 else 0
    case Save(p, _, fate) => if s.active[p].added && fate == NotSaved && s.active[p].batch[0].id == id then 1 else 0
    case Crash => Awaiting(s.active, id)
    case _ => 0
  }

  ghost function LostSaves(s: State, events: seq<Event>, id: Uuid, lower: string -> string): nat
    requires Feasible(s, events, lower)
    decreases events
  {
    if events == [] then 0
    else LostBy(s, events[0], id) + LostSaves(Next(s, events[0], lower), events[1..], id, lower)
  }

  /** The jobs of an event that stand neither for its processing nor for a save still to come. */
  ghost function Surplus(s: State, id: Uuid): int {
    CountJobs(s.jobs, id) - Processed(s.rows, id) - Awaiting(s.active, id)
  }

  lemma EnqueueSurplus(s: State, p: PollId, fate: AddFate, id: Uuid, lower: string -> string)
    requires Guarded(s) && Possible(s, Enqueue(p, fate))
    ensures Surplus(Enqueued(s, p, fate, lower), id) == Surplus(s, id) + LostBy(s, Enqueue(p, fate), id)
  {
    var t, head := Enqueued(s, p, fate, lower), s.active[p].batch[0];
    assert forall q :: q in s.active ==> q == p;
    assert !Awaits(s.active, id);
    assert fate != NotAdded ==> t.jobs[..|t.jobs| - 1] == s.jobs;
    assert Awaits(t.active, id) <==> fate == Added && head.id == id by {
      assert p in t.active;
    }
  }

  lemma SaveSurplus(s: State, p: PollId, now: Time, fate: SaveFate, id: Uuid)
    requires Guarded(s) && Current(s.rows, s.active) && Awaited(s.active) && Possible(s, Save(p, now, fate))
    ensures Surplus(SaveDone(s, p, now, fate), id) == Surplus(s, id) + LostBy(s, Save(p, now, fate), id)
  {
    var t, head := SaveDone(s, p, now, fate), s.active[p].batch[0];
    SaveChanges(s, p, now, fate);
    assert forall q :: q in s.active ==> q == p;
    assert !Awaits(t.active, id);
    assert Awaits(s.active, id) <==> s.active[p].added && head.id == id by {
      assert p in s.active;
    }
  }

  lemma StepSurplus(s: State, e: Event, id: Uuid, lower: string -> string)
    requires Inv(s, lower) && Possible(s, e)
    ensures Surplus(Next(s, e, lower), id) == Surplus(s, id) + LostBy(s, e, id)
  {
    var t := Next(s, e, lower);
    match e
    case Enqueue(p, fate) => EnqueueSurplus(s, p, fate, id, lower);
    case Save(p, now, fate) => SaveSurplus(s, p, now, fate, id);
    case Fetch(p, now, found) => assert !Awaits(s.active, id) && !Awaits(t.active, id);
    case Poll(p) =>
      assert forall q :: q in t.active && t.active[q].Working? ==> q in s.active && t.active[q] == s.active[q];
      assert forall q :: q in s.active ==> q in t.active && t.active[q] == s.active[q];
    case Finish(p) => assert !Awaits(s.active, id) && !Awaits(t.active, id);
    case Insert(row) => assert forall q :: q in s.active ==> t.active[q] == s.active[q];
    case Crash => assert !Awaits(t.active, id);
  }

  lemma {:induction false} RunSurplus(s: State, events: seq<Event>, id: Uuid, lower: string -> string)
    requires Inv(s, lower) && Feasible(s, events, lower)
    ensures Surplus(Run(s, events, lower), id) == Surplus(s, id) + LostSaves(s, events, id, lower)
    decreases events
  {
    if events != [] {
      StepSurplus(s, events[0], id, lower);
      StepKeepsInv(s, events[0], lower);
      RunSurplus(Next(s, events[0], lower), events[1..], id, lower);
    }
  }

  /** The accounts of every event after every run: an event with a queue has one job if it is processed, one
      if it is waiting for its save, and one more for each save that was lost; other events have none. */
  lemma Accounts(events: seq<Event>, id: Uuid, lower: string -> string)
    requires Feasible(START, events, lower) && id in Run(START, events, lower).rows
    ensures var s := Run(START, events, lower);
            var e := s.rows[id];
            && CountJobs(s.jobs, id)
               == (if e.processed && RouteOf(e).To? then 1 else 0) + Awaiting(s.active, id) + LostSaves(START, events, id, lower)
            && (!RouteOf(e).To? ==> CountJobs(s.jobs, id) == 0)
  {
    StartFits(lower);
    RunKeepsInv(START, events, lower);
    RunSurplus(START, events, id, lower);
    var s := Run(START, events, lower);
    if !RouteOf(s.rows[id]).To? {
      OnlyRoutedJobs(s.rows, s.jobs, id, lower);
    }
  }

  /** Nothing loses a save but a job taken without a reply, a refused save, or a crash. */
  predicate Harmless(e: Event) {
    match e
    case Enqueue(_, fate) => fate != AddedSilently
    case Save(_, _, fate) => fate != NotSaved
    case Crash => false
    case _ => true
  }

  /** Without those an event is in its queue exactly once when it is processed or waits for its save. */
  lemma {:induction false} HarmlessLosesNothing(s: State, events: seq<Event>, id: Uuid, lower: string -> string)
    requires Feasible(s, events, lower) && forall e :: e in events ==> Harmless(e)
    ensures LostSaves(s, events, id, lower) == 0
    decreases events
  {
    if events != [] {
      assert events[0] in events;
      HarmlessLosesNothing(Next(s, events[0], lower), events[1..], id, lower);
    }
  }

  ghost predicate UnknownsPending(rows: Rows) {
    forall id :: id in rows && RouteOf(rows[id]) == NoQueue ==> !rows[id].processed
  }

  lemma StepKeepsUnknowns(s: State, e: Event, lower: string -> string)
    requires Current(s.rows, s.active) && Possible(s, e) && UnknownsPending(s.rows)
    ensures UnknownsPending(Next(s, e, lower).rows)
  {
    if e.Save? {
      SaveChanges(s, e.poll, e.now, e.saved);
    }
  }

  /** An event no queue takes is never marked as processed. */
  lemma {:induction false} UnknownStaysPending(s: State, events: seq<Event>, lower: string -> string)
    requires Inv(s, lower) && Feasible(s, events, lower) && UnknownsPending(s.rows)
    ensures UnknownsPending(Run(s, events, lower).rows)
    decreases events
  {
    if events != [] {
      StepKeepsInv(s, events[0], lower);
      StepKeepsUnknowns(s, events[0], lower);
      UnknownStaysPending(Next(s, events[0], lower), events[1..], lower);
    }
  }

  /** Every pending event is due at once: no failed attempt leaves a time behind for the retry delay. */
  lemma RetryDelayNeverApplies(events: seq<Event>, id: Uuid, now: Time, lower: string -> string)
    requires Feasible(START, events, lower) && id in Run(START, events, lower).rows
    ensures Due(Run(START, events, lower).rows[id], now) <==> !Run(START, events, lower).rows[id].processed
  {
    StartFits(lower);
    RunKeepsInv(START, events, lower);
  }

  // ---- A batch that runs alone ----

  /** The steps of one event. */
  function StepsOf(p: PollId, e: OutboxEvent, f: Fates): seq<Event> {
    if !RouteOf(e).To? then [Save(p, f.now, f.save)]
    else if f.add == Added then [Enqueue(p, Added), Save(p, f.now, f.save)]
    else [Enqueue(p, f.add)]
  }

  lemma OneStep(s: State, e: Event, lower: string -> string)
    requires Possible(s, e)
    ensures Feasible(s, [e], lower) && Run(s, [e], lower) == Next(s, e, lower)
  {
  }

  lemma TwoSteps(s: State, e: Event, f: Event, lower: string -> string)
    requires Possible(s, e) && Possible(Next(s, e, lower), f)
    ensures Feasible(s, [e, f], lower) && Run(s, [e, f], lower) == Next(Next(s, e, lower), f, lower)
  {
    OneStep(Next(s, e, lower), f, lower);
    assert [e, f][1..] == [f];
  }

  /** The event at the head has been dealt with, with this effect on the store. */
  ghost predicate Advanced(s: State, t: State, p: PollId, after: Store)
    requires AtHead(s, p)
  {
    Store(t.rows, t.jobs) == after && p in t.active && t.active[p] == Working(s.active[p].batch[1..], false)
  }

  lemma EventRuns(s: State, p: PollId, f: Fates, lower: string -> string)
    requires AtHead(s, p) && !s.active[p].added
    ensures var steps := StepsOf(p, s.active[p].batch[0], f);
            && Feasible(s, steps, lower)
            && Advanced(s, Run(s, steps, lower), p, ProcessEvent(Store(s.rows, s.jobs), s.active[p].batch[0], f, lower))
  {
    var e := s.active[p].batch[0];
    if !RouteOf(e).To? {
      OneStep(s, Save(p, f.now, f.save), lower);
    } else if f.add == Added {
      TwoSteps(s, Enqueue(p, Added), Save(p, f.now, f.save), lower);
    } else {
      OneStep(s, Enqueue(p, f.add), lower);
    }
  }

  function StepsOfBatch(p: PollId, batch: seq<OutboxEvent>, fates: seq<Fates>): seq<Event>
    requires |batch| == |fates|
  {
    if batch == [] then [] else StepsOf(p, batch[0], fates[0]) + StepsOfBatch(p, batch[1..], fates[1..])
  }

  lemma {:induction false} RunAdds(s: State, a: seq<Event>, b: seq<Event>, lower: string -> string)
    requires Feasible(s, a, lower) && Feasible(Run(s, a, lower), b, lower)
    ensures Feasible(s, a + b, lower) && Run(s, a + b, lower) == Run(Run(s, a, lower), b, lower)
    decreases a
  {
    if a == [] {
      assert a + b == b;
    } else {
      assert (a + b)[1..] == a[1..] + b;
      RunAdds(Next(s, a[0], lower), a[1..], b, lower);
    }
  }

  lemma {:induction false} BatchFromFront(s: Store, batch: seq<OutboxEvent>, fates: seq<Fates>, lower: string -> string)
    requires |batch| == |fates| > 0
    ensures ProcessBatch(s, batch, fates, lower)
            == ProcessBatch(ProcessEvent(s, batch[0], fates[0], lower), batch[1..], fates[1..], lower)
    decreases |batch|
  {
    var n := |batch| - 1;
    if n > 0 {
      BatchFromFront(s, batch[..n], fates[..n], lower);
      assert batch[..n][1..] == batch[1..][..n - 1] && fates[..n][1..] == fates[1..][..n - 1];
    }
  }

  /** A batch whose steps are not interrupted does to the rows and queues what processing its events one after
      the other does. */
  lemma {:induction false} BatchRuns(s: State, p: PollId, fates: seq<Fates>, lower: string -> string)
    requires p in s.active && s.active[p].Working? && !s.active[p].added && |s.active[p].batch| == |fates|
    ensures var batch := s.active[p].batch;
            var steps := StepsOfBatch(p, batch, fates);
            && Feasible(s, steps, lower)
            && var t := Run(s, steps, lower);
               Store(t.rows, t.jobs) == ProcessBatch(Store(s.rows, s.jobs), batch, fates, lower)
    decreases |fates|
  {
    var batch := s.active[p].batch;
    if batch != [] {
      EventRuns(s, p, fates[0], lower);
      var first := StepsOf(p, batch[0], fates[0]);
      BatchRuns(Run(s, first, lower), p, fates[1..], lower);
      RunAdds(s, first, StepsOfBatch(p, batch[1..], fates[1..]), lower);
      BatchFromFront(Store(s.rows, s.jobs), batch, fates, lower);
    }
  }

  /** A whole poll that nothing interrupts, from its start to its end. */
  ghost function WholePoll(p: PollId, now: Time, batch: seq<OutboxEvent>, fates: seq<Fates>): seq<Event>
    requires |batch| == |fates|
  {
    [Poll(p), Fetch(p, now, Some(batch))] + (StepsOfBatch(p, batch, fates) + [Finish(p)])
  }

  lemma {:induction false} BatchEnds(s: State, p: PollId, fates: seq<Fates>, lower: string -> string)
    requires p in s.active && s.active[p].Working? && !s.active[p].added && |s.active[p].batch| == |fates|
    ensures var steps := StepsOfBatch(p, s.active[p].batch, fates);
            && Feasible(s, steps, lower)
            && var t := Run(s, steps, lower);
               t.active == s.active[p := Working([], false)] && t.isProcessing == s.isProcessing
    decreases |fates|
  {
    var batch := s.active[p].batch;
    if batch != [] {
      EventRuns(s, p, fates[0], lower);
      var first := StepsOf(p, batch[0], fates[0]);
      EventKeepsOthers(s, p, fates[0], lower);
      BatchEnds(Run(s, first, lower), p, fates[1..], lower);
      RunAdds(s, first, StepsOfBatch(p, batch[1..], fates[1..]), lower);
    }
  }

  lemma EventKeepsOthers(s: State, p: PollId, f: Fates, lower: string -> string)
    requires AtHead(s, p) && !s.active[p].added && Feasible(s, StepsOf(p, s.active[p].batch[0], f), lower)
    ensures var t := Run(s, StepsOf(p, s.active[p].batch[0], f), lower);
            t.active == s.active[p := Working(s.active[p].batch[1..], false)] && t.isProcessing == s.isProcessing
  {
    var e := s.active[p].batch[0];
    if RouteOf(e).To? && f.add == Added {
      TwoSteps(s, Enqueue(p, Added), Save(p, f.now, f.save), lower);
    } else {
      OneStep(s, StepsOf(p, e, f)[0], lower);
    }
  }

  /** A poll that finds no other under way does to rows and queues what the processor's method does with the
      batch, and lets the next poll in. */
  lemma {:induction false} WholePollRuns(
    s: State, p: PollId, now: Time, batch: seq<OutboxEvent>, fates: seq<Fates>, lower: string -> string)
    requires Guarded(s) && !s.isProcessing && |batch| == |fates| && IsBatch(s.rows, now, batch)
    ensures Feasible(s, WholePoll(p, now, batch, fates), lower)
    ensures var t := Run(s, WholePoll(p, now, batch, fates), lower);
            && Store(t.rows, t.jobs) == ProcessBatch(Store(s.rows, s.jobs), batch, fates, lower)
            && t.active == map[] && !t.isProcessing
  {
    var poll, fetch, finish := Poll(p), Fetch(p, now, Some(batch)), Finish(p);
    var s1 := Next(s, poll, lower);
    var s2 := Next(s1, fetch, lower);
    TwoSteps(s, poll, fetch, lower);
    assert s2.active == map[p := Working(batch, false)];
    BatchRuns(s2, p, fates, lower);
    BatchEnds(s2, p, fates, lower);
    var steps := StepsOfBatch(p, batch, fates);
    var s3 := Run(s2, steps, lower);
    OneStep(s3, finish, lower);
    RunAdds(s2, steps, [finish], lower);
    RunAdds(s, [poll, fetch], steps + [finish], lower);
    assert s3.active - {p} == map[];
  }
}
