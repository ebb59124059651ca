/** What becomes of the reservation sum when use cases interleave: every unit by which the reserved count of an
    item and its pending reservations drift apart, accounted for over every run. */
module ReservedDrift {
  import opened Common
  import opened InventoryItems
  import opened Reservations
  import opened Repositories
  import opened UseCaseRules
  import opened Interleaving
  import opened InterleavingProofs
  import opened InterleavingTheorems
  import opened SoloRuns
  import opened Settlements
  import ReservationSums

  function ReservedOf(items: ItemRows, itemId: Uuid): int {
    if itemId in items then items[itemId].reserved else 0
  }

  /** The units reserved on an item beyond those its pending reservations hold. */
  ghost function Drift(s: State, itemId: Uuid): int {
    ReservedOf(s.items, itemId) - ReservationSums.PendingUnits(s.reservations, itemId)
  }

  // ---- Where drift comes from ----

  /** The client has written the item for a reserve and not yet inserted the reservation: its units. */
  function InHand(p: Proc, itemId: Uuid): int {
    if (p.Invalidate? || p.Settle?) && p.req.ReserveStock? && p.plan.reservation.Some?
       && p.plan.reservation.value.itemId == itemId
    then p.plan.reservation.value.quantity
    else 0
  }

  function InHandOf(itemId: Uuid): (Client, Proc) -> int {
    (_, p) => InHand(p, itemId)
  }

  ghost function UnitsInHand(s: State, itemId: Uuid): int {
    Total(s.procs, InHandOf(itemId))
  }

  /** The event is the working item write of a client. */
  ghost predicate Commits(s: State, e: Event) {
    && e.Step? && e.client in s.procs && s.procs[e.client].Write?
    && e.client in Next(s, e).procs && Next(s, e).procs[e.client].Invalidate?
  }

  /** The event is the working reservation write of a client. */
  predicate Stores(s: State, e: Event) {
    && e.Step? && e.client in s.procs && s.procs[e.client].Settle?
    && var p := s.procs[e.client];
       p.plan.reservation.Some? && WriteReservation(p.req, p.plan.reservation.value, s.reservations, !e.ok).Ok?
  }

  predicate Reserving(p: Proc) {
    (p.Invalidate? || p.Settle?) && p.req.ReserveStock?
  }

  /** A reserve that has written the item crashes, or its reservation is refused. */
  predicate BreaksReserve(s: State, e: Event) {
    match e
    case Crash(c) => c in s.procs && Reserving(s.procs[c])
    case Step(c, _, _) => c in s.procs && s.procs[c].Settle? && Reserving(s.procs[c]) && !Stores(s, e)
    case _ => false
  }

  /** The units it leaves behind. */
  function BrokenOffBy(s: State, e: Event, itemId: Uuid): int {
    if BreaksReserve(s, e) then InHand(s.procs[e.client], itemId) else 0
  }

  /** The units an adjustment of the item reserves or releases with no reservation. */
  ghost function AdjustedBy(s: State, e: Event, itemId: Uuid): int {
    if Commits(s, e) && s.procs[e.client].req.Adjust? && s.procs[e.client].item.id == itemId
    then ReservedDelta(s.procs[e.client].req.op) else 0
  }

  /** The units left behind by broken-off reserves, and those adjusted, over a run. */
  ghost function BrokenOff(s: State, events: seq<Event>, itemId: Uuid): int
    decreases |events|
  {
    if events == [] then 0
    else
      var n := |events| - 1;
      BrokenOff(s, events[..n], itemId) + BrokenOffBy(Run(s, events[..n]), events[n], itemId)
  }

  ghost function Adjusted(s: State, events: seq<Event>, itemId: Uuid): int
    decreases |events|
  {
    if events == [] then 0
    else
      var n := |events| - 1;
      Adjusted(s, events[..n], itemId) + AdjustedBy(Run(s, events[..n]), events[n], itemId)
  }

  predicate IsSettled(rs: ReservationRows, rid: Uuid) {
    rid in rs && !rs[rid].IsPending()
  }

  /** The settlements of a reservation beyond the one that takes it out of Pending. */
  ghost function Surplus(s: State, events: seq<Event>, rid: Uuid): int {
    Settlements.Settlements(s, events, rid)
    - if IsSettled(Run(s, events).reservations, rid) && !IsSettled(s.reservations, rid) then 1 else 0
  }

  ghost function SurplusOf(s: State, events: seq<Event>): Uuid -> int {
    (rid: Uuid) => Surplus(s, events, rid)
  }

  function Weighted(count: Uuid -> int, itemId: Uuid): (Uuid, Reservation) -> int {
    (rid: Uuid, r: Reservation) => if r.itemId == itemId then r.quantity * count(rid) else 0
  }

  /** The units of an item that have been settled more often than their reservations left Pending. */
  ghost function SurplusUnits(s: State, events: seq<Event>, itemId: Uuid): int {
    Total(Run(s, events).reservations, Weighted(SurplusOf(s, events), itemId))
  }

  // ---- One event: the counts ----

  ghost function MovedBy(s: State, e: Event, itemId: Uuid): int
    requires Inv(s)
  {
    if Commits(s, e) && s.procs[e.client].item.id == itemId then
      assert Prepared(s.procs[e.client]);
      ReservedDelta(OpOf(s.procs[e.client].req, s.procs[e.client].r))
    else 0
  }

  lemma WriteMovesReserved(s: State, e: Event, itemId: Uuid)
    requires Inv(s) && e.Step? && e.client in s.procs && s.procs[e.client].Write?
    ensures ReservedOf(Next(s, e).items, itemId) == ReservedOf(s.items, itemId) + MovedBy(s, e, itemId)
  {
    var p := s.procs[e.client];
    assert Prepared(p);
    WriteEffect(s, e.client, e.now, e.ok);
    if Commits(s, e) {
      assert Storable(p.item);
      OperationKeepsBounds(p.item, OpOf(p.req, p.r));
    }
  }

  lemma EventMovesReserved(s: State, e: Event, itemId: Uuid)
    requires Inv(s)
    ensures ReservedOf(Next(s, e).items, itemId) == ReservedOf(s.items, itemId) + MovedBy(s, e, itemId)
  {
    if e.Step? && e.client in s.procs && s.procs[e.client].Write? {
      WriteMovesReserved(s, e, itemId);
    } else {
      NextEffect(s, e);
      QuietlyReserved(s, Next(s, e), e, itemId);
    }
  }

  lemma QuietlyReserved(s: State, t: State, e: Event, itemId: Uuid)
    requires s.history.Keys == s.items.Keys && RowEffect(s, t, e)
    requires !(e.Step? && e.client in s.procs && s.procs[e.client].Write?)
    ensures ReservedOf(t.items, itemId) == ReservedOf(s.items, itemId)
  {
  }

  // ---- One event: the reservations ----

  lemma SettleWrites(s: State, e: Event)
    requires e.Step? && e.client in s.procs && s.procs[e.client].Settle?
    ensures var t := Next(s, e);
            if Stores(s, e) then
              var w := s.procs[e.client].plan.reservation.value; t.reservations == s.reservations[w.id := w]
            else t.reservations == s.reservations
  {
    var p := s.procs[e.client];
    assert Next(s, e) == AdvanceSettle(s, e.client, p.req, p.plan, e.ok);
  }

  /** Only a working reservation write changes the reservations, and it changes one. */
  lemma OnlyStoresWrite(s: State, e: Event)
    requires Inv(s)
    ensures var t := Next(s, e);
            if Stores(s, e) then
              var w := s.procs[e.client].plan.reservation.value; t.reservations == s.reservations[w.id := w]
            else t.reservations == s.reservations
  {
    if e.Step? && e.client in s.procs {
      if s.procs[e.client].Settle? {
        SettleWrites(s, e);
      } else {
        OtherStepsKeepReservations(s, e.client, e.now, e.ok);
      }
    }
  }

  /** A reserve inserts a pending row under a new id; a settlement settles the row of its reservation. */
  lemma StoredRow(s: State, e: Event)
    requires Inv(s) && AllCarry(s) && Stores(s, e)
    ensures var p, w := s.procs[e.client], s.procs[e.client].plan.reservation.value;
            if p.req.ReserveStock? then w.IsPending() && w.id !in s.reservations
            else SettlementOf(p.req) == Some(w.id) && SameButStatus(s.reservations, w) && !w.IsPending()
  {
    var p := s.procs[e.client];
    assert Carries(p) && SettlesOrInserts(p) && Prepared(p);
    assert !p.req.ReserveStock? ==> Held(p) == p.plan.reservation;
  }

  // ---- One event: the units in hand ----

  lemma HandsChange(s: State, t: State, c: Client, itemId: Uuid)
    requires c in t.procs && t.procs == s.procs[c := t.procs[c]]
    ensures UnitsInHand(t, itemId) == UnitsInHand(s, itemId) + InHand(t.procs[c], itemId)
                                      - if c in s.procs then InHand(s.procs[c], itemId) else 0
  {
    TotalChange(s.procs, InHandOf(itemId), c, t.procs[c]);
  }

  /** An item write puts the units of a reserve in its client's hands. */
  lemma CommitHands(s: State, e: Event, itemId: Uuid)
    requires Inv(s) && Commits(s, e)
    ensures var p := s.procs[e.client];
            && InHand(p, itemId) == 0
            && InHand(Next(s, e).procs[e.client], itemId)
               == if p.req.ReserveStock? && p.item.id == itemId then p.req.quantity else 0
  {
    var p := s.procs[e.client];
    assert Prepared(p);
    WriteEffect(s, e.client, e.now, e.ok);
    assert Storable(p.item);
    DecidedRow(p.req, p.r, p.item, e.now);
  }

  /** A reservation write takes them out again, working or not. */
  lemma SettleHands(s: State, e: Event, itemId: Uuid)
    requires e.Step? && e.client in s.procs && s.procs[e.client].Settle?
    ensures e.client in Next(s, e).procs && InHand(Next(s, e).procs[e.client], itemId) == 0
  {
    SettleEnds(s, e.client, e.now, e.ok);
  }

  /** A step that reads or writes neither table in between: the request stays, and the plan if there is one. */
  ghost predicate Follows(p: Proc, q: Proc) {
    && (BeforeWrite(q) ==> BeforeWrite(p) && q.req == p.req)
    && (q.Invalidate? || q.Settle? ==> p.Invalidate? && q.req == p.req && q.plan == p.plan)
    && (p.Invalidate? && p.plan.reservation.Some? ==> q.Settle?)
  }

  lemma PlainFollows(s: State, e: Event)
    requires e.Step? && e.client in s.procs
    requires var p := s.procs[e.client]; !p.Begin? && !p.Write? && !p.Settle?
    ensures var t := Next(s, e); e.client in t.procs && Follows(s.procs[e.client], t.procs[e.client])
  {
    match s.procs[e.client]
    case CacheRead(_, _) =>
    case StoreRead(_, _) =>
    case FillFirst(_, _, _) =>
    case FillSecond(_, _, _) =>
    case Invalidate(_, _) =>
    case Done(_) =>
    case Crashed =>
  }

  /** No other step changes what is in hand. */
  lemma OtherHands(s: State, e: Event, itemId: Uuid)
    requires Inv(s) && AllCarry(s) && e.Step? && e.client in s.procs && !s.procs[e.client].Settle? && !Commits(s, e)
    ensures var t := Next(s, e);
            e.client in t.procs && InHand(t.procs[e.client], itemId) == InHand(s.procs[e.client], itemId)
  {
    var c, p := e.client, s.procs[e.client];
    assert Carries(p);
    if p.Begin? {
      BeginEffect(s, c, p.req, e.now, e.ok);
    } else if p.Write? {
      WriteEffect(s, c, e.now, e.ok);
    } else {
      PlainFollows(s, e);
    }
  }

  // ---- One event: the drift ----

  /** The units an event settles, less those that leave Pending by it. */
  ghost function NetSettledBy(s: State, e: Event, itemId: Uuid): int {
    if Commits(s, e) && SettlementOf(s.procs[e.client].req).Some? && s.procs[e.client].r.Some? then
      if s.procs[e.client].item.id == itemId then s.procs[e.client].r.value.quantity else 0
    else if Stores(s, e) && s.procs[e.client].plan.reservation.value.id in s.reservations then
      -ReservationSums.Share(s.reservations[s.procs[e.client].plan.reservation.value.id], itemId)
    else 0
  }

  ghost function HandsBy(s: State, e: Event, itemId: Uuid): int {
    UnitsInHand(Next(s, e), itemId) - UnitsInHand(s, itemId)
  }

  ghost predicate DriftsAs(s: State, e: Event, itemId: Uuid) {
    Drift(Next(s, e), itemId) - Drift(s, itemId)
    == HandsBy(s, e, itemId) + BrokenOffBy(s, e, itemId) + AdjustedBy(s, e, itemId) - NetSettledBy(s, e, itemId)
  }

  lemma CommitDrifts(s: State, e: Event, itemId: Uuid)
    requires Inv(s) && AllCarry(s) && Commits(s, e)
    ensures DriftsAs(s, e, itemId)
  {
    var p := s.procs[e.client];
    assert Prepared(p) && Carries(p);
    EventMovesReserved(s, e, itemId);
    OnlyStoresWrite(s, e);
    AdvanceMovesOne(s, e.client, e.now, e.ok);
    HandsChange(s, Next(s, e), e.client, itemId);
    CommitHands(s, e, itemId);
  }

  lemma StoreDrifts(s: State, e: Event, itemId: Uuid)
    requires Inv(s) && AllCarry(s) && Stores(s, e)
    ensures DriftsAs(s, e, itemId)
  {
    EventMovesReserved(s, e, itemId);
    OnlyStoresWrite(s, e);
    StoredRow(s, e);
    ReservationSums.PendingUnitsChange(s.reservations, itemId, s.procs[e.client].plan.reservation.value);
    AdvanceMovesOne(s, e.client, e.now, e.ok);
    HandsChange(s, Next(s, e), e.client, itemId);
    SettleHands(s, e, itemId);
  }

  lemma StepHands(s: State, e: Event, itemId: Uuid)
    requires Inv(s) && AllCarry(s) && e.Step? && e.client in s.procs && !Commits(s, e)
    ensures HandsBy(s, e, itemId) == if s.procs[e.client].Settle? then -InHand(s.procs[e.client], itemId) else 0
  {
    AdvanceMovesOne(s, e.client, e.now, e.ok);
    HandsChange(s, Next(s, e), e.client, itemId);
    if s.procs[e.client].Settle? {
      SettleHands(s, e, itemId);
    } else {
      OtherHands(s, e, itemId);
    }
  }

  lemma OtherDrifts(s: State, e: Event, itemId: Uuid)
    requires Inv(s) && AllCarry(s) && !Commits(s, e) && !Stores(s, e)
    ensures DriftsAs(s, e, itemId)
  {
    EventMovesReserved(s, e, itemId);
    OnlyStoresWrite(s, e);
    match e
    case Step(c, now, ok) => if c in s.procs { StepHands(s, e, itemId); }
    case Crash(c) => if c in s.procs { HandsChange(s, Next(s, e), c, itemId); }
    case Arrive(c, req) => if c !in s.procs { HandsChange(s, Next(s, e), c, itemId); }
    case IncrementVersion(_) =>
    case Evict(_) =>
  }

  lemma EventDrifts(s: State, e: Event, itemId: Uuid)
    requires Inv(s) && AllCarry(s)
    ensures DriftsAs(s, e, itemId)
  {
    if Commits(s, e) {
      CommitDrifts(s, e, itemId);
    } else if Stores(s, e) {
      StoreDrifts(s, e, itemId);
    } else {
      OtherDrifts(s, e, itemId);
    }
  }

  // ---- One event: the surplus ----

  lemma {:induction false} StaysSettled(s: State, events: seq<Event>, rid: Uuid)
    requires Reachable(s)
    ensures Reachable(Run(s, events))
    ensures IsSettled(s.reservations, rid) ==> IsSettled(Run(s, events).reservations, rid)
    decreases |events|
  {
    if events != [] {
      var n := |events| - 1;
      StaysSettled(s, events[..n], rid);
      NextReachable(Run(s, events[..n]), events[n], Run(s, events));
      if IsSettled(s.reservations, rid) {
        ReservationsStaySettled(Run(s, events[..n]), events[n], rid);
      }
    }
  }

  /** Whoever settles a reservation works on the item, and for the units, of its row. */
  lemma SettlesItsRow(s: State, e: Event, rid: Uuid)
    requires Inv(s) && AllCarry(s) && Settles(s, e, rid)
    ensures var p := s.procs[e.client];
            && rid in s.reservations && p.r.Some?
            && s.reservations[rid].itemId == p.item.id && s.reservations[rid].quantity == p.r.value.quantity
  {
    var p := s.procs[e.client];
    assert Carries(p) && Prepared(p);
    assert Held(p) == p.r && SameButStatus(s.reservations, p.r.value);
  }

  /** Only stored reservations are settled. */
  lemma {:induction false} SettledIsStored(s: State, events: seq<Event>, rid: Uuid)
    requires Reachable(s)
    ensures Settlements.Settlements(s, events, rid) > 0 ==> rid in Run(s, events).reservations
    decreases |events|
  {
    if events != [] {
      var n := |events| - 1;
      SettledIsStored(s, events[..n], rid);
      StaysSettled(s, events[..n], rid);
      var before := Run(s, events[..n]);
      ReachableCarries(before);
      if Settles(before, events[n], rid) {
        SettlesItsRow(before, events[n], rid);
      }
      if rid in before.reservations {
        ReservationsStaySettled(before, events[n], rid);
      }
    }
  }

  /** How the last event of a run changes the surplus of a reservation. */
  lemma {:induction false} SurplusStep(s: State, events: seq<Event>, rid: Uuid)
    requires Reachable(s) && events != []
    ensures var n := |events| - 1;
            var before, after := Run(s, events[..n]), Run(s, events);
            Surplus(s, events, rid)
            == Surplus(s, events[..n], rid)
               + (if Settles(before, events[n], rid) then 1 else 0)
               - (if IsSettled(after.reservations, rid) && !IsSettled(before.reservations, rid) then 1 else 0)
  {
    var n := |events| - 1;
    StaysSettled(s, events[..n], rid);
    StaysSettled(Run(s, events[..n]), [events[n]], rid);
    RunOne(Run(s, events[..n]), events[n]);
  }

  /** What the last event of a run adds to the surplus of an item. */
  ghost predicate SurplusGrows(s: State, events: seq<Event>, itemId: Uuid)
    requires events != []
  {
    var n := |events| - 1;
    SurplusUnits(s, events, itemId)
    == SurplusUnits(s, events[..n], itemId) + NetSettledBy(Run(s, events[..n]), events[n], itemId)
  }

  /** Some more, or less, at one reservation. */
  lemma WeightedAt(rows: ReservationRows, a: Uuid -> int, b: Uuid -> int, rid: Uuid, delta: int, itemId: Uuid)
    requires rid in rows && b(rid) == a(rid) + delta
    requires forall k :: k in rows && k != rid ==> a(k) == b(k)
    ensures Total(rows, Weighted(b, itemId))
            == Total(rows, Weighted(a, itemId)) + if rows[rid].itemId == itemId then rows[rid].quantity * delta else 0
  {
    TotalDiffers(rows, Weighted(a, itemId), Weighted(b, itemId), rid);
    Distributes(rows[rid].quantity, a(rid), delta);
  }

  lemma Distributes(q: int, x: int, y: int)
    ensures q * (x + y) == q * x + q * y
  {
  }

  /** Writing a status does not change the sum. */
  lemma WeightedIgnoresStatus(rows: ReservationRows, count: Uuid -> int, w: Reservation, itemId: Uuid)
    requires SameButStatus(rows, w)
    ensures Total(rows[w.id := w], Weighted(count, itemId)) == Total(rows, Weighted(count, itemId))
  {
    TotalChange(rows, Weighted(count, itemId), w.id, w);
  }

  /** Nor does a new row that has not been settled, if the others keep their counts. */
  lemma WeightedIgnoresNew(rows: ReservationRows, a: Uuid -> int, b: Uuid -> int, w: Reservation, itemId: Uuid)
    requires w.id !in rows && b(w.id) == 0 && forall k :: k in rows ==> a(k) == b(k)
    ensures Total(rows[w.id := w], Weighted(b, itemId)) == Total(rows, Weighted(a, itemId))
  {
    TotalSame(rows, Weighted(a, itemId), Weighted(b, itemId));
    TotalChange(rows, Weighted(b, itemId), w.id, w);
  }

  lemma WeightedZero(rows: ReservationRows, count: Uuid -> int, itemId: Uuid)
    requires forall k :: k in rows ==> count(k) == 0
    ensures Total(rows, Weighted(count, itemId)) == 0
  {
    TotalZero(rows, Weighted(count, itemId));
  }

  lemma WeightedOnce(rows: ReservationRows, a: Uuid -> int, b: Uuid -> int, settled: Option<Uuid>, itemId: Uuid)
    requires settled.Some? ==> settled.value in rows
    requires forall k :: k in rows ==> b(k) == a(k) + if settled == Some(k) then 1 else 0
    ensures Total(rows, Weighted(b, itemId))
            == Total(rows, Weighted(a, itemId))
               + if settled.Some? && rows[settled.value].itemId == itemId then rows[settled.value].quantity else 0
  {
    match settled
    case Some(rid) => WeightedAt(rows, a, b, rid, 1, itemId);
    case None => TotalSame(rows, Weighted(a, itemId), Weighted(b, itemId));
  }

  lemma {:induction false} CommitCounts(s: State, events: seq<Event>, before: State, rid: Uuid)
    requires Reachable(s) && events != []
    requires before == Run(s, events[..|events| - 1]) && Commits(before, events[|events| - 1])
    ensures Run(s, events).reservations == before.reservations
    ensures Surplus(s, events, rid)
            == Surplus(s, events[..|events| - 1], rid)
               + if SettlementOf(before.procs[events[|events| - 1].client].req) == Some(rid) then 1 else 0
  {
    var n := |events| - 1;
    StaysSettled(s, events[..n], rid);
    ReachableCarries(before);
    OnlyStoresWrite(before, events[n]);
    SurplusStep(s, events, rid);
  }

  lemma {:induction false} CommitSurplus(s: State, events: seq<Event>, itemId: Uuid)
    requires Reachable(s) && events != []
    requires Commits(Run(s, events[..|events| - 1]), events[|events| - 1])
    ensures SurplusGrows(s, events, itemId)
  {
    var n := |events| - 1;
    var before, e := Run(s, events[..n]), events[n];
    var settled, a, b := SettlementOf(before.procs[e.client].req), SurplusOf(s, events[..n]), SurplusOf(s, events);
    forall rid: Uuid
      ensures b(rid) == a(rid) + if settled == Some(rid) then 1 else 0
      ensures Run(s, events).reservations == before.reservations
    {
      CommitCounts(s, events, before, rid);
    }
    CommitNet(s, events[..n], e, itemId);
    WeightedOnce(before.reservations, a, b, settled, itemId);
  }

  lemma {:induction false} CommitNet(s: State, front: seq<Event>, e: Event, itemId: Uuid)
    requires Reachable(s) && Commits(Run(s, front), e)
    ensures var before := Run(s, front);
            match SettlementOf(before.procs[e.client].req)
            case Some(rid) =>
              && rid in before.reservations
              && NetSettledBy(before, e, itemId)
                 == if before.reservations[rid].itemId == itemId then before.reservations[rid].quantity else 0
            case None => NetSettledBy(before, e, itemId) == 0
  {
    var before := Run(s, front);
    StaysSettled(s, front, 0);
    ReachableCarries(before);
    match SettlementOf(before.procs[e.client].req)
    case Some(rid) => SettlesItsRow(before, e, rid);
    case None =>
  }

  lemma {:induction false} InsertSurplus(s: State, events: seq<Event>, itemId: Uuid)
    requires Reachable(s) && events != []
    requires var n := |events| - 1;
             var before, e := Run(s, events[..n]), events[n];
             Stores(before, e) && before.procs[e.client].req.ReserveStock?
    ensures SurplusGrows(s, events, itemId)
  {
    var n := |events| - 1;
    var before, e := Run(s, events[..n]), events[n];
    StaysSettled(s, events[..n], 0);
    ReachableCarries(before);
    OnlyStoresWrite(before, e);
    StoredRow(before, e);
    var w, rows := before.procs[e.client].plan.reservation.value, before.reservations;
    forall rid
      ensures rid in rows ==> Surplus(s, events, rid) == Surplus(s, events[..n], rid)
      ensures rid == w.id ==> Surplus(s, events, rid) == 0
    {
      SurplusStep(s, events, rid);
      SettledIsStored(s, events[..n], rid);
    }
    WeightedIgnoresNew(rows, SurplusOf(s, events[..n]), SurplusOf(s, events), w, itemId);
  }

  lemma {:induction false} SettleSurplus(s: State, events: seq<Event>, itemId: Uuid)
    requires Reachable(s) && events != []
    requires var n := |events| - 1;
             var before, e := Run(s, events[..n]), events[n];
             Stores(before, e) && !before.procs[e.client].req.ReserveStock?
    ensures SurplusGrows(s, events, itemId)
  {
    var n := |events| - 1;
    var before, e := Run(s, events[..n]), events[n];
    StaysSettled(s, events[..n], 0);
    ReachableCarries(before);
    OnlyStoresWrite(before, e);
    StoredRow(before, e);
    var w, rows := before.procs[e.client].plan.reservation.value, before.reservations;
    var delta := if rows[w.id].IsPending() then -1 else 0;
    forall rid | rid in rows
      ensures Surplus(s, events, rid) == Surplus(s, events[..n], rid) + if rid == w.id then delta else 0
    {
      SurplusStep(s, events, rid);
    }
    WeightedAt(rows, SurplusOf(s, events[..n]), SurplusOf(s, events), w.id, delta, itemId);
    WeightedIgnoresStatus(rows, SurplusOf(s, events), w, itemId);
  }

  lemma {:induction false} OtherSurplus(s: State, events: seq<Event>, itemId: Uuid)
    requires Reachable(s) && events != []
    requires var n := |events| - 1;
             !Commits(Run(s, events[..n]), events[n]) && !Stores(Run(s, events[..n]), events[n])
    ensures SurplusGrows(s, events, itemId)
  {
    var n := |events| - 1;
    var before, e := Run(s, events[..n]), events[n];
    StaysSettled(s, events[..n], 0);
    ReachableCarries(before);
    OnlyStoresWrite(before, e);
    forall rid | rid in before.reservations
      ensures Surplus(s, events, rid) == Surplus(s, events[..n], rid)
    {
      SurplusStep(s, events, rid);
    }
    TotalSame(before.reservations, Weighted(SurplusOf(s, events[..n]), itemId), Weighted(SurplusOf(s, events), itemId));
  }

  lemma {:induction false} LastSurplus(s: State, events: seq<Event>, itemId: Uuid)
    requires Reachable(s) && events != []
    ensures SurplusGrows(s, events, itemId)
  {
    var n := |events| - 1;
    var before, e := Run(s, events[..n]), events[n];
    if Commits(before, e) {
      CommitSurplus(s, events, itemId);
    } else if !Stores(before, e) {
      OtherSurplus(s, events, itemId);
    } else if before.procs[e.client].req.ReserveStock? {
      InsertSurplus(s, events, itemId);
    } else {
      SettleSurplus(s, events, itemId);
    }
  }

  // ---- Every run ----

  lemma {:induction false} DriftFrom(s: State, events: seq<Event>, itemId: Uuid)
    requires Reachable(s) && s.procs == map[]
    ensures Drift(Run(s, events), itemId)
            == Drift(s, itemId) + UnitsInHand(Run(s, events), itemId) + BrokenOff(s, events, itemId)
               + Adjusted(s, events, itemId) - SurplusUnits(s, events, itemId)
    decreases |events|
  {
    if events == [] {
      TotalZero(s.reservations, Weighted(SurplusOf(s, []), itemId));
    } else {
      var n := |events| - 1;
      DriftFrom(s, events[..n], itemId);
      StaysSettled(s, events[..n], 0);
      ReachableCarries(Run(s, events[..n]));
      EventDrifts(Run(s, events[..n]), events[n], itemId);
      LastSurplus(s, events, itemId);
    }
  }

  /** The drift ledger: in every run, for every item, what is reserved beyond the pending reservations is what
      was at the start, plus the units of reserves that have written the item and are yet to insert their
      reservation, plus those of reserves that broke off in between, plus what adjustments reserved or
      released, less the units settled more often than their reservations left Pending. */
  lemma {:induction false} DriftAccounts(
    items: ItemRows, reservations: ReservationRows, events: seq<Event>, itemId: Uuid)
    requires ItemTable(items) && ReservationTable(reservations)
    ensures var s0, s := Start(items, reservations), Run(Start(items, reservations), events);
            Drift(s, itemId) == Drift(s0, itemId) + UnitsInHand(s, itemId) + BrokenOff(s0, events, itemId)
                                + Adjusted(s0, events, itemId) - SurplusUnits(s0, events, itemId)
  {
    StartReachable(items, reservations);
    DriftFrom(Start(items, reservations), events, itemId);
  }

  // ---- At rest ----

  /** No client is between its item write and its last. */
  ghost predicate AtRest(s: State) {
    forall c :: c in s.procs ==> !s.procs[c].Invalidate? && !s.procs[c].Settle?
  }

  lemma NothingInHand(s: State, itemId: Uuid)
    requires AtRest(s)
    ensures UnitsInHand(s, itemId) == 0
  {
    TotalZero(s.procs, InHandOf(itemId));
  }

  /** A database whose sums agree starts without drift. */
  lemma StartsWithoutDrift(items: ItemRows, reservations: ReservationRows, itemId: Uuid)
    requires ReservationSums.Consistent(items, reservations)
    ensures Drift(Start(items, reservations), itemId) == 0
  {
    if itemId !in items {
      ReservationSums.NothingPending(reservations, itemId);
    }
  }

  /** Once nobody is between two writes, the sums agree exactly if, item by item, the units that broken-off
      reserves and adjustments have left are those that have been settled once too often. */
  lemma {:induction false} SumsAgreeAtRestIff(items: ItemRows, reservations: ReservationRows, events: seq<Event>)
    requires ReservationSums.Consistent(items, reservations) && AtRest(Run(Start(items, reservations), events))
    ensures var s0, s := Start(items, reservations), Run(Start(items, reservations), events);
            ReservationSums.SumsAgree(s.items, s.reservations) <==>
            forall id :: id in s.items ==>
              BrokenOff(s0, events, id) + Adjusted(s0, events, id) == SurplusUnits(s0, events, id)
  {
    var s0, s := Start(items, reservations), Run(Start(items, reservations), events);
    forall id | id in s.items
      ensures s.items[id].reserved - ReservationSums.PendingUnits(s.reservations, id)
              == BrokenOff(s0, events, id) + Adjusted(s0, events, id) - SurplusUnits(s0, events, id)
    {
      DriftAccounts(items, reservations, events, id);
      StartsWithoutDrift(items, reservations, id);
      NothingInHand(s, id);
      assert Drift(s, id) == s.items[id].reserved - ReservationSums.PendingUnits(s.reservations, id);
    }
  }

  // ---- Surplus ----

  ghost predicate BeingSettled(s: State, rid: Uuid) {
    exists c :: c in s.procs && Settling(s.procs[c], rid)
  }

  /** A client that is settling has just settled, or was before. */
  lemma SettlingComesFromSettles(s: State, e: Event, rid: Uuid)
    requires Inv(s) && AllCarry(s) && BeingSettled(Next(s, e), rid)
    ensures BeingSettled(s, rid) || Settles(s, e, rid)
  {
    var t := Next(s, e);
    var d :| d in t.procs && Settling(t.procs[d], rid);
    match e
    case Step(c, now, ok) =>
      if c in s.procs {
        AdvanceMoves(s, c, now, ok, rid);
      }
    case _ =>
  }

  /** A row leaves Pending by the write of a client that is settling it. */
  lemma LeavesPendingBySettling(s: State, e: Event, rid: Uuid)
    requires Inv(s) && AllCarry(s) && IsSettled(Next(s, e).reservations, rid) && !IsSettled(s.reservations, rid)
    ensures BeingSettled(s, rid)
  {
    OnlyStoresWrite(s, e);
    if Stores(s, e) {
      StoredRow(s, e);
      assert Settling(s.procs[e.client], rid);
    }
  }

  /** Whatever has left Pending in a run, or is about to, has been settled in it. */
  lemma {:induction false} SettledBeforeLeaving(s: State, events: seq<Event>, rid: Uuid)
    requires Reachable(s) && s.procs == map[]
    ensures var t := Run(s, events);
            BeingSettled(t, rid) || (IsSettled(t.reservations, rid) && !IsSettled(s.reservations, rid)) ==>
              Settlements.Settlements(s, events, rid) >= 1
    decreases |events|
  {
    if events != [] {
      var n := |events| - 1;
      var before, e := Run(s, events[..n]), events[n];
      SettledBeforeLeaving(s, events[..n], rid);
      StaysSettled(s, events[..n], rid);
      ReachableCarries(before);
      if BeingSettled(Next(before, e), rid) {
        SettlingComesFromSettles(before, e, rid);
      }
      if IsSettled(Next(before, e).reservations, rid) && !IsSettled(before.reservations, rid) {
        LeavesPendingBySettling(before, e, rid);
      }
    }
  }

  /** No reservation is settled less often than it leaves Pending. */
  lemma {:induction false} SurplusNonnegative(s: State, events: seq<Event>, rid: Uuid)
    requires Reachable(s) && s.procs == map[]
    ensures Surplus(s, events, rid) >= 0
  {
    SettledBeforeLeaving(s, events, rid);
  }

  /** A reservation that is settled in a run was not before it. */
  lemma {:induction false} SettlesUnsettled(s: State, front: seq<Event>, e: Event, rid: Uuid)
    requires Reachable(s) && s.procs == map[] && Settles(Run(s, front), e, rid)
    ensures !IsSettled(s.reservations, rid)
  {
    ReachableCarries(s);
    RunCarries(s, front);
    assert Carries(Run(s, front).procs[e.client]);
    var i := AdmittedWhilePending(s, front, e.client, rid);
    StaysSettled(s, front[..i], rid);
  }

  /** A reservation that is settled from the start is never settled again. */
  lemma {:induction false} SettledFromStart(s: State, events: seq<Event>, rid: Uuid)
    requires Reachable(s) && s.procs == map[] && IsSettled(s.reservations, rid)
    ensures Settlements.Settlements(s, events, rid) == 0
    decreases |events|
  {
    if events != [] {
      var n := |events| - 1;
      SettledFromStart(s, events[..n], rid);
      if Settles(Run(s, events[..n]), events[n], rid) {
        SettlesUnsettled(s, events[..n], events[n], rid);
      }
    }
  }

  /** Orderly settlements leave no surplus once nobody is between two writes. */
  lemma {:induction false} OrderlyHasNoSurplus(s: State, events: seq<Event>, rid: Uuid)
    requires Reachable(s) && s.procs == map[] && Orderly(s, events, rid) && AtRest(Run(s, events))
    ensures Surplus(s, events, rid) == 0
  {
    ReachableCarries(s);
    SettledOnceFrom(s, events, rid);
    SurplusNonnegative(s, events, rid);
    if IsSettled(s.reservations, rid) {
      SettledFromStart(s, events, rid);
    }
  }

  // ---- Orderly runs keep the sums ----

  /** Stock is adjusted by restocking or decrementing only. */
  predicate AdjustsStockOnly(req: Request) {
    req.Adjust? ==> req.op.AddStock? || req.op.DecrementStock?
  }

  predicate RequestsProper(events: seq<Event>) {
    forall i :: 0 <= i < |events| && events[i].Arrive? ==> AdjustsStockOnly(events[i].req)
  }

  ghost predicate NoReserveBreaks(s: State, events: seq<Event>) {
    forall i :: 0 <= i < |events| ==> !BreaksReserve(Run(s, events[..i]), events[i])
  }

  lemma {:induction false} NothingBrokenOff(s: State, events: seq<Event>, itemId: Uuid)
    requires NoReserveBreaks(s, events)
    ensures BrokenOff(s, events, itemId) == 0
    decreases |events|
  {
    if events != [] {
      var n := |events| - 1;
      forall i | 0 <= i < n
        ensures !BreaksReserve(Run(s, events[..n][..i]), events[..n][i])
      {
        assert events[..n][..i] == events[..i];
        assert !BreaksReserve(Run(s, events[..i]), events[i]);
      }
      NothingBrokenOff(s, events[..n], itemId);
      assert !BreaksReserve(Run(s, events[..n]), events[n]);
    }
  }

  /** Clients about to write adjust stock only. */
  ghost predicate WritersProper(s: State) {
    forall c :: c in s.procs && BeforeWrite(s.procs[c]) ==> AdjustsStockOnly(s.procs[c].req)
  }

  lemma StepKeepsRequest(s: State, e: Event)
    requires Inv(s) && e.Step? && e.client in s.procs
    ensures var p, t := s.procs[e.client], Next(s, e);
            e.client in t.procs && (BeforeWrite(t.procs[e.client]) ==> BeforeWrite(p) && t.procs[e.client].req == p.req)
  {
    var c, p := e.client, s.procs[e.client];
    if p.Begin? {
      BeginEffect(s, c, p.req, e.now, e.ok);
    } else if p.Write? {
      WriteEffect(s, c, e.now, e.ok);
    } else if p.Settle? {
      SettleEnds(s, c, e.now, e.ok);
    } else {
      PlainFollows(s, e);
    }
  }

  lemma NextKeepsProper(s: State, e: Event)
    requires Inv(s) && WritersProper(s) && (e.Arrive? ==> AdjustsStockOnly(e.req))
    ensures WritersProper(Next(s, e))
  {
    match e
    case Step(c, now, ok) =>
      if c in s.procs {
        AdvanceMovesOne(s, c, now, ok);
        StepKeepsRequest(s, e);
      }
    case _ =>
  }

  lemma {:induction false} NothingAdjusted(s: State, events: seq<Event>, itemId: Uuid)
    requires Inv(s) && WritersProper(s) && RequestsProper(events)
    ensures WritersProper(Run(s, events)) && Adjusted(s, events, itemId) == 0
    decreases |events|
  {
    if events != [] {
      var n := |events| - 1;
      NothingAdjusted(s, events[..n], itemId);
      RunKeepsInv(s, events[..n]);
      NextKeepsProper(Run(s, events[..n]), events[n]);
    }
  }

  // ---- References ----

  /** Reservations, and those about to be inserted, are of items there are. */
  ghost predicate Refers(s: State) {
    && ReservationSums.Referential(s.items, s.reservations)
    && forall c :: c in s.procs && Reserving(s.procs[c]) && s.procs[c].plan.reservation.Some? ==>
         s.procs[c].plan.reservation.value.itemId in s.items
  }

  lemma ItemsStay(s: State, e: Event)
    requires Inv(s)
    ensures s.items.Keys <= Next(s, e).items.Keys
  {
    NextEffect(s, e);
  }

  lemma StepKeepsReserving(s: State, e: Event)
    requires Inv(s) && AllCarry(s) && Refers(s) && e.Step? && e.client in s.procs
    ensures var t := Next(s, e);
            e.client in t.procs && (Reserving(t.procs[e.client]) && t.procs[e.client].plan.reservation.Some? ==>
              t.procs[e.client].plan.reservation.value.itemId in s.items)
  {
    var p := s.procs[e.client];
    if Commits(s, e) {
      assert Prepared(p);
      WriteEffect(s, e.client, e.now, e.ok);
      assert Storable(p.item);
      DecidedRow(p.req, p.r, p.item, e.now);
    } else if p.Begin? {
      BeginEffect(s, e.client, p.req, e.now, e.ok);
    } else if p.Write? {
      WriteEffect(s, e.client, e.now, e.ok);
    } else if p.Settle? {
      SettleEnds(s, e.client, e.now, e.ok);
    } else {
      PlainFollows(s, e);
    }
  }

  lemma StoreKeepsReferences(s: State, e: Event)
    requires Inv(s) && AllCarry(s) && Refers(s)
    ensures ReservationSums.Referential(s.items, Next(s, e).reservations)
  {
    OnlyStoresWrite(s, e);
    if Stores(s, e) {
      StoredRow(s, e);
    }
  }

  lemma NextRefers(s: State, e: Event)
    requires Inv(s) && AllCarry(s) && Refers(s)
    ensures Refers(Next(s, e))
  {
    ItemsStay(s, e);
    StoreKeepsReferences(s, e);
    match e
    case Step(c, now, ok) =>
      if c in s.procs {
        AdvanceMovesOne(s, c, now, ok);
        StepKeepsReserving(s, e);
      }
    case _ =>
  }

  lemma {:induction false} RunRefers(s: State, events: seq<Event>)
    requires Inv(s) && AllCarry(s) && Refers(s)
    ensures Refers(Run(s, events))
    decreases |events|
  {
    if events != [] {
      var n := |events| - 1;
      RunRefers(s, events[..n]);
      RunCarries(s, events[..n]);
      NextRefers(Run(s, events[..n]), events[n]);
    }
  }

  /** The reservation sum of interleaved runs: from a consistent database, whatever the clients do at the same
      time, as long as the settlements of each reservation are orderly, no reserve breaks off half-way, and
      stock is adjusted by restocking or decrementing only, the database is consistent whenever nobody is
      between two writes: what holds of one use case at a time holds of these runs too. */
  lemma {:induction false} OrderlyRunKeepsSums(items: ItemRows, reservations: ReservationRows, events: seq<Event>)
    requires ReservationSums.Consistent(items, reservations) && RequestsProper(events)
    requires NoReserveBreaks(Start(items, reservations), events)
    requires forall rid :: Orderly(Start(items, reservations), events, rid)
    requires AtRest(Run(Start(items, reservations), events))
    ensures var s := Run(Start(items, reservations), events); ReservationSums.Consistent(s.items, s.reservations)
  {
    var s0, s := Start(items, reservations), Run(Start(items, reservations), events);
    StartReachable(items, reservations);
    ReachableCarries(s0);
    RunCarries(s0, events);
    RunRefers(s0, events);
    forall id | id in s.items
      ensures BrokenOff(s0, events, id) + Adjusted(s0, events, id) == SurplusUnits(s0, events, id)
    {
      NothingBrokenOff(s0, events, id);
      NothingAdjusted(s0, events, id);
      NoSurplusUnits(s0, events, id);
    }
    SumsAgreeAtRestIff(items, reservations, events);
  }

  lemma {:induction false} NoSurplusUnits(s: State, events: seq<Event>, itemId: Uuid)
    requires Reachable(s) && s.procs == map[] && AtRest(Run(s, events))
    requires forall rid :: Orderly(s, events, rid)
    ensures SurplusUnits(s, events, itemId) == 0
  {
    forall rid
      ensures Surplus(s, events, rid) == 0
    {
      OrderlyHasNoSurplus(s, events, rid);
    }
    WeightedZero(Run(s, events).reservations, SurplusOf(s, events), itemId);
  }
}
