/** How often one reservation is settled in an interleaved run: a reservation row has no version, so only
    the order of the steps can prevent a second settlement. */
module Settlements {
  import opened Common
  import opened InventoryItems
  import opened Reservations
  import opened Repositories
  import opened UseCaseRules
  import opened Interleaving
  import opened InterleavingProofs
  import opened InterleavingTheorems
  import opened SoloRuns

  /** The reservation a request settles, if it settles one. */
  function SettlementOf(req: Request): Option<Uuid> {
    match req
    case ConfirmStock(id) => Some(id)
    case ReleaseStock(id) => Some(id)
    case SweepExpired(id) => Some(id)
    case ExpireByJob(id) => Some(id)
    case _ => None
  }

  /** Admitted with the reservation in hand, the item not yet written. */
  predicate Deciding(p: Proc, rid: Uuid) {
    BeforeWrite(p) && !p.Begin? && SettlementOf(p.req) == Some(rid)
  }

  /** The item written, the reservation not yet. */
  predicate Settling(p: Proc, rid: Uuid) {
    (p.Invalidate? || p.Settle?) && SettlementOf(p.req) == Some(rid)
  }

  /** The event writes the item row for a settlement of the reservation. */
  ghost predicate Settles(s: State, e: Event, rid: Uuid) {
    && e.Step? && e.client in s.procs && s.procs[e.client].Write? && SettlementOf(s.procs[e.client].req) == Some(rid)
    && e.client in Next(s, e).procs && Next(s, e).procs[e.client].Invalidate?
  }

  /** How many events of a run settle the reservation. */
  ghost function Settlements(s: State, events: seq<Event>, rid: Uuid): nat
    decreases |events|
  {
    if events == [] then 0
    else
      var n := |events| - 1;
      Settlements(s, events[..n], rid) + if Settles(Run(s, events[..n]), events[n], rid) then 1 else 0
  }

  // ---- What clients carry ----

  /** Who is deciding on a reservation read it as pending; who has written the item for it carries its
      settled row, or for a reserve the pending row to be inserted. */
  predicate Carries(p: Proc) {
    && (BeforeWrite(p) && !p.Begin? && SettlementOf(p.req).Some? ==>
          p.r.Some? && p.r.value.id == SettlementOf(p.req).value && p.r.value.IsPending())
    && ((p.Invalidate? || p.Settle?) && SettlementOf(p.req).Some? ==>
          && p.plan.reservation.Some? && p.plan.reservation.value.id == SettlementOf(p.req).value
          && !p.plan.reservation.value.IsPending() && 0 < p.plan.reservation.value.quantity <= INT32_MAX)
    && ((p.Invalidate? || p.Settle?) && SettlementOf(p.req).None? ==>
          if p.req.ReserveStock? then p.plan.reservation.Some? && p.plan.reservation.value.IsPending()
          else p.plan.reservation.None?)
  }

  ghost predicate AllCarry(s: State) {
    forall c :: c in s.procs ==> Carries(s.procs[c])
  }

  lemma BeginCarries(s: State, c: Client, req: Request, now: Time, ok: bool)
    requires Inv(s) && c in s.procs && s.procs[c] == Begin(req)
    ensures var t := AdvanceBegin(s, c, req, now, ok); c in t.procs && Carries(t.procs[c])
  {
    BeginEffect(s, c, req, now, ok);
  }

  lemma WriteCarries(s: State, c: Client, now: Time, ok: bool)
    requires Inv(s) && c in s.procs && s.procs[c].Write?
    ensures var t := Advance(s, c, s.procs[c], now, ok); c in t.procs && Carries(t.procs[c])
  {
    var p := s.procs[c];
    WriteEffect(s, c, now, ok);
    assert Prepared(p);
    if Advance(s, c, p, now, ok).procs[c].Invalidate? {
      assert Storable(p.item);
      DecidedRow(p.req, p.r, p.item, now);
    }
  }

  /** What is decided for a settlement is the settled row, with a quantity the item had reserved; for a
      reserve, a pending row of the units taken from the item. */
  lemma DecidedRow(req: Request, r: Option<Reservation>, item: Item, now: Time)
    requires Matches(req, r) && !req.NewItem? && Storable(item) && Decide(req, r, item, now).Ok?
    ensures var w := Decide(req, r, item, now).value.reservation;
            SettlementOf(req).Some? ==>
              && w.Some? && w.value.id == SettlementOf(req).value && !w.value.IsPending()
              && 0 < w.value.quantity <= INT32_MAX
    ensures var w := Decide(req, r, item, now).value.reservation;
            SettlementOf(req).None? ==>
              if req.ReserveStock? then
                w.Some? && w.value.IsPending() && w.value.itemId == item.id && w.value.quantity == req.quantity
              else w.None?
  {
  }

  lemma StoreReadCarries(s: State, c: Client, req: Request, r: Option<Reservation>, ok: bool)
    requires AllCarry(s) && c in s.procs && s.procs[c] == StoreRead(req, r)
    ensures var t := AdvanceStoreRead(s, c, req, r, ok); c in t.procs && Carries(t.procs[c])
  {
    assert Carries(s.procs[c]);
  }

  lemma CacheReadCarries(s: State, c: Client, req: Request, r: Option<Reservation>, ok: bool)
    requires AllCarry(s) && c in s.procs && s.procs[c] == CacheRead(req, r)
    ensures var t := AdvanceCacheRead(s, c, req, r, ok); c in t.procs && Carries(t.procs[c])
  {
    assert Carries(s.procs[c]);
  }

  lemma InvalidateCarries(s: State, c: Client, req: Request, plan: Plan, ok: bool)
    requires AllCarry(s) && c in s.procs && s.procs[c] == Invalidate(req, plan)
    ensures var t := AdvanceInvalidate(s, c, req, plan, ok); c in t.procs && Carries(t.procs[c])
  {
    assert Carries(s.procs[c]);
  }

  /** The steps that are none of the above, Begin, Write or Settle. */
  predicate Plain(p: Proc) {
    p.FillFirst? || p.FillSecond? || p.Done? || p.Crashed?
  }

  lemma OtherCarries(s: State, c: Client, now: Time, ok: bool)
    requires AllCarry(s) && c in s.procs && Plain(s.procs[c])
    ensures var t := Advance(s, c, s.procs[c], now, ok); c in t.procs && Carries(t.procs[c])
  {
    assert Carries(s.procs[c]);
    match s.procs[c]
    case FillFirst(_, _, _) =>
    case FillSecond(_, _, _) =>
    case Done(_) =>
    case Crashed =>
  }

  lemma SettleEnds(s: State, c: Client, now: Time, ok: bool)
    requires c in s.procs && s.procs[c].Settle?
    ensures var t := Advance(s, c, s.procs[c], now, ok); c in t.procs && t.procs[c].Done?
  {
  }

  lemma AdvanceCarries(s: State, c: Client, now: Time, ok: bool)
    requires Inv(s) && AllCarry(s) && c in s.procs
    ensures var t := Advance(s, c, s.procs[c], now, ok); c in t.procs && Carries(t.procs[c])
  {
    if s.procs[c].Begin? {
      BeginCarries(s, c, s.procs[c].req, now, ok);
    } else if s.procs[c].StoreRead? {
      StoreReadCarries(s, c, s.procs[c].req, s.procs[c].r, ok);
    } else if s.procs[c].CacheRead? {
      CacheReadCarries(s, c, s.procs[c].req, s.procs[c].r, ok);
    } else if s.procs[c].Invalidate? {
      InvalidateCarries(s, c, s.procs[c].req, s.procs[c].plan, ok);
    } else if s.procs[c].Write? {
      WriteCarries(s, c, now, ok);
    } else if s.procs[c].Settle? {
      SettleEnds(s, c, now, ok);
    } else {
      OtherCarries(s, c, now, ok);
    }
  }

  lemma NextCarries(s: State, e: Event)
    requires Inv(s) && AllCarry(s)
    ensures AllCarry(Next(s, e))
  {
    match e
    case Step(c, now, ok) =>
      if c in s.procs {
        AdvanceCarries(s, c, now, ok);
        AdvanceMovesOne(s, c, now, ok);
      }
    case _ =>
  }

  lemma {:induction false} RunCarries(s: State, events: seq<Event>)
    requires Inv(s) && AllCarry(s)
    ensures Inv(Run(s, events)) && AllCarry(Run(s, events))
    decreases |events|
  {
    if events != [] {
      var n := |events| - 1;
      RunCarries(s, events[..n]);
      NextCarries(Run(s, events[..n]), events[n]);
      NextKeepsInv(Run(s, events[..n]), events[n]);
    }
  }

  lemma ReachableCarries(s: State)
    requires Reachable(s)
    ensures Inv(s) && AllCarry(s)
  {
    var items: ItemRows, reservations: ReservationRows, events: seq<Event> :|
      ItemTable(items) && ReservationTable(reservations) && s == Run(Start(items, reservations), events);
    EveryRunKeepsInv(items, reservations, []);
    RunCarries(Start(items, reservations), events);
  }

  // ---- What one step does to the settlements of one reservation ----

  /** A client starts deciding only on a pending row, starts settling only by writing the item, and stops
      settling only by writing the reservation. */
  ghost predicate Moves(s: State, p: Proc, q: Proc, rid: Uuid) {
    && (Deciding(q, rid) ==> Deciding(p, rid) || (p.Begin? && rid in s.reservations && s.reservations[rid].IsPending()))
    && (Settling(q, rid) ==> Settling(p, rid) || (p.Write? && q.Invalidate? && Deciding(p, rid)))
    && (Settling(p, rid) ==> Settling(q, rid) || p.Settle?)
  }

  lemma BeginMoves(s: State, c: Client, req: Request, now: Time, ok: bool, rid: Uuid)
    requires Inv(s) && c in s.procs && s.procs[c] == Begin(req)
    ensures var t := AdvanceBegin(s, c, req, now, ok);
            c in t.procs && Moves(s, s.procs[c], t.procs[c], rid) && t.reservations == s.reservations
  {
    BeginEffect(s, c, req, now, ok);
  }

  lemma WriteMoves(s: State, c: Client, now: Time, ok: bool, rid: Uuid)
    requires Inv(s) && c in s.procs && s.procs[c].Write?
    ensures var t := Advance(s, c, s.procs[c], now, ok);
            c in t.procs && Moves(s, s.procs[c], t.procs[c], rid) && t.reservations == s.reservations
  {
    WriteEffect(s, c, now, ok);
  }

  lemma StoreReadMoves(s: State, c: Client, req: Request, r: Option<Reservation>, ok: bool, rid: Uuid)
    requires c in s.procs && s.procs[c] == StoreRead(req, r)
    ensures var t := AdvanceStoreRead(s, c, req, r, ok);
            c in t.procs && Moves(s, s.procs[c], t.procs[c], rid) && t.reservations == s.reservations
  {
  }

  lemma CacheReadMoves(s: State, c: Client, req: Request, r: Option<Reservation>, ok: bool, rid: Uuid)
    requires c in s.procs && s.procs[c] == CacheRead(req, r)
    ensures var t := AdvanceCacheRead(s, c, req, r, ok);
            c in t.procs && Moves(s, s.procs[c], t.procs[c], rid) && t.reservations == s.reservations
  {
  }

  lemma InvalidateMoves(s: State, c: Client, req: Request, plan: Plan, ok: bool, rid: Uuid)
    requires AllCarry(s) && c in s.procs && s.procs[c] == Invalidate(req, plan)
    ensures var t := AdvanceInvalidate(s, c, req, plan, ok);
            c in t.procs && Moves(s, s.procs[c], t.procs[c], rid) && t.reservations == s.reservations
  {
    assert Carries(s.procs[c]);
  }

  lemma OtherMoves(s: State, c: Client, now: Time, ok: bool, rid: Uuid)
    requires c in s.procs && Plain(s.procs[c])
    ensures var t := Advance(s, c, s.procs[c], now, ok);
            c in t.procs && Moves(s, s.procs[c], t.procs[c], rid) && t.reservations == s.reservations
  {
    match s.procs[c]
    case FillFirst(_, _, _) =>
    case FillSecond(_, _, _) =>
    case Done(_) =>
    case Crashed =>
  }

  /** A settlement that is written settles its row; any other leaves a settled row settled. */
  lemma SettleMoves(s: State, c: Client, now: Time, ok: bool, rid: Uuid)
    requires Inv(s) && AllCarry(s) && c in s.procs && s.procs[c].Settle?
    ensures var t := Advance(s, c, s.procs[c], now, ok);
            && c in t.procs && t.procs[c].Done?
            && (Settling(s.procs[c], rid) && ok ==> rid in t.reservations && !t.reservations[rid].IsPending())
            && (rid in s.reservations && !s.reservations[rid].IsPending() ==>
                  rid in t.reservations && !t.reservations[rid].IsPending())
  {
    var p := s.procs[c];
    assert Carries(p);
    assert Held(p).Some? ==> SameButStatus(s.reservations, Held(p).value);
    if rid in s.reservations {
      SettlingStep(s, c, p.req, p.plan, ok, rid);
    }
  }

  lemma AdvanceMoves(s: State, c: Client, now: Time, ok: bool, rid: Uuid)
    requires Inv(s) && AllCarry(s) && c in s.procs
    ensures var t := Advance(s, c, s.procs[c], now, ok);
            && c in t.procs && t.procs == s.procs[c := t.procs[c]] && Moves(s, s.procs[c], t.procs[c], rid)
            && (Settling(s.procs[c], rid) && !Settling(t.procs[c], rid) && ok ==>
                  rid in t.reservations && !t.reservations[rid].IsPending())
            && (rid in s.reservations && !s.reservations[rid].IsPending() ==>
                  rid in t.reservations && !t.reservations[rid].IsPending())
  {
    AdvanceMovesOne(s, c, now, ok);
    if s.procs[c].Begin? {
      BeginMoves(s, c, s.procs[c].req, now, ok, rid);
    } else if s.procs[c].StoreRead? {
      StoreReadMoves(s, c, s.procs[c].req, s.procs[c].r, ok, rid);
    } else if s.procs[c].CacheRead? {
      CacheReadMoves(s, c, s.procs[c].req, s.procs[c].r, ok, rid);
    } else if s.procs[c].Invalidate? {
      InvalidateMoves(s, c, s.procs[c].req, s.procs[c].plan, ok, rid);
    } else if s.procs[c].Write? {
      WriteMoves(s, c, now, ok, rid);
    } else if s.procs[c].Settle? {
      SettleMoves(s, c, now, ok, rid);
    } else {
      OtherMoves(s, c, now, ok, rid);
    }
  }

  // ---- At most one settlement ----

  /** No two clients are between admission and the end of their settlement of the reservation. */
  ghost predicate NoOverlap(s: State, rid: Uuid) {
    forall a, b :: a in s.procs && b in s.procs && Engaged(s.procs[a], rid) && Engaged(s.procs[b], rid) ==> a == b
  }

  predicate Engaged(p: Proc, rid: Uuid) {
    Deciding(p, rid) || Settling(p, rid)
  }

  /** A client that has written the item for the reservation crashes, or fails to write the reservation. */
  predicate Breaks(s: State, e: Event, rid: Uuid) {
    match e
    case Crash(c) => c in s.procs && Settling(s.procs[c], rid)
    case Step(c, _, ok) => !ok && c in s.procs && s.procs[c].Settle? && Settling(s.procs[c], rid)
    case _ => false
  }

  /** Throughout the run settlements of the reservation do not overlap and do not break off half-way. */
  ghost predicate Orderly(s: State, events: seq<Event>, rid: Uuid)
    decreases |events|
  {
    && NoOverlap(Run(s, events), rid)
    && (events != [] ==>
          var n := |events| - 1; Orderly(s, events[..n], rid) && !Breaks(Run(s, events[..n]), events[n], rid))
  }

  /** The reservation has been settled, or its only client is about to settle it; nobody decides on it. */
  ghost predicate Over(s: State, rid: Uuid) {
    && (forall c :: c in s.procs ==> !Deciding(s.procs[c], rid))
    && ((rid in s.reservations && !s.reservations[rid].IsPending())
        || exists c :: c in s.procs && Settling(s.procs[c], rid))
  }

  lemma StepKeepsOver(s: State, c: Client, now: Time, ok: bool, rid: Uuid)
    requires Inv(s) && AllCarry(s) && Over(s, rid) && c in s.procs
    requires var t := Advance(s, c, s.procs[c], now, ok);
             NoOverlap(t, rid) && !Breaks(s, Step(c, now, ok), rid)
    ensures Over(Advance(s, c, s.procs[c], now, ok), rid)
  {
    var t := Advance(s, c, s.procs[c], now, ok);
    AdvanceMoves(s, c, now, ok, rid);
    OtherwiseRefused(s, c, now, ok, rid);
    if !(rid in s.reservations && !s.reservations[rid].IsPending()) {
      var d :| d in s.procs && Settling(s.procs[d], rid);
      if d != c {
        assert d in t.procs && Settling(t.procs[d], rid);
      } else if Settling(t.procs[c], rid) {
        assert c in t.procs;
      }
    }
  }

  /** Nobody is admitted while the reservation is settled or being settled. */
  lemma OtherwiseRefused(s: State, c: Client, now: Time, ok: bool, rid: Uuid)
    requires Inv(s) && AllCarry(s) && Over(s, rid) && c in s.procs
    requires NoOverlap(Advance(s, c, s.procs[c], now, ok), rid)
    ensures c in Advance(s, c, s.procs[c], now, ok).procs
    ensures !Deciding(Advance(s, c, s.procs[c], now, ok).procs[c], rid)
  {
    var t := Advance(s, c, s.procs[c], now, ok);
    AdvanceMoves(s, c, now, ok, rid);
    if !(rid in s.reservations && !s.reservations[rid].IsPending()) {
      var d :| d in s.procs && Settling(s.procs[d], rid);
      if d != c {
        OnlyOneEngaged(t, c, d, rid);
      }
    }
  }

  lemma OnlyOneEngaged(t: State, c: Client, d: Client, rid: Uuid)
    requires NoOverlap(t, rid) && c in t.procs && d in t.procs && c != d && Settling(t.procs[d], rid)
    ensures !Deciding(t.procs[c], rid)
  {
    assert Engaged(t.procs[d], rid);
  }

  lemma NextKeepsOver(s: State, e: Event, rid: Uuid)
    requires Inv(s) && AllCarry(s) && Over(s, rid) && NoOverlap(Next(s, e), rid) && !Breaks(s, e, rid)
    ensures Over(Next(s, e), rid) && !Settles(s, e, rid)
  {
    match e
    case Step(c, now, ok) =>
      if c in s.procs {
        StepKeepsOver(s, c, now, ok, rid);
      }
    case Arrive(c, req) => KeepsOver(s, Next(s, e), c, rid);
    case Crash(c) => KeepsOver(s, Next(s, e), c, rid);
    case IncrementVersion(_) =>
    case Evict(_) =>
  }

  lemma KeepsOver(s: State, t: State, c: Client, rid: Uuid)
    requires Over(s, rid) && t.reservations == s.reservations
    requires t.procs == s.procs || (c in t.procs && t.procs == s.procs[c := t.procs[c]])
    requires c in t.procs && t.procs != s.procs ==> !Engaged(t.procs[c], rid)
    requires c in s.procs && Settling(s.procs[c], rid) ==> t.procs == s.procs
    ensures Over(t, rid)
  {
    if d :| d in s.procs && Settling(s.procs[d], rid) {
      assert d in t.procs && Settling(t.procs[d], rid);
    }
  }

  /** The event that settles leaves its client about to settle the row, and nobody else engaged. */
  lemma SettlingBegins(s: State, e: Event, rid: Uuid)
    requires Inv(s) && AllCarry(s) && Settles(s, e, rid) && NoOverlap(Next(s, e), rid)
    ensures Over(Next(s, e), rid)
  {
    var t, c := Next(s, e), e.client;
    WriteMoves(s, c, e.now, e.ok, rid);
    WriteEffect(s, c, e.now, e.ok);
    assert Settling(t.procs[c], rid);
    forall d | d in t.procs
      ensures !Deciding(t.procs[d], rid)
    {
      assert Engaged(t.procs[c], rid) && (Deciding(t.procs[d], rid) ==> Engaged(t.procs[d], rid));
    }
  }

  lemma {:induction false} SettledOnceFrom(s: State, events: seq<Event>, rid: Uuid)
    requires Inv(s) && AllCarry(s) && Orderly(s, events, rid)
    ensures Settlements(s, events, rid) <= 1
    ensures Settlements(s, events, rid) == 1 ==> Over(Run(s, events), rid)
    decreases |events|
  {
    if events != [] {
      var n := |events| - 1;
      SettledOnceFrom(s, events[..n], rid);
      RunCarries(s, events[..n]);
      var before := Run(s, events[..n]);
      if Settlements(s, events[..n], rid) == 1 {
        NextKeepsOver(before, events[n], rid);
      } else if Settles(before, events[n], rid) {
        SettlingBegins(before, events[n], rid);
      }
    }
  }

  /** In every run in which the settlements of a reservation neither overlap nor break off between their two
      writes, confirms, releases and expiries of any clients together settle it at most once. */
  lemma {:induction false} SettledOnceIfOrderly(
    items: ItemRows, reservations: ReservationRows, events: seq<Event>, rid: Uuid)
    requires ItemTable(items) && ReservationTable(reservations)
    requires Orderly(Start(items, reservations), events, rid)
    ensures Settlements(Start(items, reservations), events, rid) <= 1
  {
    EveryRunKeepsInv(items, reservations, []);
    SettledOnceFrom(Start(items, reservations), events, rid);
  }

  // ---- Exactly when a client settles ----

  /** The clock lets the request settle a pending reservation. */
  predicate TimeAllows(req: Request, r: Reservation, now: Time) {
    match req
    case ConfirmStock(_) => !r.IsExpired(now)
    case ExpireByJob(_) => r.IsExpired(now)
    case _ => true
  }

  /** The client is at its write with a copy that is the current row of the item, the row has the units, and
      the clock allows it. The row of the reservation does not come into it. */
  ghost predicate Ready(s: State, c: Client, now: Time, rid: Uuid) {
    && c in s.procs && s.procs[c].Write? && Deciding(s.procs[c], rid) && s.procs[c].r.Some?
    && var p := s.procs[c];
       && p.item.id in s.items && s.items[p.item.id] == p.item
       && p.r.value.quantity <= p.item.reserved && CanBump(p.item) && TimeAllows(p.req, p.r.value, now)
  }

  lemma ReadyMeansDecided(s: State, c: Client, now: Time, rid: Uuid)
    requires Inv(s) && AllCarry(s) && c in s.procs && s.procs[c].Write? && Deciding(s.procs[c], rid)
    requires s.procs[c].item.id in s.items && s.items[s.procs[c].item.id] == s.procs[c].item
    ensures var p := s.procs[c];
            && Matches(p.req, p.r) && !p.req.NewItem? && p.r.Some?
            && (Decide(p.req, p.r, p.item, now).Ok? <==>
                  p.r.value.quantity <= p.item.reserved && TimeAllows(p.req, p.r.value, now))
  {
    var p := s.procs[c];
    assert Carries(p) && Prepared(p);
    assert Held(p) == p.r && SameButStatus(s.reservations, p.r.value);
    assert Storable(p.item);
    OperationSucceedsIff(p.item, OpOf(p.req, p.r));
  }

  lemma UpdateAccepts(items: ItemRows, item: Item, op: Op)
    requires ItemTable(items) && item.id in items && items[item.id] == item && Apply(item, op).Ok? && !op.AddStock?
    ensures UpdateItem(items, Apply(item, op).value, false).Ok? <==> CanBump(item)
  {
    OperationKeepsBounds(item, op);
  }

  /** In every state a run can reach, the write of a client settles the reservation exactly if storage works
      and the client is ready; whether another client has settled it makes no difference. */
  lemma SettlesIff(s: State, c: Client, now: Time, ok: bool, rid: Uuid)
    requires Reachable(s)
    ensures Settles(s, Step(c, now, ok), rid) <==> ok && Ready(s, c, now, rid)
  {
    ReachableCarries(s);
    WriteSettlesIff(s, c, now, ok, rid);
  }

  lemma WriteSettlesIff(s: State, c: Client, now: Time, ok: bool, rid: Uuid)
    requires Inv(s) && AllCarry(s)
    ensures Settles(s, Step(c, now, ok), rid) <==> ok && Ready(s, c, now, rid)
  {
    if c in s.procs && s.procs[c].Write? && Deciding(s.procs[c], rid) {
      var p := s.procs[c];
      assert Carries(p) && Prepared(p) && PastRow(s.history, Copy(p).value);
      WriteEffect(s, c, now, ok);
      if p.item.id in s.items && s.items[p.item.id] == p.item {
        ReadyMeansDecided(s, c, now, rid);
        if Decide(p.req, p.r, p.item, now).Ok? {
          UpdateAccepts(s.items, p.item, OpOf(p.req, p.r));
        }
      }
    }
  }

  /** And it then takes the units of the reservation from the row, once more if it was settled before. */
  lemma SettlingTakesUnits(s: State, c: Client, now: Time, rid: Uuid)
    requires Inv(s) && AllCarry(s) && Ready(s, c, now, rid)
    ensures var p, t := s.procs[c], Next(s, Step(c, now, true));
            && p.item.id in t.items
            && t.items[p.item.id].reserved == s.items[p.item.id].reserved - p.r.value.quantity
            && t.reservations == s.reservations
  {
    var p := s.procs[c];
    WriteSettlesIff(s, c, now, true, rid);
    WriteEffect(s, c, now, true);
    ReadyMeansDecided(s, c, now, rid);
    assert Storable(p.item);
    OperationKeepsBounds(p.item, OpOf(p.req, p.r));
  }

  ghost predicate ReadyAt(s: State, events: seq<Event>, i: nat, rid: Uuid)
    requires i < |events|
  {
    events[i].Step? && events[i].ok && Ready(Run(s, events[..i]), events[i].client, events[i].now, rid)
  }

  lemma {:induction false} SettlesAtIff(s: State, events: seq<Event>, i: nat, rid: Uuid)
    requires Inv(s) && AllCarry(s) && i < |events|
    ensures Settles(Run(s, events[..i]), events[i], rid) <==> ReadyAt(s, events, i, rid)
  {
    RunCarries(s, events[..i]);
    if events[i].Step? {
      WriteSettlesIff(Run(s, events[..i]), events[i].client, events[i].now, events[i].ok, rid);
    }
  }

  ghost predicate ReadyOnce(s: State, events: seq<Event>, rid: Uuid) {
    exists i :: 0 <= i < |events| && ReadyAt(s, events, i, rid)
  }

  /** Two events of the run are working writes of clients that are ready. */
  ghost predicate ReadyTwice(s: State, events: seq<Event>, rid: Uuid) {
    exists i, j :: 0 <= i < j < |events| && ReadyAt(s, events, i, rid) && ReadyAt(s, events, j, rid)
  }

  lemma {:induction false} ReadyBefore(s: State, events: seq<Event>, n: nat, i: nat, rid: Uuid)
    requires i < n <= |events|
    ensures ReadyAt(s, events[..n], i, rid) <==> ReadyAt(s, events, i, rid)
  {
    assert events[..n][..i] == events[..i];
  }

  lemma {:induction false} ReadyGrows(s: State, events: seq<Event>, n: nat, rid: Uuid)
    requires |events| == n + 1
    ensures ReadyOnce(s, events, rid) <==> ReadyOnce(s, events[..n], rid) || ReadyAt(s, events, n, rid)
    ensures ReadyTwice(s, events, rid) <==>
              ReadyTwice(s, events[..n], rid) || (ReadyOnce(s, events[..n], rid) && ReadyAt(s, events, n, rid))
  {
    forall i: nat | i < n
      ensures ReadyAt(s, events[..n], i, rid) <==> ReadyAt(s, events, i, rid)
    {
      ReadyBefore(s, events, n, i, rid);
    }
  }

  lemma {:induction false} CountIff(s: State, events: seq<Event>, rid: Uuid)
    requires Inv(s) && AllCarry(s)
    ensures Settlements(s, events, rid) >= 1 <==> ReadyOnce(s, events, rid)
    ensures Settlements(s, events, rid) >= 2 <==> ReadyTwice(s, events, rid)
    decreases |events|
  {
    if events != [] {
      var n := |events| - 1;
      CountIff(s, events[..n], rid);
      SettlesAtIff(s, events, n, rid);
      ReadyGrows(s, events, n, rid);
    }
  }

  /** A run from a consistent database settles a reservation more than once exactly if two of its events are
      working writes of clients that are ready for it. */
  lemma {:induction false} SettledTwiceIff(
    items: ItemRows, reservations: ReservationRows, events: seq<Event>, rid: Uuid)
    requires ItemTable(items) && ReservationTable(reservations)
    ensures Settlements(Start(items, reservations), events, rid) >= 2 <==> ReadyTwice(Start(items, reservations), events, rid)
  {
    EveryRunKeepsInv(items, reservations, []);
    CountIff(Start(items, reservations), events, rid);
  }

  // ---- What a second settlement looks like ----

  /** Event i admits the client to the reservation, which is pending in `r`, the row it then has. */
  ghost predicate AdmitsAt(s: State, events: seq<Event>, i: nat, c: Client, r: Reservation)
    requires i < |events|
  {
    var before := Run(s, events[..i]);
    && events[i].Step? && events[i].client == c && c in before.procs && before.procs[c].Begin?
    && r.id in before.reservations && before.reservations[r.id] == r && r.IsPending()
  }

  /** A step that does not admit a client leaves the reservation in its hands. */
  ghost predicate KeepsHeld(s: State, p: Proc, q: Proc, rid: Uuid) {
    Deciding(q, rid) ==>
      || (Deciding(p, rid) && q.r == p.r)
      || (p.Begin? && rid in s.reservations && s.reservations[rid].IsPending() && q.r == Some(s.reservations[rid]))
  }

  lemma BeginKeepsHeld(s: State, c: Client, req: Request, now: Time, ok: bool, rid: Uuid)
    requires Inv(s) && c in s.procs && s.procs[c] == Begin(req)
    ensures var t := AdvanceBegin(s, c, req, now, ok); c in t.procs && KeepsHeld(s, s.procs[c], t.procs[c], rid)
  {
    BeginEffect(s, c, req, now, ok);
  }

  lemma AdvanceKeepsHeld(s: State, c: Client, now: Time, ok: bool, rid: Uuid)
    requires Inv(s) && c in s.procs
    ensures var t := Advance(s, c, s.procs[c], now, ok); c in t.procs && KeepsHeld(s, s.procs[c], t.procs[c], rid)
  {
    if s.procs[c].Begin? {
      BeginKeepsHeld(s, c, s.procs[c].req, now, ok, rid);
    } else if s.procs[c].Write? {
      WriteEffect(s, c, now, ok);
    } else if s.procs[c].Settle? {
      SettleEnds(s, c, now, ok);
    } else {
      OtherKeepsHeld(s, c, now, ok, rid);
    }
  }

  lemma OtherKeepsHeld(s: State, c: Client, now: Time, ok: bool, rid: Uuid)
    requires c in s.procs && !s.procs[c].Begin? && !s.procs[c].Write? && !s.procs[c].Settle?
    ensures var t := Advance(s, c, s.procs[c], now, ok); c in t.procs && KeepsHeld(s, s.procs[c], t.procs[c], rid)
  {
    match s.procs[c]
    case StoreRead(_, _) =>
    case CacheRead(_, _) =>
    case FillFirst(_, _, _) =>
    case FillSecond(_, _, _) =>
    case Invalidate(_, _) =>
    case Done(_) =>
    case Crashed =>
  }

  lemma NextKeepsHeld(s: State, e: Event, c: Client, rid: Uuid)
    requires Inv(s) && c in Next(s, e).procs && Deciding(Next(s, e).procs[c], rid)
    ensures || (c in s.procs && Deciding(s.procs[c], rid) && Next(s, e).procs[c].r == s.procs[c].r)
            || (e.Step? && e.client == c && c in s.procs && s.procs[c].Begin?
                && rid in s.reservations && s.reservations[rid].IsPending()
                && Next(s, e).procs[c].r == Some(s.reservations[rid]))
  {
    match e
    case Step(d, now, ok) =>
      if d in s.procs {
        AdvanceMovesOne(s, d, now, ok);
        if d == c {
          AdvanceKeepsHeld(s, c, now, ok, rid);
        }
      }
    case _ =>
  }

  /** Whoever decides on a reservation was admitted on its row while that was pending. */
  lemma {:induction false} AdmittedWhilePending(s: State, events: seq<Event>, c: Client, rid: Uuid) returns (i: nat)
    requires Inv(s) && AllCarry(s) && ReservationTable(s.reservations)
    requires c in Run(s, events).procs && Deciding(Run(s, events).procs[c], rid)
    requires c !in s.procs
    ensures i < |events| && Run(s, events).procs[c].r.Some?
    ensures AdmitsAt(s, events, i, c, Run(s, events).procs[c].r.value)
    decreases |events|
  {
    var n := |events| - 1;
    var before := Run(s, events[..n]);
    RunCarries(s, events[..n]);
    NextKeepsHeld(before, events[n], c, rid);
    if c in before.procs && Deciding(before.procs[c], rid) && Run(s, events).procs[c].r == before.procs[c].r {
      i := AdmittedWhilePending(s, events[..n], c, rid);
      assert events[..n][..i] == events[..i];
    } else {
      i := n;
      assert ReservationTable(before.reservations);
    }
  }

  lemma CommitRecorded(s: State, e: Event, rid: Uuid)
    requires Inv(s) && Settles(s, e, rid)
    ensures HasCommitted(Next(s, e).history, e.client, s.procs[e.client].item.id)
  {
    var p, h := s.procs[e.client], Next(s, e).history;
    WriteEffect(s, e.client, e.now, e.ok);
    assert CommitBy(h[p.item.id].commits[|h[p.item.id].commits| - 1], e.client);
  }

  lemma {:induction false} CommitStays(s: State, events: seq<Event>, c: Client, id: Uuid)
    requires Inv(s) && HasCommitted(s.history, c, id)
    ensures HasCommitted(Run(s, events).history, c, id)
  {
    CommitsOnlyGrow(s, events, id);
    var k :| 0 <= k < |s.history[id].commits| && CommitBy(s.history[id].commits[k], c);
    assert Run(s, events).history[id].commits[k] == s.history[id].commits[k];
  }

  /** The copy of a client that decides on a reservation is of the item of that reservation. */
  lemma CopyIsOfItem(s: State, c: Client, rid: Uuid)
    requires Inv(s) && AllCarry(s) && c in s.procs && Deciding(s.procs[c], rid) && Copy(s.procs[c]).Some?
    ensures rid in s.reservations && Copy(s.procs[c]).value.id == s.reservations[rid].itemId
  {
    var p := s.procs[c];
    assert Carries(p) && Prepared(p);
    assert Held(p) == p.r && SameButStatus(s.reservations, p.r.value);
  }

  lemma {:induction false} ItemIdStays(s: State, events: seq<Event>, rid: Uuid)
    requires Reachable(s) && rid in s.reservations
    ensures Reachable(Run(s, events))
    ensures rid in Run(s, events).reservations && Run(s, events).reservations[rid].itemId == s.reservations[rid].itemId
    decreases |events|
  {
    if events != [] {
      var n := |events| - 1;
      ItemIdStays(s, events[..n], rid);
      ReservationsStaySettled(Run(s, events[..n]), events[n], rid);
      NextReachable(Run(s, events[..n]), events[n], Run(s, events));
    }
  }

  /** A client that settles has not settled before. */
  lemma {:induction false} SecondIsAnother(s: State, e: Event, events: seq<Event>, f: Event, rid: Uuid)
    requires Inv(s) && Settles(s, e, rid) && Settles(Run(Next(s, e), events), f, rid)
    ensures f.client != e.client
  {
    CommitRecorded(s, e, rid);
    NextKeepsInv(s, e);
    CommitStays(Next(s, e), events, e.client, s.procs[e.client].item.id);
    RunKeepsInv(Next(s, e), events);
    var t := Run(Next(s, e), events);
    assert BeforeWrite(t.procs[f.client]) && NoCommitBy(t.history, f.client);
  }

  /** Both copies are of the item of the reservation. */
  lemma {:induction false} SameItem(s: State, rest: seq<Event>, t: State, c: Client, d: Client, rid: Uuid)
    requires Reachable(s) && Inv(s) && AllCarry(s) && t == Run(s, rest)
    requires c in s.procs && Deciding(s.procs[c], rid) && Copy(s.procs[c]).Some?
    requires d in s.procs && Copy(s.procs[d]).Some?
    requires d in t.procs && t.procs[d].Write? && Deciding(t.procs[d], rid)
    ensures Copy(s.procs[d]).value.id == Copy(s.procs[c]).value.id == t.procs[d].item.id
  {
    RunCarries(s, rest);
    RunCommitsOnlyFrom(s, rest, d, Copy(s.procs[d]).value);
    CopyIsOfItem(s, c, rid);
    ItemIdStays(s, rest, rid);
    CopyIsOfItem(t, d, rid);
  }

  lemma {:induction false} BothCommit(
    s: State, e: Event, u: State, events: seq<Event>, t: State, f: Event, w: State, rid: Uuid)
    requires Inv(s) && u == Next(s, e) && t == Run(u, events) && w == Next(t, f)
    requires Settles(s, e, rid) && Settles(t, f, rid)
    ensures HasCommitted(w.history, e.client, s.procs[e.client].item.id)
    ensures HasCommitted(w.history, f.client, t.procs[f.client].item.id)
  {
    CommitRecorded(s, e, rid);
    NextKeepsInv(s, e);
    CommitStays(u, events, e.client, s.procs[e.client].item.id);
    RunKeepsInv(u, events);
    CommitRecorded(t, f, rid);
    RunOne(t, f);
    CommitStays(t, [f], e.client, s.procs[e.client].item.id);
  }

  lemma RunOne(s: State, e: Event)
    ensures Run(s, [e]) == Next(s, e)
  {
    assert [e][..0] == [];
  }

  lemma {:induction false} RunThrough(s: State, e: Event, events: seq<Event>, f: Event)
    ensures Run(s, [e] + (events + [f])) == Next(Run(Next(s, e), events), f)
  {
    RunHead(s, e, events + [f]);
    RunAppend(Next(s, e), events, [f]);
    RunOne(Run(Next(s, e), events), f);
  }

  /** A client that settles after another has read the item since. */
  lemma {:induction false} SecondReadsLater(s: State, e: Event, events: seq<Event>, f: Event, rid: Uuid)
    requires Reachable(s) && Inv(s) && AllCarry(s) && Settles(s, e, rid) && Settles(Run(Next(s, e), events), f, rid)
    ensures f.client in s.procs ==> Copy(s.procs[f.client]) == None
  {
    if f.client in s.procs && Copy(s.procs[f.client]).Some? {
      var u := Next(s, e);
      var t := Run(u, events);
      RunHead(s, e, events);
      SecondIsAnother(s, e, events, f, rid);
      SameItem(s, [e] + events, t, e.client, f.client, rid);
      BothCommit(s, e, u, events, t, f, Next(t, f), rid);
      RunThrough(s, e, events, f);
      AtMostOneOfTwoCommits(s, [e] + (events + [f]), e.client, f.client);
    }
  }

  /** What is known of two settlements of one reservation in a run, `first` being the state before event i
      and `second` the state before event j: another client, who had not read the item when the first wrote
      it, and who was admitted by event a on the row, then still pending. */
  ghost predicate SecondAfterFirst(
    s0: State, events: seq<Event>, first: State, second: State, i: nat, j: nat, a: nat)
  {
    && a < j && i < j < |events| && events[i].Step? && events[j].Step?
    && var d := events[j].client;
       && d != events[i].client
       && (d in first.procs ==> Copy(first.procs[d]) == None)
       && d in second.procs && second.procs[d].Write? && second.procs[d].r.Some?
       && AdmitsAt(s0, events, a, d, second.procs[d].r.value)
  }

  lemma {:induction false} SplitRun(s: State, events: seq<Event>, i: nat, j: nat)
    requires i < j < |events|
    ensures Run(s, events[..j]) == Run(Next(Run(s, events[..i]), events[i]), events[i + 1..j])
  {
    assert events[..j] == events[..i] + ([events[i]] + events[i + 1..j]);
    RunAppend(s, events[..i], [events[i]] + events[i + 1..j]);
    RunHead(Run(s, events[..i]), events[i], events[i + 1..j]);
  }

  lemma {:induction false} RunReachable(s: State, events: seq<Event>)
    requires Reachable(s)
    ensures Reachable(Run(s, events))
    decreases |events|
  {
    if events != [] {
      var n := |events| - 1;
      RunReachable(s, events[..n]);
      NextReachable(Run(s, events[..n]), events[n], Run(s, events));
    }
  }

  lemma {:induction false} SecondComesLater(
    s0: State, events: seq<Event>, first: State, second: State, i: nat, j: nat, rid: Uuid)
    requires Reachable(s0) && Inv(s0) && AllCarry(s0) && i < j < |events|
    requires first == Run(s0, events[..i]) && second == Run(s0, events[..j])
    requires Settles(first, events[i], rid) && Settles(second, events[j], rid)
    ensures events[j].client != events[i].client
    ensures events[j].client in first.procs ==> Copy(first.procs[events[j].client]) == None
  {
    RunReachable(s0, events[..i]);
    RunCarries(s0, events[..i]);
    SplitRun(s0, events, i, j);
    SecondIsAnother(first, events[i], events[i + 1..j], events[j], rid);
    SecondReadsLater(first, events[i], events[i + 1..j], events[j], rid);
  }

  lemma {:induction false} SettlerAdmitted(
    s0: State, events: seq<Event>, second: State, j: nat, rid: Uuid) returns (a: nat)
    requires Inv(s0) && AllCarry(s0) && s0.procs == map[] && j < |events|
    requires second == Run(s0, events[..j]) && Settles(second, events[j], rid)
    ensures a < j && second.procs[events[j].client].r.Some?
    ensures AdmitsAt(s0, events, a, events[j].client, second.procs[events[j].client].r.value)
  {
    a := AdmittedWhilePending(s0, events[..j], events[j].client, rid);
    assert events[..j][..a] == events[..a];
  }

  /** Of two settlements of one reservation in a run, the second is by another client, who was admitted while
      the row was still pending, and who read the item only after the first had written it. */
  lemma {:induction false} SecondSettlement(
    items: ItemRows, reservations: ReservationRows, events: seq<Event>, i: nat, j: nat, rid: Uuid)
    returns (a: nat)
    requires ItemTable(items) && ReservationTable(reservations) && i < j < |events|
    requires Settles(Run(Start(items, reservations), events[..i]), events[i], rid)
    requires Settles(Run(Start(items, reservations), events[..j]), events[j], rid)
    ensures SecondAfterFirst(Start(items, reservations), events, Run(Start(items, reservations), events[..i]),
                             Run(Start(items, reservations), events[..j]), i, j, a)
  {
    var s0 := Start(items, reservations);
    StartReachable(items, reservations);
    ReachableInv(s0);
    SecondComesLater(s0, events, Run(s0, events[..i]), Run(s0, events[..j]), i, j, rid);
    a := SettlerAdmitted(s0, events, Run(s0, events[..j]), j, rid);
  }

  ghost predicate AdmittedLater(s0: State, events: seq<Event>, first: State, second: State, i: nat, j: nat) {
    exists a: nat :: SecondAfterFirst(s0, events, first, second, i, j, a)
  }

  lemma {:induction false} SecondAdmitted(
    items: ItemRows, reservations: ReservationRows, events: seq<Event>, first: State, second: State, i: nat, j: nat, rid: Uuid)
    requires ItemTable(items) && ReservationTable(reservations) && i < j < |events|
    requires first == Run(Start(items, reservations), events[..i]) && Settles(first, events[i], rid)
    requires second == Run(Start(items, reservations), events[..j]) && Settles(second, events[j], rid)
    ensures AdmittedLater(Start(items, reservations), events, first, second, i, j)
  {
    var a := SecondSettlement(items, reservations, events, i, j, rid);
  }

  /** After one settlement of a reservation another event settles it exactly if it is the working write of a
      client that is ready. From readiness it follows that this client was admitted on the row while that was
      pending, and has read the item since the first settlement. */
  lemma {:induction false} SecondSettlementIff(
    items: ItemRows, reservations: ReservationRows, events: seq<Event>, first: State, second: State, i: nat, j: nat, rid: Uuid)
    requires ItemTable(items) && ReservationTable(reservations) && i < j < |events|
    requires first == Run(Start(items, reservations), events[..i]) && Settles(first, events[i], rid)
    requires second == Run(Start(items, reservations), events[..j])
    ensures Settles(second, events[j], rid) <==> ReadyAt(Start(items, reservations), events, j, rid)
    ensures ReadyAt(Start(items, reservations), events, j, rid) ==>
              AdmittedLater(Start(items, reservations), events, first, second, i, j)
  {
    EveryRunKeepsInv(items, reservations, []);
    SettlesAtIff(Start(items, reservations), events, j, rid);
    if Settles(second, events[j], rid) {
      SecondAdmitted(items, reservations, events, first, second, i, j, rid);
    }
  }

  // ---- Neither condition can be dropped ----

  /** Once a client has written the item for a reservation and crashes, a confirm that comes later and is left
      alone deducts the units again, exactly if they are still reserved for somebody. */
  lemma BrokenOffSettlesAgain(s: State, c: Client, d: Client, rid: Uuid, now: Time)
    requires Inv(s) && AllCarry(s) && c in s.procs && Settling(s.procs[c], rid) && d !in s.procs
    requires rid in s.reservations && s.reservations[rid].IsActive(now) && s.reservations[rid].quantity <= INT32_MAX
    requires s.reservations[rid].itemId in s.items && s.items[s.reservations[rid].itemId].version < INT32_MAX
    ensures Storable(s.items[s.reservations[rid].itemId]) && s.reservations[rid].quantity > 0
    ensures Agrees(SoloRun(Next(s, Crash(c)), d, ConfirmStock(rid), now, now, MISSING), d,
                   ConfirmResult(s.items, s.reservations, s.reservations[rid]))
  {
    var t := Next(s, Crash(c));
    NextKeepsInv(s, Crash(c));
    assert ReservationTable(s.reservations) && ItemTable(s.items);
    ConfirmAlone(s.items, s.reservations, s.reservations[rid], now);
    AloneMeansAtomic(t, d, ConfirmStock(rid), now, now, MISSING);
  }
}
