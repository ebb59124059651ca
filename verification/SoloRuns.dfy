/** Runs of the interleaved machine in which one client is left alone, and what happens when two
    clients are not. */
module SoloRuns {
  import opened Common
  import opened InventoryItems
  import opened Reservations
  import opened Repositories
  import opened UseCaseRules
  import opened Interleaving
  import opened InterleavingProofs
  import opened InterleavingTheorems

  // ---- Reservations in interleaved runs ----

  lemma SettlingStep(s: State, c: Client, req: Request, plan: Plan, ok: bool, id: Uuid)
    requires Inv(s) && c in s.procs && s.procs[c] == Settle(req, plan) && id in s.reservations
    ensures var after := AdvanceSettle(s, c, req, plan, ok).reservations;
            && id in after && after[id] == s.reservations[id].(status := after[id].status)
            && (s.reservations[id].status != Pending ==> after[id].status != Pending)
  {
    var p := s.procs[c];
    assert SettlesOrInserts(p);
    assert Held(p).Some? ==> SameButStatus(s.reservations, Held(p).value);
  }

  lemma OtherStepsKeepReservations(s: State, c: Client, now: Time, ok: bool)
    requires Inv(s) && c in s.procs && !s.procs[c].Settle?
    ensures Advance(s, c, s.procs[c], now, ok).reservations == s.reservations
  {
    match s.procs[c]
    case Begin(req) => BeginEffect(s, c, req, now, ok);
    case Write(_, _, _) => WriteEffect(s, c, now, ok);
    case StoreRead(_, _) =>
    case CacheRead(_, _) =>
    case FillFirst(_, _, _) =>
    case FillSecond(_, _, _) =>
    case Invalidate(_, _) =>
    case Done(_) =>
    case Crashed =>
  }

  /** Reservation rows have no version, yet no interleaving duplicates an order, edits anything but a
      status, or makes a settled reservation pending again. */
  lemma ReservationsStaySettled(s: State, e: Event, id: Uuid)
    requires Reachable(s) && id in s.reservations
    ensures ReservationTable(s.reservations)
    ensures id in Next(s, e).reservations
    ensures var before, after := s.reservations[id], Next(s, e).reservations[id];
            && after == before.(status := after.status)
            && (before.status != Pending ==> after.status != Pending)
  {
    ReachableInv(s);
    match e
    case Step(c, now, ok) =>
      if c in s.procs {
        if s.procs[c].Settle? {
          SettlingStep(s, c, s.procs[c].req, s.procs[c].plan, ok, id);
        } else {
          OtherStepsKeepReservations(s, c, now, ok);
        }
      }
    case _ =>
  }

  // ---- Only the version check rejects a write ----

  /** In every reachable state a decided write of a use case goes through exactly when the row has not moved
      on, the version is not the last one, and a restock fits its column: no other constraint ever stops it. */
  lemma OnlyVersionCheckRejects(s: State, c: Client, now: Time)
    requires Reachable(s) && c in s.procs && s.procs[c].Write?
    requires var p := s.procs[c];
             Matches(p.req, p.r) && !p.req.NewItem? && Decide(p.req, p.r, p.item, now).Ok?
    ensures var p := s.procs[c];
            && p.item.id in s.items
            && (UpdateItem(s.items, Decide(p.req, p.r, p.item, now).value.item, false).Ok?
                <==> s.items[p.item.id].version == p.item.version && Fits(p.item, OpOf(p.req, p.r)))
  {
    ReachableInv(s);
    var p := s.procs[c];
    assert PastRow(s.history, Copy(p).value);
    if s.items[p.item.id].version == p.item.version {
      SameVersionSameRow(s.history, s.items, p.item);
      FitsIff(p.item, OpOf(p.req, p.r));
    }
  }

  // ---- A client left alone ----

  lemma {:induction false} RunHead(s: State, e: Event, rest: seq<Event>)
    ensures Run(s, [e] + rest) == Run(Next(s, e), rest)
    decreases |rest|
  {
    var events := [e] + rest;
    if rest == [] {
      assert events[..0] == [];
    } else {
      RunHead(s, e, rest[..|rest| - 1]);
      assert events[..|events| - 1] == [e] + rest[..|rest| - 1];
    }
  }

  lemma {:induction false} RunAppend(s: State, xs: seq<Event>, ys: seq<Event>)
    ensures Run(s, xs + ys) == Run(Run(s, xs), ys)
    decreases |xs|
  {
    if xs == [] {
      assert xs + ys == ys;
    } else {
      RunHead(s, xs[0], xs[1..]);
      RunHead(s, xs[0], xs[1..] + ys);
      assert [xs[0]] + xs[1..] == xs;
      assert [xs[0]] + (xs[1..] + ys) == xs + ys;
      RunAppend(Next(s, xs[0]), xs[1..], ys);
    }
  }

  /** Which accesses of a use case succeed; `cache` is also false when the cache misses. */
  datatype Flags = Flags(
    admit: bool, cache: bool, read: bool, fillFirst: bool, fillSecond: bool, write: bool, invalidate: bool, settle: bool)

  /** The same as faults of the transaction: a read answered by the cache cannot fail in the store, and the
      cache itself does not matter. */
  function FaultsOf(f: Flags, hit: bool): Faults {
    Faults(!f.admit, !hit && !f.read, !f.write, !f.settle)
  }

  /** The steps after the admission: the cache, and unless it has the item the read and the two fills; then
      the write, the invalidation and the settlement. */
  function SoloSteps(c: Client, hit: bool, f: Flags, now: Time): seq<Event> {
    if hit then [Step(c, now, true), Step(c, now, f.write), Step(c, now, f.invalidate), Step(c, now, f.settle)]
    else [Step(c, now, f.cache), Step(c, now, f.read), Step(c, now, f.fillFirst), Step(c, now, f.fillSecond),
          Step(c, now, f.write), Step(c, now, f.invalidate), Step(c, now, f.settle)]
  }

  lemma RunFour(s: State, a: Event, b: Event, c: Event, d: Event)
    ensures Run(s, [a, b, c, d]) == Next(Next(Next(Next(s, a), b), c), d)
  {
    assert [a, b, c, d] == [a] + [b, c, d];
    RunHead(s, a, [b, c, d]);
    var s1 := Next(s, a);
    assert [b, c, d] == [b] + [c, d];
    RunHead(s1, b, [c, d]);
    var s2 := Next(s1, b);
    assert [c, d] == [c] + [d];
    RunHead(s2, c, [d]);
    assert [d] == [d] + [];
    RunHead(Next(s2, c), d, []);
  }

  lemma RunSeven(s: State, a: Event, b: Event, c: Event, d: Event, e: Event, f: Event, g: Event)
    ensures Run(s, [a, b, c, d, e, f, g]) == Next(Next(Next(Next(Next(Next(Next(s, a), b), c), d), e), f), g)
  {
    assert [a, b, c, d, e, f, g] == [a] + [b, c, d, e, f, g];
    RunHead(s, a, [b, c, d, e, f, g]);
    var s1 := Next(s, a);
    assert [b, c, d, e, f, g] == [b] + [c, d, e, f, g];
    RunHead(s1, b, [c, d, e, f, g]);
    var s2 := Next(s1, b);
    assert [c, d, e, f, g] == [c] + [d, e, f, g];
    RunHead(s2, c, [d, e, f, g]);
    RunFour(Next(s2, c), d, e, f, g);
  }

  ghost predicate Agrees(t: State, c: Client, o: Outcome) {
    t.items == o.items && t.reservations == o.reservations && c in t.procs && t.procs[c] == Done(o.error)
  }

  lemma StepDone(s: State, c: Client, now: Time, ok: bool)
    requires c in s.procs && s.procs[c].Done?
    ensures Next(s, Step(c, now, ok)) == s
  {
  }

  lemma SoloSettle(s: State, c: Client, now: Time, f: Flags)
    requires c in s.procs && s.procs[c].Invalidate?
    ensures var p, t := s.procs[c], Next(Next(s, Step(c, now, f.invalidate)), Step(c, now, f.settle));
            Agrees(t, c,
                   if p.plan.reservation.None? then Outcome(s.items, s.reservations, None)
                   else match WriteReservation(p.req, p.plan.reservation.value, s.reservations, !f.settle)
                     case Err(e) => Outcome(s.items, s.reservations, Some(e))
                     case Ok(written) => Outcome(s.items, written, None))
  {
    var p := s.procs[c];
    var s1 := AdvanceInvalidate(s, c, p.req, p.plan, f.invalidate);
    assert s1 == Next(s, Step(c, now, f.invalidate));
    if s1.procs[c].Done? {
      StepDone(s1, c, now, f.settle);
    } else {
      assert AdvanceSettle(s1, c, p.req, p.plan, f.settle) == Next(s1, Step(c, now, f.settle));
    }
  }

  lemma SoloCommit(s: State, c: Client, req: Request, r: Option<Reservation>, item: Item, now: Time, ok: bool)
    requires c in s.procs && Matches(req, r) && !req.NewItem? && item.id in s.history
    ensures var t := AdvanceWrite(s, c, req, r, item, now, ok);
            && t.reservations == s.reservations && c in t.procs
            && match Decide(req, r, item, now)
               case Err(e) => t.procs[c] == Done(Some(e)) && t.items == s.items
               case Ok(plan) =>
                 match UpdateItem(s.items, plan.item, !ok)
                 case Err(e) => t.procs[c] == Done(Some(e)) && t.items == s.items
                 case Ok(rows) =>
                   && t.items == rows && t.procs[c].Invalidate? && t.procs[c].req == req
                   && t.procs[c].plan.reservation == plan.reservation
  {
  }

  /** What the write of a client and the two steps after it do, seen from its copy of the item. */
  function AfterWrite(s: State, p: Proc, now: Time, f: Flags, hit: bool): Outcome
    requires p.Write? && Matches(p.req, p.r) && !p.req.NewItem?
  {
    match Decide(p.req, p.r, p.item, now)
    case Err(e) => Outcome(s.items, s.reservations, Some(e))
    case Ok(plan) => Perform(p.req, plan, s.items, s.reservations, FaultsOf(f, hit))
  }

  lemma SoloWrite(s: State, c: Client, now: Time, f: Flags, hit: bool)
    requires c in s.procs && s.procs[c].Write?
    requires var p := s.procs[c]; Matches(p.req, p.r) && !p.req.NewItem? && p.item.id in s.history
    ensures var t := Next(Next(Next(s, Step(c, now, f.write)), Step(c, now, f.invalidate)), Step(c, now, f.settle));
            Agrees(t, c, AfterWrite(s, s.procs[c], now, f, hit))
  {
    var p := s.procs[c];
    var s1 := Next(s, Step(c, now, f.write));
    assert s1 == AdvanceWrite(s, c, p.req, p.r, p.item, now, f.write);
    SoloCommit(s, c, p.req, p.r, p.item, now, f.write);
    if s1.procs[c].Done? {
      StepDone(s1, c, now, f.invalidate);
      StepDone(s1, c, now, f.settle);
    } else {
      SoloSettle(s1, c, now, f);
    }
  }

  /** The entry a client about to look into the cache finds there. */
  ghost function Found(s: State, p: Proc, f: Flags): Option<Item>
    requires p.CacheRead?
  {
    if Matches(p.req, p.r) && f.cache && KeyOf(p.req, p.r) in s.cache then Some(s.cache[KeyOf(p.req, p.r)]) else None
  }

  lemma SoloFill(s: State, c: Client, now: Time, ok: bool)
    requires c in s.procs && (s.procs[c].FillFirst? || s.procs[c].FillSecond?) && !s.procs[c].req.NewItem?
    ensures var p, t := s.procs[c], Next(s, Step(c, now, ok));
            && Untouched(s, t) && c in t.procs
            && t.procs[c] == if p.FillFirst? then FillSecond(p.req, p.r, p.item) else Write(p.req, p.r, p.item)
  {
  }

  ghost predicate Untouched(s: State, t: State) {
    t.items == s.items && t.reservations == s.reservations && t.history == s.history
  }

  lemma SoloMiss(s: State, c: Client, now: Time, f: Flags)
    requires Inv(s) && c in s.procs && s.procs[c].CacheRead? && Found(s, s.procs[c], f) == None
    ensures var p := s.procs[c];
            && Matches(p.req, p.r) && !p.req.NewItem?
            && Next(s, Step(c, now, f.cache)) == Goto(s, c, StoreRead(p.req, p.r))
  {
    assert Prepared(s.procs[c]);
  }

  lemma SoloStoreRead(s: State, c: Client, now: Time, ok: bool)
    requires s.history.Keys == s.items.Keys && (forall id :: id in s.items ==> s.items[id].id == id)
    requires c in s.procs && s.procs[c].StoreRead? && Matches(s.procs[c].req, s.procs[c].r)
    ensures var p, t := s.procs[c], Next(s, Step(c, now, ok));
            && Untouched(s, t) && c in t.procs
            && match ReadItem(p.req, p.r, s.items, !ok)
               case Err(e) => t.procs[c] == Done(Some(ItemReadError(p.req, e)))
               case Ok(item) => t.procs[c] == FillFirst(p.req, p.r, item) && item.id in s.history
  {
    assert Next(s, Step(c, now, ok)) == AdvanceStoreRead(s, c, s.procs[c].req, s.procs[c].r, ok);
  }

  lemma SoloRead(s: State, c: Client, now: Time, f: Flags)
    requires Inv(s) && c in s.procs && s.procs[c].CacheRead? && Found(s, s.procs[c], f) == None
    ensures var p := s.procs[c];
            && Matches(p.req, p.r) && !p.req.NewItem?
            && var t := Next(Next(Next(Next(s, Step(c, now, f.cache)), Step(c, now, f.read)),
                                  Step(c, now, f.fillFirst)), Step(c, now, f.fillSecond));
               && Untouched(s, t) && c in t.procs
               && match ReadItem(p.req, p.r, s.items, !f.read)
                  case Err(e) => t.procs[c] == Done(Some(ItemReadError(p.req, e)))
                  case Ok(item) => t.procs[c] == Write(p.req, p.r, item) && item.id in s.history
  {
    var p := s.procs[c];
    SoloMiss(s, c, now, f);
    var s1 := Goto(s, c, StoreRead(p.req, p.r));
    SoloStoreRead(s1, c, now, f.read);
    var s2 := Next(s1, Step(c, now, f.read));
    if s2.procs[c].Done? {
      StepDone(s2, c, now, f.fillFirst);
      StepDone(s2, c, now, f.fillSecond);
    } else {
      SoloFill(s2, c, now, f.fillFirst);
      SoloFill(Next(s2, Step(c, now, f.fillFirst)), c, now, f.fillSecond);
    }
  }

  lemma FinishFromRead(s: State, t: State, p: Proc, now: Time, f: Flags)
    requires p.Write? && Matches(p.req, p.r) && !p.req.NewItem?
    requires t.items == s.items && t.reservations == s.reservations
    requires ReadItem(p.req, p.r, s.items, !f.read) == Ok(p.item)
    ensures AfterWrite(t, p, now, f, false) == Finish(p.req, p.r, s.items, s.reservations, now, FaultsOf(f, false))
  {
  }

  /** What a client that has been admitted does alone when the cache does not have its item. */
  lemma MissFinishes(s: State, c: Client, now: Time, f: Flags)
    requires Inv(s) && c in s.procs && s.procs[c].CacheRead? && Found(s, s.procs[c], f) == None
    ensures var p := s.procs[c];
            && Matches(p.req, p.r) && !p.req.NewItem?
            && Agrees(Run(s, SoloSteps(c, false, f, now)), c,
                      Finish(p.req, p.r, s.items, s.reservations, now, FaultsOf(f, false)))
  {
    RunSeven(s, Step(c, now, f.cache), Step(c, now, f.read), Step(c, now, f.fillFirst), Step(c, now, f.fillSecond),
             Step(c, now, f.write), Step(c, now, f.invalidate), Step(c, now, f.settle));
    SoloRead(s, c, now, f);
    var s4 := Next(Next(Next(Next(s, Step(c, now, f.cache)), Step(c, now, f.read)),
                        Step(c, now, f.fillFirst)), Step(c, now, f.fillSecond));
    if s4.procs[c].Done? {
      StepDone(s4, c, now, f.write);
      StepDone(s4, c, now, f.invalidate);
      StepDone(s4, c, now, f.settle);
    } else {
      SoloWrite(s4, c, now, f, false);
      FinishFromRead(s, s4, s4.procs[c], now, f);
    }
  }

  /** And when it has: everything is decided from the cached copy. */
  lemma HitFinishes(s: State, c: Client, now: Time, f: Flags)
    requires Inv(s) && c in s.procs && s.procs[c].CacheRead? && Found(s, s.procs[c], f).Some?
    ensures var p := s.procs[c];
            && Matches(p.req, p.r) && !p.req.NewItem?
            && var entry := Found(s, p, f).value;
               && PastRow(s.history, entry) && entry.id in s.items && KeyFits(KeyOf(p.req, p.r), entry)
               && Agrees(Run(s, SoloSteps(c, true, f, now)), c, AfterWrite(s, Write(p.req, p.r, entry), now, f, true))
  {
    var p := s.procs[c];
    assert Prepared(p);
    var entry := Found(s, p, f).value;
    assert PastRow(s.history, entry);
    RunFour(s, Step(c, now, true), Step(c, now, f.write), Step(c, now, f.invalidate), Step(c, now, f.settle));
    var s1 := Next(s, Step(c, now, true));
    assert s1 == Goto(s, c, Write(p.req, p.r, entry));
    SoloWrite(s1, c, now, f, true);
  }

  lemma CurrentEntryIsRead(items: ItemRows, req: Request, r: Option<Reservation>, entry: Item)
    requires ItemTable(items) && Matches(req, r) && KeyFits(KeyOf(req, r), entry)
    requires entry.id in items && items[entry.id] == entry
    ensures ReadItem(req, r, items, false) == Ok(entry)
  {
  }

  /** From the item read on, a client left alone does what its use case does without interference, unless it
      is answered from an entry that is not the current row. */
  lemma SoloFinish(s: State, c: Client, now: Time, f: Flags)
    requires Inv(s) && c in s.procs && s.procs[c].CacheRead?
    requires var entry := Found(s, s.procs[c], f);
             entry.Some? ==> entry.value.id in s.items && s.items[entry.value.id] == entry.value
    ensures var p, hit := s.procs[c], Found(s, s.procs[c], f).Some?;
            && Matches(p.req, p.r) && !p.req.NewItem?
            && Agrees(Run(s, SoloSteps(c, hit, f, now)), c,
                      Finish(p.req, p.r, s.items, s.reservations, now, FaultsOf(f, hit)))
  {
    var p := s.procs[c];
    if Found(s, p, f) == None {
      MissFinishes(s, c, now, f);
    } else {
      HitFinishes(s, c, now, f);
      CurrentEntryIsRead(s.items, p.req, p.r, Found(s, p, f).value);
    }
  }

  /** The error of a client that is answered from a stale entry. */
  function StaleError(req: Request, r: Option<Reservation>, entry: Item, now: Time, f: Flags): Error
    requires Matches(req, r) && !req.NewItem?
  {
    match Decide(req, r, entry, now)
    case Err(e) => e
    case Ok(_) => if f.write then OptimisticLockFailure else StorageError
  }

  lemma StaleWrite(s: State, p: Proc, now: Time, f: Flags)
    requires RowsTrailed(s.history, s.items) && p.Write? && Matches(p.req, p.r) && !p.req.NewItem?
    requires PastRow(s.history, p.item) && p.item.id in s.items && s.items[p.item.id] != p.item
    ensures AfterWrite(s, p, now, f, true)
            == Outcome(s.items, s.reservations, Some(StaleError(p.req, p.r, p.item, now, f)))
  {
    assert s.items[p.item.id].version != p.item.version by {
      if s.items[p.item.id].version == p.item.version {
        SameVersionSameRow(s.history, s.items, p.item);
      }
    }
  }

  lemma SoloRefused(s: State, c: Client, now: Time, f: Flags)
    requires Inv(s) && c in s.procs && s.procs[c].CacheRead?
    requires var entry := Found(s, s.procs[c], f);
             entry.Some? && entry.value.id in s.items && s.items[entry.value.id] != entry.value
    ensures var p, entry := s.procs[c], Found(s, s.procs[c], f).value;
            && Matches(p.req, p.r) && !p.req.NewItem?
            && Agrees(Run(s, SoloSteps(c, true, f, now)), c,
                      Outcome(s.items, s.reservations, Some(StaleError(p.req, p.r, entry, now, f))))
  {
    var p := s.procs[c];
    HitFinishes(s, c, now, f);
    StaleWrite(s, Write(p.req, p.r, Found(s, p, f).value), now, f);
  }

  lemma SoloStopped(s: State, c: Client, now: Time, f: Flags)
    requires c in s.procs && s.procs[c].Done?
    ensures Run(s, SoloSteps(c, false, f, now)) == s
  {
    RunSeven(s, Step(c, now, f.cache), Step(c, now, f.read), Step(c, now, f.fillFirst), Step(c, now, f.fillSecond),
             Step(c, now, f.write), Step(c, now, f.invalidate), Step(c, now, f.settle));
    StepDone(s, c, now, f.cache);
    StepDone(s, c, now, f.read);
    StepDone(s, c, now, f.fillFirst);
    StepDone(s, c, now, f.fillSecond);
    StepDone(s, c, now, f.write);
    StepDone(s, c, now, f.invalidate);
    StepDone(s, c, now, f.settle);
  }

  /** The entry that a request will be answered from, if the cache answers it. */
  ghost function Hit(s: State, req: Request, admitted: Time, f: Flags): Option<Item>
    requires !req.NewItem?
  {
    match Admit(req, s.reservations, admitted, !f.admit)
    case Ok(Proceed(r)) => Found(s, CacheRead(req, r), f)
    case _ => None
  }

  /** All steps of a client that arrives and is left alone. */
  ghost function SoloRun(s: State, c: Client, req: Request, admitted: Time, decided: Time, f: Flags): State
    requires !req.NewItem?
  {
    Run(s, [Arrive(c, req), Step(c, admitted, f.admit)] + SoloSteps(c, Hit(s, req, admitted, f).Some?, f, decided))
  }

  /** Where a client stands once it has been admitted or refused. */
  lemma AloneEnters(s: State, c: Client, req: Request, admitted: Time, decided: Time, f: Flags) returns (t: State)
    requires Inv(s) && c !in s.procs && !req.NewItem?
    ensures SoloRun(s, c, req, admitted, decided, f) == Run(t, SoloSteps(c, Hit(s, req, admitted, f).Some?, f, decided))
    ensures Inv(t) && c in t.procs && t.items == s.items && t.reservations == s.reservations && t.cache == s.cache
    ensures match Admit(req, s.reservations, admitted, !f.admit)
            case Err(e) => t.procs[c] == Done(Some(e))
            case Ok(NothingToDo) => t.procs[c] == Done(None)
            case Ok(Proceed(r)) => t.procs[c] == CacheRead(req, r)
  {
    var arrive, enter := Arrive(c, req), Step(c, admitted, f.admit);
    var rest := SoloSteps(c, Hit(s, req, admitted, f).Some?, f, decided);
    var s1 := s.(procs := s.procs[c := Begin(req)]);
    t := AdvanceBegin(s1, c, req, admitted, f.admit);
    assert s1 == Next(s, arrive) && t == Next(s1, enter);
    assert [arrive, enter] + rest == [arrive] + ([enter] + rest);
    RunHead(s, arrive, [enter] + rest);
    RunHead(s1, enter, rest);
    JumpKeepsInv(s, c, Begin(req));
    BeginKeepsInv(s1, c, req, admitted, f.admit);
    BeginEffect(s1, c, req, admitted, f.admit);
  }

  /** A use case whose client is left alone is the transaction its comments ask for, access by access and
      fault by fault, whatever the cache does, as long as an entry it is answered from is the current row. */
  lemma AloneMeansAtomic(s: State, c: Client, req: Request, admitted: Time, decided: Time, f: Flags)
    requires Inv(s) && c !in s.procs && !req.NewItem?
    requires var hit := Hit(s, req, admitted, f);
             hit.Some? ==> hit.value.id in s.items && s.items[hit.value.id] == hit.value
    ensures Agrees(SoloRun(s, c, req, admitted, decided, f), c,
                   Transact(req, s.items, s.reservations, admitted, decided, FaultsOf(f, Hit(s, req, admitted, f).Some?)))
  {
    var t := AloneEnters(s, c, req, admitted, decided, f);
    var admission := Admit(req, s.reservations, admitted, !f.admit);
    if admission.Ok? && admission.value.Proceed? {
      var r := admission.value.reservation;
      AloneFinishes(s, t, c, req, r, decided, f);
      TransactFinishes(req, s.items, s.reservations, admitted, decided, FaultsOf(f, Hit(s, req, admitted, f).Some?), r);
    } else {
      AloneStops(s, t, c, req, admitted, decided, f);
    }
  }

  lemma AloneFinishes(s: State, t: State, c: Client, req: Request, r: Option<Reservation>, decided: Time, f: Flags)
    requires Inv(t) && c in t.procs && t.procs[c] == CacheRead(req, r)
    requires t.items == s.items && t.reservations == s.reservations && t.cache == s.cache
    requires var entry := Found(s, CacheRead(req, r), f);
             entry.Some? ==> entry.value.id in s.items && s.items[entry.value.id] == entry.value
    ensures Matches(req, r) && !req.NewItem?
    ensures var hit := Found(s, CacheRead(req, r), f).Some?;
            Agrees(Run(t, SoloSteps(c, hit, f, decided)), c,
                   Finish(req, r, s.items, s.reservations, decided, FaultsOf(f, hit)))
  {
    SoloFinish(t, c, decided, f);
  }

  lemma AloneStops(s: State, t: State, c: Client, req: Request, admitted: Time, decided: Time, f: Flags)
    requires !req.NewItem? && t.items == s.items && t.reservations == s.reservations && c in t.procs
    requires match Admit(req, s.reservations, admitted, !f.admit)
             case Err(e) => t.procs[c] == Done(Some(e))
             case Ok(NothingToDo) => t.procs[c] == Done(None)
             case Ok(Proceed(_)) => false
    ensures Hit(s, req, admitted, f) == None
    ensures Agrees(Run(t, SoloSteps(c, false, f, decided)), c,
                   Transact(req, s.items, s.reservations, admitted, decided, FaultsOf(f, false)))
  {
    SoloStopped(t, c, decided, f);
  }

  lemma TransactFinishes(
    req: Request, items: ItemRows, rs: ReservationRows, admitted: Time, decided: Time, faults: Faults, r: Option<Reservation>)
    requires !req.NewItem? && Admit(req, rs, admitted, faults.first) == Ok(Proceed(r)) && Matches(req, r)
    ensures Transact(req, items, rs, admitted, decided, faults) == Finish(req, r, items, rs, decided, faults)
  {
  }

  /** A client that is answered from a stale entry is refused and changes neither table: by the rules if they
      refuse the stale copy, otherwise by the version check, if the database can be reached. */
  lemma StaleMeansRefused(s: State, c: Client, req: Request, admitted: Time, decided: Time, f: Flags)
    requires Inv(s) && c !in s.procs && !req.NewItem?
    requires var hit := Hit(s, req, admitted, f);
             hit.Some? && hit.value.id in s.items && s.items[hit.value.id] != hit.value
    ensures var hit := Hit(s, req, admitted, f).value;
            var r := Admit(req, s.reservations, admitted, !f.admit).value.reservation;
            && Matches(req, r)
            && Agrees(SoloRun(s, c, req, admitted, decided, f), c,
                      Outcome(s.items, s.reservations, Some(StaleError(req, r, hit, decided, f))))
  {
    var t := AloneEnters(s, c, req, admitted, decided, f);
    SoloRefused(t, c, decided, f);
  }

  // ---- Two clients on one reservation ----

  ghost predicate OnlyBy(events: seq<Event>, c: Client) {
    forall i :: 0 <= i < |events| ==> events[i].Step? && events[i].client == c
  }

  /** `t` is reached from `s` by steps of `c` alone. */
  ghost predicate LeadsTo(s: State, c: Client, t: State) {
    exists events :: OnlyBy(events, c) && t == Run(s, events)
  }

  /** Steps of one client leave every other client where it was. */
  lemma {:induction false} OthersWait(s: State, events: seq<Event>, a: Client, b: Client)
    requires a != b && a in s.procs && b in s.procs && OnlyBy(events, a)
    ensures var t := Run(s, events); a in t.procs && b in t.procs && t.procs[b] == s.procs[b]
    decreases |events|
  {
    if events != [] {
      var init, e := events[..|events| - 1], events[|events| - 1];
      OthersWait(s, init, a, b);
      AdvanceMovesOne(Run(s, init), a, e.now, e.ok);
    }
  }

  lemma LeadsToKeeps(s: State, a: Client, t: State, b: Client)
    requires Inv(s) && LeadsTo(s, a, t) && a != b && a in s.procs && b in s.procs
    ensures Inv(t) && b in t.procs && t.procs[b] == s.procs[b]
  {
    var events :| OnlyBy(events, a) && t == Run(s, events);
    RunKeepsInv(s, events);
    OthersWait(s, events, a, b);
  }

  lemma LeadsToReachable(s: State, c: Client, t: State)
    requires Reachable(s) && LeadsTo(s, c, t)
    ensures Reachable(t)
  {
    var items: ItemRows, reservations: ReservationRows, before: seq<Event> :|
      ItemTable(items) && ReservationTable(reservations) && s == Run(Start(items, reservations), before);
    var events :| OnlyBy(events, c) && t == Run(s, events);
    RunAppend(Start(items, reservations), before, events);
  }

  /** Nothing fails, and the cache is not there. */
  const MISSING := Flags(true, false, true, false, false, true, true, true)

  lemma SoloOutcome(s: State, c: Client, now: Time, o: Outcome) returns (t: State)
    requires Inv(s) && c in s.procs && s.procs[c].CacheRead?
    requires var p := s.procs[c];
             && Matches(p.req, p.r) && !p.req.NewItem?
             && o == Finish(p.req, p.r, s.items, s.reservations, now, NO_FAULTS)
    ensures LeadsTo(s, c, t) && Agrees(t, c, o)
  {
    var events := SoloSteps(c, false, MISSING, now);
    t := Run(s, events);
    MissFinishes(s, c, now, MISSING);
    assert OnlyBy(events, c);
  }

  /** Confirming an active reservation of quantity q succeeds without interference exactly when q is reserved. */
  lemma ConfirmAlone(items: ItemRows, rs: ReservationRows, r: Reservation, now: Time)
    requires ItemTable(items) && r.itemId in items && items[r.itemId].version < INT32_MAX
    requires r.id in rs && r.IsActive(now) && 0 < r.quantity <= INT32_MAX
    ensures Finish(ConfirmStock(r.id), Some(r), items, rs, now, NO_FAULTS) == ConfirmResult(items, rs, r)
  {
  }

  function ConfirmResult(items: ItemRows, rs: ReservationRows, r: Reservation): Outcome
    requires r.itemId in items && Storable(items[r.itemId]) && items[r.itemId].version < INT32_MAX && 0 < r.quantity
  {
    var row, q := items[r.itemId], r.quantity;
    if q <= row.reserved then
      Outcome(items[r.itemId := Item(row.id, row.productId, row.quantity - q, row.reserved - q, row.version + 1)],
              rs[r.id := r.(status := Confirmed)], None)
    else Outcome(items, rs, Some(InvalidReservationConfirm))
  }

  lemma ConfirmOutcome(s: State, r: Reservation, now: Time) returns (o: Outcome)
    requires Inv(s) && r.id in s.reservations && r.IsActive(now) && 0 < r.quantity <= INT32_MAX
    requires r.itemId in s.items && s.items[r.itemId].version < INT32_MAX
    ensures Storable(s.items[r.itemId]) && o == ConfirmResult(s.items, s.reservations, r)
    ensures o == Finish(ConfirmStock(r.id), Some(r), s.items, s.reservations, now, NO_FAULTS)
  {
    assert ItemTable(s.items) && ReservationTable(s.reservations);
    o := ConfirmResult(s.items, s.reservations, r);
    ConfirmAlone(s.items, s.reservations, r, now);
  }

  lemma ConfirmSeen(s: State, t: State, c: Client, r: Reservation)
    requires r.itemId in s.items && Storable(s.items[r.itemId]) && s.items[r.itemId].version < INT32_MAX && 0 < r.quantity
    requires Agrees(t, c, ConfirmResult(s.items, s.reservations, r))
    ensures c in t.procs
    ensures var row, q := s.items[r.itemId], r.quantity;
            if q <= row.reserved then
              && t.items == s.items[r.itemId := Item(row.id, row.productId, row.quantity - q, row.reserved - q, row.version + 1)]
              && t.reservations == s.reservations[r.id := r.(status := Confirmed)]
              && t.procs[c] == Done(None)
            else t.items == s.items && t.reservations == s.reservations && t.procs[c].Done? && t.procs[c].error.Some?
  {
  }

  /** An admitted confirm that is left alone without the cache deducts its units exactly if that many are
      reserved on the item now, whatever has become of its reservation since. */
  lemma SoloConfirm(s: State, c: Client, r: Reservation, now: Time) returns (t: State)
    requires Inv(s) && c in s.procs && s.procs[c] == CacheRead(ConfirmStock(r.id), Some(r))
    requires r.id in s.reservations && r.IsActive(now) && 0 < r.quantity <= INT32_MAX
    requires r.itemId in s.items && s.items[r.itemId].version < INT32_MAX
    ensures LeadsTo(s, c, t) && c in t.procs && Storable(s.items[r.itemId])
    ensures var row, q := s.items[r.itemId], r.quantity;
            if q <= row.reserved then
              && t.items == s.items[r.itemId := Item(row.id, row.productId, row.quantity - q, row.reserved - q, row.version + 1)]
              && t.reservations == s.reservations[r.id := r.(status := Confirmed)]
              && t.procs[c] == Done(None)
            else t.items == s.items && t.reservations == s.reservations && t.procs[c].Done? && t.procs[c].error.Some?
  {
    var o := ConfirmOutcome(s, r, now);
    t := SoloOutcome(s, c, now, o);
    ConfirmSeen(s, t, c, r);
  }

  /** One schedule: two confirms that both read one reservation as active, and then run alone, first the one
      and then the other, without the cache. Both go through exactly when the item has twice the quantity
      reserved; the units are then deducted twice. */
  lemma TwoConfirms(s: State, a: Client, b: Client, r: Reservation, now: Time) returns (t: State, u: State)
    requires Inv(s) && a != b && a in s.procs && b in s.procs
    requires s.procs[a] == CacheRead(ConfirmStock(r.id), Some(r)) && s.procs[b] == CacheRead(ConfirmStock(r.id), Some(r))
    requires r.id in s.reservations && r.IsActive(now) && 0 < r.quantity <= INT32_MAX && r.itemId in s.items
    requires s.items[r.itemId].version + 1 < INT32_MAX && r.quantity <= s.items[r.itemId].reserved
    ensures LeadsTo(s, a, t) && LeadsTo(t, b, u)
    ensures a in t.procs && t.procs[a] == Done(None) && b in u.procs && r.itemId in u.items
    ensures u.procs[b] == Done(None) <==> 2 * r.quantity <= s.items[r.itemId].reserved
    ensures u.procs[b] == Done(None) ==>
              && u.items[r.itemId].quantity == s.items[r.itemId].quantity - 2 * r.quantity
              && u.items[r.itemId].reserved == s.items[r.itemId].reserved - 2 * r.quantity
    ensures u.reservations == s.reservations[r.id := r.(status := Confirmed)]
  {
    t := SoloConfirm(s, a, r, now);
    LeadsToKeeps(s, a, t, b);
    u := SoloConfirm(t, b, r, now);
  }

  lemma StartReachable(items: ItemRows, rs: ReservationRows)
    requires ItemTable(items) && ReservationTable(rs)
    ensures Reachable(Start(items, rs))
  {
    assert Run(Start(items, rs), []) == Start(items, rs);
  }

  lemma NextReachable(s: State, e: Event, t: State)
    requires Reachable(s) && t == Next(s, e)
    ensures Reachable(t)
  {
    var items: ItemRows, reservations: ReservationRows, before: seq<Event> :|
      ItemTable(items) && ReservationTable(reservations) && s == Run(Start(items, reservations), before);
    assert (before + [e])[..|before|] == before;
    assert t == Run(Start(items, reservations), before + [e]);
  }

  lemma Enter(s: State, c: Client, r: Reservation) returns (t: State)
    requires Reachable(s) && c !in s.procs
    requires r.id in s.reservations && s.reservations[r.id] == r && r.IsActive(0)
    ensures Reachable(t) && t == s.(procs := s.procs[c := CacheRead(ConfirmStock(r.id), Some(r))])
  {
    var req := ConfirmStock(r.id);
    var s1 := s.(procs := s.procs[c := Begin(req)]);
    NextReachable(s, Arrive(c, req), s1);
    t := AdvanceBegin(s1, c, req, 0, true);
    NextReachable(s1, Step(c, 0, true), t);
    assert t.procs == s.procs[c := CacheRead(req, Some(r))];
  }

  lemma TwoReaders(items: ItemRows, rs: ReservationRows, r: Reservation) returns (s: State)
    requires ItemTable(items) && ReservationTable(rs)
    requires r.id in rs && rs[r.id] == r && r.IsActive(0)
    ensures Reachable(s) && Inv(s) && s.items == items && s.reservations == rs && s.procs.Keys == {0, 1}
    ensures s.procs[0] == CacheRead(ConfirmStock(r.id), Some(r)) && s.procs[1] == CacheRead(ConfirmStock(r.id), Some(r))
  {
    StartReachable(items, rs);
    var s1 := Enter(Start(items, rs), 0, r);
    s := Enter(s1, 1, r);
    ReachableInv(s);
  }

  /** Two confirms of one reservation that interleave, from any consistent database with twice its units
      reserved: the units are deducted twice. */
  lemma SettledTwice(items: ItemRows, rs: ReservationRows, r: Reservation) returns (s: State)
    requires ItemTable(items) && ReservationTable(rs) && r.id in rs && rs[r.id] == r && r.IsActive(0)
    requires 0 < r.quantity <= INT32_MAX && r.itemId in items && items[r.itemId].version + 1 < INT32_MAX
    requires 2 * r.quantity <= items[r.itemId].reserved
    ensures Reachable(s) && r.itemId in s.items && s.reservations == rs[r.id := r.(status := Confirmed)]
    ensures s.items[r.itemId].quantity == items[r.itemId].quantity - 2 * r.quantity
    ensures s.items[r.itemId].reserved == items[r.itemId].reserved - 2 * r.quantity
  {
    var both := TwoReaders(items, rs, r);
    var t, u := TwoConfirms(both, 0, 1, r, 0);
    LeadsToReachable(both, 0, t);
    LeadsToReachable(t, 1, u);
    s := u;
  }

  /** So the reserved count does drift in interleaved runs: here two confirms of one reservation use
      up the four units of another, which stays pending with nothing reserved for it. */
  lemma DoubleSettlementHappens() returns (s: State)
    ensures Reachable(s)
    ensures 1 in s.items && s.items[1].reserved == 0 && s.items[1].quantity == 0
    ensures 6 in s.reservations && s.reservations[6] == Reservation(6, 1, 101, 4, Pending, 1000)
    ensures Apply(s.items[1], Confirm(4)) == Err(InvalidReservationConfirm)
  {
    var r5, r6 := Reservation(5, 1, 100, 4, Pending, 1000), Reservation(6, 1, 101, 4, Pending, 1000);
    s := SettledTwice(map[1 := Item(1, 10, 8, 8, 1)], map[5 := r5, 6 := r6], r5);
  }
}
