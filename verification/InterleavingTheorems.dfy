/** What the invariant of the interleaved machine means for whole runs. */
module InterleavingTheorems {
  import opened Common
  import opened InventoryItems
  import opened Reservations
  import opened Repositories
  import opened UseCaseRules
  import opened Interleaving
  import opened InterleavingProofs

  /** The state a run from a consistent database has reached. */
  ghost predicate Reachable(s: State) {
    exists items: ItemRows, reservations: ReservationRows, events: seq<Event> ::
      ItemTable(items) && ReservationTable(reservations) && s == Run(Start(items, reservations), events)
  }

  lemma ReachableInv(s: State)
    requires Reachable(s)
    ensures Inv(s)
  {
    var items: ItemRows, reservations: ReservationRows, events: seq<Event> :|
      ItemTable(items) && ReservationTable(reservations) && s == Run(Start(items, reservations), events);
    EveryRunKeepsInv(items, reservations, events);
  }

  // ---- No lost update ----

  /** `e` is the write of a client whose copy is exactly the row its operation replaces. */
  ghost predicate WritesFromCurrent(s: State, t: State, e: Event) {
    && e.Step? && e.client in s.procs && s.procs[e.client].Write?
    && var p := s.procs[e.client];
       && Matches(p.req, p.r) && !p.req.NewItem?
       && p.item.id in s.items && p.item == s.items[p.item.id]
       && Appends(s, t, CommitOf(e.client, p), Written(p.item, CommitOf(e.client, p)))
  }

  ghost predicate SavesNewItem(s: State, t: State, e: Event) {
    && e.Step? && e.client in s.procs && s.procs[e.client].Begin?
    && e.client in t.procs && t.procs[e.client].FillFirst?
    && Creates(s, t, t.procs[e.client].item)
  }

  ghost predicate Increments(s: State, t: State, e: Event) {
    && e.IncrementVersion? && e.id in t.items && t.items[e.id].id == e.id
    && Appends(s, t, VersionOnly, t.items[e.id])
  }

  lemma StepEffect(s: State, c: Client, now: Time, ok: bool)
    requires Inv(s) && c in s.procs
    ensures var t := Advance(s, c, s.procs[c], now, ok);
            Quiet(s, t) || SavesNewItem(s, t, Step(c, now, ok)) || WritesFromCurrent(s, t, Step(c, now, ok))
  {
    match s.procs[c]
    case Write(_, _, _) => WriteEffect(s, c, now, ok);
    case Begin(req) => BeginEffect(s, c, req, now, ok);
    case _ => QuietStep(s, c, now, ok);
  }

  lemma QuietStep(s: State, c: Client, now: Time, ok: bool)
    requires c in s.procs && !s.procs[c].Write? && !s.procs[c].Begin?
    ensures Quiet(s, Advance(s, c, s.procs[c], now, ok))
  {
    match s.procs[c]
    case CacheRead(_, _) =>
    case StoreRead(_, _) =>
    case FillFirst(_, _, _) =>
    case FillSecond(_, _, _) =>
    case Invalidate(_, _) =>
    case Settle(_, _) =>
    case Done(_) =>
    case Crashed =>
  }

  /** An event either leaves all rows alone or is one of the three kinds of row write. */
  ghost predicate RowEffect(s: State, t: State, e: Event) {
    Quiet(s, t) || SavesNewItem(s, t, e) || WritesFromCurrent(s, t, e) || Increments(s, t, e)
  }

  lemma IncrementEffect(s: State, id: Uuid)
    requires Inv(s)
    ensures var t := Next(s, IncrementVersion(id)); Quiet(s, t) || Increments(s, t, IncrementVersion(id))
  {
  }

  lemma NextEffect(s: State, e: Event)
    requires Inv(s)
    ensures RowEffect(s, Next(s, e), e)
  {
    match e
    case Step(c, now, ok) => if c in s.procs { StepEffect(s, c, now, ok); }
    case IncrementVersion(id) => IncrementEffect(s, id);
    case _ =>
  }

  lemma EffectIsLawful(s: State, t: State, e: Event, id: Uuid)
    requires ItemTable(s.items) && s.items.Keys == s.history.Keys && id in s.items && RowEffect(s, t, e)
    ensures id in t.items
    ensures var before, after := s.items[id], t.items[id];
            && (after != before ==> after.version == before.version + 1)
            && (after != before && !e.IncrementVersion? ==>
                  && e.Step? && e.client in s.procs && s.procs[e.client].Write?
                  && var p := s.procs[e.client];
                     && p.item == before && Matches(p.req, p.r) && !p.req.NewItem?
                     && Apply(before, OpOf(p.req, p.r)).Ok?
                     && after == Bump(Apply(before, OpOf(p.req, p.r)).value))
            && (after != before && e.IncrementVersion? ==> after == Bump(before))
  {
  }

  /** No lost update: whatever the interleaving, the crashes and the cache, a row only ever changes
      by an operation computed from exactly the row it replaces, or by a bare version increment. */
  lemma NoLostUpdate(s: State, e: Event, id: Uuid)
    requires Reachable(s) && id in s.items
    ensures id in Next(s, e).items
    ensures var before, after := s.items[id], Next(s, e).items[id];
            && (after != before ==> after.version == before.version + 1)
            && (after != before && !e.IncrementVersion? ==>
                  && e.Step? && e.client in s.procs && s.procs[e.client].Write?
                  && var p := s.procs[e.client];
                     && p.item == before && Matches(p.req, p.r) && !p.req.NewItem?
                     && Apply(before, OpOf(p.req, p.r)).Ok?
                     && after == Bump(Apply(before, OpOf(p.req, p.r)).value))
            && (after != before && e.IncrementVersion? ==> after == Bump(before))
  {
    ReachableInv(s);
    NextEffect(s, e);
    EffectIsLawful(s, Next(s, e), e, id);
  }

  // ---- Rows as folds, and the ledger ----

  /** A genuine trail ends in the fold of its commits, and its counts account for every unit. */
  lemma {:induction false} TrailFolds(t: Trail)
    requires Genuine(t)
    ensures var row := t.rows[|t.commits|];
            && row == Replay(t.rows[0], t.commits)
            && Storable(row)
            && row.quantity == t.rows[0].quantity
                               + Units(t.commits, Restocks) - Units(t.commits, Confirms) - Units(t.commits, Decrements)
            && row.reserved == t.rows[0].reserved
                               + Units(t.commits, Reserves) - Units(t.commits, Confirms) - Units(t.commits, Releases)
    decreases |t.commits|
  {
    if t.commits != [] {
      var n := |t.commits| - 1;
      var shorter := Trail(t.rows[..n + 1], t.commits[..n]);
      TrailFolds(shorter);
      CommitKeepsIdentity(t.rows[n], t.commits[n]);
      if t.commits[n].Applied? {
        OperationKeepsBounds(t.rows[n], t.commits[n].op);
      }
    }
  }

  /** The unit ledger. In every reachable state each row is the fold of its commits in commit order,
      its counts obey 0 <= reserved <= quantity, and every unit is accounted for. */
  lemma UnitLedger(s: State, id: Uuid)
    requires Reachable(s) && id in s.items
    ensures id in s.history && |s.history[id].rows| > 0
    ensures var row, first, log := s.items[id], s.history[id].rows[0], s.history[id].commits;
            && row == Replay(first, log)
            && 0 <= row.reserved <= row.quantity
            && row.quantity == first.quantity + Units(log, Restocks) - Units(log, Confirms) - Units(log, Decrements)
            && row.reserved == first.reserved + Units(log, Reserves) - Units(log, Confirms) - Units(log, Releases)
  {
    ReachableInv(s);
    assert TrailOf(s.history[id], s.items[id]);
    TrailFolds(s.history[id]);
  }

  ghost predicate StartsRight(items: ItemRows, s: State) {
    && items.Keys <= s.items.Keys
    && forall id :: id in s.history ==>
         && |s.history[id].rows| > 0
         && var first := s.history[id].rows[0];
            if id in items then first == items[id] else first.reserved == 0 && first.version == 1
  }

  lemma EffectStartsRight(items: ItemRows, s: State, t: State, e: Event)
    requires StartsRight(items, s) && RowEffect(s, t, e) && s.history.Keys == s.items.Keys
    ensures StartsRight(items, t)
  {
  }

  /** The ledger starts at the row found in the database, or at the row of a newly saved item, which
      has nothing reserved. */
  lemma {:induction false} LedgerStart(items: ItemRows, reservations: ReservationRows, events: seq<Event>)
    requires ItemTable(items) && ReservationTable(reservations)
    ensures StartsRight(items, Run(Start(items, reservations), events))
    decreases |events|
  {
    if events != [] {
      var init, e := events[..|events| - 1], events[|events| - 1];
      var before := Run(Start(items, reservations), init);
      LedgerStart(items, reservations, init);
      EveryRunKeepsInv(items, reservations, init);
      NextEffect(before, e);
      EffectStartsRight(items, before, Next(before, e), e);
    }
  }

  // ---- Stale caches ----

  /** A trail stays, grows by the row now current, or begins with it. */
  ghost predicate TrailGrew(h: History, g: History, items: ItemRows, id: Uuid)
    requires id in g && id in items
  {
    || (id in h && g[id] == h[id])
    || (id in h && g[id].rows == h[id].rows + [items[id]] && h[id].commits <= g[id].commits)
    || (id !in h && g[id].rows == [items[id]])
  }

  lemma EffectGrowsTrails(s: State, t: State, e: Event)
    requires RowEffect(s, t, e) && s.history.Keys == s.items.Keys
    ensures s.history.Keys <= t.history.Keys == t.items.Keys
    ensures forall id :: id in t.history ==> TrailGrew(s.history, t.history, t.items, id)
  {
  }

  lemma TrailRowOldOrCurrent(h: History, g: History, items: ItemRows, id: Uuid, k: nat)
    requires id in g && id in items && TrailGrew(h, g, items, id) && k < |g[id].rows| && g[id].rows[k] != items[id]
    ensures id in h && k < |h[id].rows| && h[id].rows[k] == g[id].rows[k]
  {
  }

  ghost predicate CurrentAt(s0: State, events: seq<Event>, n: nat, row: Item)
    requires n <= |events|
  {
    row.id in Run(s0, events[..n]).items && Run(s0, events[..n]).items[row.id] == row
  }

  /** Every row of a trail was the current row at some moment of the run. */
  lemma {:induction false} TrailRowsWereCurrent(s0: State, events: seq<Event>, id: Uuid, k: nat) returns (n: nat)
    requires Inv(s0) && (forall i :: i in s0.history ==> |s0.history[i].commits| == 0)
    requires id in Run(s0, events).history && k < |Run(s0, events).history[id].rows|
    ensures n <= |events| && CurrentAt(s0, events, n, Run(s0, events).history[id].rows[k])
    decreases |events|
  {
    var s := Run(s0, events);
    RunKeepsInv(s0, events);
    var row := s.history[id].rows[k];
    if row == s.items[id] {
      n := |events|;
      assert events[..n] == events;
    } else {
      assert events != [] by {
        assert TrailOf(s.history[id], s.items[id]);
      }
      var init, e := events[..|events| - 1], events[|events| - 1];
      RunKeepsInv(s0, init);
      NextEffect(Run(s0, init), e);
      EffectGrowsTrails(Run(s0, init), s, e);
      TrailRowOldOrCurrent(Run(s0, init).history, s.history, s.items, id, k);
      n := TrailRowsWereCurrent(s0, init, id, k);
      assert init[..n] == events[..n];
    }
  }

  /** A stale cache is harmless. Whatever fills, evictions and invalidations raced, an entry under a
      key is the row of the item that key names as it was current at some moment of the run; and a
      client that took it can only commit if it is still the current row. */
  lemma {:induction false} CacheHoldsPastRows(
    items: ItemRows, reservations: ReservationRows, events: seq<Event>, key: ItemKey)
    requires ItemTable(items) && ReservationTable(reservations)
    requires key in Run(Start(items, reservations), events).cache
    ensures var s := Run(Start(items, reservations), events);
            && KeyFits(key, s.cache[key])
            && exists n :: 0 <= n <= |events| && CurrentAt(Start(items, reservations), events, n, s.cache[key])
  {
    var s0 := Start(items, reservations);
    EveryRunKeepsInv(items, reservations, []);
    EveryRunKeepsInv(items, reservations, events);
    var entry := Run(s0, events).cache[key];
    assert PastRow(Run(s0, events).history, entry);
    var k :| 0 <= k < |Run(s0, events).history[entry.id].rows| && Run(s0, events).history[entry.id].rows[k] == entry;
    var n := TrailRowsWereCurrent(s0, events, entry.id, k);
  }

  // ---- At most one of two ----

  predicate PastReading(p: Proc) {
    !p.Begin? && !p.CacheRead? && !p.StoreRead?
  }

  /** `c` has read its copy, still has it or has used it, and whatever it committed it computed from `x`. */
  ghost predicate CommitsOnlyFrom(h: History, c: Client, x: Item) {
    forall id, commit :: id in h && commit in h[id].commits && CommitBy(commit, c) ==> commit.read == x
  }

  /** Once a client has its copy it keeps it until it writes, and never gets another. */
  predicate KeepsCopy(p: Proc, q: Proc) {
    PastReading(p) ==> PastReading(q) && (Copy(q).Some? ==> Copy(q) == Copy(p))
  }

  /** A step moves its own client only, and as `KeepsCopy` says. */
  ghost predicate MovesOne(s: State, t: State, c: Client)
    requires c in s.procs
  {
    c in t.procs && t.procs == s.procs[c := t.procs[c]] && KeepsCopy(s.procs[c], t.procs[c])
  }

  lemma BeginMovesOne(s: State, c: Client, req: Request, now: Time, ok: bool)
    requires c in s.procs && s.procs[c] == Begin(req)
    ensures MovesOne(s, AdvanceBegin(s, c, req, now, ok), c)
  {
  }

  lemma StoreReadMovesOne(s: State, c: Client, req: Request, r: Option<Reservation>, ok: bool)
    requires c in s.procs && s.procs[c] == StoreRead(req, r)
    ensures MovesOne(s, AdvanceStoreRead(s, c, req, r, ok), c)
  {
  }

  lemma WriteMovesOne(s: State, c: Client, req: Request, r: Option<Reservation>, item: Item, now: Time, ok: bool)
    requires c in s.procs && s.procs[c] == Write(req, r, item)
    ensures MovesOne(s, AdvanceWrite(s, c, req, r, item, now, ok), c)
  {
  }

  lemma SettleMovesOne(s: State, c: Client, req: Request, plan: Plan, ok: bool)
    requires c in s.procs && s.procs[c] == Settle(req, plan)
    ensures MovesOne(s, AdvanceSettle(s, c, req, plan, ok), c)
  {
  }

  lemma AdvanceMovesOne(s: State, c: Client, now: Time, ok: bool)
    requires c in s.procs
    ensures MovesOne(s, Advance(s, c, s.procs[c], now, ok), c)
  {
    match s.procs[c]
    case Begin(req) => BeginMovesOne(s, c, req, now, ok);
    case StoreRead(req, r) => StoreReadMovesOne(s, c, req, r, ok);
    case Write(req, r, item) => WriteMovesOne(s, c, req, r, item, now, ok);
    case Settle(req, plan) => SettleMovesOne(s, c, req, plan, ok);
    case CacheRead(_, _) =>
    case FillFirst(_, _, _) =>
    case FillSecond(_, _, _) =>
    case Invalidate(_, _) =>
    case Done(_) =>
    case Crashed =>
  }

  lemma StepKeepsCopy(s: State, e: Event, c: Client)
    requires c in s.procs
    ensures c in Next(s, e).procs && KeepsCopy(s.procs[c], Next(s, e).procs[c])
  {
    match e
    case Step(d, now, ok) => if d in s.procs { AdvanceMovesOne(s, d, now, ok); }
    case _ =>
  }

  lemma EffectCommitsOnlyFrom(s: State, t: State, e: Event, c: Client, x: Item)
    requires RowEffect(s, t, e) && CommitsOnlyFrom(s.history, c, x)
    requires c in s.procs && (Copy(s.procs[c]).Some? ==> Copy(s.procs[c]) == Some(x))
    ensures CommitsOnlyFrom(t.history, c, x)
  {
  }

  lemma {:induction false} RunCommitsOnlyFrom(s: State, events: seq<Event>, c: Client, x: Item)
    requires Inv(s) && c in s.procs && Copy(s.procs[c]) == Some(x)
    ensures var t := Run(s, events);
            && c in t.procs && PastReading(t.procs[c]) && (Copy(t.procs[c]).Some? ==> Copy(t.procs[c]) == Some(x))
            && CommitsOnlyFrom(t.history, c, x)
    decreases |events|
  {
    if events == [] {
      assert BeforeWrite(s.procs[c]);
      assert NoCommitBy(s.history, c);
    } else {
      var init, e := events[..|events| - 1], events[|events| - 1];
      RunCommitsOnlyFrom(s, init, c, x);
      RunKeepsInv(s, init);
      StepKeepsCopy(Run(s, init), e, c);
      NextEffect(Run(s, init), e);
      EffectCommitsOnlyFrom(Run(s, init), Next(Run(s, init), e), e, c, x);
    }
  }

  ghost predicate HasCommitted(h: History, c: Client, id: Uuid) {
    id in h && exists k :: 0 <= k < |h[id].commits| && CommitBy(h[id].commits[k], c)
  }

  /** In every reachable state no two commits of an item were computed from rows of the same version. */
  lemma OneCommitPerVersion(s: State, id: Uuid, i: nat, j: nat)
    requires Reachable(s) && id in s.history && i < |s.history[id].commits| && j < |s.history[id].commits|
    requires s.history[id].commits[i].Applied? && s.history[id].commits[j].Applied?
    requires s.history[id].commits[i].read.version == s.history[id].commits[j].read.version
    ensures i == j
  {
    ReachableInv(s);
    var t := s.history[id];
    assert TrailOf(t, s.items[id]);
    assert t.rows[i].version == t.commits[i].read.version;
    assert t.rows[j].version == t.commits[j].read.version;
  }

  lemma {:induction false} CommitsOnlyGrow(s: State, events: seq<Event>, id: Uuid)
    requires Inv(s) && id in s.history
    ensures id in Run(s, events).history && s.history[id].commits <= Run(s, events).history[id].commits
    ensures |Run(s, events).history[id].rows| > 0 && |s.history[id].rows| > 0
    ensures Run(s, events).history[id].rows[0] == s.history[id].rows[0]
    decreases |events|
  {
    if events == [] {
      assert TrailOf(s.history[id], s.items[id]);
    } else {
      var init, e := events[..|events| - 1], events[|events| - 1];
      CommitsOnlyGrow(s, init, id);
      RunKeepsInv(s, init);
      NextEffect(Run(s, init), e);
      EffectGrowsTrails(Run(s, init), Run(s, events), e);
      assert TrailGrew(Run(s, init).history, Run(s, events).history, Run(s, events).items, id);
    }
  }

  /** A client that held a copy and later committed did so as the very next commit on the item. */
  lemma {:induction false} CommitsNext(s: State, events: seq<Event>, c: Client, k: nat)
    requires Inv(s) && c in s.procs && Copy(s.procs[c]).Some?
    requires var id := Copy(s.procs[c]).value.id;
             && id in s.history && id in Run(s, events).history
             && k < |Run(s, events).history[id].commits| && CommitBy(Run(s, events).history[id].commits[k], c)
    ensures k == |s.history[Copy(s.procs[c]).value.id].commits|
  {
    var x := Copy(s.procs[c]).value;
    var t := Run(s, events);
    var before, after := s.history[x.id], t.history[x.id];
    CommitsOnlyGrow(s, events, x.id);
    RunCommitsOnlyFrom(s, events, c, x);
    RunKeepsInv(s, events);
    assert after.commits[k].read == x;
    assert TrailOf(after, t.items[x.id]);
    assert after.rows[k] == x;
    assert TrailOf(before, s.items[x.id]);
    assert PastRow(s.history, x);
    assert k <= |before.commits|;
    assert NoCommitBy(s.history, c);
    assert before.commits <= after.commits;
    assert forall j :: 0 <= j < |before.commits| ==> !CommitBy(before.commits[j], c);
  }

  /** Of two clients holding copies of an item, whatever happens next, at most one ever commits: two
      settlements that both read the item before either wrote it never both go through. */
  lemma {:induction false} AtMostOneOfTwoCommits(s: State, events: seq<Event>, a: Client, b: Client)
    requires Reachable(s) && a != b && a in s.procs && b in s.procs
    requires Copy(s.procs[a]).Some? && Copy(s.procs[b]).Some?
    requires Copy(s.procs[a]).value.id == Copy(s.procs[b]).value.id
    ensures var t, id := Run(s, events), Copy(s.procs[a]).value.id;
            !(HasCommitted(t.history, a, id) && HasCommitted(t.history, b, id))
  {
    ReachableInv(s);
    var t, id := Run(s, events), Copy(s.procs[a]).value.id;
    assert PastRow(s.history, Copy(s.procs[a]).value);
    if HasCommitted(t.history, a, id) && HasCommitted(t.history, b, id) {
      var i :| 0 <= i < |t.history[id].commits| && CommitBy(t.history[id].commits[i], a);
      var j :| 0 <= j < |t.history[id].commits| && CommitBy(t.history[id].commits[j], b);
      CommitsNext(s, events, a, i);
      CommitsNext(s, events, b, j);
      assert false;
    }
  }
}
