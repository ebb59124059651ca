/** No lost update, the unit ledger and harmless stale caches, for every interleaved run. */
module InterleavingProofs {
  import opened Common
  import opened InventoryItems
  import opened Reservations
  import opened Repositories
  import opened UseCaseRules
  import opened Interleaving

  // ---- Histories only grow ----

  ghost predicate Extends(h: History, g: History) {
    forall id :: id in h ==> id in g && h[id].rows <= g[id].rows
  }

  lemma PastRowExtends(h: History, g: History, item: Item)
    requires PastRow(h, item) && Extends(h, g)
    ensures PastRow(g, item)
  {
    var k :| 0 <= k < |h[item.id].rows| && h[item.id].rows[k] == item;
    assert g[item.id].rows[k] == item;
  }

  lemma CurrentRowIsPastRow(h: History, items: ItemRows, id: Uuid)
    requires RowsTrailed(h, items) && id in items && items[id].id == id
    ensures PastRow(h, items[id])
  {
    assert TrailOf(h[id], items[id]);
  }

  /** A copy whose version is the current one is the current row. */
  lemma SameVersionSameRow(h: History, items: ItemRows, item: Item)
    requires RowsTrailed(h, items) && PastRow(h, item)
    requires item.id in items && items[item.id].version == item.version
    ensures item == items[item.id]
  {
    assert TrailOf(h[item.id], items[item.id]);
  }

  // ---- What one event does to rows and history ----

  ghost predicate Appends(s: State, t: State, commit: Commit, row: Item) {
    && row.id in s.items && row.id in s.history
    && Possible(s.items[row.id], commit)
    && row == Written(s.items[row.id], commit)
    && t.history == Record(s.history, commit, row)
    && t.items == s.items[row.id := row]
  }

  ghost predicate Creates(s: State, t: State, item: Item) {
    && item.id !in s.history && Storable(item) && item.reserved == 0 && item.version == 1
    && !ProductTaken(s.items, item.productId, item.id)
    && t.history == Appear(s.history, item)
    && t.items == s.items[item.id := item]
  }

  predicate Quiet(s: State, t: State) {
    t.history == s.history && t.items == s.items
  }

  /** A possible commit keeps the identity of the row and yields a storable row, one version up. */
  lemma CommitKeepsIdentity(row: Item, commit: Commit)
    requires Storable(row) && Possible(row, commit)
    ensures var after := Written(row, commit);
            && Storable(after) && after.id == row.id && after.productId == row.productId
            && after.version == row.version + 1
  {
  }

  lemma TrailGrows(t: Trail, commit: Commit, row: Item)
    requires Genuine(t) && Possible(row, commit) && TrailOf(t, row) && Storable(row)
    ensures TrailOf(Trail(t.rows + [Written(row, commit)], t.commits + [commit]), Written(row, commit))
  {
    CommitKeepsIdentity(row, commit);
  }

  lemma RewriteKeepsTable(rows: ItemRows, row: Item)
    requires ItemTable(rows) && Storable(row)
    requires forall other :: other in rows && other != row.id ==> rows[other].productId != row.productId
    ensures ItemTable(rows[row.id := row])
  {
  }

  lemma AppendKeepsRows(s: State, t: State, commit: Commit, row: Item)
    requires ItemTable(s.items) && RowsTrailed(s.history, s.items) && Appends(s, t, commit, row)
    ensures ItemTable(t.items) && RowsTrailed(t.history, t.items) && Extends(s.history, t.history)
  {
    CommitKeepsIdentity(s.items[row.id], commit);
    RewriteKeepsTable(s.items, row);
    assert TrailOf(s.history[row.id], s.items[row.id]);
    TrailGrows(s.history[row.id], commit, s.items[row.id]);
  }

  lemma CreateKeepsRows(s: State, t: State, item: Item)
    requires ItemTable(s.items) && RowsTrailed(s.history, s.items) && Creates(s, t, item)
    ensures ItemTable(t.items) && RowsTrailed(t.history, t.items) && Extends(s.history, t.history)
  {
    RewriteKeepsTable(s.items, item);
    assert TrailOf(Trail([item], []), item);
  }

  /** An optimistic update that goes through was computed from the row it replaces. */
  lemma UpdateCommits(h: History, items: ItemRows, item: Item, op: Op, c: Client)
    requires ItemTable(items) && RowsTrailed(h, items) && PastRow(h, item)
    requires Apply(item, op).Ok? && UpdateItem(items, Apply(item, op).value, false).Ok?
    ensures item.id in items && item == items[item.id] && item.id in h
    ensures Possible(item, Applied(c, op, item))
    ensures Written(item, Applied(c, op, item)).id == item.id
    ensures UpdateItem(items, Apply(item, op).value, false).value == items[item.id := Written(item, Applied(c, op, item))]
  {
    SameVersionSameRow(h, items, item);
    OperationKeepsBounds(item, op);
  }

  /** The commit a client about to write would make. */
  function CommitOf(c: Client, p: Proc): Commit
    requires p.Write? && Matches(p.req, p.r) && !p.req.NewItem?
  {
    Applied(c, OpOf(p.req, p.r), p.item)
  }

  /** A write either fails, or commits an operation computed from exactly the row it replaces. */
  ghost predicate WroteOrFailed(s: State, t: State, c: Client, p: Proc, now: Time)
    requires p.Write? && c in t.procs
  {
    && t.cache == s.cache && t.reservations == s.reservations && t.procs == s.procs[c := t.procs[c]]
    && if t.procs[c].Done? then Quiet(s, t)
       else && t.procs[c].Invalidate? && Matches(p.req, p.r) && !p.req.NewItem?
            && p.item.id in s.items && p.item == s.items[p.item.id]
            && Appends(s, t, CommitOf(c, p), Written(p.item, CommitOf(c, p)))
            && t.procs[c].req == p.req
            && (var decided := Decide(p.req, p.r, p.item, now);
                decided.Ok? && t.procs[c].plan.reservation == decided.value.reservation)
  }

  lemma WriteEffect(s: State, c: Client, now: Time, ok: bool)
    requires Inv(s)
    requires c in s.procs && s.procs[c].Write?
    ensures WroteOrFailed(s, Advance(s, c, s.procs[c], now, ok), c, s.procs[c], now)
  {
    var p := s.procs[c];
    assert Prepared(p) && PastRow(s.history, Copy(p).value);
    var decided := Decide(p.req, p.r, p.item, now);
    if decided.Ok? && UpdateItem(s.items, decided.value.item, !ok).Ok? {
      UpdateCommits(s.history, s.items, p.item, OpOf(p.req, p.r), c);
    }
  }

  lemma BeginEffect(s: State, c: Client, req: Request, now: Time, ok: bool)
    requires s.history.Keys == s.items.Keys
    requires c in s.procs && s.procs[c] == Begin(req)
    ensures var t := AdvanceBegin(s, c, req, now, ok);
            && t.cache == s.cache && t.reservations == s.reservations && t.procs == s.procs[c := t.procs[c]]
            && match t.procs[c]
               case FillFirst(q, r, item) => q == req && req.NewItem? && item.id == req.id && Creates(s, t, item) && r == None
               case CacheRead(q, r) => q == req && Admit(req, s.reservations, now, !ok) == Ok(Proceed(r)) && Quiet(s, t)
               case Done(_) => Quiet(s, t)
               case _ => false
  {
  }

  // ---- The parts of the invariant, one step each ----

  lemma CopiesStep(h: History, g: History, procs: map<Client, Proc>, c: Client, p: Proc)
    requires CopiesOfPastRows(h, procs) && Extends(h, g)
    requires Copy(p).Some? ==> PastRow(g, Copy(p).value)
    ensures CopiesOfPastRows(g, procs[c := p])
  {
    var next := procs[c := p];
    forall d | d in next && Copy(next[d]).Some?
      ensures PastRow(g, Copy(next[d]).value)
    {
      if d != c {
        PastRowExtends(h, g, Copy(procs[d]).value);
      }
    }
  }

  lemma CopiesExtend(h: History, g: History, procs: map<Client, Proc>)
    requires CopiesOfPastRows(h, procs) && Extends(h, g)
    ensures CopiesOfPastRows(g, procs)
  {
    forall c | c in procs && Copy(procs[c]).Some?
      ensures PastRow(g, Copy(procs[c]).value)
    {
      PastRowExtends(h, g, Copy(procs[c]).value);
    }
  }

  lemma CacheStep(h: History, g: History, cache: map<ItemKey, Item>, next: map<ItemKey, Item>)
    requires CacheOfPastRows(h, cache) && Extends(h, g)
    requires forall key :: key in next ==>
               (key in cache && next[key] == cache[key]) || (PastRow(g, next[key]) && KeyFits(key, next[key]))
    ensures CacheOfPastRows(g, next)
  {
    forall key | key in next
      ensures PastRow(g, next[key]) && KeyFits(key, next[key])
    {
      if key in cache && next[key] == cache[key] {
        PastRowExtends(h, g, cache[key]);
      }
    }
  }

  lemma RecordCommitsOnce(h: History, procs: map<Client, Proc>, row: Item, commit: Commit, c: Client, p: Proc)
    requires CommitsOnce(h, procs) && row.id in h
    requires commit.Applied? ==> commit.client == c
    requires BeforeWrite(p) ==> commit.VersionOnly? && (c !in procs || BeforeWrite(procs[c]))
    ensures CommitsOnce(Record(h, commit, row), procs[c := p])
  {
    var g := Record(h, commit, row);
    forall d | NoCommitBy(h, d) && !CommitBy(commit, d)
      ensures NoCommitBy(g, d)
    {
    }
  }

  lemma RecordVersionOnce(h: History, procs: map<Client, Proc>, row: Item)
    requires CommitsOnce(h, procs) && row.id in h
    ensures CommitsOnce(Record(h, VersionOnly, row), procs)
  {
    forall d | NoCommitBy(h, d)
      ensures NoCommitBy(Record(h, VersionOnly, row), d)
    {
    }
  }

  lemma AppearCommitsOnce(h: History, procs: map<Client, Proc>, item: Item, c: Client, p: Proc)
    requires CommitsOnce(h, procs) && item.id !in h
    requires c in procs && BeforeWrite(procs[c])
    ensures CommitsOnce(Appear(h, item), procs[c := p])
  {
    forall d | NoCommitBy(h, d)
      ensures NoCommitBy(Appear(h, item), d)
    {
    }
  }

  lemma RowsQuietStep(items: ItemRows, h: History, cache: map<ItemKey, Item>, procs: map<Client, Proc>,
                      next: map<ItemKey, Item>, c: Client, p: Proc)
    requires InvRows(items, h, cache, procs)
    requires Copy(p).Some? ==> PastRow(h, Copy(p).value)
    requires BeforeWrite(p) ==> c !in procs || BeforeWrite(procs[c])
    requires forall key :: key in next ==>
               (key in cache && next[key] == cache[key]) || (PastRow(h, next[key]) && KeyFits(key, next[key]))
    ensures InvRows(items, h, next, procs[c := p])
  {
    CopiesStep(h, h, procs, c, p);
    CacheStep(h, h, cache, next);
  }

  lemma RowsCommitStep(s: State, t: State, commit: Commit, row: Item, c: Client, p: Proc)
    requires InvRows(s.items, s.history, s.cache, s.procs) && Appends(s, t, commit, row)
    requires commit.Applied? ==> commit.client == c
    requires Copy(p).None? && !BeforeWrite(p)
    ensures InvRows(t.items, t.history, s.cache, s.procs[c := p])
  {
    AppendKeepsRows(s, t, commit, row);
    CopiesStep(s.history, t.history, s.procs, c, p);
    CacheStep(s.history, t.history, s.cache, s.cache);
    RecordCommitsOnce(s.history, s.procs, row, commit, c, p);
  }

  lemma RowsVersionStep(s: State, t: State, row: Item)
    requires InvRows(s.items, s.history, s.cache, s.procs) && Appends(s, t, VersionOnly, row)
    ensures InvRows(t.items, t.history, s.cache, s.procs)
  {
    AppendKeepsRows(s, t, VersionOnly, row);
    CacheStep(s.history, t.history, s.cache, s.cache);
    CopiesExtend(s.history, t.history, s.procs);
    RecordVersionOnce(s.history, s.procs, row);
  }

  lemma RowsCreateStep(s: State, t: State, item: Item, c: Client, p: Proc)
    requires InvRows(s.items, s.history, s.cache, s.procs) && Creates(s, t, item)
    requires c in s.procs && BeforeWrite(s.procs[c])
    requires Copy(p) == Some(item)
    ensures InvRows(t.items, t.history, s.cache, s.procs[c := p])
  {
    CreateKeepsRows(s, t, item);
    CurrentRowIsPastRow(t.history, t.items, item.id);
    CopiesStep(s.history, t.history, s.procs, c, p);
    CacheStep(s.history, t.history, s.cache, s.cache);
    AppearCommitsOnce(s.history, s.procs, item, c, p);
  }

  lemma ClientsStep(rows: ReservationRows, procs: map<Client, Proc>, c: Client, p: Proc)
    requires InvClients(rows, procs) && Prepared(p) && SettlesOrInserts(p)
    requires Held(p).Some? ==> SameButStatus(rows, Held(p).value)
    ensures InvClients(rows, procs[c := p])
  {
  }

  lemma SettleKeepsClients(rows: ReservationRows, procs: map<Client, Proc>, req: Request, w: Reservation, fault: bool)
    requires InvClients(rows, procs)
    requires !req.ReserveStock? ==> SameButStatus(rows, w)
    requires WriteReservation(req, w, rows, fault).Ok?
    ensures InvClients(WriteReservation(req, w, rows, fault).value, procs)
  {
    var after := WriteReservation(req, w, rows, fault).value;
    forall c | c in procs && Held(procs[c]).Some?
      ensures SameButStatus(after, Held(procs[c]).value)
    {
      assert SameButStatus(rows, Held(procs[c]).value);
    }
  }

  // ---- Every event keeps the invariant ----

  lemma BeginKeepsInv(s: State, c: Client, req: Request, now: Time, ok: bool)
    requires Inv(s) && c in s.procs && s.procs[c] == Begin(req)
    ensures Inv(AdvanceBegin(s, c, req, now, ok))
  {
    var t := AdvanceBegin(s, c, req, now, ok);
    BeginEffect(s, c, req, now, ok);
    var p := t.procs[c];
    ClientsStep(s.reservations, s.procs, c, p);
    if p.FillFirst? {
      RowsCreateStep(s, t, p.item, c, p);
    } else {
      RowsQuietStep(s.items, s.history, s.cache, s.procs, s.cache, c, p);
    }
  }

  lemma CacheReadKeepsInv(s: State, c: Client, now: Time, ok: bool)
    requires Inv(s) && c in s.procs && s.procs[c].CacheRead?
    ensures Inv(Advance(s, c, s.procs[c], now, ok))
  {
    var p, t := s.procs[c], Advance(s, c, s.procs[c], now, ok);
    assert Prepared(p) && Held(p) == p.r;
    ClientsStep(s.reservations, s.procs, c, t.procs[c]);
    RowsQuietStep(s.items, s.history, s.cache, s.procs, s.cache, c, t.procs[c]);
  }

  lemma StoreReadKeepsInv(s: State, c: Client, req: Request, r: Option<Reservation>, ok: bool)
    requires Inv(s) && c in s.procs && s.procs[c] == StoreRead(req, r)
    ensures Inv(AdvanceStoreRead(s, c, req, r, ok))
  {
    var p, q := s.procs[c], AdvanceStoreRead(s, c, req, r, ok).procs[c];
    assert Prepared(p) && Held(p) == r;
    if q.FillFirst? {
      CurrentRowIsPastRow(s.history, s.items, q.item.id);
    }
    ClientsStep(s.reservations, s.procs, c, q);
    RowsQuietStep(s.items, s.history, s.cache, s.procs, s.cache, c, q);
  }

  lemma FillFirstKeepsInv(s: State, c: Client, now: Time, ok: bool)
    requires Inv(s) && c in s.procs && s.procs[c].FillFirst?
    ensures Inv(Advance(s, c, s.procs[c], now, ok))
  {
    var p, t := s.procs[c], Advance(s, c, s.procs[c], now, ok);
    assert Prepared(p) && Held(p) == p.r && Copy(p) == Some(p.item);
    ClientsStep(s.reservations, s.procs, c, t.procs[c]);
    RowsQuietStep(s.items, s.history, s.cache, s.procs, t.cache, c, t.procs[c]);
  }

  lemma FillSecondKeepsInv(s: State, c: Client, now: Time, ok: bool)
    requires Inv(s) && c in s.procs && s.procs[c].FillSecond?
    ensures Inv(Advance(s, c, s.procs[c], now, ok))
  {
    var p, t := s.procs[c], Advance(s, c, s.procs[c], now, ok);
    assert Prepared(p) && Held(p) == p.r && Copy(p) == Some(p.item);
    ClientsStep(s.reservations, s.procs, c, t.procs[c]);
    RowsQuietStep(s.items, s.history, s.cache, s.procs, t.cache, c, t.procs[c]);
  }

  lemma WriteKeepsInv(s: State, c: Client, now: Time, ok: bool)
    requires Inv(s) && c in s.procs && s.procs[c].Write?
    ensures Inv(Advance(s, c, s.procs[c], now, ok))
  {
    var p, t := s.procs[c], Advance(s, c, s.procs[c], now, ok);
    assert Prepared(p) && Held(p) == p.r;
    WriteEffect(s, c, now, ok);
    ClientsStep(s.reservations, s.procs, c, t.procs[c]);
    if t.procs[c].Done? {
      RowsQuietStep(s.items, s.history, s.cache, s.procs, s.cache, c, t.procs[c]);
    } else {
      RowsCommitStep(s, t, CommitOf(c, p), Written(p.item, CommitOf(c, p)), c, t.procs[c]);
    }
  }

  lemma InvalidateKeepsInv(s: State, c: Client, now: Time, ok: bool)
    requires Inv(s) && c in s.procs && s.procs[c].Invalidate?
    ensures Inv(Advance(s, c, s.procs[c], now, ok))
  {
    var p, t := s.procs[c], Advance(s, c, s.procs[c], now, ok);
    assert !p.req.ReserveStock? ==> Held(p) == p.plan.reservation;
    ClientsStep(s.reservations, s.procs, c, t.procs[c]);
    RowsQuietStep(s.items, s.history, s.cache, s.procs, t.cache, c, t.procs[c]);
  }

  lemma SettleKeepsInv(s: State, c: Client, now: Time, ok: bool)
    requires Inv(s) && c in s.procs && s.procs[c].Settle?
    ensures Inv(Advance(s, c, s.procs[c], now, ok))
  {
    var p, t := s.procs[c], Advance(s, c, s.procs[c], now, ok);
    if p.plan.reservation.Some? {
      var w := p.plan.reservation.value;
      assert !p.req.ReserveStock? ==> Held(p) == Some(w);
      if WriteReservation(p.req, w, s.reservations, !ok).Ok? {
        SettleKeepsClients(s.reservations, s.procs, p.req, w, !ok);
      }
    }
    ClientsStep(t.reservations, s.procs, c, t.procs[c]);
    RowsQuietStep(s.items, s.history, s.cache, s.procs, s.cache, c, t.procs[c]);
  }

  lemma AdvanceKeepsInv(s: State, c: Client, now: Time, ok: bool)
    requires Inv(s) && c in s.procs
    ensures Inv(Advance(s, c, s.procs[c], now, ok))
  {
    match s.procs[c]
    case Begin(req) => BeginKeepsInv(s, c, req, now, ok);
    case CacheRead(_, _) => CacheReadKeepsInv(s, c, now, ok);
    case StoreRead(req, r) => StoreReadKeepsInv(s, c, req, r, ok);
    case FillFirst(_, _, _) => FillFirstKeepsInv(s, c, now, ok);
    case FillSecond(_, _, _) => FillSecondKeepsInv(s, c, now, ok);
    case Write(_, _, _) => WriteKeepsInv(s, c, now, ok);
    case Invalidate(_, _) => InvalidateKeepsInv(s, c, now, ok);
    case Settle(_, _) => SettleKeepsInv(s, c, now, ok);
    case Done(_) =>
    case Crashed =>
  }

  lemma JumpKeepsInv(s: State, c: Client, p: Proc)
    requires Inv(s) && ((c !in s.procs && p.Begin?) || p.Crashed?)
    ensures Inv(s.(procs := s.procs[c := p]))
  {
    ClientsStep(s.reservations, s.procs, c, p);
    RowsQuietStep(s.items, s.history, s.cache, s.procs, s.cache, c, p);
  }

  lemma IncrementKeepsInv(s: State, id: Uuid)
    requires Inv(s)
    ensures Inv(Next(s, IncrementVersion(id)))
  {
    var t := Next(s, IncrementVersion(id));
    if t.items != s.items {
      RowsVersionStep(s, t, t.items[id]);
    }
  }

  lemma NextKeepsInv(s: State, e: Event)
    requires Inv(s)
    ensures Inv(Next(s, e))
  {
    var t := Next(s, e);
    match e
    case Arrive(c, req) => if c !in s.procs { JumpKeepsInv(s, c, Begin(req)); }
    case Step(c, now, ok) => if c in s.procs { AdvanceKeepsInv(s, c, now, ok); }
    case Crash(c) => if c in s.procs { JumpKeepsInv(s, c, Crashed); }
    case IncrementVersion(id) => IncrementKeepsInv(s, id);
    case Evict(key) => CacheStep(s.history, s.history, s.cache, t.cache);
  }

  lemma {:induction false} RunKeepsInv(s: State, events: seq<Event>)
    requires Inv(s)
    ensures Inv(Run(s, events))
    decreases |events|
  {
    if events != [] {
      RunKeepsInv(s, events[..|events| - 1]);
      NextKeepsInv(Run(s, events[..|events| - 1]), events[|events| - 1]);
    }
  }

  /** The invariant holds throughout every run from every consistent database. */
  lemma {:induction false} EveryRunKeepsInv(items: ItemRows, reservations: ReservationRows, events: seq<Event>)
    requires ItemTable(items) && ReservationTable(reservations)
    ensures Inv(Run(Start(items, reservations), events))
  {
    forall id | id in items
      ensures TrailOf(Trail([items[id]], []), items[id])
    {
    }
    RunKeepsInv(Start(items, reservations), events);
  }
}
