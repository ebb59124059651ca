/** The reservation protocol with any number of clients taking turns between atomic storage
    accesses, any of them crashing anywhere, in front of a cache that drops, keeps or refuses
    entries at will.

    A run is a sequence of events from a database in any consistent state. The history of an item
    keeps every row it has had and every successful write of its row since the run began. */
module Interleaving {
  import opened Common
  import opened InventoryItems
  import opened Reservations
  import opened Repositories
  import opened UseCaseRules

  type Client = nat

  /** A successful write of an item row: an update by a client from the copy it had read, or a
      bare version increment. */
  datatype Commit = Applied(client: Client, op: Op, read: Item) | VersionOnly

  /** Where a client stands; each value names the storage access it makes next. */
  datatype Proc =
    | Begin(req: Request)
    | CacheRead(req: Request, r: Option<Reservation>)
    | StoreRead(req: Request, r: Option<Reservation>)
    | FillFirst(req: Request, r: Option<Reservation>, item: Item)
    | FillSecond(req: Request, r: Option<Reservation>, item: Item)
    | Write(req: Request, r: Option<Reservation>, item: Item)
    | Invalidate(req: Request, plan: Plan)
    | Settle(req: Request, plan: Plan)
    | Done(error: Option<Error>)
    | Crashed

  /** The rows of one item from first to current, and the commits between them. */
  datatype Trail = Trail(rows: seq<Item>, commits: seq<Commit>)

  type History = map<Uuid, Trail>

  datatype State = State(
    items: ItemRows,
    reservations: ReservationRows,
    cache: map<ItemKey, Item>,
    procs: map<Client, Proc>,
    history: History)

  datatype Event =
    | Arrive(client: Client, req: Request)
    | Step(client: Client, now: Time, ok: bool)   // ok is false when the access fails or, for the cache, misses
    | Crash(client: Client)
    | IncrementVersion(id: Uuid)
    | Evict(key: ItemKey)

  function Start(items: ItemRows, reservations: ReservationRows): State {
    State(items, reservations, map[], map[], map id | id in items :: Trail([items[id]], []))
  }

  ghost function Next(s: State, e: Event): State {
    match e
    case Arrive(c, req) => if c in s.procs then s else s.(procs := s.procs[c := Begin(req)])
    case Step(c, now, ok) => if c in s.procs then Advance(s, c, s.procs[c], now, ok) else s
    case Crash(c) => if c in s.procs then s.(procs := s.procs[c := Crashed]) else s
    case IncrementVersion(id) =>
      var written := IncrementItem(s.items, id, false);
      if written.Ok? && id in s.history && written.value[id].id == id
      then s.(items := written.value, history := Record(s.history, VersionOnly, written.value[id]))
      else s
    case Evict(key) => s.(cache := s.cache - {key})
  }

  ghost function Run(s: State, events: seq<Event>): State
    decreases |events|
  {
    if events == [] then s
    else Next(Run(s, events[..|events| - 1]), events[|events| - 1])
  }

  function Record(h: History, commit: Commit, row: Item): History
    requires row.id in h
  {
    h[row.id := Trail(h[row.id].rows + [row], h[row.id].commits + [commit])]
  }

  function Appear(h: History, item: Item): History {
    h[item.id := Trail([item], [])]
  }

  function Goto(s: State, c: Client, p: Proc): State {
    s.(procs := s.procs[c := p])
  }

  /** One atomic step of a client. */
  ghost function Advance(s: State, c: Client, p: Proc, now: Time, ok: bool): State {
    match p
    case Begin(req) => AdvanceBegin(s, c, req, now, ok)
    case CacheRead(req, r) => AdvanceCacheRead(s, c, req, r, ok)
    case StoreRead(req, r) => AdvanceStoreRead(s, c, req, r, ok)
    case FillFirst(req, r, item) =>
      Fill(Goto(s, c, FillSecond(req, r, item)), FirstKey(req, item), item, ok)
    case FillSecond(req, r, item) =>
      Fill(Goto(s, c, if req.NewItem? then Done(None) else Write(req, r, item)), SecondKey(req, item), item, ok)
    case Write(req, r, item) => AdvanceWrite(s, c, req, r, item, now, ok)
    case Invalidate(req, plan) => AdvanceInvalidate(s, c, req, plan, ok)
    case Settle(req, plan) => AdvanceSettle(s, c, req, plan, ok)
    case Done(_) => s
    case Crashed => s
  }

  function AdvanceCacheRead(s: State, c: Client, req: Request, r: Option<Reservation>, ok: bool): State {
    if !Matches(req, r) then s
    else if ok && KeyOf(req, r) in s.cache then Goto(s, c, Write(req, r, s.cache[KeyOf(req, r)]))
    else Goto(s, c, StoreRead(req, r))
  }

  /** Both keys go in one command. */
  function AdvanceInvalidate(s: State, c: Client, req: Request, plan: Plan, ok: bool): State {
    var left := if ok then s.cache - {ById(plan.item.id), ByProduct(plan.item.productId)} else s.cache;
    Goto(s.(cache := left), c, if plan.reservation.Some? then Settle(req, plan) else Done(None))
  }

  function AdvanceSettle(s: State, c: Client, req: Request, plan: Plan, ok: bool): State {
    if plan.reservation.None? then Goto(s, c, Done(None))
    else match WriteReservation(req, plan.reservation.value, s.reservations, !ok)
      case Ok(rows) => Goto(s.(reservations := rows), c, Done(None))
      case Err(e) => Goto(s, c, Done(Some(e)))
  }

  ghost function AdvanceBegin(s: State, c: Client, req: Request, now: Time, ok: bool): State {
    match Admit(req, s.reservations, now, !ok)
    case Err(e) => Goto(s, c, Done(Some(e)))
    case Ok(NothingToDo) => Goto(s, c, Done(None))
    case Ok(Proceed(r)) =>
      if !req.NewItem? then Goto(s, c, CacheRead(req, r))
      else
        var item := Item(req.id, req.productId, req.quantity, 0, 1);
        match InsertItem(s.items, item, !ok)
        case Err(e) => Goto(s, c, Done(Some(e)))
        case Ok(rows) =>
          if req.id in s.history then s
          else Goto(s.(items := rows, history := Appear(s.history, item)), c, FillFirst(req, r, item))
  }

  ghost function AdvanceStoreRead(s: State, c: Client, req: Request, r: Option<Reservation>, ok: bool): State {
    if !Matches(req, r) then s
    else
      var found := if !ok then Err(StorageError)
                   else match KeyOf(req, r)
                        case ById(id) => FindItem(s.items, id)
                        case ByProduct(productId) => FindItemByProduct(s.items, productId);
      match found
      case Err(e) => Goto(s, c, Done(Some(ItemReadError(req, e))))
      case Ok(item) => Goto(s, c, FillFirst(req, r, item))
  }

  /** Finders fill the key they were asked for first; a newly saved item is filled by id first. */
  function FirstKey(req: Request, item: Item): ItemKey {
    if req.ReserveStock? then ByProduct(item.productId) else ById(item.id)
  }

  function SecondKey(req: Request, item: Item): ItemKey {
    if req.ReserveStock? then ById(item.id) else ByProduct(item.productId)
  }

  function Fill(s: State, key: ItemKey, item: Item, ok: bool): State {
    if ok then s.(cache := s.cache[key := item]) else s
  }

  /** Decide in memory, then compare and swap the item row. */
  ghost function AdvanceWrite(
    s: State, c: Client, req: Request, r: Option<Reservation>, item: Item, now: Time, ok: bool): State
  {
    if !Matches(req, r) || req.NewItem? || item.id !in s.history then s
    else match Decide(req, r, item, now)
      case Err(e) => Goto(s, c, Done(Some(e)))
      case Ok(plan) =>
        match UpdateItem(s.items, plan.item, !ok)
        case Err(e) => Goto(s, c, Done(Some(e)))
        case Ok(rows) =>
          Goto(s.(items := rows, history := Record(s.history, Applied(c, OpOf(req, r), item), rows[item.id])), c,
               Invalidate(req, Plan(plan.item.(version := rows[item.id].version), plan.reservation)))
  }

  // ---- History ----

  /** The row after one more commit. */
  function Written(row: Item, commit: Commit): Item {
    var changed :=
      match commit
      case Applied(_, op, _) => (match Apply(row, op) case Ok(i) => i case Err(_) => row)
      case VersionOnly => row;
    if CanBump(changed) then Bump(changed) else changed
  }

  /** The fold of a row's commits, in commit order. */
  function Replay(row: Item, log: seq<Commit>): Item
    decreases |log|
  {
    if log == [] then row else Written(Replay(row, log[..|log| - 1]), log[|log| - 1])
  }

  /** A commit that could be made on a row: computed from exactly that row, and storable. */
  predicate Possible(row: Item, commit: Commit) {
    && CanBump(row)
    && (commit.Applied? ==>
          commit.read == row && Apply(row, commit.op).Ok? && Storable(Bump(Apply(row, commit.op).value)))
  }

  /** Every row of a trail is what its commit made of the row before it. */
  ghost predicate Genuine(t: Trail) {
    && |t.rows| == |t.commits| + 1
    && Storable(t.rows[0])
    && forall k :: 0 <= k < |t.commits| ==>
         Possible(t.rows[k], t.commits[k]) && t.rows[k + 1] == Written(t.rows[k], t.commits[k])
  }

  datatype Kind = Reserves | Releases | Confirms | Restocks | Decrements

  function KindOf(op: Op): Kind {
    match op
    case Reserve(_) => Reserves
    case Release(_) => Releases
    case Confirm(_) => Confirms
    case AddStock(_) => Restocks
    case DecrementStock(_) => Decrements
  }

  /** The units moved by the commits of one kind. */
  function Units(log: seq<Commit>, kind: Kind): int
    decreases |log|
  {
    if log == [] then 0
    else
      var last := log[|log| - 1];
      Units(log[..|log| - 1], kind) + (if last.Applied? && KindOf(last.op) == kind then last.op.amount else 0)
  }

  /** `item` is the row as it stood at some moment of its trail. */
  ghost predicate PastRow(h: History, item: Item) {
    item.id in h && item in h[item.id].rows
  }

  /** The copy of the item row a client has in hand and has not used yet. */
  function Copy(p: Proc): Option<Item> {
    match p
    case FillFirst(_, _, item) => Some(item)
    case FillSecond(_, _, item) => Some(item)
    case Write(_, _, item) => Some(item)
    case _ => None
  }

  predicate BeforeWrite(p: Proc) {
    p.Begin? || p.CacheRead? || p.StoreRead? || p.FillFirst? || p.FillSecond? || p.Write?
  }

  predicate CommitBy(commit: Commit, c: Client) {
    commit.Applied? && commit.client == c
  }

  // ---- Invariant ----

  /** Every row is the last of a genuine trail, whose rows are numbered by their versions. */
  ghost predicate RowsTrailed(h: History, items: ItemRows) {
    h.Keys == items.Keys && forall id :: id in items ==> TrailOf(h[id], items[id])
  }

  ghost predicate TrailOf(t: Trail, row: Item) {
    && Genuine(t)
    && row == t.rows[|t.commits|]
    && forall k :: 0 <= k < |t.rows| ==> t.rows[k].version == t.rows[0].version + k
  }

  ghost predicate CacheOfPastRows(h: History, cache: map<ItemKey, Item>) {
    forall key :: key in cache ==> PastRow(h, cache[key]) && KeyFits(key, cache[key])
  }

  ghost predicate CopiesOfPastRows(h: History, procs: map<Client, Proc>) {
    forall c :: c in procs && Copy(procs[c]).Some? ==> PastRow(h, Copy(procs[c]).value)
  }

  ghost predicate NoCommitBy(h: History, c: Client) {
    forall id, commit :: id in h && commit in h[id].commits ==> !CommitBy(commit, c)
  }

  /** A client commits at most once: nobody has committed before reaching its write. */
  ghost predicate CommitsOnce(h: History, procs: map<Client, Proc>) {
    forall c :: c !in procs || BeforeWrite(procs[c]) ==> NoCommitBy(h, c)
  }

  /** The copy in a client's hands is of the item its request is about. */
  predicate Prepared(p: Proc) {
    && ((p.CacheRead? || p.StoreRead? || p.FillFirst? || p.FillSecond? || p.Write?) ==> Matches(p.req, p.r))
    && ((p.CacheRead? || p.StoreRead? || p.Write?) ==> !p.req.NewItem?)
    && ((p.FillFirst? || p.FillSecond? || p.Write?) ==> KeyFits(KeyOf(p.req, p.r), p.item))
  }

  ghost predicate AllPrepared(procs: map<Client, Proc>) {
    forall c :: c in procs ==> Prepared(procs[c])
  }

  /** The reservation a client holds: read and not yet settled, or settled and about to be written. */
  function Held(p: Proc): Option<Reservation> {
    match p
    case CacheRead(_, r) => r
    case StoreRead(_, r) => r
    case FillFirst(_, r, _) => r
    case FillSecond(_, r, _) => r
    case Write(_, r, _) => r
    case Invalidate(req, plan) => if req.ReserveStock? then None else plan.reservation
    case Settle(req, plan) => if req.ReserveStock? then None else plan.reservation
    case _ => None
  }

  /** `r` is a copy of its row that differs in the status only. */
  predicate SameButStatus(rows: ReservationRows, r: Reservation) {
    r.id in rows && r == rows[r.id].(status := r.status)
  }

  /** What a client is about to write never makes a reservation pending again. */
  predicate SettlesOrInserts(p: Proc) {
    (p.Invalidate? || p.Settle?) && p.plan.reservation.Some? && !p.req.ReserveStock? ==>
      p.plan.reservation.value.status != Pending
  }

  ghost predicate ReservationsOk(rows: ReservationRows, procs: map<Client, Proc>) {
    && ReservationTable(rows)
    && forall c :: c in procs ==>
         && SettlesOrInserts(procs[c])
         && (Held(procs[c]).Some? ==> SameButStatus(rows, Held(procs[c]).value))
  }

  /** Rows, history and everything read from them. */
  ghost predicate InvRows(items: ItemRows, h: History, cache: map<ItemKey, Item>, procs: map<Client, Proc>) {
    && ItemTable(items)
    && RowsTrailed(h, items)
    && CacheOfPastRows(h, cache)
    && CopiesOfPastRows(h, procs)
    && CommitsOnce(h, procs)
  }

  /** Reservations and what the clients are about to do. */
  ghost predicate InvClients(rows: ReservationRows, procs: map<Client, Proc>) {
    AllPrepared(procs) && ReservationsOk(rows, procs)
  }

  ghost predicate Inv(s: State) {
    InvRows(s.items, s.history, s.cache, s.procs) && InvClients(s.reservations, s.procs)
  }
}
