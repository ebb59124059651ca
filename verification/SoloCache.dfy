/** What a client of the interleaved machine does to the cache when it is left alone. */
module SoloCache {
  import opened Common
  import opened InventoryItems
  import opened Reservations
  import opened Repositories
  import opened UseCaseRules
  import opened Interleaving
  import opened InterleavingProofs
  import opened InterleavingTheorems
  import opened SoloRuns

  /** Every entry is the current row of the item its key names. */
  ghost predicate Coherent(items: ItemRows, cache: map<ItemKey, Item>) {
    forall key :: key in cache ==>
      KeyFits(key, cache[key]) && cache[key].id in items && items[cache[key].id] == cache[key]
  }

  function WithoutItem(cache: map<ItemKey, Item>, item: Item): map<ItemKey, Item> {
    cache - {ById(item.id), ByProduct(item.productId)}
  }

  /** Dropping both keys of the item that has changed is enough. */
  lemma DropKeepsCoherent(items: ItemRows, cache: map<ItemKey, Item>, row: Item)
    requires Coherent(items, cache) && row.id in items && items[row.id].productId == row.productId
    ensures Coherent(items[row.id := row], WithoutItem(cache, row))
  {
    forall key | key in WithoutItem(cache, row)
      ensures cache[key].id != row.id
    {
      assert KeyFits(key, cache[key]);
    }
  }

  /** The item a client writes keeps its keys, and the plan names them. */
  lemma WriteKeys(s: State, c: Client, now: Time, ok: bool)
    requires Inv(s) && c in s.procs && s.procs[c].Write?
    ensures var p, t := s.procs[c], Next(s, Step(c, now, ok));
            && c in t.procs && t.cache == s.cache
            && if t.procs[c].Invalidate? then
                 && p.item.id in s.items && p.item == s.items[p.item.id]
                 && t.procs[c].plan.item.id == p.item.id && t.procs[c].plan.item.productId == p.item.productId
                 && p.item.id in t.items && t.items == s.items[p.item.id := t.items[p.item.id]]
                 && t.items[p.item.id].id == p.item.id && t.items[p.item.id].productId == p.item.productId
                 && t.items[p.item.id].version == p.item.version + 1
               else t.procs[c].Done? && t.items == s.items
  {
    var p := s.procs[c];
    assert Prepared(p) && PastRow(s.history, Copy(p).value);
    WriteEffect(s, c, now, ok);
    if Next(s, Step(c, now, ok)).procs[c].Invalidate? {
      OperationKeepsBounds(p.item, OpOf(p.req, p.r));
      CommitKeepsIdentity(p.item, CommitOf(c, p));
    }
  }

  lemma StepAfterWrite(s: State, c: Client, now: Time, ok: bool)
    requires c in s.procs && (s.procs[c].Invalidate? || s.procs[c].Settle? || s.procs[c].Done?)
    ensures var p, t := s.procs[c], Next(s, Step(c, now, ok));
            && c in t.procs && t.items == s.items
            && t.cache == (if p.Invalidate? && ok then WithoutItem(s.cache, p.plan.item) else s.cache)
            && (t.procs[c].Settle? || t.procs[c].Done?)
  {
    match s.procs[c]
    case Invalidate(_, _) =>
    case Settle(_, _) =>
    case Done(_) =>
  }

  /** The write, the invalidation and the settlement of a client left alone. */
  ghost function Rest(s: State, c: Client, now: Time, f: Flags): State {
    Next(Next(Next(s, Step(c, now, f.write)), Step(c, now, f.invalidate)), Step(c, now, f.settle))
  }

  /** Exactly when these leave a coherent cache coherent: if nothing was written, or the invalidation works, or
      there is no entry of the item. */
  lemma RestCoherentIff(s: State, c: Client, now: Time, f: Flags)
    requires Inv(s) && c in s.procs && s.procs[c].Write? && Coherent(s.items, s.cache)
    ensures var p, t := s.procs[c], Rest(s, c, now, f);
            Coherent(t.items, t.cache) <==>
              t.items == s.items || f.invalidate || (ById(p.item.id) !in s.cache && ByProduct(p.item.productId) !in s.cache)
  {
    var p := s.procs[c];
    var s1 := Next(s, Step(c, now, f.write));
    WriteKeys(s, c, now, f.write);
    StepAfterWrite(s1, c, now, f.invalidate);
    var s2 := Next(s1, Step(c, now, f.invalidate));
    StepAfterWrite(s2, c, now, f.settle);
    if s1.procs[c].Invalidate? {
      DropKeepsCoherent(s.items, s.cache, s1.items[p.item.id]);
      if !f.invalidate {
        LeftIsStale(s.items, s.cache, s1.items[p.item.id]);
      }
    }
  }

  lemma LeftIsStale(items: ItemRows, cache: map<ItemKey, Item>, row: Item)
    requires ItemTable(items) && Coherent(items, cache)
    requires row.id in items && items[row.id] != row && items[row.id].productId == row.productId
    ensures Coherent(items[row.id := row], cache) <==> ById(row.id) !in cache && ByProduct(row.productId) !in cache
  {
    if ById(row.id) in cache {
      assert cache[ById(row.id)] == items[row.id];
    }
    if ByProduct(row.productId) in cache {
      assert cache[ByProduct(row.productId)] == items[row.id];
    }
    if ById(row.id) !in cache && ByProduct(row.productId) !in cache {
      assert WithoutItem(cache, row) == cache;
      DropKeepsCoherent(items, cache, row);
    }
  }

  /** A client that reads from the store puts the row under the key it was asked for, then under the other. */
  lemma FillsCache(s: State, c: Client, now: Time, f: Flags)
    requires Inv(s) && c in s.procs && s.procs[c].CacheRead? && Found(s, s.procs[c], f) == None
    ensures Matches(s.procs[c].req, s.procs[c].r)
    ensures var p, t := s.procs[c], AfterRead(s, c, now, f);
            && Inv(t) && c in t.procs && t.items == s.items
            && match ReadItem(p.req, p.r, s.items, !f.read)
               case Err(e) => t.procs[c].Done? && t.cache == s.cache
               case Ok(item) =>
                 && t.procs[c] == Write(p.req, p.r, item)
                 && (f.fillFirst && f.fillSecond ==>
                       t.cache == s.cache[ById(item.id) := item][ByProduct(item.productId) := item])
                 && (f.fillFirst && !f.fillSecond ==> t.cache == s.cache[KeyOf(p.req, p.r) := item])
                 && (!f.fillFirst && !f.fillSecond ==> t.cache == s.cache)
                 && (Coherent(s.items, s.cache) ==> Coherent(t.items, t.cache))
  {
    var t := AfterStoreRead(s, c, now, f);
    TwoFills(t, c, now, f);
  }

  /** The state in which a client has looked into the cache in vain and asked the store. */
  lemma AfterStoreRead(s: State, c: Client, now: Time, f: Flags) returns (t: State)
    requires Inv(s) && c in s.procs && s.procs[c].CacheRead? && Found(s, s.procs[c], f) == None
    ensures Matches(s.procs[c].req, s.procs[c].r) && !s.procs[c].req.NewItem?
    ensures AfterRead(s, c, now, f) == Next(Next(t, Step(c, now, f.fillFirst)), Step(c, now, f.fillSecond))
    ensures Inv(t) && c in t.procs && t.items == s.items && t.cache == s.cache
    ensures var p := s.procs[c];
            match ReadItem(p.req, p.r, s.items, !f.read)
            case Err(e) => t.procs[c].Done?
            case Ok(item) => t.procs[c] == FillFirst(p.req, p.r, item) && item.id in s.items && s.items[item.id] == item
  {
    var p := s.procs[c];
    SoloMiss(s, c, now, f);
    var s1 := Goto(s, c, StoreRead(p.req, p.r));
    NextKeepsInv(s, Step(c, now, f.cache));
    SoloStoreRead(s1, c, now, f.read);
    t := Next(s1, Step(c, now, f.read));
    NextKeepsInv(s1, Step(c, now, f.read));
    StoreReadCache(s1, c, now, f.read);
  }

  ghost function AfterRead(s: State, c: Client, now: Time, f: Flags): State {
    Next(Next(Next(Next(s, Step(c, now, f.cache)), Step(c, now, f.read)),
              Step(c, now, f.fillFirst)), Step(c, now, f.fillSecond))
  }

  lemma StoreReadCache(s: State, c: Client, now: Time, ok: bool)
    requires c in s.procs && s.procs[c].StoreRead?
    ensures Next(s, Step(c, now, ok)).cache == s.cache
  {
    assert Next(s, Step(c, now, ok)) == AdvanceStoreRead(s, c, s.procs[c].req, s.procs[c].r, ok);
  }

  /** One fill of the right key. */
  lemma FillStep(s: State, c: Client, now: Time, ok: bool)
    requires c in s.procs && (s.procs[c].FillFirst? || s.procs[c].FillSecond?) && !s.procs[c].req.NewItem?
    ensures var p, t := s.procs[c], Next(s, Step(c, now, ok));
            var key := if p.FillFirst? then FirstKey(p.req, p.item) else SecondKey(p.req, p.item);
            && t.items == s.items && t.cache == (if ok then s.cache[key := p.item] else s.cache)
            && c in t.procs
            && t.procs[c] == if p.FillFirst? then FillSecond(p.req, p.r, p.item) else Write(p.req, p.r, p.item)
  {
  }

  /** The two keys of an item in the order they are filled, the one asked for first. */
  lemma FillOrder(req: Request, r: Option<Reservation>, item: Item, cache: map<ItemKey, Item>)
    requires !req.NewItem? && Matches(req, r) && KeyFits(KeyOf(req, r), item)
    ensures FirstKey(req, item) == KeyOf(req, r)
    ensures cache[FirstKey(req, item) := item][SecondKey(req, item) := item]
            == cache[ById(item.id) := item][ByProduct(item.productId) := item]
    ensures KeyFits(FirstKey(req, item), item) && KeyFits(SecondKey(req, item), item)
  {
  }

  lemma PutKeepsCoherent(items: ItemRows, cache: map<ItemKey, Item>, key: ItemKey, item: Item)
    requires Coherent(items, cache) && KeyFits(key, item) && item.id in items && items[item.id] == item
    ensures Coherent(items, cache[key := item])
  {
  }

  lemma TwoFills(s: State, c: Client, now: Time, f: Flags)
    requires Inv(s) && c in s.procs && (s.procs[c].FillFirst? || s.procs[c].Done?)
    requires s.procs[c].FillFirst? ==>
               var p := s.procs[c];
               !p.req.NewItem? && Matches(p.req, p.r) && p.item.id in s.items && s.items[p.item.id] == p.item
    ensures var p, t := s.procs[c], Next(Next(s, Step(c, now, f.fillFirst)), Step(c, now, f.fillSecond));
            && Inv(t) && t.items == s.items && c in t.procs
            && (p.Done? ==> t.cache == s.cache && t.procs[c] == p)
            && (p.FillFirst? ==>
                 && t.procs[c] == Write(p.req, p.r, p.item)
                 && (f.fillFirst && f.fillSecond ==>
                       t.cache == s.cache[ById(p.item.id) := p.item][ByProduct(p.item.productId) := p.item])
                 && (f.fillFirst && !f.fillSecond ==> t.cache == s.cache[KeyOf(p.req, p.r) := p.item])
                 && (!f.fillFirst && !f.fillSecond ==> t.cache == s.cache)
                 && (Coherent(s.items, s.cache) ==> Coherent(t.items, t.cache)))
  {
    var p := s.procs[c];
    NextKeepsInv(s, Step(c, now, f.fillFirst));
    NextKeepsInv(Next(s, Step(c, now, f.fillFirst)), Step(c, now, f.fillSecond));
    if p.Done? {
      StepDone(s, c, now, f.fillFirst);
      StepDone(s, c, now, f.fillSecond);
    } else {
      assert Prepared(p);
      FillOrder(p.req, p.r, p.item, s.cache);
      FillStep(s, c, now, f.fillFirst);
      var s1 := Next(s, Step(c, now, f.fillFirst));
      FillStep(s1, c, now, f.fillSecond);
      if Coherent(s.items, s.cache) {
        PutKeepsCoherent(s.items, s.cache, FirstKey(p.req, p.item), p.item);
        PutKeepsCoherent(s.items, s1.cache, SecondKey(p.req, p.item), p.item);
      }
    }
  }

  /** A client that is left alone on a coherent cache, with its invalidation working, leaves the cache coherent,
      whatever else fails. */
  lemma AloneKeepsCoherent(s: State, c: Client, req: Request, admitted: Time, decided: Time, f: Flags)
    requires Inv(s) && c !in s.procs && !req.NewItem? && Coherent(s.items, s.cache) && f.invalidate
    ensures var t := SoloRun(s, c, req, admitted, decided, f); Coherent(t.items, t.cache)
  {
    var t := AloneEnters(s, c, req, admitted, decided, f);
    var hit := Hit(s, req, admitted, f).Some?;
    if t.procs[c].Done? {
      SoloStopped(t, c, decided, f);
    } else if !hit {
      MissKeepsCoherent(t, c, decided, f);
    } else {
      HitKeepsCoherent(t, c, decided, f);
    }
  }

  lemma MissKeepsCoherent(s: State, c: Client, now: Time, f: Flags)
    requires Inv(s) && c in s.procs && s.procs[c].CacheRead? && Found(s, s.procs[c], f) == None
    requires Coherent(s.items, s.cache) && f.invalidate
    ensures var t := Run(s, SoloSteps(c, false, f, now)); Coherent(t.items, t.cache)
  {
    RunSeven(s, Step(c, now, f.cache), Step(c, now, f.read), Step(c, now, f.fillFirst), Step(c, now, f.fillSecond),
             Step(c, now, f.write), Step(c, now, f.invalidate), Step(c, now, f.settle));
    FillsCache(s, c, now, f);
    var t := AfterRead(s, c, now, f);
    if t.procs[c].Done? {
      StepDone(t, c, now, f.write);
      StepDone(t, c, now, f.invalidate);
      StepDone(t, c, now, f.settle);
    } else {
      RestCoherentIff(t, c, now, f);
    }
  }

  lemma HitKeepsCoherent(s: State, c: Client, now: Time, f: Flags)
    requires Inv(s) && c in s.procs && s.procs[c].CacheRead? && Found(s, s.procs[c], f).Some?
    requires Coherent(s.items, s.cache) && f.invalidate
    ensures var t := Run(s, SoloSteps(c, true, f, now)); Coherent(t.items, t.cache)
  {
    RunFour(s, Step(c, now, true), Step(c, now, f.write), Step(c, now, f.invalidate), Step(c, now, f.settle));
    var p := s.procs[c];
    var s1 := Next(s, Step(c, now, true));
    assert s1 == Goto(s, c, Write(p.req, p.r, Found(s, p, f).value));
    NextKeepsInv(s, Step(c, now, true));
    RestCoherentIff(s1, c, now, f);
  }

  // ---- New items ----

  lemma NewItemStep(s: State, c: Client, id: Uuid, productId: Uuid, quantity: GoInt, now: Time, ok: bool)
    requires s.history.Keys == s.items.Keys
    requires c in s.procs && s.procs[c] == Begin(NewItem(id, productId, quantity))
    ensures var t, item := Next(s, Step(c, now, ok)), Item(id, productId, quantity, 0, 1);
            && c in t.procs && t.reservations == s.reservations && t.cache == s.cache
            && if quantity < 0 then t.items == s.items && t.procs[c] == Done(Some(InvalidQuantity))
               else match InsertItem(s.items, item, !ok)
                 case Ok(rows) => t.items == rows && t.procs[c].FillFirst? && t.procs[c].item == item
                 case Err(e) => t.items == s.items && t.procs[c] == Done(Some(e))
  {
    assert Next(s, Step(c, now, ok)) == AdvanceBegin(s, c, NewItem(id, productId, quantity), now, ok);
  }

  /** A client that saves a new item stores it with nothing reserved and version 1, exactly if the quantity is
      not negative and fits, and neither the id nor the product is taken. */
  lemma NewItemSaved(s: State, c: Client, id: Uuid, productId: Uuid, quantity: GoInt, now: Time, ok: bool)
    requires Inv(s) && c in s.procs && s.procs[c] == Begin(NewItem(id, productId, quantity))
    ensures var t := Next(s, Step(c, now, ok));
            var free := id !in s.items && forall x :: x in s.items ==> s.items[x].productId != productId;
            && c in t.procs && t.reservations == s.reservations && t.cache == s.cache
            && if ok && quantity >= 0 && free && quantity <= 2147483647 then
                 && t.items == s.items[id := Item(id, productId, quantity, 0, 1)]
                 && t.procs[c].FillFirst? && t.procs[c].item == Item(id, productId, quantity, 0, 1)
               else
                 && t.items == s.items
                 && t.procs[c] == Done(Some(if quantity < 0 then InvalidQuantity
                                            else if !ok || free then StorageError else ItemAlreadyExists))
  {
    NewItemStep(s, c, id, productId, quantity, now, ok);
    InsertItemExact(s.items, Item(id, productId, quantity, 0, 1), !ok);
  }
}
