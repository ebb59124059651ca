/** What a version increment and a crash do to clients under way. */
module Interruptions {
  import opened Common
  import opened InventoryItems
  import opened Reservations
  import opened Repositories
  import opened UseCaseRules
  import opened Interleaving
  import opened InterleavingProofs
  import opened InterleavingTheorems

  /** A copy is no newer than the row. */
  lemma CopyIsOld(h: History, items: ItemRows, x: Item)
    requires RowsTrailed(h, items) && PastRow(h, x)
    ensures x.id in items && x.version <= items[x.id].version
  {
    assert TrailOf(h[x.id], items[x.id]);
  }

  /** Whoever holds a copy and commits later holds the current row. */
  lemma {:induction false} CommitterIsCurrent(s: State, events: seq<Event>, c: Client, id: Uuid)
    requires Inv(s) && c in s.procs && Copy(s.procs[c]).Some? && Copy(s.procs[c]).value.id == id
    requires id in s.history && HasCommitted(Run(s, events).history, c, id)
    ensures id in s.items && Copy(s.procs[c]).value.version == s.items[id].version
  {
    var x, u := Copy(s.procs[c]).value, Run(s, events);
    var k :| 0 <= k < |u.history[id].commits| && CommitBy(u.history[id].commits[k], c);
    CommitsNext(s, events, c, k);
    RunCommitsOnlyFrom(s, events, c, x);
    CommitsOnlyGrow(s, events, id);
    RunKeepsInv(s, events);
    SameNumbering(s.history[id], s.items[id], u.history[id], u.items[id], k, x);
  }

  lemma SameNumbering(t: Trail, row: Item, u: Trail, later: Item, k: nat, x: Item)
    requires TrailOf(t, row) && TrailOf(u, later) && u.rows[0] == t.rows[0]
    requires k == |t.commits| && k < |u.commits| && u.commits[k].Applied? && u.commits[k].read == x
    ensures x.version == row.version
  {
  }

  lemma IncrementSteps(s: State, id: Uuid)
    requires Inv(s) && id in s.items && s.items[id].version < 2147483647
    ensures var t := Next(s, IncrementVersion(id));
            && t.items == s.items[id := s.items[id].(version := s.items[id].version + 1)] && t.procs == s.procs
  {
  }

  /** Once the version of an item has been incremented, no client that held a copy of it ever commits. */
  lemma {:induction false} IncrementRefuses(s: State, id: Uuid, events: seq<Event>, c: Client)
    requires Reachable(s) && id in s.items && s.items[id].version < 2147483647
    requires c in s.procs && Copy(s.procs[c]).Some? && Copy(s.procs[c]).value.id == id
    ensures var t := Next(s, IncrementVersion(id));
            && t.items == s.items[id := s.items[id].(version := s.items[id].version + 1)]
            && !HasCommitted(Run(t, events).history, c, id)
  {
    ReachableInv(s);
    IncrementSteps(s, id);
    CopyIsOld(s.history, s.items, Copy(s.procs[c]).value);
    var t := Next(s, IncrementVersion(id));
    NextKeepsInv(s, IncrementVersion(id));
    if HasCommitted(Run(t, events).history, c, id) {
      CommitterIsCurrent(t, events, c, id);
    }
  }

  lemma CrashSteps(s: State, c: Client)
    requires c in s.procs
    ensures var t := Next(s, Crash(c));
            && t.items == s.items && t.reservations == s.reservations && t.cache == s.cache && t.history == s.history
            && c in t.procs && t.procs[c] == Crashed
  {
  }

  /** A client that has crashed never moves again, and commits nothing more. */
  lemma {:induction false} CrashIsFinal(s: State, events: seq<Event>, c: Client, id: Uuid)
    requires Inv(s) && c in s.procs
    ensures var t := Next(s, Crash(c));
            && t.items == s.items && t.reservations == s.reservations && t.cache == s.cache && t.history == s.history
            && c in Run(t, events).procs && Run(t, events).procs[c] == Crashed
            && (HasCommitted(Run(t, events).history, c, id) ==> HasCommitted(s.history, c, id))
  {
    CrashSteps(s, c);
    NextKeepsInv(s, Crash(c));
    CrashedStays(Next(s, Crash(c)), events, c, id);
  }

  lemma {:induction false} CrashedStays(s: State, events: seq<Event>, c: Client, id: Uuid)
    requires Inv(s) && c in s.procs && s.procs[c] == Crashed
    ensures c in Run(s, events).procs && Run(s, events).procs[c] == Crashed
    ensures HasCommitted(Run(s, events).history, c, id) ==> HasCommitted(s.history, c, id)
    decreases |events|
  {
    if events != [] {
      var init, e := events[..|events| - 1], events[|events| - 1];
      CrashedStays(s, init, c, id);
      RunKeepsInv(s, init);
      StaysCrashed(Run(s, init), e, c);
      NextEffect(Run(s, init), e);
      if HasCommitted(Run(s, events).history, c, id) {
        NothingCommitted(Run(s, init), Run(s, events), e, c, id);
      }
    }
  }

  lemma StaysCrashed(s: State, e: Event, c: Client)
    requires c in s.procs && s.procs[c] == Crashed
    ensures c in Next(s, e).procs && Next(s, e).procs[c] == Crashed
  {
    match e
    case Step(d, now, ok) => if d in s.procs { AdvanceMovesOne(s, d, now, ok); }
    case _ =>
  }

  lemma NothingCommitted(s: State, t: State, e: Event, c: Client, id: Uuid)
    requires RowEffect(s, t, e) && c in s.procs && s.procs[c] == Crashed && HasCommitted(t.history, c, id)
    ensures HasCommitted(s.history, c, id)
  {
    var k :| 0 <= k < |t.history[id].commits| && CommitBy(t.history[id].commits[k], c);
    assert id in s.history && k < |s.history[id].commits| && s.history[id].commits[k] == t.history[id].commits[k];
  }
}
