/** The gateway's rate limiter: a fixed window that starts with the first hit, whose expiry is set by a
    second command. */
module GatewayLimiter {
  import opened Common
  import opened RateLimiters

  /** A hit's reply may be lost before the counter moves (`lost`) or the handler may fail after it moved
      (`fails`); both let the request through. The EXPIRE that follows a first hit is a step of its own and
      may fail. */
  datatype Step =
    | Incr(time: Time, lost: bool, fails: bool)
    | Expire(time: Time)
    | ExpireFails(time: Time)

  /** The counter of one key, and whether the EXPIRE of its first hit is still to come. */
  datatype Window = Window(entry: Option<Entry>, expiryDue: bool)

  function Next(w: Window, s: Step, length: int): Window {
    match s
    case Incr(time, lost, _) =>
      if lost then w
      else
        var entry := Incremented(w.entry, time);
        Window(Some(entry), w.expiryDue || entry.count == 1)
    case Expire(time) =>
      if w.entry == None then w.(expiryDue := false)
      else Window(Some(w.entry.value.(expiresAt := Some(time + length))), false)
    case ExpireFails(_) => w.(expiryDue := false)
  }

  /** An EXPIRE is sent only after a first hit. */
  predicate Possible(w: Window, s: Step) {
    s.Incr? || w.expiryDue
  }

  /** Counters start at 1, and while the expiry is still to be set there is none. */
  predicate Sound(w: Window) {
    && (w.entry.Some? ==> w.entry.value.count >= 1)
    && (w.expiryDue ==> w.entry.Some? && w.entry.value.expiresAt == None)
  }

  predicate Admits(w: Window, s: Step, limit: int) {
    s.Incr? && !s.lost && !s.fails && Incremented(w.entry, s.time).count <= limit
  }

  predicate Feasible(w: Window, steps: seq<Step>, length: int)
    decreases steps
  {
    steps != [] ==> Possible(w, steps[0]) && Feasible(Next(w, steps[0], length), steps[1..], length)
  }

  /** How many of the requests are admitted by their count. */
  function CountAdmitted(w: Window, steps: seq<Step>, length: int, limit: int): nat
    decreases steps
  {
    if steps == [] then 0
    else (if Admits(w, steps[0], limit) then 1 else 0) + CountAdmitted(Next(w, steps[0], length), steps[1..], length, limit)
  }

  lemma StepKeepsSound(w: Window, s: Step, length: int)
    requires Sound(w) && Possible(w, s)
    ensures Sound(Next(w, s, length))
  {
  }

  // ---- The bound ----

  function Less(limit: int): nat {
    if limit >= 1 then limit - 1 else 0
  }

  /** Either the counter is the one from before the interval, whose first hit does not count towards it, or
      it was started in the interval and outlives it. */
  predicate WithinBudget(w: Window, admitted: nat, start: Time, length: int, limit: int) {
    || (admitted == 0 && w.entry == None)
    || (w.entry.Some? && admitted <= Less(limit) && admitted < w.entry.value.count)
    || (w.entry.Some?
        && (w.entry.value.expiresAt.Some? ==> w.entry.value.expiresAt.value >= start + length)
        && admitted <= Less(limit) + w.entry.value.count && admitted <= Less(limit) + (if limit > 0 then limit else 0))
  }

  lemma StepKeepsBudget(w: Window, s: Step, admitted: nat, start: Time, length: int, limit: int)
    requires Sound(w) && Possible(w, s) && start <= s.time < start + length
    requires WithinBudget(w, admitted, start, length, limit)
    ensures WithinBudget(Next(w, s, length), admitted + if Admits(w, s, limit) then 1 else 0, start, length, limit)
  {
  }

  lemma {:induction false} WindowBoundFrom(
    w: Window, steps: seq<Step>, start: Time, length: int, limit: int, admitted: nat)
    requires Sound(w) && Feasible(w, steps, length)
    requires forall s :: s in steps ==> start <= s.time < start + length
    requires WithinBudget(w, admitted, start, length, limit)
    ensures admitted + CountAdmitted(w, steps, length, limit) <= if limit >= 1 then 2 * limit - 1 else 0
    decreases steps
  {
    if steps != [] {
      var s := steps[0];
      assert s in steps;
      StepKeepsSound(w, s, length);
      StepKeepsBudget(w, s, admitted, start, length, limit);
      WindowBoundFrom(Next(w, s, length), steps[1..], start, length, limit, admitted + if Admits(w, s, limit) then 1 else 0);
    }
  }

  /** In any half-open interval as long as the window at most 2 * limit - 1 requests of a client are admitted
      by their count, however the steps of concurrent requests interleave. */
  lemma WindowBound(w: Window, steps: seq<Step>, start: Time, length: int, limit: int)
    requires Sound(w) && Feasible(w, steps, length)
    requires forall s :: s in steps ==> start <= s.time < start + length
    ensures CountAdmitted(w, steps, length, limit) <= if limit >= 1 then 2 * limit - 1 else 0
  {
    WindowBoundFrom(w, steps, start, length, limit, 0);
  }

  // ---- The bound is reached ----

  function Hits(n: nat, time: Time): seq<Step> {
    seq(n, _ => Incr(time, false, false))
  }

  /** n hits at one time on a living counter that leaves room for them are all admitted. */
  lemma {:induction false} HitsAdmitted(w: Window, n: nat, time: Time, length: int, limit: int, rest: seq<Step>)
    requires w.entry.Some? && Alive(w.entry, time) && w.entry.value.count >= 1 && w.entry.value.count + n <= limit
    ensures var after := w.(entry := Some(w.entry.value.(count := w.entry.value.count + n)));
            && CountAdmitted(w, Hits(n, time) + rest, length, limit) == n + CountAdmitted(after, rest, length, limit)
            && (Feasible(after, rest, length) ==> Feasible(w, Hits(n, time) + rest, length))
    decreases n
  {
    var steps := Hits(n, time) + rest;
    if n == 0 {
      assert steps == rest;
    } else {
      assert steps[1..] == Hits(n - 1, time) + rest;
      HitsAdmitted(Next(w, steps[0], length), n - 1, time, length, limit, rest);
    }
  }

  /** A burst at the end of one window and a burst at the start of the next: a first hit before the
      interval, limit - 1 hits at its start and limit hits as soon as the window has expired. */
  lemma WindowBoundReached(length: int, limit: int)
    requires limit >= 1 && length >= 2
    ensures var w := Window(Some(Entry(1, Some(length))), false);
            var steps := Hits(limit - 1, 1) + ([Incr(length, false, false), Expire(length)] + Hits(limit - 1, length));
            && w == Next(Next(Window(None, false), Incr(0, false, false), length), Expire(0), length)
            && Feasible(w, steps, length) && (forall s :: s in steps ==> 1 <= s.time < 1 + length)
            && CountAdmitted(w, steps, length, limit) == 2 * limit - 1
  {
    var w := Window(Some(Entry(1, Some(length))), false);
    var burst := Hits(limit - 1, length);
    var second := [Incr(length, false, false), Expire(length)] + burst;
    var full := Window(Some(Entry(limit, Some(length))), false);
    var first, again := Window(Some(Entry(1, None)), true), Window(Some(Entry(1, Some(2 * length))), false);
    HitsAdmitted(w, limit - 1, 1, length, limit, second);
    assert second[1..][1..] == burst == burst + [];
    HitsAdmitted(again, limit - 1, length, length, limit, []);
    assert Next(full, second[0], length) == first && Next(first, second[1], length) == again;
    assert second[1..][0] == second[1];
    assert CountAdmitted(again, burst, length, limit) == limit - 1;
    assert CountAdmitted(first, second[1..], length, limit) == limit - 1;
    assert CountAdmitted(full, second, length, limit) == limit;
    assert Feasible(first, second[1..], length);
    assert Feasible(full, second, length);
  }

  // ---- A counter that never ends ----

  /** The EXPIRE of the first hit is lost: nothing will ever end this counter. */
  predicate NeverEnds(w: Window) {
    w.entry.Some? && w.entry.value.count >= 1 && w.entry.value.expiresAt == None && !w.expiryDue
  }

  /** A counter that never ends admits no more than what is left of its limit, over all time. */
  lemma {:induction false} LostExpiryBlocksForEver(w: Window, steps: seq<Step>, length: int, limit: int)
    requires NeverEnds(w) && Feasible(w, steps, length)
    ensures CountAdmitted(w, steps, length, limit) <= if w.entry.value.count < limit then limit - w.entry.value.count else 0
    decreases steps
  {
    if steps != [] {
      LostExpiryBlocksForEver(Next(w, steps[0], length), steps[1..], length, limit);
    }
  }

  /** Steps that happen in time order, from `now` on. */
  predicate InTime(now: Time, steps: seq<Step>)
    decreases steps
  {
    steps != [] ==> now <= steps[0].time && InTime(steps[0].time, steps[1..])
  }

  lemma LastStep(w: Window, s: Step, now: Time, length: int, limit: int)
    requires Possible(w, s) && now <= s.time
    ensures Feasible(w, [s], length) && InTime(now, [s])
    ensures CountAdmitted(w, [s], length, limit) == if Admits(w, s, limit) then 1 else 0
  {
    assert [s][1..] == [];
    assert CountAdmitted(Next(w, s, length), [], length, limit) == 0;
  }

  /** A client that has used up its limit can be admitted by its count again exactly if its counter has an
      expiry, or an EXPIRE is still due. */
  lemma AdmittedAgainIff(w: Window, now: Time, length: int, limit: int)
    requires Sound(w) && w.entry.Some? && w.entry.value.count >= limit >= 1
    ensures w.entry.value.expiresAt.Some? || w.expiryDue <==>
              exists steps :: Feasible(w, steps, length) && InTime(now, steps) && CountAdmitted(w, steps, length, limit) > 0
  {
    if w.entry.value.expiresAt.Some? {
      var due := w.entry.value.expiresAt.value;
      var again := Incr(if due < now then now else due, false, false);
      LastStep(w, again, now, length, limit);
      assert Admits(w, again, limit);
    } else if w.expiryDue {
      var expire, again := Expire(now), Incr(if length < 0 then now else now + length, false, false);
      var steps := [expire, again];
      assert steps[1..] == [again];
      LastStep(Next(w, expire, length), again, now, length, limit);
      assert Admits(Next(w, expire, length), again, limit);
      assert Feasible(w, steps, length) && InTime(now, steps);
      assert CountAdmitted(w, steps, length, limit) == CountAdmitted(Next(w, expire, length), [again], length, limit);
    } else {
      forall steps | Feasible(w, steps, length)
        ensures CountAdmitted(w, steps, length, limit) == 0
      {
        LostExpiryBlocksForEver(w, steps, length, limit);
      }
    }
  }

  function Run(w: Window, steps: seq<Step>, length: int): Window
    decreases steps
  {
    if steps == [] then w else Run(Next(w, steps[0], length), steps[1..], length)
  }

  lemma {:induction false} HitsOnWindow(w: Window, n: nat, time: Time, length: int)
    requires w.entry.Some? && Alive(w.entry, time) && w.entry.value.count >= 1
    ensures Feasible(w, Hits(n, time), length)
    ensures Run(w, Hits(n, time), length) == w.(entry := Some(w.entry.value.(count := w.entry.value.count + n)))
    decreases n
  {
    if n > 0 {
      assert Hits(n, time)[1..] == Hits(n - 1, time);
      HitsOnWindow(Next(w, Hits(n, time)[0], length), n - 1, time, length);
    }
  }

  /** And such a counter is reached: a first hit on a fresh key whose EXPIRE fails, then hits up to the
      limit. From there no request is admitted by its count again. */
  lemma BlockedStateIsReached(time: Time, length: int, limit: int, more: seq<Step>)
    requires limit >= 1
    ensures var start := Window(None, false);
            var steps := [Incr(time, false, true), ExpireFails(time)] + Hits(limit - 1, time);
            && Feasible(start, steps, length)
            && var w := Run(start, steps, length);
               && NeverEnds(w) && w.entry.value.count == limit
               && (Feasible(w, more, length) ==> CountAdmitted(w, more, length, limit) == 0)
  {
    var first, lost := Window(Some(Entry(1, None)), true), Window(Some(Entry(1, None)), false);
    var steps := [Incr(time, false, true), ExpireFails(time)] + Hits(limit - 1, time);
    assert steps[1..] == [ExpireFails(time)] + Hits(limit - 1, time) && steps[1..][1..] == Hits(limit - 1, time);
    HitsOnWindow(lost, limit - 1, time, length);
    assert Feasible(first, steps[1..], length) && Run(first, steps[1..], length) == Run(lost, Hits(limit - 1, time), length);
    assert Next(Window(None, false), steps[0], length) == first;
    if Feasible(Run(lost, Hits(limit - 1, time), length), more, length) {
      LostExpiryBlocksForEver(Run(lost, Hits(limit - 1, time), length), more, length, limit);
    }
  }

  // ---- A counter that ends ----

  /** Once the EXPIRE of the first hit has been made at `expire`, n further hits within the window leave the
      counter at n + 1, and the next is admitted by its count exactly if that is below the limit or the window
      since the EXPIRE is over. */
  lemma {:induction false} WindowAdmitsIff(n: nat, start: Time, expire: Time, time: Time, next: Time, length: int, limit: int)
    requires start <= expire <= time < expire + length && time <= next
    ensures var steps := [Incr(start, false, false), Expire(expire)] + Hits(n, time);
            && Feasible(Window(None, false), steps, length)
            && (limit >= 1 ==>
                 (Admits(Run(Window(None, false), steps, length), Incr(next, false, false), limit)
                  <==> n + 1 < limit || next >= expire + length))
  {
    var w := Window(Some(Entry(1, Some(expire + length))), false);
    var steps := [Incr(start, false, false), Expire(expire)] + Hits(n, time);
    assert steps[1..] == [Expire(expire)] + Hits(n, time) && steps[1..][1..] == Hits(n, time);
    HitsOnWindow(w, n, time, length);
    var first := Window(Some(Entry(1, None)), true);
    assert Next(Window(None, false), steps[0], length) == first && Next(first, steps[1], length) == w;
    assert Feasible(first, steps[1..], length) && Run(first, steps[1..], length) == Run(w, Hits(n, time), length);
  }

  // ---- The middleware, step by step ----

  class Gateway {
    var windows: map<string, Window>
    const limit: int
    const windowSeconds: int

    constructor (limit: int, windowMs: int)
      requires windowMs >= 0
      ensures windows == map[] && this.limit == limit && windowSeconds == windowMs / 1000
    {
      windows := map[];
      this.limit, windowSeconds := limit, windowMs / 1000;
    }

    function WindowOf(key: string): Window
      reads this
    {
      if key in windows then windows[key] else Window(None, false)
    }

    /** The INCR of a request; `first` says that an EXPIRE is to follow. */
    method Increment(key: string, now: Time, lost: bool, fails: bool) returns (admitted: bool, first: bool)
      modifies this
      ensures WindowOf(key) == Next(old(WindowOf(key)), Incr(now, lost, fails), windowSeconds * 1000)
      ensures forall k :: k != key ==> WindowOf(k) == old(WindowOf(k))
      ensures admitted <==> lost || fails || Admits(old(WindowOf(key)), Incr(now, lost, fails), limit)
      ensures first <==> !lost && Incremented(old(WindowOf(key)).entry, now).count == 1
    {
      if lost {
        return true, false;
      }
      var w := WindowOf(key);
      var entry := Incremented(w.entry, now);
      first := entry.count == 1;
      windows := windows[key := Window(Some(entry), w.expiryDue || first)];
      admitted := fails || entry.count <= limit;
    }

    /** The EXPIRE of a first hit. */
    method ExpireFirst(key: string, now: Time)
      requires key in windows && windows[key].entry.Some? && windows[key].expiryDue
      modifies this
      ensures WindowOf(key) == Next(old(WindowOf(key)), Expire(now), windowSeconds * 1000)
      ensures forall k :: k != key ==> WindowOf(k) == old(WindowOf(k))
    {
      var entry := windows[key].entry.value;
      windows := windows[key := Window(Some(entry.(expiresAt := Some(now + windowSeconds * 1000))), false)];
    }
  }
}
