/** Whole timed runs of a circuit breaker with overlapping calls. */
module BreakerRuns {
  import opened Common
  import opened CircuitBreaker

  type CallId = nat

  /** A protected function that throws before it returns a promise leaves no timer behind. */
  datatype Action =
    | Call(id: CallId, throws: bool)
    | Settle(id: CallId, ok: bool)
    | Timer(id: CallId)
    | ForceOpen
    | ForceClose

  datatype Event = Event(time: Time, action: Action)

  /** The breaker, the calls whose outcome is still open, the pending timers with the time they are due,
      and how many admitted calls threw at once. */
  datatype Scene = Scene(fields: Fields, inFlight: set<CallId>, timers: map<CallId, Time>, thrown: nat)

  const START := Scene(FRESH, {}, map[], 0)

  ghost predicate Possible(s: Scene, e: Event) {
    match e.action
    case Call(id, _) => id !in s.inFlight && id !in s.timers
    case Settle(id, _) => id in s.inFlight
    case Timer(id) => id in s.timers && e.time >= s.timers[id]
    case ForceOpen => true
    case ForceClose => true
  }

  function Next(c: Config, s: Scene, e: Event): Scene {
    match e.action
    case Call(id, throws) =>
      var f := Started(s.fields, e.time);
      if !Admits(s.fields, e.time) then s.(fields := f)
      else if throws then s.(fields := f, inFlight := s.inFlight + {id}, thrown := s.thrown + 1)
      else s.(fields := f, inFlight := s.inFlight + {id}, timers := s.timers[id := e.time + c.timeout])
    case Settle(id, ok) =>
      var f := if ok then Succeeded(c, s.fields) else Failed(c, s.fields, e.time);
      s.(fields := f, inFlight := s.inFlight - {id})
    case Timer(id) => s.(fields := TimedOut(s.fields), timers := s.timers - {id})
    case ForceOpen => s.(fields := Opened(c, s.fields, e.time))
    case ForceClose => s.(fields := Reset(s.fields))
  }

  /** The scene after the events, the last of which is applied last. */
  function Run(c: Config, s: Scene, events: seq<Event>): Scene {
    if events == [] then s else Next(c, Run(c, s, events[..|events| - 1]), events[|events| - 1])
  }

  ghost predicate Feasible(c: Config, s: Scene, events: seq<Event>) {
    events != [] ==>
      var front := events[..|events| - 1];
      Feasible(c, s, front) && Possible(Run(c, s, front), events[|events| - 1])
  }

  /** Clock readings do not go back. */
  predicate InTime(events: seq<Event>) {
    forall i, j :: 0 <= i < j < |events| ==> events[i].time <= events[j].time
  }

  // ---- Counters ----

  function AtLeastOne(threshold: int): int {
    if threshold < 1 then 1 else threshold
  }

  ghost predicate CountersAgree(s: Scene) {
    var f := s.fields;
    && f.totalCalls == f.totalRejected + f.totalSuccesses + f.totalFailures + |s.inFlight|
    && f.totalTimeouts + |s.timers| + s.thrown == f.totalCalls - f.totalRejected
    && f.totalRejected >= 0 && f.totalSuccesses >= 0 && f.totalFailures >= 0
  }

  ghost predicate StateFits(c: Config, f: Fields) {
    && f.failureCount >= 0 && f.successCount >= 0
    && (f.state == CLOSED ==> f.failureCount < AtLeastOne(c.failureThreshold))
    && (f.state == HALF_OPEN ==> f.successCount < AtLeastOne(c.successThreshold))
    && (f.nextAttemptTime == None <==> f.state == CLOSED)
  }

  lemma StepCountsTimers(c: Config, s: Scene, e: Event)
    requires Possible(s, e)
    ensures var t := Next(c, s, e);
            (t.fields.totalTimeouts + |t.timers| + t.thrown) - (s.fields.totalTimeouts + |s.timers| + s.thrown)
            == (t.fields.totalCalls - t.fields.totalRejected) - (s.fields.totalCalls - s.fields.totalRejected)
  {
    match e.action
    case Timer(id) => assert (s.timers - {id}).Keys == s.timers.Keys - {id};
    case Call(id, _) => assert s.timers[id := e.time + c.timeout].Keys == s.timers.Keys + {id};
    case _ =>
  }

  lemma StepCountsCalls(c: Config, s: Scene, e: Event)
    requires Possible(s, e)
    ensures var t := Next(c, s, e);
            t.fields.totalCalls - s.fields.totalCalls
            == (t.fields.totalRejected - s.fields.totalRejected) + (t.fields.totalSuccesses - s.fields.totalSuccesses)
               + (t.fields.totalFailures - s.fields.totalFailures) + (|t.inFlight| - |s.inFlight|)
    ensures var t := Next(c, s, e);
            && t.fields.totalRejected >= s.fields.totalRejected && t.fields.totalSuccesses >= s.fields.totalSuccesses
            && t.fields.totalFailures >= s.fields.totalFailures
  {
    match e.action
    case Call(id, _) => assert id !in s.inFlight;
    case Settle(id, _) => assert |s.inFlight - {id}| == |s.inFlight| - 1;
    case _ =>
  }

  lemma StepKeepsCounters(c: Config, s: Scene, e: Event)
    requires CountersAgree(s) && Possible(s, e)
    ensures CountersAgree(Next(c, s, e))
  {
    StepCountsTimers(c, s, e);
    StepCountsCalls(c, s, e);
  }

  lemma StepKeepsFit(c: Config, s: Scene, e: Event)
    requires StateFits(c, s.fields)
    ensures StateFits(c, Next(c, s, e).fields)
  {
  }

  /** In every reachable state every call is accounted for, every admitted call that did not throw at once
      has a timer that is pending or has been counted as a timeout, and the state fits its counters. */
  lemma {:induction false} RunKeepsCounters(c: Config, events: seq<Event>)
    requires Feasible(c, START, events)
    ensures CountersAgree(Run(c, START, events)) && StateFits(c, Run(c, START, events).fields)
    decreases events
  {
    if events != [] {
      var front := events[..|events| - 1];
      RunKeepsCounters(c, front);
      StepKeepsCounters(c, Run(c, START, front), events[|events| - 1]);
      StepKeepsFit(c, Run(c, START, front), events[|events| - 1]);
    }
  }

  /** Timeouts never outnumber the admitted calls. In every reachable state they stay within the failures
      exactly if the successful and the open calls are no more than the pending timers and the calls that
      threw at once. Once all calls have settled and all timers have fired, every call that did not throw at
      once has been counted as a timeout, the successful ones too. */
  lemma {:induction false} TimeoutsCountEveryCall(c: Config, events: seq<Event>)
    requires Feasible(c, START, events)
    ensures var f := Run(c, START, events).fields; f.totalTimeouts <= f.totalCalls - f.totalRejected
    ensures var s := Run(c, START, events);
            s.fields.totalTimeouts <= s.fields.totalFailures
            <==> s.fields.totalSuccesses + |s.inFlight| <= |s.timers| + s.thrown
    ensures var s := Run(c, START, events);
            s.inFlight == {} && s.timers == map[] ==>
              && s.fields.totalTimeouts == s.fields.totalSuccesses + s.fields.totalFailures - s.thrown
              && (s.fields.totalTimeouts <= s.fields.totalFailures <==> s.fields.totalSuccesses <= s.thrown)
  {
    RunKeepsCounters(c, events);
  }

  /** More timeouts than failures: one call that succeeds before its timer fires. */
  lemma TimeoutsExceedFailures(c: Config)
    ensures var events := [Event(0, Call(1, false)), Event(1, Settle(1, true)),
                           Event(if c.timeout > 1 then c.timeout else 1, Timer(1))];
            && InTime(events) && Feasible(c, START, events)
            && Run(c, START, events).fields.totalTimeouts > Run(c, START, events).fields.totalFailures
  {
    var call, settle := Event(0, Call(1, false)), Event(1, Settle(1, true));
    var timer := Event(if c.timeout > 1 then c.timeout else 1, Timer(1));
    var events := [call, settle, timer];
    assert events[..2] == [call, settle] && [call, settle][..1] == [call] && [call][..0] == [];
    assert Run(c, START, []) == START;
    var s1 := Run(c, START, [call]);
    assert s1 == Scene(FRESH.(totalCalls := 1), {1}, map[1 := c.timeout], 0);
    assert Feasible(c, START, [call]);
    var s2 := Run(c, START, [call, settle]);
    assert s2 == Next(c, s1, settle);
    assert s2.timers == map[1 := c.timeout];
    assert Feasible(c, START, [call, settle]);
    assert Run(c, START, events) == Next(c, s2, timer);
  }

  // ---- While the breaker is open ----

  predicate Forced(events: seq<Event>) {
    exists i :: 0 <= i < |events| && events[i].action == ForceClose
  }

  /** Until the next attempt is due an open breaker stays open. */
  lemma {:induction false} StaysOpen(c: Config, s: Scene, due: Time, events: seq<Event>)
    requires s.fields.state == OPEN && s.fields.nextAttemptTime.Some? && s.fields.nextAttemptTime.value >= due
    requires !Forced(events)
    requires forall i :: 0 <= i < |events| ==> due - c.recoveryTimeout <= events[i].time < due
    ensures var f := Run(c, s, events).fields;
            f.state == OPEN && f.nextAttemptTime.Some? && f.nextAttemptTime.value >= due
    decreases events
  {
    if events != [] {
      var front, last := events[..|events| - 1], events[|events| - 1];
      assert last.action != ForceClose && last.time < due;
      assert !Forced(front);
      StaysOpen(c, s, due, front);
    }
  }

  /** The step opens the circuit, or opens it again. */
  predicate Opens(c: Config, s: Scene, e: Event) {
    match e.action
    case ForceOpen => true
    case Settle(_, ok) =>
      !ok && (s.fields.state == HALF_OPEN || s.fields.failureCount + 1 >= c.failureThreshold)
    case _ => false
  }

  /** After the circuit opens at time t, no protected function starts before t + recoveryTimeout unless
      the circuit was closed by force in between. */
  lemma {:induction false} NoCallBeforeRecovery(c: Config, s: Scene, e: Event, events: seq<Event>, i: nat)
    requires Opens(c, s, e) && InTime([e] + events)
    requires i < |events| && events[i].action.Call? && events[i].time < e.time + c.recoveryTimeout
    requires !Forced(events[..i])
    ensures !Admits(Run(c, Next(c, s, e), events[..i]).fields, events[i].time)
  {
    var due := e.time + c.recoveryTimeout;
    forall j | 0 <= j < i
      ensures due - c.recoveryTimeout <= events[j].time < due
    {
      assert ([e] + events)[0] == e && ([e] + events)[j + 1] == events[j] && ([e] + events)[i + 1] == events[i];
    }
    StaysOpen(c, Next(c, s, e), due, events[..i]);
  }

  // ---- How the circuit closes ----

  predicate IsSuccess(e: Event) {
    e.action.Settle? && e.action.ok
  }

  predicate IsFailure(e: Event) {
    e.action.Settle? && !e.action.ok
  }

  predicate IsForce(e: Event) {
    e.action == ForceOpen || e.action == ForceClose
  }

  function Successes(events: seq<Event>): nat {
    if events == [] then 0
    else Successes(events[..|events| - 1]) + if IsSuccess(events[|events| - 1]) then 1 else 0
  }

  function Failures(events: seq<Event>): nat {
    if events == [] then 0
    else Failures(events[..|events| - 1]) + if IsFailure(events[|events| - 1]) then 1 else 0
  }

  function StateAfter(c: Config, events: seq<Event>, i: nat): CircuitState
    requires i <= |events|
  {
    Run(c, START, events[..i]).fields.state
  }

  /** Event j took the circuit from OPEN to HALF_OPEN, where it has been since, without a failure or force. */
  ghost predicate HalfOpenSince(c: Config, events: seq<Event>, j: nat) {
    && j < |events| && StateAfter(c, events, j) == OPEN
    && (forall i :: j < i <= |events| ==> StateAfter(c, events, i) == HALF_OPEN)
    && (forall i :: j < i < |events| ==> !IsFailure(events[i]) && !IsForce(events[i]))
  }

  lemma {:induction false} EarlierState(c: Config, events: seq<Event>, e: Event, i: nat)
    requires i <= |events|
    ensures StateAfter(c, events + [e], i) == StateAfter(c, events, i)
  {
    assert (events + [e])[..i] == events[..i];
  }

  lemma {:induction false} LastState(c: Config, events: seq<Event>, e: Event)
    ensures StateAfter(c, events, |events|) == Run(c, START, events).fields.state
    ensures StateAfter(c, events + [e], |events| + 1) == Next(c, Run(c, START, events), e).fields.state
  {
    assert events[..|events|] == events;
    assert (events + [e])[..|events|] == events;
    assert (events + [e])[..|events| + 1] == events + [e];
  }

  /** A breaker is half-open because it just became so, or because it was and nothing failed. */
  lemma HalfOpenStep(c: Config, s: Scene, e: Event)
    requires Next(c, s, e).fields.state == HALF_OPEN
    ensures s.fields.state == OPEN ==> Next(c, s, e).fields.successCount == 0
    ensures s.fields.state == HALF_OPEN ==>
              && !IsFailure(e) && !IsForce(e)
              && Next(c, s, e).fields.successCount == s.fields.successCount + if IsSuccess(e) then 1 else 0
    ensures s.fields.state != CLOSED
  {
  }

  lemma {:induction false} HalfOpenLasts(c: Config, events: seq<Event>, e: Event, j: nat)
    requires HalfOpenSince(c, events, j) && !IsFailure(e) && !IsForce(e)
    requires StateAfter(c, events + [e], |events| + 1) == HALF_OPEN
    ensures HalfOpenSince(c, events + [e], j)
    ensures Successes((events + [e])[j + 1..]) == Successes(events[j + 1..]) + if IsSuccess(e) then 1 else 0
  {
    forall i: nat | i <= |events|
      ensures StateAfter(c, events + [e], i) == StateAfter(c, events, i)
    {
      EarlierState(c, events, e, i);
    }
    var tail := (events + [e])[j + 1..];
    assert tail[..|tail| - 1] == events[j + 1..] && tail[|tail| - 1] == e;
  }

  /** A half-open breaker has counted the successes since it became half-open. */
  lemma {:induction false} HalfOpenHistory(c: Config, events: seq<Event>) returns (j: nat)
    requires Run(c, START, events).fields.state == HALF_OPEN
    ensures HalfOpenSince(c, events, j)
    ensures Run(c, START, events).fields.successCount == Successes(events[j + 1..])
    decreases events
  {
    var front, e := events[..|events| - 1], events[|events| - 1];
    assert events == front + [e];
    HalfOpenStep(c, Run(c, START, front), e);
    if Run(c, START, front).fields.state == HALF_OPEN {
      j := HalfOpenHistory(c, front);
      LastState(c, front, e);
      HalfOpenLasts(c, front, e, j);
    } else {
      j := |front|;
      EarlierState(c, front, e, j);
      LastState(c, front, e);
      assert events[j + 1..] == [];
    }
  }

  lemma ClosingStep(c: Config, s: Scene, e: Event)
    requires StateFits(c, s.fields) && s.fields.state != CLOSED && e.action != ForceClose
    ensures Next(c, s, e).fields.state == CLOSED <==>
              s.fields.state == HALF_OPEN && IsSuccess(e) && s.fields.successCount + 1 == AtLeastOne(c.successThreshold)
  {
  }

  /** The circuit closes, other than by force, exactly on the last of the required number of successes since
      it became half-open, with no failure in between. */
  lemma {:induction false} ClosesIff(c: Config, events: seq<Event>, e: Event)
    requires Feasible(c, START, events)
    requires Run(c, START, events).fields.state != CLOSED && e.action != ForceClose
    ensures Next(c, Run(c, START, events), e).fields.state == CLOSED <==>
              && Run(c, START, events).fields.state == HALF_OPEN && IsSuccess(e)
              && exists j: nat :: HalfOpenSince(c, events, j)
                                  && Successes(events[j + 1..]) + 1 == AtLeastOne(c.successThreshold)
  {
    RunKeepsCounters(c, events);
    ClosingStep(c, Run(c, START, events), e);
    if Run(c, START, events).fields.state == HALF_OPEN {
      var j := HalfOpenHistory(c, events);
      forall i: nat | HalfOpenSince(c, events, i)
        ensures i == j
      {
        HalfOpenOnce(c, events, i, j);
      }
    }
  }

  lemma {:induction false} HalfOpenOnce(c: Config, events: seq<Event>, i: nat, j: nat)
    requires HalfOpenSince(c, events, i) && HalfOpenSince(c, events, j)
    ensures i == j
  {
  }

  // ---- How the circuit leaves CLOSED ----

  /** From event j on the circuit has been closed, without a success or force. */
  ghost predicate ClosedSince(c: Config, events: seq<Event>, j: nat) {
    && j <= |events|
    && (forall i :: j <= i <= |events| ==> StateAfter(c, events, i) == CLOSED)
    && (forall i :: j <= i < |events| ==> !IsSuccess(events[i]) && !IsForce(events[i]))
  }

  /** Event j is the first since the circuit closed or the last success or force. */
  ghost predicate StreakSince(c: Config, events: seq<Event>, j: nat) {
    && ClosedSince(c, events, j)
    && (j > 0 ==> IsSuccess(events[j - 1]) || IsForce(events[j - 1]) || StateAfter(c, events, j - 1) != CLOSED)
  }

  lemma {:induction false} OneStreak(c: Config, events: seq<Event>, i: nat, j: nat)
    requires StreakSince(c, events, i) && StreakSince(c, events, j)
    ensures i == j
  {
  }

  /** A closed breaker has counted a failure more, or nothing, or has forgotten its count. */
  lemma ClosedStep(c: Config, s: Scene, e: Event)
    requires Next(c, s, e).fields.state == CLOSED && s.fields.failureCount >= 0
    ensures s.fields.state == CLOSED && !IsSuccess(e) && !IsForce(e) ==>
              Next(c, s, e).fields.failureCount == s.fields.failureCount + if IsFailure(e) then 1 else 0
    ensures s.fields.state != CLOSED || IsSuccess(e) || IsForce(e) ==> Next(c, s, e).fields.failureCount == 0
  {
  }

  lemma {:induction false} ClosedLasts(c: Config, events: seq<Event>, e: Event, j: nat)
    requires ClosedSince(c, events, j) && !IsSuccess(e) && !IsForce(e)
    requires StateAfter(c, events + [e], |events| + 1) == CLOSED
    ensures ClosedSince(c, events + [e], j)
    ensures Failures((events + [e])[j..]) == Failures(events[j..]) + if IsFailure(e) then 1 else 0
  {
    forall i: nat | i <= |events|
      ensures StateAfter(c, events + [e], i) == StateAfter(c, events, i)
    {
      EarlierState(c, events, e, i);
    }
    var tail := (events + [e])[j..];
    assert tail[..|tail| - 1] == events[j..] && tail[|tail| - 1] == e;
  }

  lemma {:induction false} StreakLasts(c: Config, events: seq<Event>, e: Event, j: nat)
    requires StreakSince(c, events, j) && !IsSuccess(e) && !IsForce(e)
    requires StateAfter(c, events + [e], |events| + 1) == CLOSED
    ensures StreakSince(c, events + [e], j)
    ensures Failures((events + [e])[j..]) == Failures(events[j..]) + if IsFailure(e) then 1 else 0
  {
    ClosedLasts(c, events, e, j);
    if j > 0 {
      EarlierState(c, events, e, j - 1);
    }
  }

  lemma {:induction false} StreakRestarts(c: Config, events: seq<Event>, e: Event)
    requires StateAfter(c, events + [e], |events| + 1) == CLOSED
    requires StateAfter(c, events, |events|) != CLOSED || IsSuccess(e) || IsForce(e)
    ensures StreakSince(c, events + [e], |events| + 1)
    ensures Failures((events + [e])[|events| + 1..]) == 0
  {
    EarlierState(c, events, e, |events|);
  }

  /** A closed breaker has counted the failures since the last success or force. */
  lemma {:induction false} ClosedHistory(c: Config, events: seq<Event>) returns (j: nat)
    requires Feasible(c, START, events) && Run(c, START, events).fields.state == CLOSED
    ensures StreakSince(c, events, j)
    ensures Run(c, START, events).fields.failureCount == Failures(events[j..])
    decreases events
  {
    assert events[..|events|] == events;
    j := |events|;
    if events != [] {
      var front, e := events[..|events| - 1], events[|events| - 1];
      assert events == front + [e];
      RunKeepsCounters(c, front);
      ClosedStep(c, Run(c, START, front), e);
      if Run(c, START, front).fields.state == CLOSED && !IsSuccess(e) && !IsForce(e) {
        j := ClosedHistory(c, front);
        LastState(c, front, e);
        StreakLasts(c, front, e, j);
      } else {
        LastState(c, front, e);
        StreakRestarts(c, front, e);
      }
    }
  }

  lemma LeavingStep(c: Config, s: Scene, e: Event)
    requires StateFits(c, s.fields) && s.fields.state == CLOSED && e.action != ForceOpen
    ensures Next(c, s, e).fields.state != CLOSED <==>
              IsFailure(e) && s.fields.failureCount + 1 == AtLeastOne(c.failureThreshold)
    ensures Next(c, s, e).fields.state != HALF_OPEN
  {
  }

  /** The circuit leaves CLOSED, other than by force, exactly on the last of the required number of failures
      in a row. */
  lemma {:induction false} LeavesClosedIff(c: Config, events: seq<Event>, e: Event)
    requires Feasible(c, START, events)
    requires Run(c, START, events).fields.state == CLOSED && e.action != ForceOpen
    ensures Next(c, Run(c, START, events), e).fields.state != CLOSED <==>
              && IsFailure(e)
              && exists j: nat :: StreakSince(c, events, j) && Failures(events[j..]) + 1 == AtLeastOne(c.failureThreshold)
    ensures Next(c, Run(c, START, events), e).fields.state != HALF_OPEN
  {
    RunKeepsCounters(c, events);
    LeavingStep(c, Run(c, START, events), e);
    var j := ClosedHistory(c, events);
    forall i: nat | StreakSince(c, events, i)
      ensures i == j
    {
      OneStreak(c, events, i, j);
    }
  }
}
