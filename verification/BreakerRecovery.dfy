/** When an open circuit lets a call through again, and what the counters of a breaker count. */
module BreakerRecovery {
  import opened Common
  import opened CircuitBreaker
  import opened BreakerRuns

  // ---- From one opening to the next attempt ----

  /** Nothing closes the circuit by force or opens it again, and no call comes once the attempt is due. */
  ghost predicate Undisturbed(c: Config, s: Scene, events: seq<Event>, due: Time) {
    forall i :: 0 <= i < |events| ==> Quiet(c, Run(c, s, events[..i]), events[i], due)
  }

  predicate Quiet(c: Config, s: Scene, e: Event, due: Time) {
    e.action != ForceClose && !Opens(c, s, e) && (e.action.Call? ==> e.time < due)
  }

  lemma {:induction false} FrontUndisturbed(c: Config, s: Scene, events: seq<Event>, due: Time)
    requires events != [] && Undisturbed(c, s, events, due)
    ensures var n := |events| - 1;
            Undisturbed(c, s, events[..n], due) && Quiet(c, Run(c, s, events[..n]), events[n], due)
  {
    var n := |events| - 1;
    forall i | 0 <= i < n
      ensures Quiet(c, Run(c, s, events[..n][..i]), events[..n][i], due)
    {
      assert events[..n][..i] == events[..i];
      assert Quiet(c, Run(c, s, events[..i]), events[i], due);
    }
    assert Quiet(c, Run(c, s, events[..n]), events[n], due);
  }

  lemma {:induction false} StaysDue(c: Config, s: Scene, events: seq<Event>, due: Time)
    requires s.fields.state == OPEN && s.fields.nextAttemptTime == Some(due) && Undisturbed(c, s, events, due)
    ensures var f := Run(c, s, events).fields; f.state == OPEN && f.nextAttemptTime == Some(due)
    decreases events
  {
    if events != [] {
      FrontUndisturbed(c, s, events, due);
      StaysDue(c, s, events[..|events| - 1], due);
    }
  }

  /** Exact recovery: counted from the last event that opens the circuit, a call goes through exactly if at
      least the recovery time has passed, and then makes the circuit half-open; an earlier one is rejected and
      leaves it open. */
  lemma {:induction false} RecoversExactly(
    c: Config, s: Scene, e: Event, events: seq<Event>, id: CallId, throws: bool, now: Time)
    requires Opens(c, s, e) && Undisturbed(c, Next(c, s, e), events, e.time + c.recoveryTimeout)
    requires id !in Run(c, Next(c, s, e), events).inFlight
    ensures var before := Run(c, Next(c, s, e), events);
            var after := Next(c, before, Event(now, Call(id, throws)));
            && before.fields.state == OPEN
            && (id in after.inFlight <==> now >= e.time + c.recoveryTimeout)
            && after.fields.state == (if now >= e.time + c.recoveryTimeout then HALF_OPEN else OPEN)
            && after.fields.totalRejected - before.fields.totalRejected
               == if now >= e.time + c.recoveryTimeout then 0 else 1
  {
    StaysDue(c, Next(c, s, e), events, e.time + c.recoveryTimeout);
  }

  // ---- Only an open circuit rejects ----

  ghost predicate NothingOpens(c: Config, s: Scene, events: seq<Event>) {
    forall i :: 0 <= i < |events| ==> !Opens(c, Run(c, s, events[..i]), events[i])
  }

  lemma {:induction false} StaysPassable(c: Config, s: Scene, events: seq<Event>)
    requires s.fields.state != OPEN && NothingOpens(c, s, events)
    ensures Run(c, s, events).fields.state != OPEN
    decreases events
  {
    if events != [] {
      var n := |events| - 1;
      forall i | 0 <= i < n
        ensures !Opens(c, Run(c, s, events[..n][..i]), events[..n][i])
      {
        assert events[..n][..i] == events[..i];
        assert !Opens(c, Run(c, s, events[..i]), events[i]);
      }
      StaysPassable(c, s, events[..n]);
      assert !Opens(c, Run(c, s, events[..n]), events[n]);
    }
  }

  /** After a forced close, or from a state that is not open, every call goes through until something opens
      the circuit. */
  lemma {:induction false} PassableAdmits(
    c: Config, s: Scene, e: Event, events: seq<Event>, id: CallId, throws: bool, now: Time)
    requires e.action == ForceClose || (s.fields.state != OPEN && !Opens(c, s, e))
    requires NothingOpens(c, Next(c, s, e), events) && id !in Run(c, Next(c, s, e), events).inFlight
    ensures id in Next(c, Run(c, Next(c, s, e), events), Event(now, Call(id, throws))).inFlight
  {
    StaysPassable(c, Next(c, s, e), events);
  }

  /** The circuit opens exactly as `Opens` says: by force, on any failure while half-open, and on the failure
      that makes the threshold otherwise. */
  lemma OpensIff(c: Config, s: Scene, e: Event)
    requires s.fields.state != OPEN
    ensures Next(c, s, e).fields.state == OPEN <==>
              || e.action == ForceOpen
              || (IsFailure(e) && (s.fields.state == HALF_OPEN || s.fields.failureCount + 1 >= c.failureThreshold))
  {
  }

  // ---- What the counters count ----

  function Calls(events: seq<Event>): nat {
    if events == [] then 0
    else Calls(events[..|events| - 1]) + if events[|events| - 1].action.Call? then 1 else 0
  }

  function Timers(events: seq<Event>): nat {
    if events == [] then 0
    else Timers(events[..|events| - 1]) + if events[|events| - 1].action.Timer? then 1 else 0
  }

  /** The calls whose protected function is not started. */
  function Rejections(c: Config, s: Scene, events: seq<Event>): nat {
    if events == [] then 0
    else
      var front, e := events[..|events| - 1], events[|events| - 1];
      Rejections(c, s, front)
      + if e.action.Call? && e.action.id !in Next(c, Run(c, s, front), e).inFlight then 1 else 0
  }

  /** In every run the counters are the numbers of calls, rejected calls, settled successes and failures, and
      fired timers. */
  lemma {:induction false} CountersCountEvents(c: Config, events: seq<Event>)
    requires Feasible(c, START, events)
    ensures var f := Run(c, START, events).fields;
            && f.totalCalls == Calls(events) && f.totalRejected == Rejections(c, START, events)
            && f.totalSuccesses == Successes(events) && f.totalFailures == Failures(events)
            && f.totalTimeouts == Timers(events)
    decreases events
  {
    if events != [] {
      var front, e := events[..|events| - 1], events[|events| - 1];
      CountersCountEvents(c, front);
      StepCounts(c, Run(c, START, front), e);
    }
  }

  lemma StepCounts(c: Config, s: Scene, e: Event)
    requires Possible(s, e)
    ensures var f, g := s.fields, Next(c, s, e).fields;
            && g.totalCalls == f.totalCalls + (if e.action.Call? then 1 else 0)
            && g.totalRejected
               == f.totalRejected + (if e.action.Call? && e.action.id !in Next(c, s, e).inFlight then 1 else 0)
            && g.totalSuccesses == f.totalSuccesses + (if IsSuccess(e) then 1 else 0)
            && g.totalFailures == f.totalFailures + (if IsFailure(e) then 1 else 0)
            && g.totalTimeouts == f.totalTimeouts + if e.action.Timer? then 1 else 0
  {
  }

  // ---- Timers ----

  /** Event j starts the call with this id, whose timer is due at that time. */
  predicate StartsTimer(c: Config, events: seq<Event>, j: nat, id: CallId, due: Time)
    requires j < |events|
  {
    events[j].action == Call(id, false) && due == events[j].time + c.timeout
  }

  lemma {:induction false} TimerComesFromCall(c: Config, events: seq<Event>, id: CallId) returns (j: nat)
    requires id in Run(c, START, events).timers
    ensures j < |events| && StartsTimer(c, events, j, id, Run(c, START, events).timers[id])
    decreases events
  {
    var front, e := events[..|events| - 1], events[|events| - 1];
    var before := Run(c, START, front);
    if id in before.timers && Run(c, START, events).timers[id] == before.timers[id] {
      j := TimerComesFromCall(c, front, id);
    } else {
      j := |front|;
    }
  }

  /** No timeout is counted before the time-out of its call is over. */
  lemma {:induction false} NoEarlyTimeout(c: Config, events: seq<Event>, id: CallId, now: Time) returns (j: nat)
    requires Possible(Run(c, START, events), Event(now, Timer(id)))
    ensures j < |events| && events[j].action == Call(id, false) && now >= events[j].time + c.timeout
  {
    j := TimerComesFromCall(c, events, id);
  }
}
