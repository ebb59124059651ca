/** The circuit breaker: three states, calls in flight that finish in any order, timers that are never
    cleared. */
module CircuitBreaker {
  import opened Common

  datatype CircuitState = CLOSED | OPEN | HALF_OPEN

  datatype Config = Config(failureThreshold: int, recoveryTimeout: int, successThreshold: int, timeout: int)

  /** The fields of a breaker. */
  datatype Fields = Fields(
    state: CircuitState, failureCount: int, successCount: int, nextAttemptTime: Option<Time>,
    totalCalls: int, totalFailures: int, totalSuccesses: int, totalTimeouts: int, totalRejected: int)

  const FRESH := Fields(CLOSED, 0, 0, None, 0, 0, 0, 0, 0)

  // ---- The methods, on values ----

  function Opened(c: Config, f: Fields, now: Time): Fields {
    f.(state := OPEN, nextAttemptTime := Some(now + c.recoveryTimeout))
  }

  function Reset(f: Fields): Fields {
    f.(state := CLOSED, failureCount := 0, successCount := 0, nextAttemptTime := None)
  }

  /** An open breaker lets a call through once the time of the next attempt has come. */
  predicate Admits(f: Fields, now: Time) {
    f.state == OPEN && f.nextAttemptTime.Some? ==> now >= f.nextAttemptTime.value
  }

  function Started(f: Fields, now: Time): Fields {
    var g := f.(totalCalls := f.totalCalls + 1);
    if !Admits(f, now) then g.(totalRejected := f.totalRejected + 1)
    else if f.state == OPEN then g.(state := HALF_OPEN, successCount := 0)
    else g
  }

  function Succeeded(c: Config, f: Fields): Fields {
    var g := f.(totalSuccesses := f.totalSuccesses + 1);
    match f.state
    case HALF_OPEN =>
      if f.successCount + 1 >= c.successThreshold then Reset(g) else g.(successCount := f.successCount + 1)
    case CLOSED => g.(failureCount := if f.failureCount > 0 then 0 else f.failureCount)
    case OPEN => g
  }

  function Failed(c: Config, f: Fields, now: Time): Fields {
    var g := f.(totalFailures := f.totalFailures + 1, failureCount := f.failureCount + 1);
    if f.state == HALF_OPEN || g.failureCount >= c.failureThreshold then Opened(c, g, now) else g
  }

  function TimedOut(f: Fields): Fields {
    f.(totalTimeouts := f.totalTimeouts + 1)
  }

  class CircuitBreaker {
    const config: Config
    var state: CircuitState
    var failureCount: int
    var successCount: int
    var nextAttemptTime: Option<Time>
    var totalCalls: int
    var totalFailures: int
    var totalSuccesses: int
    var totalTimeouts: int
    var totalRejected: int

    function View(): Fields
      reads this
    {
      Fields(state, failureCount, successCount, nextAttemptTime,
             totalCalls, totalFailures, totalSuccesses, totalTimeouts, totalRejected)
    }

    constructor (config: Config)
      ensures View() == FRESH && this.config == config
    {
      this.config := config;
      state, failureCount, successCount, nextAttemptTime := CLOSED, 0, 0, None;
      totalCalls, totalFailures, totalSuccesses, totalTimeouts, totalRejected := 0, 0, 0, 0, 0;
    }

    /** The part of `execute` that runs before the protected function starts. */
    method Begin(now: Time) returns (admitted: bool)
      modifies this
      ensures admitted == Admits(old(View()), now)
      ensures View() == Started(old(View()), now)
    {
      totalCalls := totalCalls + 1;
      if state == OPEN {
        var attempt := ShouldAttemptReset(now);
        if attempt {
          state := HALF_OPEN;
          successCount := 0;
        } else {
          totalRejected := totalRejected + 1;
          return false;
        }
      }
      return true;
    }

    method ShouldAttemptReset(now: Time) returns (attempt: bool)
      ensures attempt <==> nextAttemptTime == None || now >= nextAttemptTime.value
    {
      if nextAttemptTime == None {
        return true;
      }
      return now >= nextAttemptTime.value;
    }

    method TimerFires()
      modifies this
      ensures View() == TimedOut(old(View()))
    {
      totalTimeouts := totalTimeouts + 1;
    }

    method OnSuccess()
      modifies this
      ensures View() == Succeeded(config, old(View()))
    {
      totalSuccesses := totalSuccesses + 1;
      if state == HALF_OPEN {
        successCount := successCount + 1;
        if successCount >= config.successThreshold {
          DoReset();
        }
      } else if state == CLOSED {
        if failureCount > 0 {
          failureCount := 0;
        }
      }
    }

    method OnFailure(now: Time)
      modifies this
      ensures View() == Failed(config, old(View()), now)
    {
      totalFailures := totalFailures + 1;
      failureCount := failureCount + 1;
      if state == HALF_OPEN {
        Open(now);
      } else if failureCount >= config.failureThreshold {
        Open(now);
      }
    }

    method Open(now: Time)
      modifies this
      ensures View() == Opened(config, old(View()), now)
    {
      state := OPEN;
      nextAttemptTime := Some(now + config.recoveryTimeout);
    }

    method DoReset()
      modifies this
      ensures View() == Reset(old(View()))
    {
      state := CLOSED;
      failureCount, successCount := 0, 0;
      nextAttemptTime := None;
    }

    method ForceOpen(now: Time)
      modifies this
      ensures View() == Opened(config, old(View()), now)
    {
      Open(now);
    }

    method ForceClose()
      modifies this
      ensures View() == Reset(old(View()))
    {
      DoReset();
    }
  }
}
