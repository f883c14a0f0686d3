/** The circuit breaker (aspect-std/src/circuitbreaker.rs). */
module CircuitBreaker {
  import opened Common

  datatype Circuit = Closed | Open(until: Instant) | HalfOpen

  datatype BreakerState = BreakerState(
    circuit: Circuit,
    failureCount: nat,
    successCount: nat,
    failureThreshold: nat,
    timeout: real,
    halfOpenMax: nat)

  function New(failureThreshold: nat, timeout: real, halfOpenMax: nat): BreakerState {
    BreakerState(Closed, 0, 0, failureThreshold, timeout, halfOpenMax)
  }

  // ------------------------------------------------------------------ the four critical sections

  function ShouldAllow(s: BreakerState, now: Instant): (BreakerState, bool) {
    match s.circuit
    case Closed => (s, true)
    case HalfOpen => (s, true)
    case Open(until) =>
      if now >= until then (s.(circuit := HalfOpen, successCount := 0), true) else (s, false)
  }

  function OnSuccess(s: BreakerState): BreakerState {
    match s.circuit
    case HalfOpen =>
      if s.successCount + 1 >= s.halfOpenMax
      then s.(circuit := Closed, failureCount := 0, successCount := 0)
      else s.(successCount := s.successCount + 1)
    case Closed => s.(failureCount := 0)
    case Open(_) => s.(failureCount := 0, successCount := 0)
  }

  function OnFailure(s: BreakerState, now: Instant): BreakerState {
    match s.circuit
    case HalfOpen => s.(circuit := Open(now + s.timeout), successCount := 0)
    case Closed =>
      var s := s.(failureCount := s.failureCount + 1);
      if s.failureCount >= s.failureThreshold then s.(circuit := Open(now + s.timeout)) else s
    case Open(_) => s
  }

  function Cleared(s: BreakerState): BreakerState {
    s.(circuit := Closed, failureCount := 0, successCount := 0)
  }

  const FAIL_FAST := "Circuit breaker is OPEN - failing fast"

  /** The breaker object; every clone of the aspect shares this one state. */
  class CircuitBreakerAspect {
    var circuitState: Circuit
    var failureCount: nat
    var successCount: nat
    var failureThreshold: nat
    var timeout: real
    var halfOpenMaxRequests: nat

    function State(): BreakerState
      reads this
    {
      BreakerState(circuitState, failureCount, successCount, failureThreshold, timeout, halfOpenMaxRequests)
    }

    constructor (failureThreshold: nat, timeout: real)
      requires timeout >= 0.0
      ensures State() == New(failureThreshold, timeout, 1)
    {
      circuitState := Closed;
      failureCount, successCount := 0, 0;
      this.failureThreshold, this.timeout := failureThreshold, timeout;
      halfOpenMaxRequests := 1;
    }

    method WithHalfOpenRequests(maxRequests: nat)
      modifies this
      ensures State() == old(State()).(halfOpenMax := maxRequests)
    {
      halfOpenMaxRequests := maxRequests;
    }

    method Reset()
      modifies this
      ensures State() == Cleared(old(State()))
    {
      circuitState := Closed;
      failureCount := 0;
      successCount := 0;
    }

    method RecordSuccess()
      modifies this
      ensures State() == OnSuccess(old(State()))
    {
      match circuitState {
        case HalfOpen =>
          successCount := successCount + 1;
          if successCount >= halfOpenMaxRequests {
            circuitState := Closed;
            failureCount := 0;
            successCount := 0;
          }
        case Closed =>
          failureCount := 0;
        case Open(_) =>
          failureCount := 0;
          successCount := 0;
      }
    }

    method RecordFailure(now: Instant)
      modifies this
      ensures State() == OnFailure(old(State()), now)
    {
      match circuitState {
        case HalfOpen =>
          circuitState := Open(now + timeout);
          successCount := 0;
        case Closed =>
          failureCount := failureCount + 1;
          if failureCount >= failureThreshold {
            circuitState := Open(now + timeout);
          }
        case Open(_) =>
      }
    }

    method ShouldAllowRequest(now: Instant) returns (r: Result<(), string>)
      modifies this
      ensures State() == ShouldAllow(old(State()), now).0
      ensures r == if ShouldAllow(old(State()), now).1 then Ok(()) else Err("Circuit breaker is OPEN - failing fast")
    {
      match circuitState {
        case Closed => r := Ok(());
        case HalfOpen => r := Ok(());
        case Open(until) =>
          if now >= until {
            circuitState := HalfOpen;
            successCount := 0;
            r := Ok(());
          } else {
            r := Err(FAIL_FAST);
          }
      }
    }

    /** `around`, with nothing else touching the breaker between admission and recording. */
    method Around<T>(now: Instant, later: Instant, proceed: () -> Result<T, string>) returns (r: Result<T, string>)
      modifies this
      ensures State() == Called(old(State()), CallAt(now, later, proceed().Ok?)).0
      ensures r == if Called(old(State()), CallAt(now, later, proceed().Ok?)).1 then proceed() else Err("Circuit breaker is OPEN - failing fast")
    {
      var allowed := ShouldAllowRequest(now);
      if allowed.Err? {
        return Err(allowed.error);
      }
      r := proceed();
      match r {
        case Ok(_) => RecordSuccess();
        case Err(_) => RecordFailure(later);
      }
    }
  }

  // ------------------------------------------------------------------ sequential runs of `around`

  /** A call: when admission is checked, when its failure would be recorded, and how the body ends. */
  datatype Call = CallAt(start: Instant, finish: Instant, succeeds: bool)

  /** The breaker after one `around`, and whether the body was executed. */
  function Called(s: BreakerState, c: Call): (BreakerState, bool) {
    var (admitted, ok) := ShouldAllow(s, c.start);
    if !ok then (admitted, false)
    else if c.succeeds then (OnSuccess(admitted), true)
    else (OnFailure(admitted, c.finish), true)
  }
}
