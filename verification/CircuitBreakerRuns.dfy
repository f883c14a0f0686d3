/** What the circuit breaker guarantees, under every interleaving and over sequential runs. */
module CircuitBreakerRuns {
  import opened Common
  import opened CircuitBreaker

  // ------------------------------------------------------------------ every interleaving

  /** One critical section of one of the concurrent callers. */
  datatype Step = Admit(now: Instant) | Succeed | Fail(now: Instant) | ManualReset

  function Apply(s: BreakerState, step: Step): BreakerState {
    match step
    case Admit(now) => ShouldAllow(s, now).0
    case Succeed => OnSuccess(s)
    case Fail(now) => OnFailure(s, now)
    case ManualReset => Cleared(s)
  }

  /** The state after `steps`, in the order in which the lock was taken. */
  function After(s: BreakerState, steps: seq<Step>): BreakerState {
    if |steps| == 0 then s else Apply(After(s, steps[..|steps| - 1]), steps[|steps| - 1])
  }

  function AtLeastOne(n: nat): nat { if n == 0 then 1 else n }

  ghost predicate Safe(s: BreakerState) {
    match s.circuit
    case Closed => s.failureCount < AtLeastOne(s.failureThreshold) && s.successCount == 0
    case HalfOpen => s.successCount < AtLeastOne(s.halfOpenMax)
    case Open(_) => s.successCount == 0
  }

  /**
   Whatever the interleaving: a closed breaker is below its failure threshold, a half-open one below
   the number of successes that closes it, and successes are only counted while half open. So the
   counters never pass the configured limits, and the increments cannot overflow.
   */
  lemma {:induction false} SafeUnderEveryInterleaving(failureThreshold: nat, timeout: real, halfOpenMax: nat, steps: seq<Step>)
    ensures
      var s := After(New(failureThreshold, timeout, halfOpenMax), steps);
      && Safe(s)
      && (s.failureThreshold, s.timeout, s.halfOpenMax) == (failureThreshold, timeout, halfOpenMax)
      && s.failureCount <= AtLeastOne(failureThreshold)
  {
    if |steps| > 0 {
      SafeUnderEveryInterleaving(failureThreshold, timeout, halfOpenMax, steps[..|steps| - 1]);
    }
  }

  /** The steps that can end an open episode: a reset, or an admission check at or after the deadline. */
  predicate Wakes(step: Step, until: Instant) {
    step.ManualReset? || (step.Admit? && step.now >= until)
  }

  /**
   From Open(until), under every interleaving of steps none of which wakes it, the breaker is still
   Open with the same deadline and has refused every admission check among them.
   */
  lemma {:induction false} OpenUntilWoken(s: BreakerState, steps: seq<Step>)
    requires s.circuit.Open? && forall i | 0 <= i < |steps| :: !Wakes(steps[i], s.circuit.until)
    ensures After(s, steps).circuit == s.circuit
    ensures forall i | 0 <= i < |steps| && steps[i].Admit? :: !ShouldAllow(After(s, steps[..i]), steps[i].now).1
  {
    if |steps| > 0 {
      var k := |steps| - 1;
      OpenUntilWoken(s, steps[..k]);
      forall i | 0 <= i < |steps| && steps[i].Admit?
        ensures !ShouldAllow(After(s, steps[..i]), steps[i].now).1
      {
        if i < k {
          assert steps[..k][..i] == steps[..i];
        }
      }
    }
  }

  /** And the first step that wakes it, and no other, ends the episode: a check half-opens it and is admitted. */
  lemma WakingEndsOpen(s: BreakerState, steps: seq<Step>, step: Step)
    requires s.circuit.Open? && forall i | 0 <= i < |steps| :: !Wakes(steps[i], s.circuit.until)
    ensures
      var before := After(s, steps);
      && (Apply(before, step).circuit == s.circuit <==> !Wakes(step, s.circuit.until))
      && (Wakes(step, s.circuit.until) && step.ManualReset? ==> Apply(before, step).circuit == Closed)
      && (Wakes(step, s.circuit.until) && step.Admit? ==>
            Apply(before, step).circuit == HalfOpen && ShouldAllow(before, step.now).1)
  {
    OpenUntilWoken(s, steps);
  }

  // ------------------------------------------------------------------ history of the failure counter

  /** The length of the run of failures (false) at the end of the log. */
  function TrailingFailures(log: seq<bool>): nat {
    if |log| == 0 || log[|log| - 1] then 0 else 1 + TrailingFailures(log[..|log| - 1])
  }

  /** The outcomes recorded since Closed was last entered or reset; empty outside Closed. */
  function ClosedLog(s: BreakerState, steps: seq<Step>): seq<bool> {
    if |steps| == 0 then []
    else
      var n := |steps| - 1;
      var log := ClosedLog(s, steps[..n]);
      if !After(s, steps[..n]).circuit.Closed? || !After(s, steps).circuit.Closed? then []
      else match steps[n]
        case Admit(_) => log
        case Succeed => log + [true]
        case Fail(_) => log + [false]
        case ManualReset => []
  }

  /**
   While Closed the failure counter is the number of consecutive failures recorded since Closed was
   last entered or reset.
   */
  lemma {:induction false} FailureCountIsTrailingRun(s: BreakerState, steps: seq<Step>)
    requires s.circuit.Closed? && s.failureCount == 0
    ensures After(s, steps).circuit.Closed? ==>
              After(s, steps).failureCount == TrailingFailures(ClosedLog(s, steps))
  {
    if |steps| > 0 {
      var n := |steps| - 1;
      FailureCountIsTrailingRun(s, steps[..n]);
      var log := ClosedLog(s, steps[..n]);
      assert (log + [false])[..|log|] == log;
    }
  }

  /** Closed gives way to Open exactly on the failure that completes a run of max(threshold, 1). */
  lemma OpensExactlyOnConsecutiveFailures(s: BreakerState, steps: seq<Step>, step: Step)
    requires Safe(s) && s.circuit.Closed? && s.failureCount == 0
    requires After(s, steps).circuit.Closed?
    ensures !Apply(After(s, steps), step).circuit.HalfOpen?
    ensures Apply(After(s, steps), step).circuit.Open?
       <==> step.Fail? && TrailingFailures(ClosedLog(s, steps)) + 1 >= AtLeastOne(s.failureThreshold)
  {
    FailureCountIsTrailingRun(s, steps);
    LimitsAreFixed(s, steps);
  }

  lemma {:induction false} LimitsAreFixed(s: BreakerState, steps: seq<Step>)
    ensures var s' := After(s, steps);
      (s'.failureThreshold, s'.timeout, s'.halfOpenMax) == (s.failureThreshold, s.timeout, s.halfOpenMax)
  {
    if |steps| > 0 {
      LimitsAreFixed(s, steps[..|steps| - 1]);
    }
  }

  /** Half-open admits everyone: any number of callers get in before the first of them records anything. */
  lemma {:induction false} HalfOpenAdmitsEveryone(s: BreakerState, steps: seq<Step>)
    requires s.circuit.HalfOpen? && forall i | 0 <= i < |steps| :: steps[i].Admit?
    ensures After(s, steps) == s
    ensures forall i | 0 <= i < |steps| :: ShouldAllow(After(s, steps[..i]), steps[i].now).1
  {
    if |steps| > 0 {
      var n := |steps| - 1;
      HalfOpenAdmitsEveryone(s, steps[..n]);
      forall i | 0 <= i < |steps|
        ensures ShouldAllow(After(s, steps[..i]), steps[i].now).1
      {
        if i < n {
          assert steps[..n][..i] == steps[..i];
        }
      }
    }
  }

  // ------------------------------------------------------------------ sequential runs

  /** The state and the number of executed bodies after the calls, one at a time. */
  function CallRun(s: BreakerState, calls: seq<Call>): (BreakerState, nat) {
    if |calls| == 0 then (s, 0)
    else
      var (before, n) := CallRun(s, calls[..|calls| - 1]);
      var (after, executed) := Called(before, calls[|calls| - 1]);
      (after, n + if executed then 1 else 0)
  }

  /** One caller at a time, on a clock that never goes back. */
  ghost predicate Sequential(start: Instant, calls: seq<Call>) {
    && (forall i | 0 <= i < |calls| :: start <= calls[i].start <= calls[i].finish)
    && (forall i, j | 0 <= i < j < |calls| :: calls[i].finish <= calls[j].start)
  }

  function Times(n: int, d: real): real { n as real * d }

  lemma TimesStep(n: int, d: real)
    ensures Times(n + 1, d) == Times(n, d) + d
    ensures Times(0, d) == 0.0
  {}

  /** With every body failing: each failure past the first max(threshold, 1) costs a full timeout. */
  lemma {:induction false} EachRetryWaits(s: BreakerState, start: Instant, calls: seq<Call>)
    requires s.circuit.Closed? && s.failureCount == 0 && s.timeout > 0.0
    requires Sequential(start, calls) && forall i | 0 <= i < |calls| :: !calls[i].succeeds
    ensures
      var (s', n) := CallRun(s, calls);
      var m := AtLeastOne(s.failureThreshold);
      && (s'.failureThreshold, s'.timeout) == (s.failureThreshold, s.timeout)
      && match s'.circuit
         case Closed => n == s'.failureCount < m
         case Open(until) => n >= m && until >= start + Times(n - m + 1, s.timeout)
         case HalfOpen => false
    ensures
      var n := CallRun(s, calls).1;
      var m := AtLeastOne(s.failureThreshold);
      n <= m || Times(n - m, s.timeout) <= calls[|calls| - 1].start - start
  {
    if |calls| > 0 {
      var k := |calls| - 1;
      EachRetryWaits(s, start, calls[..k]);
      var (before, n) := CallRun(s, calls[..k]);
      var m := AtLeastOne(s.failureThreshold);
      TimesStep(n - m, s.timeout);
      TimesStep(n - m + 1, s.timeout);
      assert k > 0 ==> calls[..k][k - 1] == calls[k - 1];
    }
  }

  lemma TimesDivided(k: int, d: real)
    requires d > 0.0
    ensures Times(k, d) / d == k as real
  {}

  lemma FitsFloor(k: int, d: real, t: real)
    requires d > 0.0 && Times(k, d) <= t
    ensures k <= (t / d).Floor
  {
    TimesDivided(k, d);
    assert Times(k, d) / d <= t / d;
  }

  /**
   Bounded load on a dead dependency: a fresh breaker in front of a body that always fails executes
   it at most max(threshold, 1) + floor(elapsed / timeout) times, elapsed being the time from `start`
   to the last call.
   */
  lemma BoundedLoadOnDeadDependency(threshold: nat, timeout: real, halfOpenMax: nat, start: Instant, calls: seq<Call>)
    requires timeout > 0.0 && |calls| > 0
    requires Sequential(start, calls) && forall i | 0 <= i < |calls| :: !calls[i].succeeds
    ensures CallRun(New(threshold, timeout, halfOpenMax), calls).1
         <= AtLeastOne(threshold) + ((calls[|calls| - 1].start - start) / timeout).Floor
  {
    var s := New(threshold, timeout, halfOpenMax);
    EachRetryWaits(s, start, calls);
    var n := CallRun(s, calls).1;
    var m := AtLeastOne(threshold);
    TimesStep(0, timeout);
    FitsFloor(if n <= m then 0 else n - m, timeout, calls[|calls| - 1].start - start);
  }

  /** max(threshold, 1) calls at once, then k calls a timeout apart, all failing at once. */
  function WorstRun(m: nat, timeout: real, k: nat): seq<Call>
  {
    seq(m + k, i => var t := Times(if i < m then 0 else i - m + 1, timeout); CallAt(t, t, false))
  }

  /** The bound is reached: the worst run executes every one of its bodies. */
  lemma BoundIsReached(threshold: nat, timeout: real, halfOpenMax: nat, k: nat)
    requires timeout > 0.0
    ensures
      var calls := WorstRun(AtLeastOne(threshold), timeout, k);
      && Sequential(0.0, calls)
      && CallRun(New(threshold, timeout, halfOpenMax), calls).1 == AtLeastOne(threshold) + k
      && (calls[|calls| - 1].start / timeout).Floor == k
  {
    var m := AtLeastOne(threshold);
    var calls := WorstRun(m, timeout, k);
    WorstRunExecutes(threshold, timeout, halfOpenMax, k, m + k);
    assert calls[..m + k] == calls;
    WorstRunIsSequential(m, timeout, k);
    TimesStep(0, timeout);
    TimesDivided(k, timeout);
    assert calls[|calls| - 1].start == Times(k, timeout);
  }

  lemma WorstRunIsSequential(m: nat, timeout: real, k: nat)
    requires timeout > 0.0
    ensures Sequential(0.0, WorstRun(m, timeout, k))
  {
    forall i, j | 0 <= i <= j < m + k
      ensures 0.0 <= WorstRun(m, timeout, k)[i].finish <= WorstRun(m, timeout, k)[j].start
    {
      TimesMonotone(if i < m then 0 else i - m + 1, if j < m then 0 else j - m + 1, timeout);
    }
  }

  lemma TimesMonotone(a: nat, b: nat, d: real)
    requires a <= b && d > 0.0
    ensures 0.0 <= Times(a, d) <= Times(b, d)
  {}

  lemma {:induction false} WorstRunExecutes(threshold: nat, timeout: real, halfOpenMax: nat, k: nat, n: nat)
    requires timeout > 0.0 && n <= AtLeastOne(threshold) + k
    ensures
      var m := AtLeastOne(threshold);
      var s := New(threshold, timeout, halfOpenMax);
      var (s', executed) := CallRun(s, WorstRun(m, timeout, k)[..n]);
      && executed == n
      && s' == s.(failureCount := if n < m then n else m,
                  circuit := if n < m then Closed else Open(Times(n - m + 1, timeout)))
    decreases n
  {
    var m := AtLeastOne(threshold);
    var calls := WorstRun(m, timeout, k);
    if n > 0 {
      WorstRunExecutes(threshold, timeout, halfOpenMax, k, n - 1);
      assert calls[..n][..n - 1] == calls[..n - 1];
      assert calls[..n][n - 1] == calls[n - 1];
      TimesStep(0, timeout);
      TimesStep(n - m, timeout);
    }
  }

  /** How many calls succeed before the first failing one. */
  function Successes(calls: seq<Call>): (n: nat)
    ensures n <= |calls|
  {
    if |calls| == 0 || !calls[0].succeeds then 0 else 1 + Successes(calls[1..])
  }

  lemma {:induction false} SuccessesAre(calls: seq<Call>)
    ensures forall i | 0 <= i < Successes(calls) :: calls[i].succeeds
    ensures Successes(calls) < |calls| ==> !calls[Successes(calls)].succeeds
  {
    if |calls| > 0 && calls[0].succeeds {
      SuccessesAre(calls[1..]);
      forall i | 0 <= i < Successes(calls)
        ensures calls[i].succeeds
      {
        if i > 0 {
          assert calls[i] == calls[1..][i - 1];
        }
      }
    }
  }

  /** Does the breaker, on these calls, start testing whether the dependency has recovered? */
  ghost predicate StartsTesting(s: BreakerState, calls: seq<Call>) {
    && |calls| > 0
    && match s.circuit
       case Closed => false
       case HalfOpen => s.successCount == 0
       case Open(until) => calls[0].start >= until
  }

  lemma {:induction false} TestingContinues(s: BreakerState, calls: seq<Call>, n: nat)
    requires StartsTesting(s, calls) && 0 < n < AtLeastOne(s.halfOpenMax) && n <= Successes(calls)
    ensures CallRun(s, calls[..n]) == (s.(circuit := HalfOpen, successCount := n), n)
    decreases n
  {
    SuccessesAre(calls);
    assert calls[..n][..n - 1] == calls[..n - 1];
    if n > 1 {
      TestingContinues(s, calls, n - 1);
    } else {
      assert calls[..0] == [];
    }
  }

  /** The call that ends the episode: the first failing one, or else the last of `calls`. */
  function EpisodeLength(calls: seq<Call>): (e: nat)
    requires |calls| > 0
    ensures 0 < e <= |calls|
  {
    if Successes(calls) < |calls| then Successes(calls) + 1 else |calls|
  }

  /** The breaker when the episode is over: closed after `calls` all succeeded, else open again. */
  function AfterEpisode(s: BreakerState, calls: seq<Call>): BreakerState {
    if Successes(calls) == |calls|
    then s.(circuit := Closed, failureCount := 0, successCount := 0)
    else s.(circuit := Open(calls[Successes(calls)].finish + s.timeout), successCount := 0)
  }

  lemma CallRunStep(s: BreakerState, calls: seq<Call>, n: nat)
    requires n < |calls|
    ensures
      var (before, k) := CallRun(s, calls[..n]);
      var (after, executed) := Called(before, calls[n]);
      CallRun(s, calls[..n + 1]) == (after, k + if executed then 1 else 0)
  {
    assert calls[..n + 1][..n] == calls[..n];
    assert calls[..n + 1][n] == calls[n];
  }

  /** Just before its last call the episode is one call short of over, and no failure has been seen. */
  lemma BeforeLastTest(s: BreakerState, calls: seq<Call>)
    requires StartsTesting(s, calls) && |calls| == AtLeastOne(s.halfOpenMax)
    ensures
      var e := EpisodeLength(calls);
      CallRun(s, calls[..e - 1]) == (if e == 1 then s else s.(circuit := HalfOpen, successCount := e - 1), e - 1)
  {
    var e := EpisodeLength(calls);
    if e > 1 {
      TestingContinues(s, calls, e - 1);
    } else {
      assert calls[..0] == [];
    }
  }

  lemma TestingEnds(s: BreakerState, calls: seq<Call>)
    requires StartsTesting(s, calls) && |calls| == AtLeastOne(s.halfOpenMax)
    ensures CallRun(s, calls[..EpisodeLength(calls)]) == (AfterEpisode(s, calls), EpisodeLength(calls))
  {
    var e := EpisodeLength(calls);
    BeforeLastTest(s, calls);
    CallRunStep(s, calls, e - 1);
    SuccessesAre(calls);
    assert calls[e - 1].succeeds <==> Successes(calls) == |calls|;
  }

  /**
   A half-open episode of a sequential run executes max(halfOpenMax, 1) bodies, or fewer when one
   fails first; it closes exactly when that many succeed in a row, and else reopens for a full timeout.
   */
  lemma HalfOpenEpisode(s: BreakerState, calls: seq<Call>)
    requires StartsTesting(s, calls) && |calls| == AtLeastOne(s.halfOpenMax)
    ensures forall n | 0 < n < EpisodeLength(calls) ::
      CallRun(s, calls[..n]) == (s.(circuit := HalfOpen, successCount := n), n)
    ensures CallRun(s, calls[..EpisodeLength(calls)]) == (AfterEpisode(s, calls), EpisodeLength(calls))
    ensures AfterEpisode(s, calls).circuit.Closed? <==> forall i | 0 <= i < |calls| :: calls[i].succeeds
  {
    SuccessesAre(calls);
    TestingEnds(s, calls);
    forall n | 0 < n < EpisodeLength(calls)
      ensures CallRun(s, calls[..n]) == (s.(circuit := HalfOpen, successCount := n), n)
    {
      TestingContinues(s, calls, n);
    }
  }
}
