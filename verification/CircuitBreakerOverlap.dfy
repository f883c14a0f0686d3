/** The breaker under overlapping calls: how much load gets through when at most k calls are in flight. */
module CircuitBreakerOverlap {
  import opened Common
  import opened CircuitBreaker
  import opened CircuitBreakerRuns

  /** The breaker, the calls that were admitted and have not recorded yet, and the bodies executed so far. */
  datatype Traffic = Traffic(state: BreakerState, inFlight: int, executed: nat)

  /** One critical section of one caller. An admitted caller executes its body before it records. */
  function Next(t: Traffic, step: Step): Traffic {
    match step
    case Admit(now) =>
      var (s, ok) := ShouldAllow(t.state, now);
      if ok then Traffic(s, t.inFlight + 1, t.executed + 1) else Traffic(s, t.inFlight, t.executed)
    case Succeed => t.(state := OnSuccess(t.state), inFlight := t.inFlight - 1)
    case Fail(now) => t.(state := OnFailure(t.state, now), inFlight := t.inFlight - 1)
    case ManualReset => t.(state := Cleared(t.state))
  }

  function Flow(t: Traffic, steps: seq<Step>): Traffic {
    if |steps| == 0 then t else Next(Flow(t, steps[..|steps| - 1]), steps[|steps| - 1])
  }

  /** The breaker sees nothing but the steps. */
  lemma {:induction false} FlowIsAfter(t: Traffic, steps: seq<Step>)
    ensures Flow(t, steps).state == After(t.state, steps)
  {
    if |steps| > 0 {
      FlowIsAfter(t, steps[..|steps| - 1]);
    }
  }

  /** Nobody records without having been admitted, and never are more than k callers between the two. */
  ghost predicate AtMost(k: nat, t: Traffic, steps: seq<Step>) {
    forall n | 0 <= n <= |steps| :: 0 <= Flow(t, steps[..n]).inFlight <= k
  }

  function TimeOf(step: Step, before: Instant): Instant {
    if step.Admit? || step.Fail? then step.now else before
  }

  /** The last clock reading. */
  function Clock(start: Instant, steps: seq<Step>): Instant {
    if |steps| == 0 then start else TimeOf(steps[|steps| - 1], Clock(start, steps[..|steps| - 1]))
  }

  /** Clock readings under the lock never go back. */
  predicate Timely(start: Instant, steps: seq<Step>) {
    |steps| == 0 ||
    (var n := |steps| - 1; Timely(start, steps[..n]) && Clock(start, steps[..n]) <= Clock(start, steps))
  }

  /** The dependency is dead, and nobody resets the breaker. */
  predicate AllFail(steps: seq<Step>) { forall i | 0 <= i < |steps| :: steps[i].Admit? || steps[i].Fail? }

  /** How often the breaker has started to test the dependency. */
  function Episodes(s: BreakerState, steps: seq<Step>): nat {
    if |steps| == 0 then 0
    else
      var n := |steps| - 1;
      Episodes(s, steps[..n])
      + if !After(s, steps[..n]).circuit.HalfOpen? && After(s, steps).circuit.HalfOpen? then 1 else 0
  }

  // ------------------------------------------------------------------ load on a dead dependency

  /** k callers for each of e episodes. */
  function Squads(k: nat, e: nat): nat { k * e }

  lemma SquadsStep(k: nat, e: nat)
    ensures Squads(k, e + 1) == Squads(k, e) + k && Squads(k, 0) == 0
  {}

  /** What holds after e episodes, m failures being needed to open. */
  ghost predicate Loaded(t: Traffic, k: nat, e: nat, m: nat, timeout: real, start: Instant, now: Instant) {
    && t.state.timeout == timeout && AtLeastOne(t.state.failureThreshold) == m
    && start + Times(e, timeout) <= now
    && match t.state.circuit
       case Closed => e == 0 && t.executed == t.state.failureCount + t.inFlight && t.state.failureCount < m
       case Open(until) => t.executed <= m - 1 + k + Squads(k, e) && start + Times(e + 1, timeout) <= until
       case HalfOpen => t.executed <= m - 1 + Squads(k, e) + t.inFlight
  }

  lemma LoadedStep(t: Traffic, step: Step, k: nat, e: nat, m: nat, timeout: real, start: Instant, now: Instant)
    requires Loaded(t, k, e, m, timeout, start, now) && timeout > 0.0 && 0 <= t.inFlight <= k
    requires (step.Admit? || step.Fail?) && now <= step.now && 0 <= Next(t, step).inFlight <= k
    ensures
      var t' := Next(t, step);
      var e' := if !t.state.circuit.HalfOpen? && t'.state.circuit.HalfOpen? then e + 1 else e;
      Loaded(t', k, e', m, timeout, start, step.now)
  {
    TimesStep(e, timeout);
    TimesStep(e + 1, timeout);
    SquadsStep(k, e);
  }

  lemma {:induction false} StaysLoaded(s: BreakerState, k: nat, steps: seq<Step>, start: Instant)
    requires s.circuit.Closed? && s.failureCount == 0 && s.timeout > 0.0
    requires AtMost(k, Traffic(s, 0, 0), steps) && Timely(start, steps) && AllFail(steps)
    ensures Loaded(Flow(Traffic(s, 0, 0), steps), k, Episodes(s, steps), AtLeastOne(s.failureThreshold), s.timeout,
                   start, Clock(start, steps))
  {
    var t0 := Traffic(s, 0, 0);
    if |steps| == 0 {
      TimesStep(0, s.timeout);
      SquadsStep(k, 0);
    } else {
      var (init, step) := (steps[..|steps| - 1], steps[|steps| - 1]);
      AtMostBefore(k, t0, steps);
      StaysLoaded(s, k, init, start);
      FlowIsAfter(t0, init);
      FlowIsAfter(t0, steps);
      LoadedStep(Flow(t0, init), step, k, Episodes(s, init), AtLeastOne(s.failureThreshold), s.timeout, start, Clock(start, init));
    }
  }

  lemma AtMostBefore(k: nat, t: Traffic, steps: seq<Step>)
    requires |steps| > 0 && AtMost(k, t, steps)
    ensures AtMost(k, t, steps[..|steps| - 1])
    ensures 0 <= Flow(t, steps[..|steps| - 1]).inFlight <= k && 0 <= Flow(t, steps).inFlight <= k
  {
    var init := steps[..|steps| - 1];
    assert steps[..|steps|] == steps;
    assert forall n | 0 <= n <= |init| :: init[..n] == steps[..n];
  }

  /**
   Bounded load under overlap: with at most k callers in flight, a fresh breaker lets at most
   max(threshold, 1) - 1 + k * (1 + floor(elapsed / timeout)) bodies through to a dead dependency. For
   k = 1 this is the bound for sequential calls.
   */
  lemma BoundedLoadUnderOverlap(threshold: nat, timeout: real, halfOpenMax: nat, k: nat, steps: seq<Step>, start: Instant)
    requires timeout > 0.0
    requires AtMost(k, Traffic(New(threshold, timeout, halfOpenMax), 0, 0), steps) && Timely(start, steps) && AllFail(steps)
    ensures Clock(start, steps) >= start
    ensures Flow(Traffic(New(threshold, timeout, halfOpenMax), 0, 0), steps).executed
         <= AtLeastOne(threshold) - 1 + Squads(k, 1 + ((Clock(start, steps) - start) / timeout).Floor)
  {
    var s := New(threshold, timeout, halfOpenMax);
    var t := Flow(Traffic(s, 0, 0), steps);
    var e := Episodes(s, steps);
    var elapsed := Clock(start, steps) - start;
    StaysLoaded(s, k, steps, start);
    AtMostAtEnd(k, Traffic(s, 0, 0), steps);
    TimesGrow(e, timeout);
    FitsFloor(e, timeout, elapsed);
    SquadsStep(k, e);
    SquadsGrow(k, e + 1, 1 + (elapsed / timeout).Floor);
  }

  lemma AtMostAtEnd(k: nat, t: Traffic, steps: seq<Step>)
    requires AtMost(k, t, steps)
    ensures 0 <= Flow(t, steps).inFlight <= k
  {
    assert steps[..|steps|] == steps;
  }

  lemma TimesGrow(e: nat, d: real)
    requires d > 0.0
    ensures Times(e, d) >= 0.0
  {}

  lemma SquadsGrow(k: nat, a: nat, b: nat)
    requires a <= b
    ensures Squads(k, a) <= Squads(k, b)
  {}

  // ------------------------------------------------------------------ the bound is reached

  lemma {:induction false} FlowJoin(t: Traffic, xs: seq<Step>, ys: seq<Step>)
    ensures Flow(t, xs + ys) == Flow(Flow(t, xs), ys)
  {
    if |ys| == 0 {
      assert xs + ys == xs;
    } else {
      var n := |ys| - 1;
      FlowJoin(t, xs, ys[..n]);
      assert (xs + ys)[..|xs + ys| - 1] == xs + ys[..n];
    }
  }

  lemma {:induction false} ClockJoin(start: Instant, xs: seq<Step>, ys: seq<Step>)
    ensures Clock(start, xs + ys) == Clock(Clock(start, xs), ys)
    ensures Timely(start, xs) && Timely(Clock(start, xs), ys) ==> Timely(start, xs + ys)
  {
    if |ys| == 0 {
      assert xs + ys == xs;
    } else {
      var n := |ys| - 1;
      ClockJoin(start, xs, ys[..n]);
      assert (xs + ys)[..|xs + ys| - 1] == xs + ys[..n];
    }
  }

  lemma AtMostJoin(k: nat, t: Traffic, xs: seq<Step>, ys: seq<Step>)
    requires AtMost(k, t, xs) && AtMost(k, Flow(t, xs), ys)
    ensures AtMost(k, t, xs + ys)
  {
    var all := xs + ys;
    forall n | 0 <= n <= |all|
      ensures 0 <= Flow(t, all[..n]).inFlight <= k
    {
      if n <= |xs| {
        assert all[..n] == xs[..n];
      } else {
        assert all[..n] == xs + ys[..n - |xs|];
        FlowJoin(t, xs, ys[..n - |xs|]);
      }
    }
  }

  /** A stretch of steps that any caller could see: within k, in time, on a dead dependency. */
  ghost predicate Plausible(k: nat, t: Traffic, start: Instant, steps: seq<Step>) {
    AtMost(k, t, steps) && Timely(start, steps) && AllFail(steps)
  }

  lemma PlausibleJoin(k: nat, t: Traffic, start: Instant, xs: seq<Step>, ys: seq<Step>)
    requires Plausible(k, t, start, xs) && Plausible(k, Flow(t, xs), Clock(start, xs), ys)
    ensures Plausible(k, t, start, xs + ys)
    ensures Flow(t, xs + ys) == Flow(Flow(t, xs), ys) && Clock(start, xs + ys) == Clock(Clock(start, xs), ys)
  {
    AtMostJoin(k, t, xs, ys);
    FlowJoin(t, xs, ys);
    ClockJoin(start, xs, ys);
  }

  lemma PlausibleStep(k: nat, t: Traffic, start: Instant, step: Step)
    requires step.Admit? || step.Fail?
    requires start <= step.now && 0 <= t.inFlight <= k && 0 <= Next(t, step).inFlight <= k
    ensures Plausible(k, t, start, [step]) && Flow(t, [step]) == Next(t, step) && Clock(start, [step]) == step.now
  {
    var steps := [step];
    assert steps[..0] == [] && steps[..1] == steps;
    assert Flow(t, steps[..0]) == t && Flow(t, steps) == Next(t, step);
    assert Clock(start, steps[..0]) == start && Timely(start, steps[..0]);
  }

  function Repeated(step: Step, n: nat): seq<Step> { if n == 0 then [] else [step] + Repeated(step, n - 1) }

  /** n callers are admitted at once by a breaker that is not open. */
  lemma {:induction false} AdmitsFlow(k: nat, t: Traffic, start: Instant, now: Instant, n: nat)
    requires !t.state.circuit.Open? && start <= now && 0 <= t.inFlight && t.inFlight + n <= k
    ensures Plausible(k, t, start, Repeated(Admit(now), n))
    ensures Flow(t, Repeated(Admit(now), n)) == Traffic(t.state, t.inFlight + n, t.executed + n)
    ensures n > 0 ==> Clock(start, Repeated(Admit(now), n)) == now
    decreases n
  {
    if n > 0 {
      PlausibleStep(k, t, start, Admit(now));
      AdmitsFlow(k, Next(t, Admit(now)), now, now, n - 1);
      PlausibleJoin(k, t, start, [Admit(now)], Repeated(Admit(now), n - 1));
    } else {
      Nothing(k, t, start);
    }
  }

  lemma Nothing(k: nat, t: Traffic, start: Instant)
    requires 0 <= t.inFlight <= k
    ensures Plausible(k, t, start, [])
  {
    var none: seq<Step> := [];
    assert none[..0] == [];
  }

  /** Failures recorded while open change nothing but the number of callers in flight. */
  lemma {:induction false} LateFailsFlow(k: nat, t: Traffic, start: Instant, now: Instant, n: nat)
    requires t.state.circuit.Open? && start <= now && n <= t.inFlight <= k
    ensures Plausible(k, t, start, Repeated(Fail(now), n))
    ensures Flow(t, Repeated(Fail(now), n)) == t.(inFlight := t.inFlight - n)
    ensures n > 0 ==> Clock(start, Repeated(Fail(now), n)) == now
    decreases n
  {
    if n > 0 {
      PlausibleStep(k, t, start, Fail(now));
      LateFailsFlow(k, Next(t, Fail(now)), now, now, n - 1);
      PlausibleJoin(k, t, start, [Fail(now)], Repeated(Fail(now), n - 1));
    } else {
      Nothing(k, t, start);
    }
  }

  /** k callers get in together. */
  function Entering(k: nat, now: Instant): seq<Step>
    requires k > 0
  {
    [Admit(now)] + Repeated(Admit(now), k - 1)
  }

  lemma EnteringFlow(k: nat, t: Traffic, start: Instant, now: Instant)
    requires k > 0 && t.inFlight == 0 && start <= now && ShouldAllow(t.state, now).1
    ensures Plausible(k, t, start, Entering(k, now)) && Clock(start, Entering(k, now)) == now
    ensures Flow(t, Entering(k, now)) == Traffic(ShouldAllow(t.state, now).0, k, t.executed + k)
  {
    PlausibleStep(k, t, start, Admit(now));
    AdmitsFlow(k, Next(t, Admit(now)), now, now, k - 1);
    PlausibleJoin(k, t, start, [Admit(now)], Repeated(Admit(now), k - 1));
  }

  /** k callers fail together. */
  function Failing(k: nat, now: Instant): seq<Step>
    requires k > 0
  {
    [Fail(now)] + Repeated(Fail(now), k - 1)
  }

  lemma FailingFlow(k: nat, t: Traffic, now: Instant)
    requires k > 0 && t.inFlight == k && OnFailure(t.state, now).circuit.Open?
    ensures Plausible(k, t, now, Failing(k, now)) && Clock(now, Failing(k, now)) == now
    ensures Flow(t, Failing(k, now)) == Traffic(OnFailure(t.state, now), 0, t.executed)
  {
    PlausibleStep(k, t, now, Fail(now));
    LateFailsFlow(k, Next(t, Fail(now)), now, now, k - 1);
    PlausibleJoin(k, t, now, [Fail(now)], Repeated(Fail(now), k - 1));
  }

  /** k callers get in together and fail together. */
  function Burst(k: nat, now: Instant): seq<Step>
    requires k > 0
  {
    Entering(k, now) + Failing(k, now)
  }

  /** A burst on a breaker that lets the first caller in, and that the first failure opens. */
  lemma BurstFlow(k: nat, t: Traffic, start: Instant, now: Instant)
    requires k > 0 && t.inFlight == 0 && start <= now && ShouldAllow(t.state, now).1
    requires OnFailure(ShouldAllow(t.state, now).0, now).circuit.Open?
    ensures Plausible(k, t, start, Burst(k, now)) && Clock(start, Burst(k, now)) == now
    ensures Flow(t, Burst(k, now)) == Traffic(OnFailure(ShouldAllow(t.state, now).0, now), 0, t.executed + k)
  {
    EnteringFlow(k, t, start, now);
    FailingFlow(k, Flow(t, Entering(k, now)), now);
    PlausibleJoin(k, t, start, Entering(k, now), Failing(k, now));
  }

  /** Single callers that fail, one after the other, n of them. */
  function Trickle(n: nat): seq<Step> { if n == 0 then [] else Trickle(n - 1) + ([Admit(0.0)] + [Fail(0.0)]) }

  lemma {:induction false} TrickleFlow(k: nat, s: BreakerState, n: nat)
    requires k > 0 && s.circuit.Closed? && s.failureCount == 0 && n < AtLeastOne(s.failureThreshold)
    ensures Plausible(k, Traffic(s, 0, 0), 0.0, Trickle(n)) && Clock(0.0, Trickle(n)) == 0.0
    ensures Flow(Traffic(s, 0, 0), Trickle(n)) == Traffic(s.(failureCount := n), 0, n)
    decreases n
  {
    if n == 0 {
      Nothing(k, Traffic(s, 0, 0), 0.0);
    } else {
      TrickleFlow(k, s, n - 1);
      var t := Traffic(s.(failureCount := n - 1), 0, n - 1);
      PlausibleStep(k, t, 0.0, Admit(0.0));
      PlausibleStep(k, Next(t, Admit(0.0)), 0.0, Fail(0.0));
      PlausibleJoin(k, t, 0.0, [Admit(0.0)], [Fail(0.0)]);
      PlausibleJoin(k, Traffic(s, 0, 0), 0.0, Trickle(n - 1), [Admit(0.0)] + [Fail(0.0)]);
    }
  }

  /** The worst traffic: just not enough failures, then a burst of k at once and after each of n timeouts. */
  function WorstTraffic(m: nat, k: nat, timeout: real, n: nat): seq<Step>
    requires m > 0 && k > 0
  {
    if n == 0 then Trickle(m - 1) + Burst(k, 0.0)
    else WorstTraffic(m, k, timeout, n - 1) + Burst(k, Times(n, timeout))
  }

  /** Where the worst traffic leaves the breaker. */
  ghost predicate Worst(s: BreakerState, k: nat, n: nat, steps: seq<Step>) {
    var t := Flow(Traffic(s, 0, 0), steps);
    && Plausible(k, Traffic(s, 0, 0), 0.0, steps) && Clock(0.0, steps) == Times(n, s.timeout)
    && t.inFlight == 0 && t.executed == AtLeastOne(s.failureThreshold) - 1 + Squads(k, 1 + n)
    && t.state.circuit == Open(Times(n + 1, s.timeout)) && t.state.timeout == s.timeout
  }

  /** The failure that completes the count, with nobody else in between. */
  lemma LastFailureOpens(s: BreakerState, now: Instant)
    requires s.circuit.Closed? && s.failureCount + 1 == AtLeastOne(s.failureThreshold)
    ensures ShouldAllow(s, now) == (s, true)
    ensures OnFailure(s, now) == s.(failureCount := s.failureCount + 1, circuit := Open(now + s.timeout))
  {}

  lemma WorstStart(s: BreakerState, k: nat)
    requires k > 0 && s.timeout > 0.0 && s.circuit.Closed? && s.failureCount == 0
    ensures Worst(s, k, 0, Trickle(AtLeastOne(s.failureThreshold) - 1) + Burst(k, 0.0))
  {
    var m := AtLeastOne(s.failureThreshold);
    var t := Traffic(s.(failureCount := m - 1), 0, m - 1);
    TrickleFlow(k, s, m - 1);
    LastFailureOpens(t.state, 0.0);
    BurstFlow(k, t, 0.0, 0.0);
    PlausibleJoin(k, Traffic(s, 0, 0), 0.0, Trickle(m - 1), Burst(k, 0.0));
    SquadsStep(k, 0);
    TimesStep(0, s.timeout);
  }

  lemma WorstGoesOn(s: BreakerState, k: nat, n: nat, before: seq<Step>)
    requires k > 0 && s.timeout > 0.0 && Worst(s, k, n, before)
    ensures Worst(s, k, n + 1, before + Burst(k, Times(n + 1, s.timeout)))
  {
    SquadsStep(k, n + 1);
    TimesStep(n, s.timeout);
    TimesStep(n + 1, s.timeout);
    BurstFlow(k, Flow(Traffic(s, 0, 0), before), Clock(0.0, before), Times(n + 1, s.timeout));
    PlausibleJoin(k, Traffic(s, 0, 0), 0.0, before, Burst(k, Times(n + 1, s.timeout)));
  }

  lemma {:induction false} WorstTrafficFlow(s: BreakerState, k: nat, n: nat)
    requires k > 0 && s.timeout > 0.0 && s.circuit.Closed? && s.failureCount == 0
    ensures Worst(s, k, n, WorstTraffic(AtLeastOne(s.failureThreshold), k, s.timeout, n))
    decreases n
  {
    if n == 0 {
      WorstStart(s, k);
    } else {
      WorstTrafficFlow(s, k, n - 1);
      WorstGoesOn(s, k, n - 1, WorstTraffic(AtLeastOne(s.failureThreshold), k, s.timeout, n - 1));
    }
  }

  /** For every threshold, every k > 0 and every number n of timeouts some traffic reaches the bound. */
  lemma OverlapBoundIsReached(threshold: nat, timeout: real, halfOpenMax: nat, k: nat, n: nat)
    requires timeout > 0.0 && k > 0
    ensures
      var t0 := Traffic(New(threshold, timeout, halfOpenMax), 0, 0);
      var steps := WorstTraffic(AtLeastOne(threshold), k, timeout, n);
      && AtMost(k, t0, steps) && Timely(0.0, steps) && AllFail(steps)
      && (Clock(0.0, steps) / timeout).Floor == n
      && Flow(t0, steps).executed == AtLeastOne(threshold) - 1 + Squads(k, 1 + n)
  {
    WorstTrafficFlow(New(threshold, timeout, halfOpenMax), k, n);
    TimesDivided(n, timeout);
  }

  // ------------------------------------------------------------------ a half-open episode under overlap

  /** The breaker is half open throughout. */
  ghost predicate Testing(s: BreakerState, steps: seq<Step>) {
    forall n | 0 <= n <= |steps| :: After(s, steps[..n]).circuit.HalfOpen?
  }

  lemma TestingBefore(s: BreakerState, steps: seq<Step>)
    requires |steps| > 0 && Testing(s, steps)
    ensures Testing(s, steps[..|steps| - 1])
    ensures After(s, steps[..|steps| - 1]).circuit.HalfOpen? && After(s, steps).circuit.HalfOpen?
  {
    var init := steps[..|steps| - 1];
    assert steps[..|steps|] == steps;
    assert forall n | 0 <= n <= |init| :: init[..n] == steps[..n];
  }

  /** While it tests, every body executed since is in flight or has been counted as a success. */
  lemma {:induction false} TestedSoFar(t: Traffic, steps: seq<Step>)
    requires Testing(t.state, steps) && t.state.successCount == 0 && t.inFlight >= 0
    ensures
      var t' := Flow(t, steps);
      && t'.executed - t.executed == t'.state.successCount + t'.inFlight - t.inFlight
      && t'.state.halfOpenMax == t.state.halfOpenMax
      && t'.state.successCount < AtLeastOne(t.state.halfOpenMax)
  {
    FlowIsAfter(t, steps);
    if |steps| == 0 {
      assert steps[..0] == steps;
    } else {
      TestingBefore(t.state, steps);
      TestedSoFar(t, steps[..|steps| - 1]);
      FlowIsAfter(t, steps[..|steps| - 1]);
    }
  }

  /**
   A half-open episode under overlap. From the moment its first caller is admitted, with `before` callers in
   flight from earlier, it executes at most max(halfOpenMax, 1) - 1 + k - before bodies. For k = 1 this is
   max(halfOpenMax, 1), as for sequential calls; each further caller in flight adds one.
   */
  lemma HalfOpenUnderOverlap(t: Traffic, k: nat, now: Instant, steps: seq<Step>)
    requires t.state.circuit.Open? && ShouldAllow(t.state, now).1 && 0 <= t.inFlight
    requires Testing(Next(t, Admit(now)).state, steps)
    requires Flow(Next(t, Admit(now)), steps).inFlight <= k
    ensures Flow(Next(t, Admit(now)), steps).executed - t.executed
         <= AtLeastOne(t.state.halfOpenMax) - 1 + k - t.inFlight
  {
    TestedSoFar(Next(t, Admit(now)), steps);
  }

  /** One more admission keeps the episode within the documented limit exactly under this condition on the counters. */
  lemma AdmissionKeepsLimitIff(t: Traffic, now: Instant, steps: seq<Step>, next: Instant)
    requires t.state.circuit.Open? && ShouldAllow(t.state, now).1 && 0 <= t.inFlight
    requires Testing(Next(t, Admit(now)).state, steps)
    ensures
      var (t', limit) := (Flow(Next(t, Admit(now)), steps), AtLeastOne(t.state.halfOpenMax));
      Next(t', Admit(next)).executed - t.executed <= limit <==> t'.state.successCount + t'.inFlight - t.inFlight < limit
  {
    TestedSoFar(Next(t, Admit(now)), steps);
    FlowIsAfter(Next(t, Admit(now)), steps);
    assert steps[..|steps|] == steps;
  }

  // ------------------------------------------------------------------ the episode bound is reached

  /** Steps of at most k callers, on a clock that does not go back, with the breaker half open throughout. */
  ghost predicate Tests(k: nat, t: Traffic, start: Instant, steps: seq<Step>) {
    AtMost(k, t, steps) && Timely(start, steps) && Testing(t.state, steps)
  }

  lemma TestsJoin(k: nat, t: Traffic, start: Instant, xs: seq<Step>, ys: seq<Step>)
    requires Tests(k, t, start, xs) && Tests(k, Flow(t, xs), Clock(start, xs), ys)
    ensures Tests(k, t, start, xs + ys)
    ensures Flow(t, xs + ys) == Flow(Flow(t, xs), ys) && Clock(start, xs + ys) == Clock(Clock(start, xs), ys)
  {
    AtMostJoin(k, t, xs, ys);
    FlowJoin(t, xs, ys);
    ClockJoin(start, xs, ys);
    var all := xs + ys;
    forall n | 0 <= n <= |all|
      ensures After(t.state, all[..n]).circuit.HalfOpen?
    {
      if n <= |xs| {
        assert all[..n] == xs[..n];
      } else {
        var ys' := ys[..n - |xs|];
        assert all[..n] == xs + ys';
        FlowJoin(t, xs, ys');
        FlowIsAfter(t, xs + ys');
        FlowIsAfter(Flow(t, xs), ys');
      }
    }
  }

  lemma TestsStep(k: nat, t: Traffic, start: Instant, step: Step)
    requires t.state.circuit.HalfOpen? && Next(t, step).state.circuit.HalfOpen?
    requires start <= TimeOf(step, start) && 0 <= t.inFlight <= k && 0 <= Next(t, step).inFlight <= k
    ensures Tests(k, t, start, [step]) && Flow(t, [step]) == Next(t, step) && Clock(start, [step]) == TimeOf(step, start)
  {
    var steps := [step];
    assert steps[..0] == [] && steps[..1] == steps;
    assert Flow(t, steps[..0]) == t && Flow(t, steps) == Next(t, step);
    assert Clock(start, steps[..0]) == start && Timely(start, steps[..0]);
    FlowIsAfter(t, steps);
  }

  lemma NothingTested(k: nat, t: Traffic, start: Instant)
    requires t.state.circuit.HalfOpen? && 0 <= t.inFlight <= k
    ensures Tests(k, t, start, [])
  {
    var none: seq<Step> := [];
    assert none[..0] == [];
  }

  /** A caller succeeds and the next one gets in, n times. */
  function Retries(n: nat, now: Instant): seq<Step> {
    if n == 0 then [] else Retries(n - 1, now) + ([Succeed] + [Admit(now)])
  }

  lemma {:induction false} RetriesFlow(k: nat, t: Traffic, now: Instant, n: nat)
    requires t.state.circuit.HalfOpen? && t.state.successCount == 0 && n < AtLeastOne(t.state.halfOpenMax)
    requires 1 <= t.inFlight <= k
    ensures Tests(k, t, now, Retries(n, now)) && Clock(now, Retries(n, now)) == now
    ensures Flow(t, Retries(n, now)) == Traffic(t.state.(successCount := n), t.inFlight, t.executed + n)
    decreases n
  {
    if n == 0 {
      NothingTested(k, t, now);
    } else {
      RetriesFlow(k, t, now, n - 1);
      var u := Flow(t, Retries(n - 1, now));
      TestsStep(k, u, now, Succeed);
      TestsStep(k, Next(u, Succeed), now, Admit(now));
      TestsJoin(k, u, now, [Succeed], [Admit(now)]);
      TestsJoin(k, t, now, Retries(n - 1, now), [Succeed] + [Admit(now)]);
    }
  }

  lemma {:induction false} AdmitsTest(k: nat, t: Traffic, now: Instant, n: nat)
    requires t.state.circuit.HalfOpen? && 0 <= t.inFlight && t.inFlight + n <= k
    ensures Tests(k, t, now, Repeated(Admit(now), n))
    ensures Flow(t, Repeated(Admit(now), n)) == Traffic(t.state, t.inFlight + n, t.executed + n)
    decreases n
  {
    if n == 0 {
      NothingTested(k, t, now);
    } else {
      TestsStep(k, t, now, Admit(now));
      AdmitsTest(k, Next(t, Admit(now)), now, n - 1);
      TestsJoin(k, t, now, [Admit(now)], Repeated(Admit(now), n - 1));
    }
  }

  /** Single callers that succeed, one too few to close, and then as many at once as may be in flight. */
  function WorstEpisode(limit: nat, spare: nat, now: Instant): seq<Step>
    requires limit > 0 && spare > 0
  {
    Retries(limit - 1, now) + Repeated(Admit(now), spare - 1)
  }

  /** From every waking of an open breaker some traffic reaches the bound of `HalfOpenUnderOverlap`. */
  lemma HalfOpenBoundIsReached(t: Traffic, k: nat, now: Instant)
    requires t.state.circuit.Open? && ShouldAllow(t.state, now).1 && 0 <= t.inFlight < k
    ensures
      var (t', steps) := (Next(t, Admit(now)), WorstEpisode(AtLeastOne(t.state.halfOpenMax), k - t.inFlight, now));
      && Tests(k, t', now, steps) && Flow(t', steps).inFlight == k
      && Flow(t', steps).executed - t.executed == AtLeastOne(t.state.halfOpenMax) - 1 + k - t.inFlight
  {
    var (t', n) := (Next(t, Admit(now)), AtLeastOne(t.state.halfOpenMax) - 1);
    RetriesFlow(k, t', now, n);
    AdmitsTest(k, Flow(t', Retries(n, now)), now, k - t.inFlight - 1);
    TestsJoin(k, t', now, Retries(n, now), Repeated(Admit(now), k - t.inFlight - 1));
  }

  // ------------------------------------------------------------------ the documented limit

  /** A run of at most k callers on a fresh breaker: steps until it is open, the waking admission, and steps while it tests. */
  ghost predicate EpisodeOf(k: nat, s: BreakerState, before: seq<Step>, now: Instant, during: seq<Step>) {
    var t := Flow(Traffic(s, 0, 0), before);
    && AtMost(k, Traffic(s, 0, 0), before) && Timely(0.0, before) && Clock(0.0, before) <= now
    && t.state.circuit.Open? && ShouldAllow(t.state, now).1
    && Tests(k, Next(t, Admit(now)), now, during)
  }

  function ExecutedIn(s: BreakerState, before: seq<Step>, now: Instant, during: seq<Step>): int {
    var t := Flow(Traffic(s, 0, 0), before);
    Flow(Next(t, Admit(now)), during).executed - t.executed
  }

  lemma EpisodeWithin(k: nat, s: BreakerState, before: seq<Step>, now: Instant, during: seq<Step>)
    requires EpisodeOf(k, s, before, now, during)
    ensures k >= 1 && ExecutedIn(s, before, now, during) <= AtLeastOne(s.halfOpenMax) - 1 + k
  {
    var t := Flow(Traffic(s, 0, 0), before);
    AtMostAtEnd(k, Traffic(s, 0, 0), before);
    AtMostAtEnd(k, Next(t, Admit(now)), during);
    assert during[..0] == [] && 0 <= Flow(Next(t, Admit(now)), during[..0]).inFlight <= k;
    KeepsLimits(Traffic(s, 0, 0), before);
    HalfOpenUnderOverlap(t, k, now, during);
  }

  lemma {:induction false} KeepsLimits(t: Traffic, steps: seq<Step>)
    ensures Flow(t, steps).state.halfOpenMax == t.state.halfOpenMax
  {
    if |steps| > 0 {
      KeepsLimits(t, steps[..|steps| - 1]);
    }
  }

  lemma WorstEpisodeExists(threshold: nat, timeout: real, halfOpenMax: nat, k: nat)
    returns (before: seq<Step>, now: Instant, during: seq<Step>)
    requires timeout > 0.0 && k > 0
    ensures EpisodeOf(k, New(threshold, timeout, halfOpenMax), before, now, during)
    ensures ExecutedIn(New(threshold, timeout, halfOpenMax), before, now, during) == AtLeastOne(halfOpenMax) - 1 + k
  {
    var s := New(threshold, timeout, halfOpenMax);
    before, now := WorstTraffic(AtLeastOne(threshold), k, timeout, 0), Times(1, timeout);
    WorstTrafficFlow(s, k, 0);
    TimesStep(0, timeout);
    var t := Flow(Traffic(s, 0, 0), before);
    KeepsLimits(Traffic(s, 0, 0), before);
    during := WorstEpisode(AtLeastOne(halfOpenMax), k, now);
    HalfOpenBoundIsReached(t, k, now);
  }

  /**
   The documented limit: no half-open episode executes more than max(halfOpenMax, 1) bodies. It holds for all
   traffic of at most k callers, whatever the limits, if and only if k is at most 1: calls do not overlap.
   */
  lemma DocumentedLimitIffSequential(threshold: nat, timeout: real, halfOpenMax: nat, k: nat)
    requires timeout > 0.0
    ensures
      (forall before, now, during | EpisodeOf(k, New(threshold, timeout, halfOpenMax), before, now, during) ::
         ExecutedIn(New(threshold, timeout, halfOpenMax), before, now, during) <= AtLeastOne(halfOpenMax))
      <==> k <= 1
  {
    var s := New(threshold, timeout, halfOpenMax);
    forall before, now, during | EpisodeOf(k, s, before, now, during)
      ensures ExecutedIn(s, before, now, during) <= AtLeastOne(halfOpenMax) - 1 + k
    {
      EpisodeWithin(k, s, before, now, during);
    }
    if k > 1 {
      var before, now, during := WorstEpisodeExists(threshold, timeout, halfOpenMax, k);
    }
  }
}
