/** Limiter, breaker and metrics stacked on one function through the registry. */
module AspectStack {
  import opened Common
  import opened AroundChain
  import RL = RateLimit
  import RLRuns = RateLimitRuns
  import RLIsolation = RateLimitIsolation
  import TW = TokenWindows
  import CB = CircuitBreaker
  import CBRuns = CircuitBreakerRuns
  import M = Metrics
  import P = Pointcuts
  import Registry
  import StableSort

  /** Everything the three aspects and the body read or change, with the clock. */
  datatype World = World(
    limiter: RL.LimiterState,
    breaker: CB.BreakerState,
    metrics: M.MetricsState,
    now: Instant,
    executed: nat)

  function LimiterAdvice(): Advice<World> {
    Advice(
      (w: World, ctx: JoinPoint) =>
        (var (l, reply) := RL.Serve(w.limiter, RL.TryAcquire(Some(ctx.functionName), w.now));
         if reply == RL.Decision(true) then Go(w.(limiter := l), 0.0)
         else Skip(w.(limiter := l), Err(ExecutionError(RL.RateLimitExceeded(ctx.functionName))))),
      (w: World, ctx: JoinPoint, memo: Instant, o: Outcome) => (w, o))
  }

  function BreakerAdvice(): Advice<World> {
    Advice(
      (w: World, ctx: JoinPoint) =>
        (var (b, ok) := CB.ShouldAllow(w.breaker, w.now);
         if ok then Go(w.(breaker := b), 0.0) else Skip(w.(breaker := b), Err(ExecutionError(CB.FAIL_FAST)))),
      (w: World, ctx: JoinPoint, memo: Instant, o: Outcome) =>
        (w.(breaker := if o.Ok? then CB.OnSuccess(w.breaker) else CB.OnFailure(w.breaker, w.now)), o))
  }

  function MetricsAdvice(): Advice<World> {
    Advice(
      (w: World, ctx: JoinPoint) => Go(w.(metrics := M.Started(w.metrics, ctx.functionName)), w.now),
      (w: World, ctx: JoinPoint, memo: Instant, o: Outcome) =>
        (w.(metrics := M.Finished(w.metrics, ctx.functionName, DurationSince(w.now, memo))), o))
  }

  /** One call: when it is made, when its body would return, and what it would return. */
  datatype StackCall = StackCall(start: Instant, finish: Instant, outcome: Outcome)

  function BodyOf(call: StackCall): Body<World> {
    (w: World) => (w.(now := call.finish, executed := w.executed + 1), call.outcome)
  }

  /** The chain the registry builds: order 1, 2, 3 from the outside in. */
  function StackChain(f: P.FunctionInfo, caller: JoinPoint, call: StackCall): Chain<World> {
    Chain([LimiterAdvice(), BreakerAdvice(), MetricsAdvice()], Registry.InfoToJoinPoint(f), caller, BodyOf(call))
  }

  /** Where a call ended. */
  datatype Verdict = Limited | FailedFast | Executed

  function VerdictOf(f: P.FunctionInfo, caller: JoinPoint, call: StackCall, w: World): Verdict {
    var way := Inward(StackChain(f, caller, call), 3, w.(now := call.start));
    if way.Arrived? then Executed else if way.depth == 0 then Limited else FailedFast
  }

  function Called(f: P.FunctionInfo, caller: JoinPoint, call: StackCall, w: World): World {
    StackChain(f, caller, call).Meaning(0, w.(now := call.start)).0
  }

  /** What the caller gets back. */
  function Returned(f: P.FunctionInfo, caller: JoinPoint, call: StackCall, w: World): Outcome {
    StackChain(f, caller, call).Meaning(0, w.(now := call.start)).1
  }

  // ------------------------------------------------------------------ one call

  /** What a call does to the three aspects, by verdict. */
  ghost predicate CallEffect(f: P.FunctionInfo, call: StackCall, v: Verdict, w: World, w': World) {
    var (l, reply) := RL.Serve(w.limiter, RL.TryAcquire(Some(f.name), call.start));
    var (b, ok) := CB.ShouldAllow(w.breaker, call.start);
    && w'.limiter == l
    && (v.Limited? <==> reply != RL.Decision(true))
    && match v
       case Limited => w'.breaker == w.breaker && w'.metrics == w.metrics && w'.executed == w.executed
       case FailedFast => !ok && w'.breaker == w.breaker && w'.metrics == w.metrics && w'.executed == w.executed
       case Executed =>
         && ok
         && w'.breaker == (if call.outcome.Ok? then CB.OnSuccess(b) else CB.OnFailure(b, call.finish))
         && w'.metrics == M.Finished(M.Started(w.metrics, f.name), f.name, DurationSince(call.finish, call.start))
         && w'.executed == w.executed + 1
  }

  lemma CallHasItsEffect(f: P.FunctionInfo, caller: JoinPoint, call: StackCall, w: World)
    requires caller.functionName == f.name
    ensures CallEffect(f, call, VerdictOf(f, caller, call, w), w, Called(f, caller, call, w))
    ensures Returned(f, caller, call, w) ==
      match VerdictOf(f, caller, call, w)
      case Limited => Err(ExecutionError("Rate limit exceeded for " + f.name))
      case FailedFast => Err(ExecutionError("Circuit breaker is OPEN - failing fast"))
      case Executed => call.outcome
  {
    var c := StackChain(f, caller, call);
    var w0 := w.(now := call.start);
    var (l, reply) := RL.Serve(w0.limiter, RL.TryAcquire(Some(f.name), w0.now));
    assert Inward(c, 0, w0) == Arrived(w0, []);
    if reply != RL.Decision(true) {
      assert Inward(c, 1, w0).Cut? && Inward(c, 1, w0).depth == 0;
      CutIsFinal(c, 1, 3, w0);
    } else {
      var w1 := w0.(limiter := l);
      assert Inward(c, 1, w0) == Arrived(w1, [] + [0.0]);
      var (b, ok) := CB.ShouldAllow(w1.breaker, w1.now);
      assert c.Meaning(0, w0) == c.Meaning(1, w1);
      if !ok {
        assert Inward(c, 2, w0).Cut? && Inward(c, 2, w0).depth == 1;
        CutIsFinal(c, 2, 3, w0);
      } else {
        var w2 := w1.(breaker := b);
        assert Inward(c, 2, w0).Arrived? && Inward(c, 2, w0).world == w2;
        assert Inward(c, 3, w0).Arrived?;
        var w3 := w2.(metrics := M.Started(w2.metrics, f.name));
        assert c.Meaning(3, w3) == BodyOf(call)(w3);
        assert c.Meaning(2, w2) == MetricsAdvice().leave(BodyOf(call)(w3).0, caller, w2.now, call.outcome);
      }
    }
  }

  // ------------------------------------------------------------------ runs

  function StackRun(f: P.FunctionInfo, caller: JoinPoint, calls: seq<StackCall>, w: World): (r: (World, seq<Verdict>))
    ensures |r.1| == |calls|
  {
    if |calls| == 0 then (w, [])
    else
      var n := |calls| - 1;
      var (before, vs) := StackRun(f, caller, calls[..n], w);
      (Called(f, caller, calls[n], before), vs + [VerdictOf(f, caller, calls[n], before)])
  }

  /** A run is its first calls, then its last. */
  lemma StackRunStep(f: P.FunctionInfo, caller: JoinPoint, calls: seq<StackCall>, w: World)
    requires |calls| > 0
    ensures
      var n := |calls| - 1;
      var (before, vs) := StackRun(f, caller, calls[..n], w);
      StackRun(f, caller, calls, w) == (Called(f, caller, calls[n], before), vs + [VerdictOf(f, caller, calls[n], before)])
  {}

  function Count(vs: seq<Verdict>, v: Verdict): nat {
    if |vs| == 0 then 0 else Count(vs[..|vs| - 1], v) + if vs[|vs| - 1] == v then 1 else 0
  }

  /** A world before its first call of f. */
  predicate Unused(w: World, f: string) {
    w.executed == 0 && M.CountOf(w.metrics, f) == 0 && M.HistogramOf(w.metrics, f) == []
  }

  lemma {:induction false} EachCallIsCounted(vs: seq<Verdict>)
    ensures |vs| == Count(vs, Limited) + Count(vs, FailedFast) + Count(vs, Executed)
  {
    if |vs| > 0 {
      EachCallIsCounted(vs[..|vs| - 1]);
    }
  }

  /** A call is counted, recorded and run exactly when it is executed. */
  lemma CallIsCounted(f: P.FunctionInfo, caller: JoinPoint, call: StackCall, w: World)
    requires caller.functionName == f.name
    ensures
      var w' := Called(f, caller, call, w);
      var one := if VerdictOf(f, caller, call, w).Executed? then 1 else 0;
      && w'.executed == w.executed + one
      && M.CountOf(w'.metrics, f.name) == M.CountOf(w.metrics, f.name) + one
      && |M.HistogramOf(w'.metrics, f.name)| == |M.HistogramOf(w.metrics, f.name)| + one
  {
    CallHasItsEffect(f, caller, call, w);
  }

  /** Body, counter and histogram agree with the verdicts. */
  ghost predicate Tallied(w: World, f: string, vs: seq<Verdict>) {
    && w.executed == Count(vs, Executed)
    && M.CountOf(w.metrics, f) == Count(vs, Executed)
    && |M.HistogramOf(w.metrics, f)| == Count(vs, Executed)
  }

  lemma CountSnoc(vs: seq<Verdict>, v: Verdict)
    ensures Count(vs + [v], Executed) == Count(vs, Executed) + if v == Executed then 1 else 0
  {
    assert (vs + [v])[..|vs|] == vs;
  }

  lemma TalliedStep(f: P.FunctionInfo, caller: JoinPoint, call: StackCall, w: World, vs: seq<Verdict>)
    requires caller.functionName == f.name && Tallied(w, f.name, vs)
    ensures Tallied(Called(f, caller, call, w), f.name, vs + [VerdictOf(f, caller, call, w)])
  {
    CallIsCounted(f, caller, call, w);
    CountSnoc(vs, VerdictOf(f, caller, call, w));
  }

  lemma {:induction false} RunIsTallied(f: P.FunctionInfo, caller: JoinPoint, calls: seq<StackCall>, w: World)
    requires caller.functionName == f.name && Unused(w, f.name)
    ensures var (w', vs) := StackRun(f, caller, calls, w); Tallied(w', f.name, vs)
  {
    if |calls| > 0 {
      var n := |calls| - 1;
      RunIsTallied(f, caller, calls[..n], w);
      var (before, vs) := StackRun(f, caller, calls[..n], w);
      StackRunStep(f, caller, calls, w);
      TalliedStep(f, caller, calls[n], before, vs);
    }
  }

  /**
   Nothing is lost between the aspects: every call is limited, failed fast or executed, and the body
   ran, the counter counted and the histogram recorded exactly the executed ones.
   */
  lemma StackConserves(f: P.FunctionInfo, caller: JoinPoint, calls: seq<StackCall>, w: World)
    requires caller.functionName == f.name && Unused(w, f.name)
    ensures
      var (w', vs) := StackRun(f, caller, calls, w);
      && |calls| == Count(vs, Limited) + Count(vs, FailedFast) + Count(vs, Executed)
      && w'.executed == Count(vs, Executed)
      && M.CountOf(w'.metrics, f.name) == Count(vs, Executed)
      && |M.HistogramOf(w'.metrics, f.name)| == Count(vs, Executed)
  {
    RunIsTallied(f, caller, calls, w);
    EachCallIsCounted(StackRun(f, caller, calls, w).1);
  }

  // ------------------------------------------------------------------ the breaker behind the limiter

  /** The calls that get past the limiter, as the breaker sees them. */
  function PastLimiter(calls: seq<StackCall>, vs: seq<Verdict>): seq<CB.Call>
    requires |calls| == |vs|
  {
    if |calls| == 0 then []
    else
      var n := |calls| - 1;
      PastLimiter(calls[..n], vs[..n])
      + (if vs[n].Limited? then [] else [SeenByBreaker(calls[n])])
  }

  function SeenByBreaker(call: StackCall): CB.Call { CB.CallAt(call.start, call.finish, call.outcome.Ok?) }

  /** The breaker's state and the number of executed bodies. */
  function BreakerSide(w: World): (CB.BreakerState, nat) { (w.breaker, w.executed) }

  /** Behind the limiter a call is one `around` of the breaker; stopped by it, nothing at all. */
  lemma BreakerStep(f: P.FunctionInfo, caller: JoinPoint, call: StackCall, w: World)
    requires caller.functionName == f.name
    ensures
      var (b, executed) := CB.Called(w.breaker, SeenByBreaker(call));
      BreakerSide(Called(f, caller, call, w)) ==
        if VerdictOf(f, caller, call, w).Limited? then BreakerSide(w)
        else (b, w.executed + if executed then 1 else 0)
  {
    CallHasItsEffect(f, caller, call, w);
  }

  lemma CallRunSnoc(s: CB.BreakerState, calls: seq<CB.Call>, c: CB.Call)
    ensures
      var (before, n) := CBRuns.CallRun(s, calls);
      var (after, executed) := CB.Called(before, c);
      CBRuns.CallRun(s, calls + [c]) == (after, n + if executed then 1 else 0)
  {
    assert (calls + [c])[..|calls|] == calls;
  }

  /** The breaker and the body fare as if the denied calls had never been made. */
  lemma {:induction false} DeniedCallsAreInvisibleToBreaker(f: P.FunctionInfo, caller: JoinPoint, calls: seq<StackCall>, w: World)
    requires caller.functionName == f.name && w.executed == 0
    ensures
      var (w', vs) := StackRun(f, caller, calls, w);
      BreakerSide(w') == CBRuns.CallRun(w.breaker, PastLimiter(calls, vs))
  {
    if |calls| > 0 {
      var n := |calls| - 1;
      DeniedCallsAreInvisibleToBreaker(f, caller, calls[..n], w);
      var (before, vs) := StackRun(f, caller, calls[..n], w);
      var (after, v) := (Called(f, caller, calls[n], before), VerdictOf(f, caller, calls[n], before));
      StackRunStep(f, caller, calls, w);
      BreakerStep(f, caller, calls[n], before);
      OneMoreCall(calls, vs, v, BreakerSide(before), BreakerSide(after), w.breaker);
    }
  }

  /** The step from `before` to `after`, one more call having been made. */
  lemma OneMoreCall(calls: seq<StackCall>, vs: seq<Verdict>, v: Verdict, before: (CB.BreakerState, nat),
                                       after: (CB.BreakerState, nat), start: CB.BreakerState)
    requires |calls| == |vs| + 1
    requires before == CBRuns.CallRun(start, PastLimiter(calls[..|vs|], vs))
    requires
      var (b, executed) := CB.Called(before.0, SeenByBreaker(calls[|vs|]));
      after == if v.Limited? then before else (b, before.1 + if executed then 1 else 0)
    ensures after == CBRuns.CallRun(start, PastLimiter(calls, vs + [v]))
  {
    PastLimiterStep(calls, vs, v);
    CallRunSnoc(start, PastLimiter(calls[..|vs|], vs), SeenByBreaker(calls[|vs|]));
  }

  lemma PastLimiterStep(calls: seq<StackCall>, vs: seq<Verdict>, v: Verdict)
    requires |calls| == |vs| + 1
    ensures
      var n := |vs|;
      PastLimiter(calls, vs + [v])
        == if v.Limited? then PastLimiter(calls[..n], vs) else PastLimiter(calls[..n], vs) + [SeenByBreaker(calls[n])]
  {
    assert (vs + [v])[..|vs|] == vs;
    assert PastLimiter(calls[..|vs|], vs) + [] == PastLimiter(calls[..|vs|], vs);
  }

  // ------------------------------------------------------------------ the limiter in front

  function Requests(f: P.FunctionInfo, calls: seq<StackCall>): seq<RL.Request> {
    seq(|calls|, i requires 0 <= i < |calls| => RL.TryAcquire(Some(f.name), calls[i].start))
  }

  function Starts(calls: seq<StackCall>): seq<Instant> {
    seq(|calls|, i requires 0 <= i < |calls| => calls[i].start)
  }

  /** Whatever the verdict, the limiter has served one request, and it said no exactly when the call was limited. */
  lemma LimiterStep(f: P.FunctionInfo, caller: JoinPoint, call: StackCall, w: World)
    requires caller.functionName == f.name
    ensures
      var (l, reply) := RL.Serve(w.limiter, RL.TryAcquire(Some(f.name), call.start));
      && Called(f, caller, call, w).limiter == l
      && (!VerdictOf(f, caller, call, w).Limited? <==> reply == RL.Decision(true))
  {
    CallHasItsEffect(f, caller, call, w);
  }

  lemma {:induction false} LimiterDecides(f: P.FunctionInfo, caller: JoinPoint, calls: seq<StackCall>, w: World)
    requires caller.functionName == f.name
    ensures
      var (w', vs) := StackRun(f, caller, calls, w);
      var (l, replies) := RLRuns.Run(w.limiter, Requests(f, calls));
      && w'.limiter == l
      && forall i | 0 <= i < |calls| :: !vs[i].Limited? <==> replies[i] == RL.Decision(true)
  {
    if |calls| > 0 {
      var n := |calls| - 1;
      LimiterDecides(f, caller, calls[..n], w);
      StackRunStep(f, caller, calls, w);
      RequestsStep(f, calls, w.limiter);
      LimiterStep(f, caller, calls[n], StackRun(f, caller, calls[..n], w).0);
    }
  }

  lemma RequestsStep(f: P.FunctionInfo, calls: seq<StackCall>, l: RL.LimiterState)
    requires |calls| > 0
    ensures
      var n := |calls| - 1;
      var (before, replies) := RLRuns.Run(l, Requests(f, calls[..n]));
      var (after, reply) := RL.Serve(before, RL.TryAcquire(Some(f.name), calls[n].start));
      RLRuns.Run(l, Requests(f, calls)) == (after, replies + [reply])
  {
    assert Requests(f, calls)[..|calls| - 1] == Requests(f, calls[..|calls| - 1]);
  }

  lemma {:induction false} AllCharged(perFunction: bool, f: P.FunctionInfo, calls: seq<StackCall>, replies: seq<RL.Reply>)
    requires |replies| == |calls|
    ensures RLRuns.TimesFor(perFunction, f.name, Requests(f, calls)) == Starts(calls)
    ensures
      var ds := RLRuns.DecisionsFor(perFunction, f.name, Requests(f, calls), replies);
      |ds| == |calls| && forall i | 0 <= i < |calls| :: ds[i] <==> replies[i] == RL.Decision(true)
  {
    if |calls| > 0 {
      var n := |calls| - 1;
      AllCharged(perFunction, f, calls[..n], replies[..n]);
      assert Requests(f, calls)[..n] == Requests(f, calls[..n]);
    }
  }

  /** How many of the calls s, s+1, .., e-1 were executed. */
  function ExecutedBetween(vs: seq<Verdict>, s: nat, e: nat): nat
    requires s <= e <= |vs|
  {
    if s == e then 0 else ExecutedBetween(vs, s, e - 1) + if vs[e - 1].Executed? then 1 else 0
  }

  lemma {:induction false} ExecutedWereAdmitted(vs: seq<Verdict>, ds: seq<bool>, s: nat, e: nat)
    requires |vs| == |ds| && s <= e <= |vs| && forall i | 0 <= i < |vs| :: !vs[i].Limited? ==> ds[i]
    ensures ExecutedBetween(vs, s, e) <= TW.Admitted(ds, s, e)
    decreases e
  {
    if s < e {
      ExecutedWereAdmitted(vs, ds, s, e - 1);
    }
  }

  lemma RequestsInTime(f: P.FunctionInfo, calls: seq<StackCall>, start: Instant)
    requires Ordered(start, Starts(calls))
    ensures RLRuns.InTime(start, Requests(f, calls))
  {
    var ts := Starts(calls);
    assert forall i | 0 <= i < |calls| :: Requests(f, calls)[i].at == ts[i];
  }

  /** One function's calls are decided as one bucket, created full with the limiter, would; in either mode. */
  lemma RequestsDecidedByOneBucket(f: P.FunctionInfo, calls: seq<StackCall>, l: RL.LimiterState)
    requires RLIsolation.Fresh(l) && Ordered(l.bucket.lastRefill, Starts(calls))
    ensures
      var replies := RLRuns.Run(l, Requests(f, calls)).1;
      var ds := RLRuns.BucketRun(l.limits, l.bucket, Starts(calls)).1;
      forall i | 0 <= i < |calls| :: ds[i] <==> replies[i] == RL.Decision(true)
  {
    var replies := RLRuns.Run(l, Requests(f, calls)).1;
    AllCharged(l.perFunction, f, calls, replies);
    RequestsInTime(f, calls, l.bucket.lastRefill);
    RLIsolation.PerFunctionIsolation(l, Requests(f, calls), f.name, l.bucket.lastRefill);
    assert l.bucket == RL.Bucket(l.limits.maxTokens, l.bucket.lastRefill);
  }

  lemma DecidedByOneBucket(f: P.FunctionInfo, caller: JoinPoint, calls: seq<StackCall>, w: World)
    requires caller.functionName == f.name && RLIsolation.Fresh(w.limiter)
    requires Ordered(w.limiter.bucket.lastRefill, Starts(calls))
    ensures
      var vs := StackRun(f, caller, calls, w).1;
      var ds := RLRuns.BucketRun(w.limiter.limits, w.limiter.bucket, Starts(calls)).1;
      forall i | 0 <= i < |calls| :: ds[i] <==> !vs[i].Limited?
  {
    LimiterDecides(f, caller, calls, w);
    RequestsDecidedByOneBucket(f, calls, w.limiter);
  }

  /** Executed calls obey the limiter's burst-plus-rate bound in every window, in either limiter mode. */
  lemma {:induction false} ExecutedObeyTheRate(f: P.FunctionInfo, caller: JoinPoint, calls: seq<StackCall>, w: World, s: nat, e: nat)
    requires caller.functionName == f.name && RLIsolation.Fresh(w.limiter) && s <= e < |calls|
    requires Ordered(w.limiter.bucket.lastRefill, Starts(calls))
    ensures ExecutedBetween(StackRun(f, caller, calls, w).1, s, e + 1) as real
         <= w.limiter.limits.maxTokens + RL.Earned(w.limiter.limits.refillRate, calls[s].start, calls[e].start)
  {
    DecidedByOneBucket(f, caller, calls, w);
    ExecutedAreFew(StackRun(f, caller, calls, w).1, w.limiter.limits, w.limiter.bucket, Starts(calls), s, e);
  }

  lemma ExecutedAreFew(vs: seq<Verdict>, c: RL.Limits, b: RL.Bucket, ts: seq<Instant>, s: nat, e: nat)
    requires RLRuns.FullBefore(c, b, ts) && s <= e < |ts| == |vs|
    requires var ds := RLRuns.BucketRun(c, b, ts).1; forall i | 0 <= i < |vs| :: ds[i] <==> !vs[i].Limited?
    ensures ExecutedBetween(vs, s, e + 1) as real <= c.maxTokens + RL.Earned(c.refillRate, ts[s], ts[e])
  {
    ExecutedWereAdmitted(vs, RLRuns.BucketRun(c, b, ts).1, s, e + 1);
    RLRuns.WindowBound(c, b, ts, s, e);
  }

  // ------------------------------------------------------------------ the registry in front of all

  lemma StackCounts(stack: seq<Registry.RegisteredAspect<World>>, a: Registry.RegisteredAspect<World>)
    requires |stack| == 3 && forall i | 0 <= i < 3 :: stack[i].order == i + 1
    ensures multiset(stack)[a] == if a in stack then 1 else 0
  {
    assert stack == [stack[0], stack[1], stack[2]];
  }

  /** If exactly the registrations of the stack match, they are what is found, each once. */
  lemma FoundOnce(history: seq<Registry.RegisteredAspect<World>>, f: P.FunctionInfo, stack: seq<Registry.RegisteredAspect<World>>,
                  found: seq<Registry.RegisteredAspect<World>>)
    requires |stack| == 3 && forall i | 0 <= i < 3 :: stack[i].order == i + 1 && multiset(history)[stack[i]] == 1
    requires forall a | a in history :: P.Matches(a.pointcut, f) <==> a in stack
    requires Registry.FoundFor(f, history, found)
    ensures multiset(found) == multiset(stack)
  {
    forall a
      ensures multiset(found)[a] == multiset(stack)[a]
    {
      StackCounts(stack, a);
      assert multiset(history)[a] > 0 <==> a in history;
    }
  }

  /** One matching registration per order: they are found in the order of their orders. */
  lemma FoundInOrder(history: seq<Registry.RegisteredAspect<World>>, f: P.FunctionInfo, stack: seq<Registry.RegisteredAspect<World>>,
                     found: seq<Registry.RegisteredAspect<World>>)
    requires |stack| == 3 && forall i | 0 <= i < 3 :: stack[i].order == i + 1 && multiset(history)[stack[i]] == 1
    requires forall a | a in history :: P.Matches(a.pointcut, f) <==> a in stack
    requires Registry.FoundFor(f, history, found)
    ensures found == stack
  {
    FoundOnce(history, f, stack, found);
    StableSort.StrictOrderIsUnique(Registry.OrderOf<World>(), found, stack);
  }

  /**
   If the pointcuts of limiter, breaker and metrics match f and those of all other registrations do not, and
   the three were registered under the orders 1, 2 and 3, in any sequence, the registry builds the stack:
   limiter outside breaker outside metrics.
   */
  lemma RegistryBuildsTheStack(history: seq<Registry.RegisteredAspect<World>>, stack: seq<Registry.RegisteredAspect<World>>,
                               f: P.FunctionInfo, caller: JoinPoint, call: StackCall)
    requires |stack| == 3 && forall i | 0 <= i < 3 :: stack[i].order == i + 1 && multiset(history)[stack[i]] == 1
    requires stack[0].aspect == LimiterAdvice() && stack[1].aspect == BreakerAdvice() && stack[2].aspect == MetricsAdvice()
    requires forall a | a in history :: P.Matches(a.pointcut, f) <==> a in stack
    ensures
      var found := StableSort.Filter(Registry.Applies<World>(f), Registry.Registered(history));
      Chain(Registry.Advices(found), Registry.InfoToJoinPoint(f), caller, BodyOf(call)) == StackChain(f, caller, call)
  {
    var found := StableSort.Filter(Registry.Applies<World>(f), Registry.Registered(history));
    Registry.RegistrationSortsHistory(history);
    Registry.MatchingIsFound(history, Registry.Registered(history), f);
    FoundInOrder(history, f, stack, found);
    AdvicesOfStack(stack);
  }

  lemma AdvicesOfStack(stack: seq<Registry.RegisteredAspect<World>>)
    requires |stack| == 3
    ensures Registry.Advices(stack) == [stack[0].aspect, stack[1].aspect, stack[2].aspect]
  {}
}
