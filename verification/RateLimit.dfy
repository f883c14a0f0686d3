/** The token-bucket rate limiter (aspect-std/src/ratelimit.rs). */
module RateLimit {
  import opened Common

  /** One bucket: the global `tokens`/`last_refill` pair, or a per-function entry. */
  datatype Bucket = Bucket(tokens: real, lastRefill: Instant)

  datatype Limits = Limits(maxTokens: real, refillRate: real) {
    predicate Valid() { maxTokens >= 0.0 && refillRate >= 0.0 }
  }

  /** Tokens earned between two readings of the clock. */
  function Earned(rate: real, from: Instant, to: Instant): real { DurationSince(to, from) * rate }

  /** Lazy refill: credit the time since the last refill, capped at the maximum. */
  function Refill(c: Limits, b: Bucket, now: Instant): Bucket {
    Bucket(Min(b.tokens + Earned(c.refillRate, b.lastRefill, now), c.maxTokens), now)
  }

  /** Refill, then spend one token if a whole one is there. */
  function Take(c: Limits, b: Bucket, now: Instant): (Bucket, bool) {
    var b := Refill(c, b, now);
    if b.tokens >= 1.0 then (b.(tokens := b.tokens - 1.0), true) else (b, false)
  }

  // ------------------------------------------------------------------ the limiter's state

  datatype LimiterState = LimiterState(
    limits: Limits,
    bucket: Bucket,
    perFunction: bool,
    functions: map<string, Bucket>)

  datatype Request = TryAcquire(name: Option<string>, at: Instant) | AvailableTokens(at: Instant)

  datatype Reply = Decision(ok: bool) | Tokens(amount: real)

  /** The bucket a per-function call works on: a missing entry starts full. */
  function EntryFor(s: LimiterState, name: string, now: Instant): Bucket {
    if name in s.functions then s.functions[name] else Bucket(s.limits.maxTokens, now)
  }

  /** What one request does to the limiter and what it answers. */
  function Serve(s: LimiterState, r: Request): (LimiterState, Reply) {
    match r
    case AvailableTokens(now) =>
      var b := Refill(s.limits, s.bucket, now);
      (s.(bucket := b), Tokens(b.tokens))
    case TryAcquire(name, now) =>
      if !s.perFunction then
        var (b, ok) := Take(s.limits, s.bucket, now);
        (s.(bucket := b), Decision(ok))
      else if name.None? then
        (s, Decision(false))
      else
        var (b, ok) := Take(s.limits, EntryFor(s, name.value, now), now);
        (s.(functions := s.functions[name.value := b]), Decision(ok))
  }

  /** The errors a limiter can answer with. */
  function RateLimitExceeded(name: string): string { "Rate limit exceeded for " + name }

  /** The limiter object; every clone of the aspect shares this one state. */
  class RateLimitAspect {
    var tokens: real
    var maxTokens: real
    var refillRate: real
    var lastRefill: Instant
    var perFunction: bool
    var functionStates: map<string, Bucket>

    function State(): LimiterState
      reads this
    {
      LimiterState(Limits(maxTokens, refillRate), Bucket(tokens, lastRefill), perFunction, functionStates)
    }

    constructor (maxRequests: nat, window: real, now: Instant)
      requires window > 0.0
      ensures State().limits == Limits(maxRequests as real, maxRequests as real / window)
      ensures State().limits.Valid()
      ensures State().bucket == Bucket(maxRequests as real, now)
      ensures !State().perFunction && State().functions == map[]
    {
      tokens := maxRequests as real;
      maxTokens := maxRequests as real;
      refillRate := maxRequests as real / window;
      lastRefill := now;
      perFunction := false;
      functionStates := map[];
    }

    method PerFunction()
      modifies this
      ensures State() == old(State()).(perFunction := true)
    {
      perFunction := true;
    }

    method TryAcquire(functionName: Option<string>, now: Instant) returns (ok: bool)
      modifies this
      ensures (State(), Decision(ok)) == Serve(old(State()), Request.TryAcquire(functionName, now))
      ensures old(perFunction) && functionName.None? ==> !ok && State() == old(State())
    {
      if perFunction {
        if functionName.None? {
          return false;
        }
        var name := functionName.value;
        if name !in functionStates {
          functionStates := functionStates[name := Bucket(maxTokens, now)];
        }
        var entry := functionStates[name];
        entry := Bucket(Min(entry.tokens + Earned(refillRate, entry.lastRefill, now), maxTokens), now);
        if entry.tokens >= 1.0 {
          entry := entry.(tokens := entry.tokens - 1.0);
          ok := true;
        } else {
          ok := false;
        }
        assert functionStates[name := entry] == old(functionStates)[name := entry];
        functionStates := functionStates[name := entry];
      } else {
        tokens := Min(tokens + Earned(refillRate, lastRefill, now), maxTokens);
        lastRefill := now;
        if tokens >= 1.0 {
          tokens := tokens - 1.0;
          ok := true;
        } else {
          ok := false;
        }
      }
    }

    method AvailableTokens(now: Instant) returns (amount: real)
      modifies this
      ensures (State(), Tokens(amount)) == Serve(old(State()), Request.AvailableTokens(now))
    {
      tokens := Min(tokens + Earned(refillRate, lastRefill, now), maxTokens);
      lastRefill := now;
      amount := tokens;
    }

    /** `around`: the wrapped call is made exactly when a token was spent, and its answer is handed back as it is. */
    method Around<T>(functionName: string, now: Instant, proceed: () -> Result<T, string>) returns (r: Result<T, string>)
      modifies this
      ensures State() == Serve(old(State()), Request.TryAcquire(Some(functionName), now)).0
      ensures r == if Serve(old(State()), Request.TryAcquire(Some(functionName), now)).1 == Decision(true)
                   then proceed() else Err("Rate limit exceeded for " + functionName)
    {
      var ok := TryAcquire(Some(functionName), now);
      if ok {
        r := proceed();
      } else {
        r := Err(RateLimitExceeded(functionName));
      }
    }
  }

}
