/** What the rate limiter guarantees over whole runs. */
module RateLimitRuns {
  import opened Common
  import opened RateLimit
  import TW = TokenWindows

  // ------------------------------------------------------------------ one bucket

  /** The bucket and the decisions after calls at the times `ts`. */
  function BucketRun(c: Limits, b: Bucket, ts: seq<Instant>): (r: (Bucket, seq<bool>))
    ensures |r.1| == |ts|
  {
    if |ts| == 0 then (b, [])
    else
      var (before, ds) := BucketRun(c, b, ts[..|ts| - 1]);
      var (after, ok) := Take(c, before, ts[|ts| - 1]);
      (after, ds + [ok])
  }

  /** A bucket that was full at some moment before the run. */
  ghost predicate FullBefore(c: Limits, b: Bucket, ts: seq<Instant>) {
    c.Valid() && b.tokens == c.maxTokens && Ordered(b.lastRefill, ts)
  }

  /** What the window from call s up to just before call e still allows. */
  ghost function Allowance(c: Limits, ts: seq<Instant>, ds: seq<bool>, s: nat, e: nat): real
    requires s <= e < |ts| && e <= |ds|
  {
    c.maxTokens + Earned(c.refillRate, ts[s], ts[e]) - TW.Admitted(ds, s, e) as real
  }

  /** A clock reading on the scale of tokens earned. */
  function Credit(c: Limits, t: Instant): real { t * c.refillRate }

  function Credits(c: Limits, ts: seq<Instant>): seq<real> {
    seq(|ts|, i requires 0 <= i < |ts| => Credit(c, ts[i]))
  }

  lemma EarnedIsCredit(c: Limits, a: Instant, b: Instant)
    requires c.Valid() && a <= b
    ensures Earned(c.refillRate, a, b) == Credit(c, b) - Credit(c, a) >= 0.0
  {}

  lemma CreditsRise(c: Limits, start: Instant, ts: seq<Instant>)
    requires c.Valid() && Ordered(start, ts)
    ensures TW.Rising(Credit(c, start), Credits(c, ts))
  {
    forall i | 0 <= i < |ts|
      ensures Credit(c, if i == 0 then start else ts[i - 1]) <= Credit(c, ts[i])
    {
      EarnedIsCredit(c, if i == 0 then start else ts[i - 1], ts[i]);
    }
  }

  lemma TakeOnCredit(c: Limits, b: Bucket, now: Instant)
    requires c.Valid() && b.lastRefill <= now
    ensures
      var (after, ok) := Take(c, b, now);
      var held := TW.Held(c.maxTokens, b.tokens, Credit(c, b.lastRefill), Credit(c, now));
      after == Bucket(if held >= 1.0 then held - 1.0 else held, now) && (ok <==> held >= 1.0)
  {
    EarnedIsCredit(c, b.lastRefill, now);
  }

  lemma {:induction false} RunsOnCredit(c: Limits, b: Bucket, ts: seq<Instant>)
    requires c.Valid() && Ordered(b.lastRefill, ts)
    ensures
      var (after, ds) := BucketRun(c, b, ts);
      && (after.tokens, ds) == TW.CreditRun(c.maxTokens, b.tokens, Credit(c, b.lastRefill), Credits(c, ts))
      && after.lastRefill == if |ts| == 0 then b.lastRefill else ts[|ts| - 1]
  {
    if |ts| > 0 {
      var n := |ts| - 1;
      RunsOnCredit(c, b, ts[..n]);
      assert Credits(c, ts)[..n] == Credits(c, ts[..n]);
      TakeOnCredit(c, BucketRun(c, b, ts[..n]).0, ts[n]);
    }
  }

  lemma AllowanceOnCredit(c: Limits, ts: seq<Instant>, ds: seq<bool>, s: nat, e: nat)
    requires c.Valid() && s <= e < |ts| && e <= |ds| && ts[s] <= ts[e]
    ensures Allowance(c, ts, ds, s, e) == TW.Allowance(c.maxTokens, Credits(c, ts), ds, s, e)
  {
    EarnedIsCredit(c, ts[s], ts[e]);
  }

  /** A call is admitted exactly when every window it closes stays within burst plus earned tokens. */
  lemma AdmissionIsExact(c: Limits, b: Bucket, ts: seq<Instant>, e: nat)
    requires FullBefore(c, b, ts) && e < |ts|
    ensures
      var ds := BucketRun(c, b, ts).1;
      ds[e] <==> forall s {:trigger Allowance(c, ts, ds, s, e)} | 0 <= s <= e :: Allowance(c, ts, ds, s, e) >= 1.0
  {
    var ds := BucketRun(c, b, ts).1;
    var us := Credits(c, ts);
    var last := Credit(c, b.lastRefill);
    RunsOnCredit(c, b, ts);
    CreditsRise(c, b.lastRefill, ts);
    TW.HeldIsTightest(c.maxTokens, last, us, e);
    TW.DecidedByHeld(c.maxTokens, last, us, e);
    var held := TW.HeldAt(c.maxTokens, last, us, e);
    if ds[e] {
      forall s | 0 <= s <= e
        ensures Allowance(c, ts, ds, s, e) >= 1.0
      {
        AllowanceOnCredit(c, ts, ds, s, e);
      }
    } else {
      var s :| 0 <= s <= e && held == TW.Allowance(c.maxTokens, us, ds, s, e);
      AllowanceOnCredit(c, ts, ds, s, e);
      assert Allowance(c, ts, ds, s, e) < 1.0;
    }
  }

  /** What the window from call s to the end of the run has left. */
  ghost function Left(c: Limits, ts: seq<Instant>, ds: seq<bool>, s: nat): real
    requires s < |ts| == |ds|
  {
    c.maxTokens + Earned(c.refillRate, ts[s], ts[|ts| - 1]) - TW.Admitted(ds, s, |ts|) as real
  }

  lemma LeftOnCredit(c: Limits, ts: seq<Instant>, ds: seq<bool>, s: nat)
    requires c.Valid() && s < |ts| == |ds| && ts[s] <= ts[|ts| - 1]
    ensures Left(c, ts, ds, s)
         == TW.Allowance(c.maxTokens, Credits(c, ts), ds, s, |ts| - 1) - if ds[|ts| - 1] then 1.0 else 0.0
  {
    AllowanceOnCredit(c, ts, ds, s, |ts| - 1);
  }

  lemma TokensAfterRun(c: Limits, b: Bucket, ts: seq<Instant>)
    requires FullBefore(c, b, ts) && |ts| > 0
    ensures
      var (after, ds) := BucketRun(c, b, ts);
      var held := TW.HeldAt(c.maxTokens, Credit(c, b.lastRefill), Credits(c, ts), |ts| - 1);
      && ds == TW.CreditRun(c.maxTokens, c.maxTokens, Credit(c, b.lastRefill), Credits(c, ts)).1
      && after.tokens == held - (if ds[|ts| - 1] then 1.0 else 0.0) && after.tokens >= 0.0
  {
    RunsOnCredit(c, b, ts);
    CreditsRise(c, b.lastRefill, ts);
    TW.HeldIsTightest(c.maxTokens, Credit(c, b.lastRefill), Credits(c, ts), |ts| - 1);
  }

  /** After the last call the bucket holds exactly the smallest amount that any window up to it has left. */
  lemma TokensAreTightestWindow(c: Limits, b: Bucket, ts: seq<Instant>)
    requires FullBefore(c, b, ts) && |ts| > 0
    ensures
      var (after, ds) := BucketRun(c, b, ts);
      && after.tokens >= 0.0
      && (forall s {:trigger Left(c, ts, ds, s)} | 0 <= s < |ts| :: after.tokens <= Left(c, ts, ds, s))
      && (exists s {:trigger Left(c, ts, ds, s)} :: 0 <= s < |ts| && after.tokens == Left(c, ts, ds, s))
  {
    var n := |ts| - 1;
    var (after, ds) := BucketRun(c, b, ts);
    var us := Credits(c, ts);
    TokensAfterRun(c, b, ts);
    CreditsRise(c, b.lastRefill, ts);
    TW.HeldIsTightest(c.maxTokens, Credit(c, b.lastRefill), us, n);
    var held := TW.HeldAt(c.maxTokens, Credit(c, b.lastRefill), us, n);
    var s :| 0 <= s <= n && held == TW.Allowance(c.maxTokens, us, ds, s, n);
    LeftOnCredit(c, ts, ds, s);
    assert after.tokens == Left(c, ts, ds, s);
    forall s | 0 <= s < |ts|
      ensures after.tokens <= Left(c, ts, ds, s)
    {
      LeftOnCredit(c, ts, ds, s);
      assert held <= TW.Allowance(c.maxTokens, us, ds, s, n);
    }
  }

  lemma {:induction false} BucketRunPrefix(c: Limits, b: Bucket, ts: seq<Instant>, n: nat)
    requires n <= |ts|
    ensures BucketRun(c, b, ts[..n]).1 == BucketRun(c, b, ts).1[..n]
    decreases |ts|
  {
    if n == |ts| {
      assert ts[..n] == ts;
    } else {
      var init := ts[..|ts| - 1];
      BucketRunPrefix(c, b, init, n);
      assert init[..n] == ts[..n];
    }
  }

  /** In no window of any run are more calls admitted than the burst plus what the rate earns in it. */
  lemma WindowBound(c: Limits, b: Bucket, ts: seq<Instant>, s: nat, e: nat)
    requires FullBefore(c, b, ts) && s <= e < |ts|
    ensures TW.Admitted(BucketRun(c, b, ts).1, s, e + 1) as real <= c.maxTokens + Earned(c.refillRate, ts[s], ts[e])
  {
    var ds := BucketRun(c, b, ts).1;
    RunsOnCredit(c, b, ts);
    CreditsRise(c, b.lastRefill, ts);
    TW.NoWindowOverspends(c.maxTokens, Credit(c, b.lastRefill), Credits(c, ts), s, e);
    AllowanceOnCredit(c, ts, ds, s, e);
  }

  // ------------------------------------------------------------------ the limiter against other policies

  /** A policy spends from an identical bucket but may decline: it asks for a token only when it wishes. */
  function PolicyRun(c: Limits, b: Bucket, ts: seq<Instant>, wishes: seq<bool>): (r: (Bucket, seq<bool>))
    requires |wishes| == |ts|
    ensures |r.1| == |ts|
  {
    if |ts| == 0 then (b, [])
    else
      var n := |ts| - 1;
      var (before, ds) := PolicyRun(c, b, ts[..n], wishes[..n]);
      if wishes[n] then
        var (after, ok) := Take(c, before, ts[n]);
        (after, ds + [ok])
      else
        (Refill(c, before, ts[n]), ds + [false])
  }

  lemma {:induction false} GreedyLeads(c: Limits, b: Bucket, ts: seq<Instant>, wishes: seq<bool>)
    requires c.Valid() && |wishes| == |ts|
    ensures
      var (g, gs) := BucketRun(c, b, ts);
      var (p, ps) := PolicyRun(c, b, ts, wishes);
      && g.lastRefill == p.lastRefill
      && TW.Admitted(ps, 0, |ts|) <= TW.Admitted(gs, 0, |ts|)
      && TW.Admitted(ps, 0, |ts|) as real + p.tokens <= TW.Admitted(gs, 0, |ts|) as real + g.tokens
  {
    if |ts| > 0 {
      var n := |ts| - 1;
      GreedyLeads(c, b, ts[..n], wishes[..n]);
      var (g, gs) := BucketRun(c, b, ts[..n]);
      var (p, ps) := PolicyRun(c, b, ts[..n], wishes[..n]);
      var gs' := BucketRun(c, b, ts).1;
      var ps' := PolicyRun(c, b, ts, wishes).1;
      TW.AdmittedIgnoresLater(gs, [gs'[n]], 0, n);
      TW.AdmittedIgnoresLater(ps, [ps'[n]], 0, n);
      assert Earned(c.refillRate, g.lastRefill, ts[n]) == Earned(c.refillRate, p.lastRefill, ts[n]);
    }
  }

  lemma {:induction false} PolicyRunPrefix(c: Limits, b: Bucket, ts: seq<Instant>, wishes: seq<bool>, n: nat)
    requires |wishes| == |ts| && n <= |ts|
    ensures PolicyRun(c, b, ts[..n], wishes[..n]).1 == PolicyRun(c, b, ts, wishes).1[..n]
    decreases |ts|
  {
    if n == |ts| {
      assert ts[..n] == ts && wishes[..n] == wishes;
    } else {
      var k := |ts| - 1;
      PolicyRunPrefix(c, b, ts[..k], wishes[..k], n);
      assert ts[..k][..n] == ts[..n] && wishes[..k][..n] == wishes[..n];
    }
  }

  lemma AdmittedInPrefix(ds: seq<bool>, n: nat)
    requires n <= |ds|
    ensures TW.Admitted(ds[..n], 0, n) == TW.Admitted(ds, 0, n)
  {
    TW.AdmittedIgnoresLater(ds[..n], ds[n..], 0, n);
    assert ds[..n] + ds[n..] == ds;
  }

  /** At no point of any run has a policy that may decline admitted more calls than the limiter. */
  lemma GreedyIsMaximal(c: Limits, b: Bucket, ts: seq<Instant>, wishes: seq<bool>, n: nat)
    requires c.Valid() && |wishes| == |ts| && n <= |ts|
    ensures TW.Admitted(PolicyRun(c, b, ts, wishes).1, 0, n) <= TW.Admitted(BucketRun(c, b, ts).1, 0, n)
  {
    GreedyLeads(c, b, ts[..n], wishes[..n]);
    BucketRunPrefix(c, b, ts, n);
    PolicyRunPrefix(c, b, ts, wishes, n);
    AdmittedInPrefix(BucketRun(c, b, ts).1, n);
    AdmittedInPrefix(PolicyRun(c, b, ts, wishes).1, n);
  }

  // ------------------------------------------------------------------ runs of the whole limiter

  function Run(s: LimiterState, rs: seq<Request>): (r: (LimiterState, seq<Reply>))
    ensures |r.1| == |rs|
  {
    if |rs| == 0 then (s, [])
    else
      var (before, replies) := Run(s, rs[..|rs| - 1]);
      var (after, reply) := Serve(before, rs[|rs| - 1]);
      (after, replies + [reply])
  }

  /** Requests come with clock readings that start no earlier than `start` and never go back. */
  ghost predicate InTime(start: Instant, rs: seq<Request>) {
    && (forall i | 0 <= i < |rs| :: start <= rs[i].at)
    && (forall i, j | 0 <= i < j < |rs| :: rs[i].at <= rs[j].at)
  }

  /** Does this request spend from the bucket of function f? In global mode every call does. */
  predicate Charges(perFunction: bool, f: string, r: Request) {
    r.TryAcquire? && (perFunction ==> r.name == Some(f))
  }

  function TimesFor(perFunction: bool, f: string, rs: seq<Request>): seq<Instant> {
    if |rs| == 0 then []
    else
      var n := |rs| - 1;
      TimesFor(perFunction, f, rs[..n]) + if Charges(perFunction, f, rs[n]) then [rs[n].at] else []
  }

  function DecisionsFor(perFunction: bool, f: string, rs: seq<Request>, replies: seq<Reply>): seq<bool>
    requires |rs| == |replies|
  {
    if |rs| == 0 then []
    else
      var n := |rs| - 1;
      DecisionsFor(perFunction, f, rs[..n], replies[..n])
      + if Charges(perFunction, f, rs[n]) then [replies[n] == Decision(true)] else []
  }

  /** The bucket that pays for a call of f at `now`. */
  function PayingBucket(s: LimiterState, f: string, now: Instant): Bucket {
    if s.perFunction then EntryFor(s, f, now) else s.bucket
  }

  /** Nothing in the limiter is dated after `now`. */
  ghost predicate Settled(s: LimiterState, now: Instant) {
    && s.limits.Valid()
    && s.bucket.lastRefill <= now
    && (forall f | f in s.functions :: s.functions[f].lastRefill <= now)
  }

  lemma RefillsCompose(c: Limits, b: Bucket, t: Instant, u: Instant)
    requires c.Valid() && b.lastRefill <= t <= u
    ensures Refill(c, Refill(c, b, t), u) == Refill(c, b, u)
  {
    EarnedIsCredit(c, b.lastRefill, t);
    EarnedIsCredit(c, t, u);
    EarnedIsCredit(c, b.lastRefill, u);
  }

  lemma FullStaysFull(c: Limits, t: Instant, u: Instant)
    requires c.Valid() && t <= u
    ensures Refill(c, Bucket(c.maxTokens, t), u) == Bucket(c.maxTokens, u)
  {
    EarnedIsCredit(c, t, u);
  }

  lemma ServeSettles(s: LimiterState, r: Request, now: Instant)
    requires Settled(s, now) && now <= r.at
    ensures Settled(Serve(s, r).0, r.at)
    ensures Serve(s, r).0.limits == s.limits && Serve(s, r).0.perFunction == s.perFunction
  {}

  /** A request that spends nothing leaves every bucket as good as untouched from then on. */
  lemma NoSpendingIsInvisible(s: LimiterState, r: Request, f: string, now: Instant, u: Instant)
    requires Settled(s, now) && now <= r.at <= u
    requires r.AvailableTokens? || Serve(s, r).1 == Decision(false)
    ensures
      var s' := Serve(s, r).0;
      && Refill(s.limits, s'.bucket, u) == Refill(s.limits, s.bucket, u)
      && Refill(s.limits, EntryFor(s', f, u), u) == Refill(s.limits, EntryFor(s, f, u), u)
  {
    RefillsCompose(s.limits, s.bucket, r.at, u);
    FullStaysFull(s.limits, u, u);
    if r.TryAcquire? && r.name == Some(f) {
      FullStaysFull(s.limits, r.at, r.at);
      FullStaysFull(s.limits, r.at, u);
      RefillsCompose(s.limits, EntryFor(s, f, r.at), r.at, u);
    }
  }

  lemma {:induction false} RunSettles(s: LimiterState, start: Instant, rs: seq<Request>)
    requires Settled(s, start) && InTime(start, rs)
    ensures
      var s' := Run(s, rs).0;
      && Settled(s', if |rs| == 0 then start else rs[|rs| - 1].at)
      && s'.limits == s.limits && s'.perFunction == s.perFunction
  {
    if |rs| > 0 {
      var n := |rs| - 1;
      RunSettles(s, start, rs[..n]);
      ServeSettles(Run(s, rs[..n]).0, rs[n], if n == 0 then start else rs[n - 1].at);
    }
  }
}
