/** What a token query reports, over whole runs of the limiter. */
module RateLimitReports {
  import opened Common
  import opened RateLimit
  import opened RateLimitRuns
  import opened RateLimitIsolation
  import TW = TokenWindows

  /** What the window that opened with call k has left at time t, n calls having been made. */
  ghost function LeftAt(c: Limits, ts: seq<Instant>, ds: seq<bool>, k: nat, t: Instant): real
    requires k < |ts| == |ds|
  {
    c.maxTokens + Earned(c.refillRate, ts[k], t) - TW.Admitted(ds, k, |ts|) as real
  }

  /** The smaller of the maximum and the least that any window has left at time t. */
  ghost predicate IsLeast(c: Limits, ts: seq<Instant>, ds: seq<bool>, t: Instant, amount: real)
    requires |ts| == |ds|
  {
    && amount <= c.maxTokens
    && (forall k {:trigger LeftAt(c, ts, ds, k, t)} | 0 <= k < |ts| :: amount <= LeftAt(c, ts, ds, k, t))
    && (amount == c.maxTokens || exists k {:trigger LeftAt(c, ts, ds, k, t)} :: 0 <= k < |ts| && amount == LeftAt(c, ts, ds, k, t))
  }

  /** The window of call k, on the scale of tokens earned and with one more reading at its end. */
  lemma LeftOnScale(c: Limits, ts: seq<Instant>, ds: seq<bool>, more: seq<bool>, k: nat, t: Instant)
    requires c.Valid() && k < |ts| == |ds| && ts[k] <= t
    ensures LeftAt(c, ts, ds, k, t) == TW.Allowance(c.maxTokens, Credits(c, ts + [t]), ds + more, k, |ts|)
  {
    EarnedIsCredit(c, ts[k], t);
    TW.AdmittedIgnoresLater(ds, more, k, |ts|);
  }

  lemma OneMoreReading(b: Bucket, ts: seq<Instant>, t: Instant)
    requires Ordered(b.lastRefill, ts) && (if |ts| == 0 then b.lastRefill else ts[|ts| - 1]) <= t
    ensures Ordered(b.lastRefill, ts + [t]) && forall k | 0 <= k < |ts| :: ts[k] <= t
  {}

  /** The bucket refilled at t holds what a call at t would find. */
  lemma RefilledIsHeld(c: Limits, b: Bucket, ts: seq<Instant>, t: Instant)
    requires FullBefore(c, b, ts) && (if |ts| == 0 then b.lastRefill else ts[|ts| - 1]) <= t
    ensures
      var us := Credits(c, ts + [t]);
      && Refill(c, BucketRun(c, b, ts).0, t).tokens == TW.HeldAt(c.maxTokens, Credit(c, b.lastRefill), us, |ts|)
      && TW.CreditRun(c.maxTokens, c.maxTokens, Credit(c, b.lastRefill), us).1[..|ts|] == BucketRun(c, b, ts).1
  {
    var us := Credits(c, ts + [t]);
    RunsOnCredit(c, b, ts);
    TW.CreditRunPrefix(c.maxTokens, c.maxTokens, Credit(c, b.lastRefill), us, |ts|);
    assert us[..|ts|] == Credits(c, ts);
    EarnedIsCredit(c, if |ts| == 0 then b.lastRefill else ts[|ts| - 1], t);
  }

  lemma BucketHoldsLeast(c: Limits, b: Bucket, ts: seq<Instant>, t: Instant)
    requires FullBefore(c, b, ts) && (if |ts| == 0 then b.lastRefill else ts[|ts| - 1]) <= t
    ensures var (after, ds) := BucketRun(c, b, ts); IsLeast(c, ts, ds, t, Refill(c, after, t).tokens)
    ensures Refill(c, BucketRun(c, b, ts).0, t).tokens >= 0.0
  {
    var (us, n) := (Credits(c, ts + [t]), |ts|);
    var ds := BucketRun(c, b, ts).1;
    var all := TW.CreditRun(c.maxTokens, c.maxTokens, Credit(c, b.lastRefill), us).1;
    OneMoreReading(b, ts, t);
    CreditsRise(c, b.lastRefill, ts + [t]);
    RefilledIsHeld(c, b, ts, t);
    TW.HeldIsTightest(c.maxTokens, Credit(c, b.lastRefill), us, n);
    var held := TW.HeldAt(c.maxTokens, Credit(c, b.lastRefill), us, n);
    assert all == ds + all[n..];
    assert TW.Allowance(c.maxTokens, us, all, n, n) == c.maxTokens;
    forall k | 0 <= k < n
      ensures LeftAt(c, ts, ds, k, t) == TW.Allowance(c.maxTokens, us, all, k, n) >= held
    {
      LeftOnScale(c, ts, ds, all[n..], k, t);
    }
    var s :| 0 <= s <= n && held == TW.Allowance(c.maxTokens, us, all, s, n);
    assert s < n ==> held == LeftAt(c, ts, ds, s, t);
  }

  /** The times of the calls charged to one bucket are in order, too. */
  lemma {:induction false} TimesInOrder(perFunction: bool, f: string, start: Instant, rs: seq<Request>)
    requires InTime(start, rs)
    ensures Ordered(start, TimesFor(perFunction, f, rs))
    ensures forall t | t in TimesFor(perFunction, f, rs) :: t <= EndOf(start, rs)
  {
    if |rs| > 0 {
      var n := |rs| - 1;
      TimesInOrder(perFunction, f, start, rs[..n]);
      var ts := TimesFor(perFunction, f, rs[..n]);
      forall i | 0 <= i < |ts|
        ensures ts[i] <= rs[n].at
      {
        assert ts[i] in ts;
      }
    }
  }

  /**
   A query in the global mode, at any point of any run of calls and queries, reports the smaller of the
   maximum and the least that any window of calls has left.
   */
  lemma ReportsTightestWindow(s: LimiterState, rs: seq<Request>, t: Instant)
    requires Fresh(s) && !s.perFunction && InTime(s.bucket.lastRefill, rs) && EndOf(s.bucket.lastRefill, rs) <= t
    ensures
      var (s', replies) := Run(s, rs);
      var reply := Serve(s', AvailableTokens(t)).1;
      && reply.Tokens? && reply.amount >= 0.0
      && |TimesFor(false, "", rs)| == |DecisionsFor(false, "", rs, replies)|
      && IsLeast(s.limits, TimesFor(false, "", rs), DecisionsFor(false, "", rs, replies), t, reply.amount)
  {
    var start := s.bucket.lastRefill;
    var ts := TimesFor(false, "", rs);
    var s' := Run(s, rs).0;
    TimesInOrder(false, "", start, rs);
    assert |ts| > 0 ==> ts[|ts| - 1] in ts;
    Isolated(s, rs, "", start);
    RunSettles(s, start, rs);
    assert Refill(s.limits, PayingBucket(s', "", t), t) == Refill(s.limits, BucketRun(s.limits, s.bucket, ts).0, t);
    BucketHoldsLeast(s.limits, s.bucket, ts, t);
  }

  /** A call at the instant of a query is admitted exactly when a whole token was reported, and takes one of them. */
  lemma ReportDecides(s: LimiterState, name: Option<string>, t: Instant)
    requires !s.perFunction && s.limits.Valid() && s.bucket.lastRefill <= t
    ensures
      var (s1, report) := Serve(s, AvailableTokens(t));
      var (s2, decision) := Serve(s1, TryAcquire(name, t));
      && report.Tokens?
      && decision == Decision(report.amount >= 1.0)
      && Serve(s, TryAcquire(name, t)).1 == decision
      && Serve(s2, AvailableTokens(t)).1 == Tokens(if report.amount >= 1.0 then report.amount - 1.0 else report.amount)
  {
    RefillsCompose(s.limits, s.bucket, t, t);
  }

  /** In the per-function mode nothing is ever taken from the bucket that queries look at. */
  lemma {:induction false} PerFunctionReportsFull(s: LimiterState, rs: seq<Request>, t: Instant)
    requires Fresh(s) && s.perFunction && InTime(s.bucket.lastRefill, rs) && EndOf(s.bucket.lastRefill, rs) <= t
    ensures Run(s, rs).0.bucket.tokens == s.limits.maxTokens
    ensures Serve(Run(s, rs).0, AvailableTokens(t)).1 == Tokens(s.limits.maxTokens)
  {
    RunSettles(s, s.bucket.lastRefill, rs);
    if |rs| > 0 {
      var n := |rs| - 1;
      PerFunctionReportsFull(s, rs[..n], rs[n].at);
    }
    FullStaysFull(s.limits, Run(s, rs).0.bucket.lastRefill, t);
  }
}
