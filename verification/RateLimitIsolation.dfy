/** Interleaved runs of the limiter: functions do not disturb each other, observers disturb nobody. */
module RateLimitIsolation {
  import opened Common
  import opened RateLimit
  import opened RateLimitRuns

  /** A limiter as the constructor leaves it. */
  ghost predicate Fresh(s: LimiterState) {
    s.limits.Valid() && s.functions == map[] && s.bucket.tokens == s.limits.maxTokens
  }

  /** From `now` on the bucket paying for f is as good as the bucket p. */
  ghost predicate Tracks(s: LimiterState, f: string, p: Bucket, now: Instant) {
    forall u {:trigger PayingBucket(s, f, u)} | now <= u ::
      Refill(s.limits, PayingBucket(s, f, u), u) == Refill(s.limits, p, u)
  }

  lemma TrackStep(s: LimiterState, f: string, p: Bucket, now: Instant, r: Request)
    requires Settled(s, now) && now <= r.at && Tracks(s, f, p, now)
    ensures
      var (s', reply) := Serve(s, r);
      if Charges(s.perFunction, f, r) then
        var (p', ok) := Take(s.limits, p, r.at);
        reply == Decision(ok) && Tracks(s', f, p', r.at)
      else
        Tracks(s', f, p, r.at)
  {
    var (s', reply) := Serve(s, r);
    if Charges(s.perFunction, f, r) {
      assert Refill(s.limits, PayingBucket(s, f, r.at), r.at) == Refill(s.limits, p, r.at);
    } else {
      forall u | r.at <= u
        ensures Refill(s.limits, PayingBucket(s', f, u), u) == Refill(s.limits, p, u)
      {
        assert Refill(s.limits, PayingBucket(s, f, u), u) == Refill(s.limits, p, u);
        if r.AvailableTokens? {
          NoSpendingIsInvisible(s, r, f, now, u);
        } else {
          assert PayingBucket(s', f, u) == PayingBucket(s, f, u);
        }
      }
    }
  }

  lemma FullTracksFull(s: LimiterState, f: string, created: Instant)
    requires Fresh(s) && created <= s.bucket.lastRefill
    ensures Tracks(s, f, Bucket(s.limits.maxTokens, created), s.bucket.lastRefill)
  {
    forall u | s.bucket.lastRefill <= u
      ensures Refill(s.limits, PayingBucket(s, f, u), u) == Refill(s.limits, Bucket(s.limits.maxTokens, created), u)
    {
      FullStaysFull(s.limits, u, u);
      FullStaysFull(s.limits, s.bucket.lastRefill, u);
      FullStaysFull(s.limits, created, u);
    }
  }

  lemma OneMoreRequest(perFunction: bool, f: string, rs: seq<Request>, replies: seq<Reply>, r: Request, reply: Reply)
    requires |rs| == |replies|
    ensures TimesFor(perFunction, f, rs + [r])
         == if Charges(perFunction, f, r) then TimesFor(perFunction, f, rs) + [r.at] else TimesFor(perFunction, f, rs)
    ensures DecisionsFor(perFunction, f, rs + [r], replies + [reply])
         == if Charges(perFunction, f, r) then DecisionsFor(perFunction, f, rs, replies) + [reply == Decision(true)]
            else DecisionsFor(perFunction, f, rs, replies)
  {
    assert (rs + [r])[..|rs|] == rs && (replies + [reply])[..|replies|] == replies;
  }

  lemma BucketRunSnoc(c: Limits, b: Bucket, ts: seq<Instant>, t: Instant)
    ensures
      var (before, ds) := BucketRun(c, b, ts);
      var (after, ok) := Take(c, before, t);
      BucketRun(c, b, ts + [t]) == (after, ds + [ok])
  {
    assert (ts + [t])[..|ts|] == ts;
  }

  /** After rs the limiter stands to f as the private bucket that started as `full` and saw only f's calls. */
  ghost predicate Matched(s: LimiterState, f: string, full: Bucket, rs: seq<Request>, replies: seq<Reply>, now: Instant)
    requires |rs| == |replies|
  {
    var (p, ds) := BucketRun(s.limits, full, TimesFor(s.perFunction, f, rs));
    DecisionsFor(s.perFunction, f, rs, replies) == ds && Tracks(s, f, p, now)
  }

  lemma MatchedStep(s: LimiterState, f: string, full: Bucket, rs: seq<Request>, replies: seq<Reply>, now: Instant, r: Request)
    requires |rs| == |replies| && Matched(s, f, full, rs, replies, now) && Settled(s, now) && now <= r.at
    ensures Matched(Serve(s, r).0, f, full, rs + [r], replies + [Serve(s, r).1], r.at)
  {
    var ts := TimesFor(s.perFunction, f, rs);
    ServeSettles(s, r, now);
    TrackStep(s, f, BucketRun(s.limits, full, ts).0, now, r);
    OneMoreRequest(s.perFunction, f, rs, replies, r, Serve(s, r).1);
    BucketRunSnoc(s.limits, full, ts, r.at);
  }

  /** `Matched`, at the end of a run that starts at `start`. */
  ghost predicate Follows(s: LimiterState, f: string, full: Bucket, rs: seq<Request>, start: Instant) {
    var (s', replies) := Run(s, rs);
    Matched(s', f, full, rs, replies, EndOf(start, rs))
  }

  /** The last clock reading of a run. */
  function EndOf(start: Instant, rs: seq<Request>): Instant { if |rs| == 0 then start else rs[|rs| - 1].at }

  lemma RunSnoc(s: LimiterState, rs: seq<Request>, r: Request)
    ensures
      var (before, replies) := Run(s, rs);
      var (after, reply) := Serve(before, r);
      Run(s, rs + [r]) == (after, replies + [reply])
  {
    assert (rs + [r])[..|rs|] == rs;
  }

  lemma InTimeBefore(start: Instant, rs: seq<Request>, r: Request)
    requires InTime(start, rs + [r])
    ensures InTime(start, rs) && EndOf(start, rs) <= r.at
  {
    var all := rs + [r];
    assert all[|rs|] == r && forall i | 0 <= i < |rs| :: all[i] == rs[i];
  }

  lemma FollowsStep(s: LimiterState, f: string, full: Bucket, rs: seq<Request>, start: Instant, r: Request)
    requires Settled(s, start) && InTime(start, rs + [r]) && Follows(s, f, full, rs, start)
    ensures Follows(s, f, full, rs + [r], start)
  {
    var (before, replies) := Run(s, rs);
    InTimeBefore(start, rs, r);
    RunSettles(s, start, rs);
    RunSnoc(s, rs, r);
    MatchedStep(before, f, full, rs, replies, EndOf(start, rs), r);
  }

  lemma {:induction false} Isolated(s: LimiterState, rs: seq<Request>, f: string, created: Instant)
    requires Fresh(s) && InTime(s.bucket.lastRefill, rs) && created <= s.bucket.lastRefill
    ensures Follows(s, f, Bucket(s.limits.maxTokens, created), rs, s.bucket.lastRefill)
  {
    if |rs| == 0 {
      FullTracksFull(s, f, created);
    } else {
      var (init, r) := (rs[..|rs| - 1], rs[|rs| - 1]);
      assert init + [r] == rs;
      InTimeBefore(s.bucket.lastRefill, init, r);
      Isolated(s, init, f, created);
      FollowsStep(s, f, Bucket(s.limits.maxTokens, created), init, s.bucket.lastRefill, r);
    }
  }

  /**
   The decisions for f in any interleaved run are those of a private limiter, created at any earlier
   time, that sees only f's calls. In global mode every call is charged to the one bucket, and the
   statement says that token queries do not influence it.
   */
  lemma PerFunctionIsolation(s: LimiterState, rs: seq<Request>, f: string, created: Instant)
    requires Fresh(s) && InTime(s.bucket.lastRefill, rs) && created <= s.bucket.lastRefill
    ensures DecisionsFor(s.perFunction, f, rs, Run(s, rs).1)
         == BucketRun(s.limits, Bucket(s.limits.maxTokens, created), TimesFor(s.perFunction, f, rs)).1
  {
    Isolated(s, rs, f, created);
    RunSettles(s, s.bucket.lastRefill, rs);
  }

  // ------------------------------------------------------------------ requests that spend nothing

  /** The elements whose flag is set. */
  function Kept<T>(xs: seq<T>, keep: seq<bool>): seq<T>
    requires |xs| == |keep|
  {
    if |xs| == 0 then []
    else
      var n := |xs| - 1;
      Kept(xs[..n], keep[..n]) + if keep[n] then [xs[n]] else []
  }

  /** The two limiters answer every request from `now` on alike. */
  ghost predicate Alike(s: LimiterState, t: LimiterState, now: Instant) {
    && s.limits == t.limits && s.perFunction == t.perFunction
    && (forall u {:trigger Refill(s.limits, s.bucket, u)} | now <= u ::
          Refill(s.limits, s.bucket, u) == Refill(t.limits, t.bucket, u))
    && (forall f, u {:trigger EntryFor(s, f, u)} {:trigger EntryFor(t, f, u)} | now <= u ::
          Refill(s.limits, EntryFor(s, f, u), u) == Refill(t.limits, EntryFor(t, f, u), u))
  }

  lemma AlikeStep(s: LimiterState, t: LimiterState, now: Instant, r: Request)
    requires Settled(s, now) && now <= r.at && Alike(s, t, now)
    ensures Serve(s, r).1 == Serve(t, r).1
    ensures Alike(Serve(s, r).0, Serve(t, r).0, r.at)
  {
    assert Refill(s.limits, s.bucket, r.at) == Refill(t.limits, t.bucket, r.at);
    if r.TryAcquire? && r.name.Some? {
      var f := r.name.value;
      assert Refill(s.limits, EntryFor(s, f, r.at), r.at) == Refill(t.limits, EntryFor(t, f, r.at), r.at);
    }
    var (s', t') := (Serve(s, r).0, Serve(t, r).0);
    forall g, u | r.at <= u
      ensures Refill(s'.limits, EntryFor(s', g, u), u) == Refill(t'.limits, EntryFor(t', g, u), u)
    {
      assert Refill(s.limits, EntryFor(s, g, u), u) == Refill(t.limits, EntryFor(t, g, u), u);
    }
  }

  lemma DroppedStep(s: LimiterState, t: LimiterState, now: Instant, r: Request)
    requires Settled(s, now) && now <= r.at && Alike(s, t, now)
    requires r.AvailableTokens? || Serve(s, r).1 == Decision(false)
    ensures Alike(Serve(s, r).0, t, r.at)
  {
    var s' := Serve(s, r).0;
    forall u | r.at <= u
      ensures Refill(s'.limits, s'.bucket, u) == Refill(t.limits, t.bucket, u)
    {
      NoSpendingIsInvisible(s, r, "", now, u);
      assert Refill(s.limits, s.bucket, u) == Refill(t.limits, t.bucket, u);
    }
    forall f, u | r.at <= u
      ensures Refill(s'.limits, EntryFor(s', f, u), u) == Refill(t.limits, EntryFor(t, f, u), u)
    {
      NoSpendingIsInvisible(s, r, f, now, u);
    }
  }

  lemma KeptSnoc<T>(xs: seq<T>, keep: seq<bool>, x: T, k: bool)
    requires |xs| == |keep|
    ensures Kept(xs + [x], keep + [k]) == if k then Kept(xs, keep) + [x] else Kept(xs, keep)
  {
    assert (xs + [x])[..|xs|] == xs && (keep + [k])[..|keep|] == keep;
  }

  /** The run with the flagged requests only: same answers to them, and limiters that answer alike from now on. */
  ghost predicate SameWithout(s: LimiterState, rs: seq<Request>, keep: seq<bool>, now: Instant)
    requires |rs| == |keep|
  {
    && Run(s, Kept(rs, keep)).1 == Kept(Run(s, rs).1, keep)
    && Alike(Run(s, rs).0, Run(s, Kept(rs, keep)).0, now)
  }

  lemma SameWithoutStep(s: LimiterState, rs: seq<Request>, keep: seq<bool>, now: Instant, r: Request, k: bool)
    requires |rs| == |keep| && SameWithout(s, rs, keep, now) && Settled(Run(s, rs).0, now) && now <= r.at
    requires k || r.AvailableTokens? || Serve(Run(s, rs).0, r).1 == Decision(false)
    ensures SameWithout(s, rs + [r], keep + [k], r.at)
  {
    var (before, replies) := Run(s, rs);
    var t := Run(s, Kept(rs, keep)).0;
    KeptSnoc(rs, keep, r, k);
    KeptSnoc(replies, keep, Serve(before, r).1, k);
    RunSnoc(s, rs, r);
    if k {
      AlikeStep(before, t, now, r);
      RunSnoc(s, Kept(rs, keep), r);
    } else {
      DroppedStep(before, t, now, r);
    }
  }

  /** Only token queries and denied calls are left out. */
  ghost predicate DropsObservers(s: LimiterState, rs: seq<Request>, keep: seq<bool>)
    requires |rs| == |keep|
  {
    forall i | 0 <= i < |rs| && !keep[i] :: rs[i].AvailableTokens? || Run(s, rs).1[i] == Decision(false)
  }

  lemma DropsObserversBefore(s: LimiterState, rs: seq<Request>, keep: seq<bool>, r: Request, k: bool)
    requires |rs| == |keep| && DropsObservers(s, rs + [r], keep + [k])
    ensures DropsObservers(s, rs, keep)
    ensures k || r.AvailableTokens? || Serve(Run(s, rs).0, r).1 == Decision(false)
  {
    var all, flags := rs + [r], keep + [k];
    var replies := Run(s, rs).1;
    RunSnoc(s, rs, r);
    assert all[|rs|] == r && flags[|rs|] == k && Run(s, all).1[|rs|] == Serve(Run(s, rs).0, r).1;
    forall i | 0 <= i < |rs| && !keep[i]
      ensures rs[i].AvailableTokens? || replies[i] == Decision(false)
    {
      assert all[i] == rs[i] && flags[i] == keep[i] && Run(s, all).1[i] == replies[i];
    }
  }

  lemma SameWithoutOnce(s: LimiterState, start: Instant, rs: seq<Request>, keep: seq<bool>, r: Request, k: bool)
    requires |keep| == |rs| && Settled(s, start) && InTime(start, rs + [r]) && DropsObservers(s, rs + [r], keep + [k])
    requires SameWithout(s, rs, keep, EndOf(start, rs))
    ensures SameWithout(s, rs + [r], keep + [k], r.at)
  {
    InTimeBefore(start, rs, r);
    DropsObserversBefore(s, rs, keep, r, k);
    RunSettles(s, start, rs);
    SameWithoutStep(s, rs, keep, EndOf(start, rs), r, k);
  }

  /**
   Delete any token queries and any denied calls from a run: every remaining call is decided as
   before and every remaining query reports the same amount, in the run and ever after.
   */
  lemma {:induction false} ObserversAreInvisible(s: LimiterState, start: Instant, rs: seq<Request>, keep: seq<bool>)
    requires Settled(s, start) && InTime(start, rs) && |keep| == |rs| && DropsObservers(s, rs, keep)
    ensures SameWithout(s, rs, keep, EndOf(start, rs))
  {
    if |rs| > 0 {
      var (init, r, flags, k) := (rs[..|rs| - 1], rs[|rs| - 1], keep[..|rs| - 1], keep[|rs| - 1]);
      assert init + [r] == rs && flags + [k] == keep;
      InTimeBefore(start, init, r);
      DropsObserversBefore(s, init, flags, r, k);
      ObserversAreInvisible(s, start, init, flags);
      SameWithoutOnce(s, start, init, flags, r, k);
    }
  }
}
