/** Joinpoints, around advice, and the meaning of a chain of aspects (aspect-core joinpoint.rs, aspect.rs). */
module AroundChain {
  import opened Common

  /** The payload of a `Box<dyn Any>`; the chain never looks inside. */
  datatype Value = Value(id: int)

  datatype AspectError = ExecutionError(message: string) | WeavingError(message: string) | CustomError(message: string)

  type Outcome = Result<Value, AspectError>

  datatype JoinPoint = JoinPoint(
    functionName: string,
    modulePath: string,
    file: string,
    line: nat,
    args: seq<Value>)

  /**
   An aspect's `around`, split at its one call of the continuation. W is everything it can read and
   change. `enter` runs up to the call, or returns without making it; `leave` runs after it. `memo` is
   what `around` keeps in a local variable across the call: a clock reading.
   */
  datatype Entry<+W> = Go(world: W, memo: Instant) | Skip(world: W, outcome: Outcome)

  datatype Advice<!W> = Advice(
    enter: (W, JoinPoint) -> Entry<W>,
    leave: (W, JoinPoint, Instant, Outcome) -> (W, Outcome))

  type Body<!W> = W -> (W, Outcome)

  /** A proceeding joinpoint: its closure is the function body, or `around` applied to an inner one. */
  datatype Proceeding<!W> =
    | Base(body: Body<W>, context: JoinPoint)
    | Wrapped(advice: Advice<W>, inner: Proceeding<W>, context: JoinPoint)

  /** `proceed`: runs the closure, consuming the joinpoint. */
  function Proceed<W>(p: Proceeding<W>, w: W): (W, Outcome)
    decreases p, 0
  {
    match p
    case Base(body, _) => body(w)
    case Wrapped(advice, inner, _) => Around(advice, inner, w)
  }

  /** `advice.around(inner)`: the context it sees is that of the joinpoint it is given. */
  function Around<W>(advice: Advice<W>, inner: Proceeding<W>, w: W): (W, Outcome)
    decreases inner, 1
  {
    match advice.enter(w, inner.context)
    case Skip(w', o) => (w', o)
    case Go(w', memo) =>
      var (w'', o) := Proceed(inner, w');
      advice.leave(w'', inner.context, memo, o)
  }

  /** The default `around`: before, the call, then after or after_error; the outcome is passed on. */
  function DefaultAround<W>(
      before: (W, JoinPoint) -> W,
      after: (W, JoinPoint, Value) -> W,
      afterError: (W, JoinPoint, AspectError) -> W): Advice<W>
  {
    Advice(
      (w: W, ctx: JoinPoint) => Go(before(w, ctx), 0.0),
      (w: W, ctx: JoinPoint, memo: Instant, o: Outcome) => (match o case Ok(v) => after(w, ctx, v) case Err(e) => afterError(w, ctx, e), o))
  }

  // ------------------------------------------------------------------ the recursive meaning

  /** A chain, outermost advice first, around a body with its caller's own context. */
  datatype Chain<!W> = Chain(advices: seq<Advice<W>>, info: JoinPoint, caller: JoinPoint, body: Body<W>) {
    /** The context advice i sees: only the innermost one gets the caller's. */
    function Context(i: nat): JoinPoint { if i + 1 == |advices| then caller else info }

    /** m([]) = body; m([a] + rest) = a.around(m(rest)), from advice i on. */
    function Meaning(i: nat, w: W): (W, Outcome)
      requires i <= |advices|
      decreases |advices| - i
    {
      if i == |advices| then body(w)
      else match advices[i].enter(w, Context(i))
        case Skip(w', o) => (w', o)
        case Go(w', memo) =>
          var (w'', o) := Meaning(i + 1, w');
          advices[i].leave(w'', Context(i), memo, o)
    }

    /** The joinpoint that stands for the chain from advice i on. */
    function Joined(i: nat): Proceeding<W>
      requires i <= |advices|
      decreases |advices| - i
    {
      if i == |advices| then Base(body, caller) else Wrapped(advices[i], Joined(i + 1), info)
    }
  }

  lemma {:induction false} JoinedMeans<W>(c: Chain<W>, i: nat, w: W)
    requires i <= |c.advices|
    ensures Proceed(c.Joined(i), w) == c.Meaning(i, w)
    ensures c.Joined(i).context == if i == |c.advices| then c.caller else c.info
    decreases |c.advices| - i
  {
    if i < |c.advices| {
      JoinedMeans(c, i + 1, w);
      match c.advices[i].enter(w, c.Context(i)) {
        case Skip(_, _) =>
        case Go(w', _) => JoinedMeans(c, i + 1, w');
      }
    }
  }

  // ------------------------------------------------------------------ inward, body, outward

  /** How far the chain gets on its way in: to the body, or cut off by an advice that does not proceed. */
  datatype Inbound<+W> = Arrived(world: W, memos: seq<Instant>)
                       | Cut(depth: nat, world: W, outcome: Outcome, memos: seq<Instant>)

  /** The first n advices enter, outermost first. */
  function Inward<W>(c: Chain<W>, n: nat, w: W): (r: Inbound<W>)
    requires n <= |c.advices|
    ensures r.Arrived? ==> |r.memos| == n
    ensures r.Cut? ==> r.depth < n && |r.memos| == r.depth
  {
    if n == 0 then Arrived(w, [])
    else match Inward(c, n - 1, w)
      case Cut(d, w', o, ms) => Cut(d, w', o, ms)
      case Arrived(w', ms) =>
        match c.advices[n - 1].enter(w', c.Context(n - 1))
        case Skip(w'', o) => Cut(n - 1, w'', o, ms)
        case Go(w'', memo) => Arrived(w'', ms + [memo])
  }

  /** The first n advices leave, innermost first. */
  function Outward<W>(c: Chain<W>, memos: seq<Instant>, n: nat, w: W, o: Outcome): (W, Outcome)
    requires n <= |c.advices| && n <= |memos|
  {
    if n == 0 then (w, o)
    else
      var (w', o') := c.advices[n - 1].leave(w, c.Context(n - 1), memos[n - 1], o);
      Outward(c, memos, n - 1, w', o')
  }

  lemma {:induction false} OutwardIgnoresInner<W>(c: Chain<W>, memos: seq<Instant>, more: seq<Instant>, n: nat, w: W, o: Outcome)
    requires n <= |c.advices| && n <= |memos|
    ensures Outward(c, memos + more, n, w, o) == Outward(c, memos, n, w, o)
    decreases n
  {
    if n > 0 {
      var (w', o') := c.advices[n - 1].leave(w, c.Context(n - 1), memos[n - 1], o);
      OutwardIgnoresInner(c, memos, more, n - 1, w', o');
    }
  }

  lemma {:induction false} CutIsFinal<W>(c: Chain<W>, n: nat, m: nat, w: W)
    requires n <= m <= |c.advices| && Inward(c, n, w).Cut?
    ensures Inward(c, m, w) == Inward(c, n, w)
    decreases m
  {
    if n < m {
      CutIsFinal(c, n, m - 1, w);
    }
  }

  /** What happens once the first n advices have entered: the rest of the chain, and the way out. */
  function Resume<W>(c: Chain<W>, r: Inbound<W>, n: nat): (W, Outcome)
    requires n <= |c.advices|
    requires if r.Arrived? then |r.memos| == n else r.depth < n && |r.memos| == r.depth
  {
    match r
    case Cut(d, w, o, ms) => Outward(c, ms, d, w, o)
    case Arrived(w, ms) => var (v, o) := c.Meaning(n, w); Outward(c, ms, n, v, o)
  }

  lemma {:induction false} MeaningFrom<W>(c: Chain<W>, n: nat, w: W)
    requires n <= |c.advices|
    ensures c.Meaning(0, w) == Resume(c, Inward(c, n, w), n)
    decreases n
  {
    if n > 0 {
      MeaningFrom(c, n - 1, w);
      match Inward(c, n - 1, w) {
        case Cut(_, _, _, _) =>
        case Arrived(w', ms) =>
          match c.advices[n - 1].enter(w', c.Context(n - 1)) {
            case Skip(_, _) =>
            case Go(w'', memo) =>
              var (v, o) := c.Meaning(n, w'');
              var (v', o') := c.advices[n - 1].leave(v, c.Context(n - 1), memo, o);
              OutwardIgnoresInner(c, ms, [memo], n - 1, v', o');
          }
      }
    }
  }

  /**
   Every chain runs in one shape. The advices enter from the outside in. If all of them proceed the
   body runs, once, and all leave from the inside out; else the body does not run, and just the
   advices outside the one that cut the chain leave.
   */
  lemma ChainRunsInwardThenOutward<W>(c: Chain<W>, w: W)
    ensures
      var n := |c.advices|;
      var way := Inward(c, n, w);
      && (way.Arrived? ==>
            c.Meaning(0, w) == Outward(c, way.memos, n, c.body(way.world).0, c.body(way.world).1))
      && (way.Cut? ==> c.Meaning(0, w) == Outward(c, way.memos, way.depth, way.world, way.outcome))
  {
    MeaningFrom(c, |c.advices|, w);
  }

  /** Nothing inside the advice that cuts the chain runs: replace body and inner advices, nothing changes. */
  lemma NothingRunsInsideACut<W>(c: Chain<W>, d: Chain<W>, k: nat, w: W)
    requires k < |c.advices| && k < |d.advices| && Inward(c, k + 1, w).Cut?
    requires c.advices[..k + 1] == d.advices[..k + 1] && c.info == d.info && c.caller == d.caller
    requires forall i | 0 <= i <= k :: c.Context(i) == d.Context(i)
    ensures c.Meaning(0, w) == d.Meaning(0, w)
  {
    SameWayIn(c, d, k + 1, k + 1, w);
    MeaningFrom(c, k + 1, w);
    MeaningFrom(d, k + 1, w);
    var cut := Inward(c, k + 1, w);
    SameWayOut(c, d, k + 1, cut.memos, cut.depth, cut.world, cut.outcome);
  }

  lemma {:induction false} SameWayIn<W>(c: Chain<W>, d: Chain<W>, k: nat, n: nat, w: W)
    requires n <= k <= |c.advices| && k <= |d.advices| && c.advices[..k] == d.advices[..k]
    requires forall i | 0 <= i < k :: c.Context(i) == d.Context(i)
    ensures Inward(c, n, w) == Inward(d, n, w)
    decreases n
  {
    if n > 0 {
      SameWayIn(c, d, k, n - 1, w);
      assert c.advices[n - 1] == c.advices[..k][n - 1] == d.advices[..k][n - 1];
    }
  }

  lemma {:induction false} SameWayOut<W>(c: Chain<W>, d: Chain<W>, k: nat, memos: seq<Instant>, n: nat, w: W, o: Outcome)
    requires n <= k <= |c.advices| && k <= |d.advices| && c.advices[..k] == d.advices[..k] && n <= |memos|
    requires forall i | 0 <= i < k :: c.Context(i) == d.Context(i)
    ensures Outward(c, memos, n, w, o) == Outward(d, memos, n, w, o)
    decreases n
  {
    if n > 0 {
      assert c.advices[n - 1] == c.advices[..k][n - 1] == d.advices[..k][n - 1];
      var (w', o') := c.advices[n - 1].leave(w, c.Context(n - 1), memos[n - 1], o);
      SameWayOut(c, d, k, memos, n - 1, w', o');
    }
  }
}
