/** The event trace of a chain of default, pass-through and short-circuiting aspects. */
module ChainTraces {
  import opened Common
  import opened AroundChain

  datatype Event =
    | Before(id: int, context: JoinPoint)
    | After(id: int, context: JoinPoint, value: Value)
    | AfterError(id: int, context: JoinPoint, error: AspectError)
    | BodyRan

  type Log = seq<Event>

  datatype Behaviour = Hooks | PassThrough | ShortCircuit(outcome: Outcome)

  datatype Aspect = Aspect(id: int, behaviour: Behaviour)

  function AdviceOf(a: Aspect): Advice<Log> {
    match a.behaviour
    case Hooks => DefaultAround<Log>(
      (log: Log, ctx: JoinPoint) => log + [Before(a.id, ctx)],
      (log: Log, ctx: JoinPoint, v: Value) => log + [After(a.id, ctx, v)],
      (log: Log, ctx: JoinPoint, e: AspectError) => log + [AfterError(a.id, ctx, e)])
    case PassThrough => Advice(
      (log: Log, ctx: JoinPoint) => Go(log, 0.0),
      (log: Log, ctx: JoinPoint, memo: Instant, o: Outcome) => (log, o))
    case ShortCircuit(outcome) => Advice(
      (log: Log, ctx: JoinPoint) => Skip(log, outcome),
      (log: Log, ctx: JoinPoint, memo: Instant, o: Outcome) => (log, o))
  }

  function ChainOf(aspects: seq<Aspect>, info: JoinPoint, caller: JoinPoint, result: Outcome): (c: Chain<Log>)
    ensures |c.advices| == |aspects|
  {
    Chain(seq(|aspects|, i requires 0 <= i < |aspects| => AdviceOf(aspects[i])), info, caller,
          (log: Log) => (log + [BodyRan], result))
  }

  /** How many aspects are entered before one short-circuits. */
  function Entered(aspects: seq<Aspect>): (n: nat)
    ensures n <= |aspects|
    ensures forall i | 0 <= i < n :: !aspects[i].behaviour.ShortCircuit?
    ensures n < |aspects| ==> aspects[n].behaviour.ShortCircuit?
  {
    EnteredFrom(aspects, 0)
  }

  function EnteredFrom(aspects: seq<Aspect>, i: nat): (n: nat)
    requires i <= |aspects| && forall j | 0 <= j < i :: !aspects[j].behaviour.ShortCircuit?
    ensures i <= n <= |aspects|
    ensures forall j | 0 <= j < n :: !aspects[j].behaviour.ShortCircuit?
    ensures n < |aspects| ==> aspects[n].behaviour.ShortCircuit?
    decreases |aspects| - i
  {
    if i == |aspects| || aspects[i].behaviour.ShortCircuit? then i else EnteredFrom(aspects, i + 1)
  }

  /** The `before` events of the first n aspects, outermost first. */
  function Befores(c: Chain<Log>, aspects: seq<Aspect>, n: nat): Log
    requires n <= |aspects|
  {
    if n == 0 then []
    else
      Befores(c, aspects, n - 1)
      + (if aspects[n - 1].behaviour.Hooks? then [Before(aspects[n - 1].id, c.Context(n - 1))] else [])
  }

  function Closing(id: int, ctx: JoinPoint, o: Outcome): Event {
    match o case Ok(v) => After(id, ctx, v) case Err(e) => AfterError(id, ctx, e)
  }

  /** The closing events of the first n aspects, innermost first. */
  function Afters(c: Chain<Log>, aspects: seq<Aspect>, n: nat, o: Outcome): Log
    requires n <= |aspects|
  {
    if n == 0 then []
    else
      (if aspects[n - 1].behaviour.Hooks? then [Closing(aspects[n - 1].id, c.Context(n - 1), o)] else [])
      + Afters(c, aspects, n - 1, o)
  }

  lemma {:induction false} WayIn(aspects: seq<Aspect>, info: JoinPoint, caller: JoinPoint, result: Outcome, n: nat)
    requires n <= Entered(aspects)
    ensures
      var c := ChainOf(aspects, info, caller, result);
      Inward(c, n, []).Arrived? && Inward(c, n, []).world == Befores(c, aspects, n)
    decreases n
  {
    if n > 0 {
      WayIn(aspects, info, caller, result, n - 1);
      var c := ChainOf(aspects, info, caller, result);
      assert c.advices[n - 1] == AdviceOf(aspects[n - 1]);
    }
  }

  lemma {:induction false} WayOut(aspects: seq<Aspect>, info: JoinPoint, caller: JoinPoint, result: Outcome,
                                  memos: seq<Instant>, n: nat, log: Log, o: Outcome)
    requires n <= |aspects| && n <= |memos| && forall i | 0 <= i < n :: !aspects[i].behaviour.ShortCircuit?
    ensures
      var c := ChainOf(aspects, info, caller, result);
      Outward(c, memos, n, log, o) == (log + Afters(c, aspects, n, o), o)
    decreases n
  {
    var c := ChainOf(aspects, info, caller, result);
    if n > 0 {
      assert c.advices[n - 1] == AdviceOf(aspects[n - 1]);
      var (log', o') := c.advices[n - 1].leave(log, c.Context(n - 1), memos[n - 1], o);
      WayOut(aspects, info, caller, result, memos, n - 1, log', o);
      assert log' == log + if aspects[n - 1].behaviour.Hooks? then [Closing(aspects[n - 1].id, c.Context(n - 1), o)] else [];
      assert log' + Afters(c, aspects, n - 1, o) == log + Afters(c, aspects, n, o);
    } else {
      assert log + [] == log;
    }
  }

  /** The outcome of the chain: the body's, or that of the aspect that short-circuits. */
  function OutcomeOf(aspects: seq<Aspect>, result: Outcome): Outcome {
    if Entered(aspects) == |aspects| then result else aspects[Entered(aspects)].behaviour.outcome
  }

  lemma {:induction false} UncutTrace(aspects: seq<Aspect>, info: JoinPoint, caller: JoinPoint, result: Outcome)
    requires Entered(aspects) == |aspects|
    ensures
      var c := ChainOf(aspects, info, caller, result);
      var n := |aspects|;
      c.Meaning(0, []) == (Befores(c, aspects, n) + [BodyRan] + Afters(c, aspects, n, result), result)
  {
    var c := ChainOf(aspects, info, caller, result);
    var n := |aspects|;
    WayIn(aspects, info, caller, result, n);
    ChainRunsInwardThenOutward(c, []);
    var way := Inward(c, n, []);
    WayOut(aspects, info, caller, result, way.memos, n, way.world + [BodyRan], result);
  }

  lemma {:induction false} CutTrace(aspects: seq<Aspect>, info: JoinPoint, caller: JoinPoint, result: Outcome)
    requires Entered(aspects) < |aspects|
    ensures
      var c := ChainOf(aspects, info, caller, result);
      var n := Entered(aspects);
      var o := aspects[n].behaviour.outcome;
      c.Meaning(0, []) == (Befores(c, aspects, n) + Afters(c, aspects, n, o), o)
  {
    var c := ChainOf(aspects, info, caller, result);
    var n := Entered(aspects);
    var o := aspects[n].behaviour.outcome;
    WayIn(aspects, info, caller, result, n);
    var way := Inward(c, n, []);
    assert c.advices[n] == AdviceOf(aspects[n]);
    assert Inward(c, n + 1, []) == Cut(n, way.world, o, way.memos);
    MeaningFrom(c, n + 1, []);
    WayOut(aspects, info, caller, result, way.memos, n, way.world, o);
  }

  /**
   The trace of a chain: the entered aspects' `before` events from the outside in, the body if nobody
   short-circuits, and their `after` or `after_error` events from the inside out. The innermost aspect
   sees the caller's context, every other one the context made from the function's description.
   */
  lemma {:induction false} TraceIsNested(aspects: seq<Aspect>, info: JoinPoint, caller: JoinPoint, result: Outcome)
    ensures
      var c := ChainOf(aspects, info, caller, result);
      var n := Entered(aspects);
      var o := OutcomeOf(aspects, result);
      c.Meaning(0, []) ==
        (Befores(c, aspects, n) + (if n == |aspects| then [BodyRan] else []) + Afters(c, aspects, n, o), o)
  {
    var c := ChainOf(aspects, info, caller, result);
    var n := Entered(aspects);
    if n == |aspects| {
      UncutTrace(aspects, info, caller, result);
    } else {
      CutTrace(aspects, info, caller, result);
      assert Befores(c, aspects, n) + [] == Befores(c, aspects, n);
    }
  }

  lemma {:induction false} NoBodyInAdvice(c: Chain<Log>, aspects: seq<Aspect>, n: nat, o: Outcome)
    requires n <= |aspects|
    ensures BodyRan !in Befores(c, aspects, n) && BodyRan !in Afters(c, aspects, n, o)
    decreases n
  {
    if n > 0 {
      NoBodyInAdvice(c, aspects, n - 1, o);
    }
  }

  /** The body runs at most once, and it runs exactly when no aspect short-circuits. */
  lemma BodyRunsOnceIffNobodyCuts(aspects: seq<Aspect>, info: JoinPoint, caller: JoinPoint, result: Outcome)
    ensures
      var log := ChainOf(aspects, info, caller, result).Meaning(0, []).0;
      && multiset(log)[BodyRan] <= 1
      && (multiset(log)[BodyRan] == 1 <==> forall a | a in aspects :: !a.behaviour.ShortCircuit?)
  {
    TraceIsNested(aspects, info, caller, result);
    var c := ChainOf(aspects, info, caller, result);
    var n := Entered(aspects);
    var o := OutcomeOf(aspects, result);
    NoBodyInAdvice(c, aspects, n, o);
    if n < |aspects| {
      assert aspects[n] in aspects;
    }
  }

  /** Proper nesting: the closing events mirror the `before` events, aspect for aspect and context for context. */
  lemma {:induction false} ClosingsMirrorBefores(c: Chain<Log>, aspects: seq<Aspect>, n: nat, o: Outcome)
    requires n <= |aspects|
    ensures
      var ins, outs := Befores(c, aspects, n), Afters(c, aspects, n, o);
      && |ins| == |outs|
      && forall k | 0 <= k < |ins| :: ins[k].Before? && outs[|ins| - 1 - k] == Closing(ins[k].id, ins[k].context, o)
    decreases n
  {
    if n > 0 {
      ClosingsMirrorBefores(c, aspects, n - 1, o);
    }
  }
}
