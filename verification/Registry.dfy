/** The aspect registry (aspect-runtime/src/registry.rs). */
module Registry {
  import opened Common
  import opened StableSort
  import opened Pointcuts
  import opened AroundChain

  datatype RegisteredAspect<!W> = RegisteredAspect(
    aspect: Advice<W>,
    pointcut: Pointcut,
    order: int,
    name: Option<string>)

  function OrderOf<W>(): RegisteredAspect<W> -> int { (a: RegisteredAspect<W>) => a.order }

  function Applies<W>(f: FunctionInfo): RegisteredAspect<W> -> bool {
    (a: RegisteredAspect<W>) => Matches(a.pointcut, f)
  }

  function Advices<W>(matching: seq<RegisteredAspect<W>>): seq<Advice<W>> {
    seq(|matching|, i requires 0 <= i < |matching| => matching[i].aspect)
  }

  function InfoToJoinPoint(f: FunctionInfo): JoinPoint { JoinPoint(f.name, f.modulePath, "unknown", 0, []) }

  /** The registry object. */
  class AspectRegistry<!W(!new)> {
    var aspects: seq<RegisteredAspect<W>>
    /** Everything registered since the last `clear`, in the order of registration. */
    ghost var history: seq<RegisteredAspect<W>>

    /** The vector is the stable sort by `order` of the whole registration history. */
    ghost predicate Valid()
      reads this
    {
      IsStableSort(OrderOf(), history, aspects)
    }

    constructor ()
      ensures Valid() && history == []
    {
      aspects := [];
      history := [];
    }

    method Register(aspect: Advice<W>, pointcut: Pointcut, order: int, name: Option<string>)
      requires Valid()
      modifies this
      ensures Valid() && history == old(history) + [RegisteredAspect(aspect, pointcut, order, name)]
    {
      var entry := RegisteredAspect(aspect, pointcut, order, name);
      ResortedIsSorted(OrderOf(), history, aspects, entry);
      aspects := aspects + [entry];
      aspects := Sort(OrderOf(), aspects);
      history := history + [entry];
    }

    /** The registrations whose pointcut matches f and no others, lowest order first, ties as registered. */
    method FindMatching(f: FunctionInfo) returns (matching: seq<RegisteredAspect<W>>)
      requires Valid()
      ensures forall a :: multiset(matching)[a] == if Matches(a.pointcut, f) then multiset(history)[a] else 0
      ensures forall i, j | 0 <= i < j < |matching| :: matching[i].order <= matching[j].order
      ensures IsStableSort(OrderOf(), Filter(Applies(f), history), matching)
      ensures matching == Filter(Applies(f), aspects)
    {
      FilteredSort(OrderOf(), Applies(f), history, aspects);
      MatchingIsFound(history, aspects, f);
      matching := Filter(Applies(f), aspects);
    }

    /**
     Wraps the caller's joinpoint in the matching aspects, last one first, and proceeds. The result is
     the recursive meaning of the chain of just the aspects whose pointcut matches f, in which a lower order
     is further out; all but the innermost of them see f's name and module, and no location or arguments.
     */
    method ApplyAspects(f: FunctionInfo, body: Body<W>, caller: JoinPoint, w: W)
      returns (r: (W, Outcome), ghost matching: seq<RegisteredAspect<W>>)
      requires Valid()
      ensures forall a :: multiset(matching)[a] == if Matches(a.pointcut, f) then multiset(history)[a] else 0
      ensures forall i, j | 0 <= i < j < |matching| :: matching[i].order <= matching[j].order
      ensures IsStableSort(OrderOf(), Filter(Applies(f), history), matching)
      ensures
        var advices := seq(|matching|, i requires 0 <= i < |matching| => matching[i].aspect);
        r == Chain(advices, JoinPoint(f.name, f.modulePath, "unknown", 0, []), caller, body).Meaning(0, w)
    {
      var found := FindMatching(f);
      matching := found;
      ghost var chain := Chain(Advices(found), InfoToJoinPoint(f), caller, body);
      assert Advices(found) == seq(|found|, i requires 0 <= i < |found| => found[i].aspect);
      JoinedMeans(chain, 0, w);
      var pjp := Base(body, caller);
      if |found| == 0 {
        r := Proceed(pjp, w);
        return;
      }
      var i := |found|;
      while i > 0
        invariant 0 <= i <= |found|
        invariant pjp == chain.Joined(i)
      {
        i := i - 1;
        pjp := Wrapped(found[i].aspect, pjp, InfoToJoinPoint(f));
      }
      r := Proceed(pjp, w);
    }

    method Count() returns (n: nat)
      requires Valid()
      ensures n == |history|
    {
      StableSortPermutes(OrderOf(), aspects, history);
      assert |multiset(aspects)| == |multiset(history)|;
      n := |aspects|;
    }

    method Clear()
      modifies this
      ensures Valid() && history == []
    {
      aspects := [];
      history := [];
    }
  }

  /** The vector after the given registrations, each of which pushes and re-sorts. */
  function Registered<W>(history: seq<RegisteredAspect<W>>): seq<RegisteredAspect<W>> {
    if |history| == 0 then []
    else Sort(OrderOf(), Registered(history[..|history| - 1]) + [history[|history| - 1]])
  }

  /** Re-sorting at every registration ends where sorting the whole history once does; nothing is lost or duplicated. */
  lemma {:induction false} RegistrationSortsHistory<W>(history: seq<RegisteredAspect<W>>)
    ensures IsStableSort(OrderOf(), history, Registered(history))
    ensures Registered(history) == Sort(OrderOf(), history)
    ensures multiset(Registered(history)) == multiset(history)
  {
    if |history| > 0 {
      var n := |history| - 1;
      RegistrationSortsHistory(history[..n]);
      ResortedIsSorted(OrderOf(), history[..n], Registered(history[..n]), history[n]);
      assert history == history[..n] + [history[n]];
    }
    SortIsStable(OrderOf(), history);
    StableSortIsUnique(OrderOf(), Registered(history), Sort(OrderOf(), history));
    StableSortPermutes(OrderOf(), Registered(history), history);
  }

  /** Each registration whose pointcut matches f, as often as it was registered, and no other; lowest order first. */
  ghost predicate FoundFor<W(!new)>(f: FunctionInfo, history: seq<RegisteredAspect<W>>, found: seq<RegisteredAspect<W>>) {
    && (forall a: RegisteredAspect<W> :: multiset(found)[a] == if Matches(a.pointcut, f) then multiset(history)[a] else 0)
    && (forall i, j | 0 <= i < j < |found| :: found[i].order <= found[j].order)
  }

  lemma MatchingIsFound<W(!new)>(history: seq<RegisteredAspect<W>>, sorted: seq<RegisteredAspect<W>>, f: FunctionInfo)
    requires IsStableSort(OrderOf(), history, sorted)
    ensures FoundFor(f, history, Filter(Applies(f), sorted))
  {
    var found := Filter(Applies<W>(f), sorted);
    StableSortPermutes(OrderOf(), sorted, history);
    forall a: RegisteredAspect<W>
      ensures multiset(found)[a] == if Matches(a.pointcut, f) then multiset(history)[a] else 0
    {
      FilterCounts(Applies<W>(f), sorted, a);
    }
    FilterKeepsSorted(OrderOf(), Applies(f), sorted);
    forall i, j | 0 <= i < j < |found|
      ensures found[i].order <= found[j].order
    {
      assert OrderOf<W>()(found[i]) <= OrderOf<W>()(found[j]);
    }
  }

  /** The aspects found for a function are the stable sort of the matching registrations. */
  lemma MatchingIsSortedMatches<W>(history: seq<RegisteredAspect<W>>, f: FunctionInfo)
    ensures Filter(Applies(f), Registered(history)) == Sort(OrderOf(), Filter(Applies(f), history))
  {
    RegistrationSortsHistory(history);
    FilteredSort(OrderOf(), Applies(f), history, Registered(history));
    SortIsStable(OrderOf(), Filter(Applies(f), history));
    StableSortIsUnique(OrderOf(), Filter(Applies(f), Registered(history)), Sort(OrderOf(), Filter(Applies(f), history)));
  }
}
