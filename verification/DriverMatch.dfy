/** Matching registered aspects against function metadata (aspect-driver/src/match.rs, types.rs). */
module DriverMatch {
  import opened Common
  import opened Strings
  import opened StableSort
  import opened DriverParser
  import Pointcuts
  import ModulePaths

  datatype Visibility = Public | Crate | Restricted | Private

  datatype FunctionMetadata = FunctionMetadata(
    name: string,
    simpleName: string,
    modulePath: string,
    visibility: Visibility,
    isAsync: bool,
    returnType: string)
  {
    predicate IsPublic() { visibility != Private }

    predicate IsInModule(m: string) { modulePath == m || StartsWith(modulePath, m + "::") }

    /** `name.rsplit("::").next()`: what follows the last separator. */
    function LastComponent(): string { AfterLastSeparator(name, |name|) }

    predicate MatchesNamePattern(pattern: string) {
      if pattern == "*" then true
      else if EndsWith(pattern, "*") then
        var prefix := pattern[..|pattern| - 1];
        StartsWith(LastComponent(), prefix) || Contains(name, "::" + prefix)
      else
        LastComponent() == pattern || EndsWith(name, "::" + pattern)
    }
  }

  function AfterLastSeparator(s: string, i: nat): string
    requires i <= |s|
  {
    if OccursAt(s, "::", i) then s[i + 2..] else if i == 0 then s else AfterLastSeparator(s, i - 1)
  }

  datatype AdviceType = Before | After | Around

  datatype RegisteredAspect = RegisteredAspect(
    aspectName: string,
    pointcut: string,
    adviceType: AdviceType,
    priority: int)

  datatype MatchedFunction = MatchedFunction(function_: FunctionMetadata, aspect: string, pointcut: string)

  // ------------------------------------------------------------------ evaluating a pointcut

  /** `split_whitespace`. */
  function Words(s: string): seq<string>
    decreases |s|
  {
    var t := TrimStart(s);
    if |t| == 0 then []
    else
      var n := WordLength(t);
      [t[..n]] + Words(t[n..])
  }

  function WordLength(s: string): (n: nat)
    ensures n <= |s|
    ensures |s| > 0 && !IsSpace(s[0]) ==> n > 0
  {
    if |s| == 0 || IsSpace(s[0]) then 0 else 1 + WordLength(s[1..])
  }

  /** `trim_end_matches("(..)")`. */
  function TrimSignature(s: string): string {
    if EndsWith(s, "(..)") then TrimSignature(s[..|s| - 4]) else s
  }

  predicate IsNamePart(p: string) { '(' in p || EndsWith(p, "*") }

  function FirstNamePart(parts: seq<string>): Option<string> {
    if |parts| == 0 then None else if IsNamePart(parts[0]) then Some(parts[0]) else FirstNamePart(parts[1..])
  }

  predicate MatchesExecution(f: FunctionMetadata, pattern: string) {
    var parts := Words(pattern);
    var name := FirstNamePart(parts);
    && ("pub" in parts ==> f.IsPublic())
    && "fn" in parts
    && (name.Some? ==> f.MatchesNamePattern(TrimSignature(name.value)))
  }

  predicate Evaluate(e: PointcutExpr, f: FunctionMetadata) {
    match e
    case Execution(p) => MatchesExecution(f, p)
    case Within(p) => f.IsInModule(p)
    case Name(p) => f.MatchesNamePattern(p)
    case And(l, r) => Evaluate(l, f) && Evaluate(r, f)
    case Or(l, r) => Evaluate(l, f) || Evaluate(r, f)
    case Not(x) => !Evaluate(x, f)
  }

  /** A pointcut that does not parse matches nothing. */
  predicate MatchesPointcut(f: FunctionMetadata, pointcut: string) {
    var e := Parse(pointcut);
    e.Ok? && Evaluate(e.value, f)
  }

  /** The driver's module test is the one of the core's module patterns. */
  lemma InModuleIsMatchesPath(f: FunctionMetadata, pattern: seq<string>, path: seq<string>)
    requires ModulePaths.IsPath(pattern) && ModulePaths.IsPath(path) && f.modulePath == ModulePaths.Join(path)
    ensures f.IsInModule(ModulePaths.Join(pattern)) <==> pattern <= path
  {
    ModulePaths.MatchesIffSegmentPrefix(pattern, path);
  }

  // ------------------------------------------------------------------ the matcher

  /** The priority of the first aspect registered under the name. */
  function GetPriority(aspects: seq<RegisteredAspect>, name: string): (p: int)
    ensures forall i | 0 <= i < |aspects| && aspects[i].aspectName == name && (forall j | 0 <= j < i :: aspects[j].aspectName != name) ::
      p == aspects[i].priority
    ensures (forall i | 0 <= i < |aspects| :: aspects[i].aspectName != name) ==> p == 0
  {
    if |aspects| == 0 then 0
    else if aspects[0].aspectName == name then aspects[0].priority
    else GetPriority(aspects[1..], name)
  }

  function Applies(f: FunctionMetadata): RegisteredAspect -> bool {
    (a: RegisteredAspect) => MatchesPointcut(f, a.pointcut)
  }

  function MatchOf(f: FunctionMetadata, a: RegisteredAspect): MatchedFunction {
    MatchedFunction(f, a.aspectName, a.pointcut)
  }

  function MatchesOf(f: FunctionMetadata, xs: seq<RegisteredAspect>): seq<MatchedFunction> {
    seq(|xs|, i requires 0 <= i < |xs| => MatchOf(f, xs[i]))
  }

  /** Larger priorities come first. */
  function PriorityKey(aspects: seq<RegisteredAspect>): MatchedFunction -> int {
    (m: MatchedFunction) => -GetPriority(aspects, m.aspect)
  }

  /** The answer for one function: the matching registrations, stably sorted by descending priority. */
  function MatchFunctionSpec(aspects: seq<RegisteredAspect>, f: FunctionMetadata): seq<MatchedFunction> {
    Sort(PriorityKey(aspects), MatchesOf(f, Filter(Applies(f), aspects)))
  }

  class PointcutMatcher {
    var aspects: seq<RegisteredAspect>

    constructor ()
      ensures aspects == []
    {
      aspects := [];
    }

    method Register(aspect: RegisteredAspect)
      modifies this
      ensures aspects == old(aspects) + [aspect]
    {
      aspects := aspects + [aspect];
    }

    /** One entry for each registration whose pointcut matches f, and no other, larger priorities first, ties as registered. */
    method MatchFunction(f: FunctionMetadata) returns (matches: seq<MatchedFunction>)
      ensures forall m :: multiset(matches)[m] == |Selecting(aspects, f, m)|
      ensures forall i, j | 0 <= i < j < |matches| ::
        GetPriority(aspects, matches[i].aspect) >= GetPriority(aspects, matches[j].aspect)
      ensures matches == MatchFunctionSpec(aspects, f)
      ensures IsStableSort(PriorityKey(aspects), MatchesOf(f, Filter(Applies(f), aspects)), matches)
    {
      matches := [];
      for i := 0 to |aspects|
        invariant matches == MatchesOf(f, Filter(Applies(f), aspects[..i]))
      {
        assert aspects[..i + 1][..i] == aspects[..i];
        if MatchesPointcut(f, aspects[i].pointcut) {
          matches := matches + [MatchedFunction(f, aspects[i].aspectName, aspects[i].pointcut)];
        }
      }
      assert aspects[..|aspects|] == aspects;
      SortIsStable(PriorityKey(aspects), matches);
      matches := Sort(PriorityKey(aspects), matches);
      EachMatchOnce(aspects, f);
      LargerFirst(aspects, matches);
    }
  }

  /** The registrations that match f and make this entry. */
  function Selecting(aspects: seq<RegisteredAspect>, f: FunctionMetadata, m: MatchedFunction): set<nat> {
    set i: nat | i < |aspects| && MatchesPointcut(f, aspects[i].pointcut)
                 && m.function_ == f && m.aspect == aspects[i].aspectName && m.pointcut == aspects[i].pointcut
  }

  /** The positions of the registrations that satisfy p and make this entry. */
  function Making(p: RegisteredAspect -> bool, aspects: seq<RegisteredAspect>, f: FunctionMetadata, m: MatchedFunction): set<nat> {
    set i: nat | i < |aspects| && p(aspects[i]) && m == MatchOf(f, aspects[i])
  }

  lemma MakingStep(p: RegisteredAspect -> bool, xs: seq<RegisteredAspect>, x: RegisteredAspect, f: FunctionMetadata, m: MatchedFunction)
    ensures |Making(p, xs + [x], f, m)| == |Making(p, xs, f, m)| + if p(x) && m == MatchOf(f, x) then 1 else 0
  {
    assert Making(p, xs + [x], f, m) == Making(p, xs, f, m) + if p(x) && m == MatchOf(f, x) then {|xs|} else {};
  }

  lemma MatchesSnoc(f: FunctionMetadata, xs: seq<RegisteredAspect>, x: RegisteredAspect)
    ensures MatchesOf(f, xs + [x]) == MatchesOf(f, xs) + [MatchOf(f, x)]
  {}

  lemma {:induction false} EachKeptCounted(p: RegisteredAspect -> bool, aspects: seq<RegisteredAspect>, f: FunctionMetadata, m: MatchedFunction)
    ensures multiset(MatchesOf(f, Filter(p, aspects)))[m] == |Making(p, aspects, f, m)|
  {
    if |aspects| > 0 {
      var (init, x) := (aspects[..|aspects| - 1], aspects[|aspects| - 1]);
      assert aspects == init + [x];
      EachKeptCounted(p, init, f, m);
      MakingStep(p, init, x, f, m);
      MatchesSnoc(f, Filter(p, init), x);
      assert Filter(p, init) + [] == Filter(p, init);
    }
  }

  lemma EachMatchCounted(aspects: seq<RegisteredAspect>, f: FunctionMetadata, m: MatchedFunction)
    ensures multiset(MatchesOf(f, Filter(Applies(f), aspects)))[m] == |Selecting(aspects, f, m)|
  {
    EachKeptCounted(Applies(f), aspects, f, m);
    assert Making(Applies(f), aspects, f, m) == Selecting(aspects, f, m);
  }

  lemma EachMatchOnce(aspects: seq<RegisteredAspect>, f: FunctionMetadata)
    ensures forall m :: multiset(MatchFunctionSpec(aspects, f))[m] == |Selecting(aspects, f, m)|
  {
    var xs := MatchesOf(f, Filter(Applies(f), aspects));
    SortIsStable(PriorityKey(aspects), xs);
    StableSortPermutes(PriorityKey(aspects), Sort(PriorityKey(aspects), xs), xs);
    forall m
      ensures multiset(MatchFunctionSpec(aspects, f))[m] == |Selecting(aspects, f, m)|
    {
      EachMatchCounted(aspects, f, m);
    }
  }

  lemma LargerFirst(aspects: seq<RegisteredAspect>, matches: seq<MatchedFunction>)
    requires Sorted(PriorityKey(aspects), matches)
    ensures forall i, j | 0 <= i < j < |matches| :: GetPriority(aspects, matches[i].aspect) >= GetPriority(aspects, matches[j].aspect)
  {
    forall i, j | 0 <= i < j < |matches|
      ensures GetPriority(aspects, matches[i].aspect) >= GetPriority(aspects, matches[j].aspect)
    {
      assert PriorityKey(aspects)(matches[i]) <= PriorityKey(aspects)(matches[j]);
    }
  }

  /** The last function of that name, among the first k, that has an answer. */
  ghost predicate LastAnswer(functions: seq<FunctionMetadata>, answers: seq<seq<MatchedFunction>>, k: nat, n: string, i: nat)
    requires |answers| == |functions| && k <= |functions|
  {
    && i < k && functions[i].name == n && answers[i] != []
    && forall j | i < j < k && functions[j].name == n :: answers[j] == []
  }

  ghost predicate Collects(functions: seq<FunctionMetadata>, answers: seq<seq<MatchedFunction>>, k: nat,
                           results: map<string, seq<MatchedFunction>>)
    requires |answers| == |functions| && k <= |functions|
  {
    && (forall i | 0 <= i < k && answers[i] != [] :: functions[i].name in results)
    && (forall n | n in results :: exists i: nat :: LastAnswer(functions, answers, k, n, i) && results[n] == answers[i])
  }

  ghost function AllAnswers(functions: seq<FunctionMetadata>, aspects: seq<RegisteredAspect>): seq<seq<MatchedFunction>> {
    seq(|functions|, i requires 0 <= i < |functions| => MatchFunctionSpec(aspects, functions[i]))
  }

  /** `match_all`: the names of the functions that have an answer; of equal names the last one's counts. */
  method MatchAll(functions: seq<FunctionMetadata>, aspects: seq<RegisteredAspect>)
    returns (results: map<string, seq<MatchedFunction>>)
    ensures Collects(functions, AllAnswers(functions, aspects), |functions|, results)
  {
    var matcher := new PointcutMatcher();
    for i := 0 to |aspects|
      invariant matcher.aspects == aspects[..i]
    {
      matcher.Register(aspects[i]);
    }
    assert aspects[..|aspects|] == aspects;
    ghost var answers := AllAnswers(functions, aspects);
    results := map[];
    for k := 0 to |functions|
      invariant matcher.aspects == aspects
      invariant Collects(functions, answers, k, results)
    {
      var matches := matcher.MatchFunction(functions[k]);
      CollectOne(functions, answers, k, results, matches);
      if |matches| > 0 {
        results := results[functions[k].name := matches];
      }
    }
  }

  lemma CollectOne(functions: seq<FunctionMetadata>, answers: seq<seq<MatchedFunction>>, k: nat,
                   results: map<string, seq<MatchedFunction>>, matches: seq<MatchedFunction>)
    requires |answers| == |functions| && k < |functions| && matches == answers[k]
    requires Collects(functions, answers, k, results)
    ensures Collects(functions, answers, k + 1,
      if |matches| > 0 then results[functions[k].name := matches] else results)
  {
    var after := if |matches| > 0 then results[functions[k].name := matches] else results;
    forall n | n in after
      ensures exists i: nat :: LastAnswer(functions, answers, k + 1, n, i) && after[n] == answers[i]
    {
      if |matches| > 0 && n == functions[k].name {
        assert LastAnswer(functions, answers, k + 1, n, k);
      } else {
        var i: nat :| LastAnswer(functions, answers, k, n, i) && results[n] == answers[i];
        assert LastAnswer(functions, answers, k + 1, n, i);
      }
    }
  }

  // ------------------------------------------------------------------ what the answers mean

  lemma SortKeepsLength<T>(key: T -> int, xs: seq<T>)
    ensures |Sort(key, xs)| == |xs|
  {
    SortIsStable(key, xs);
    StableSortPermutes(key, Sort(key, xs), xs);
    assert |multiset(Sort(key, xs))| == |multiset(xs)|;
  }

  lemma {:induction false} FilterFinds<T>(p: T -> bool, xs: seq<T>)
    ensures Filter(p, xs) != [] <==> exists i | 0 <= i < |xs| :: p(xs[i])
  {
    if |xs| > 0 {
      FilterFinds(p, xs[..|xs| - 1]);
    }
  }

  /** A function gets an answer exactly when some registered pointcut parses and matches it. */
  lemma AnsweredIffMatched(aspects: seq<RegisteredAspect>, f: FunctionMetadata)
    ensures MatchFunctionSpec(aspects, f) != [] <==>
      exists i | 0 <= i < |aspects| :: MatchesPointcut(f, aspects[i].pointcut)
  {
    FilterFinds(Applies(f), aspects);
    SortKeepsLength(PriorityKey(aspects), MatchesOf(f, Filter(Applies(f), aspects)));
    assert forall i | 0 <= i < |aspects| :: Applies(f)(aspects[i]) <==> MatchesPointcut(f, aspects[i].pointcut);
  }

  ghost predicate UniqueNames(aspects: seq<RegisteredAspect>) {
    forall i, j | 0 <= i < j < |aspects| :: aspects[i].aspectName != aspects[j].aspectName
  }

  lemma {:induction false} FoundByOwnName(aspects: seq<RegisteredAspect>, i: nat)
    requires UniqueNames(aspects) && i < |aspects|
    ensures GetPriority(aspects, aspects[i].aspectName) == aspects[i].priority
    decreases |aspects|
  {
    if i > 0 {
      FoundByOwnName(aspects[1..], i - 1);
    }
  }

  function OwnPriority(): RegisteredAspect -> int { (a: RegisteredAspect) => -a.priority }

  /** Insertion, and so sorting, only looks at keys: it commutes with a map that preserves them. */
  lemma {:induction false} InsertMaps(f: FunctionMetadata, key: MatchedFunction -> int, xs: seq<RegisteredAspect>, x: RegisteredAspect)
    requires forall y | y in xs + [x] :: key(MatchOf(f, y)) == OwnPriority()(y)
    ensures Insert(key, MatchesOf(f, xs), MatchOf(f, x)) == MatchesOf(f, Insert(OwnPriority(), xs, x))
  {
    if |xs| > 0 {
      var init := xs[..|xs| - 1];
      assert xs[|xs| - 1] in xs + [x] && x in xs + [x];
      assert MatchesOf(f, xs)[..|xs| - 1] == MatchesOf(f, init);
      forall y | y in init + [x]
        ensures key(MatchOf(f, y)) == OwnPriority()(y)
      {
        assert y in xs + [x];
      }
      InsertMaps(f, key, init, x);
    }
  }

  lemma {:induction false} SortMaps(f: FunctionMetadata, key: MatchedFunction -> int, xs: seq<RegisteredAspect>)
    requires forall y | y in xs :: key(MatchOf(f, y)) == OwnPriority()(y)
    ensures Sort(key, MatchesOf(f, xs)) == MatchesOf(f, Sort(OwnPriority(), xs))
  {
    if |xs| > 0 {
      var init, last := xs[..|xs| - 1], xs[|xs| - 1];
      SortMaps(f, key, init);
      assert MatchesOf(f, xs)[..|xs| - 1] == MatchesOf(f, init);
      var sorted := Sort(OwnPriority(), init);
      SortIsStable(OwnPriority(), init);
      StableSortPermutes(OwnPriority(), sorted, init);
      forall y | y in sorted + [last]
        ensures y in xs
      {
        assert y in multiset(sorted) ==> y in multiset(init);
      }
      InsertMaps(f, key, sorted, last);
    }
  }

  lemma {:induction false} FilterSelects<T>(p: T -> bool, xs: seq<T>)
    ensures forall x | x in Filter(p, xs) :: x in xs && p(x)
  {
    if |xs| > 0 {
      FilterSelects(p, xs[..|xs| - 1]);
    }
  }

  /**
   With unique names the answer is the matching registrations, stably sorted by their own priorities,
   the highest first.
   */
  lemma UniqueNamesSortByOwnPriority(aspects: seq<RegisteredAspect>, f: FunctionMetadata)
    requires UniqueNames(aspects)
    ensures MatchFunctionSpec(aspects, f) == MatchesOf(f, Sort(OwnPriority(), Filter(Applies(f), aspects)))
  {
    var xs := Filter(Applies(f), aspects);
    FilterSelects(Applies(f), aspects);
    forall y | y in xs
      ensures PriorityKey(aspects)(MatchOf(f, y)) == OwnPriority()(y)
    {
      var i :| 0 <= i < |aspects| && aspects[i] == y;
      FoundByOwnName(aspects, i);
    }
    SortMaps(f, PriorityKey(aspects), xs);
  }

  /** For functions with distinct names, `match_all` maps a name to its function's answer, if some aspect matches. */
  lemma DistinctNamesAnswered(functions: seq<FunctionMetadata>, aspects: seq<RegisteredAspect>,
                              results: map<string, seq<MatchedFunction>>, i: nat)
    requires forall j, k | 0 <= j < k < |functions| :: functions[j].name != functions[k].name
    requires Collects(functions, AllAnswers(functions, aspects), |functions|, results) && i < |functions|
    ensures functions[i].name in results <==>
      exists k | 0 <= k < |aspects| :: MatchesPointcut(functions[i], aspects[k].pointcut)
    ensures functions[i].name in results ==> results[functions[i].name] == MatchFunctionSpec(aspects, functions[i])
  {
    var answers := AllAnswers(functions, aspects);
    AnsweredIffMatched(aspects, functions[i]);
    assert answers[i] == MatchFunctionSpec(aspects, functions[i]);
    var n := functions[i].name;
    if n in results {
      var j: nat :| LastAnswer(functions, answers, |functions|, n, j) && results[n] == answers[j];
      assert j == i;
    }
  }
}
