# A verified model of the aspect framework

This project models, in Dafny 4.11, the parts of the framework that decide which aspects run, in which
order and to what effect, and proves what they promise:

* the token-bucket **rate limiter** and the **circuit breaker**, as objects and as state machines over whole runs;
* the two **pointcut languages** (the runtime's in `aspect-core`, the compiler driver's in `aspect-driver`):
  parsers, patterns, evaluation;
* the **registry** and the **chain** of `around` advice it builds;
* limiter, breaker and **metrics stacked** on one function;
* the code that `#[aspect(..)]` **weaves** into a function, as an abstract syntax with an interpreter.

`dafny verify dfyconfig.toml` checks everything.

## How it is organised

| files | about |
|---|---|
| `Common`, `Strings`, `StableSort` | shared datatypes; trimming and searching; stable sorting and its uniqueness |
| `TokenWindows`, `RateLimit`, `RateLimitRuns`, `RateLimitIsolation`, `RateLimitReports` | the limiter |
| `CircuitBreaker`, `CircuitBreakerRuns`, `CircuitBreakerOverlap` | the breaker |
| `Brackets` | bracket depth, operator search, outer brackets: shared by both parsers |
| `Pointcuts`, `PointcutParser`, `PointcutLeaves`, `PointcutLeafImage`, `PointcutRoundTrip`, `PointcutMinimality`, `FewestBrackets`, `Globs`, `ModulePaths` | the runtime's pointcut language |
| `DriverParser`, `DriverRoundTrip`, `DriverFewestBrackets`, `DriverMatch`, `DriverNames`, `DriverExecution` | the driver's pointcut language and matcher |
| `BracketLevels`, `Precedence`, `ParserAgreement` | how each parser reads operators and brackets; when as documented, and when alike |
| `VerdictAgreement`, `VerdictConditions` | from one text to two verdicts, and when they are the same |
| `AroundChain`, `ChainTraces`, `Registry` | joinpoints, chains, the registry |
| `Metrics`, `AspectStack` | the metrics aspect; the three aspects stacked |
| `Weaving`, `WovenStacks` | emitted code and its meaning |

The mutable objects (limiter, breaker, metrics, registry, matcher) are classes whose methods are proved
against functions on values; the theorems about runs are about those functions. The scanning loops of the
parsers are methods with loops. An `around` advice is split at its one call of the continuation
(`Advice.enter`, `Advice.leave`) and works on a world of any type, so that the chain theorems hold for every
aspect; a `ProceedingJoinPoint`, a one-shot closure, is a datatype with an interpreter. The printers in
`PointcutParser` and `DriverParser` have no counterpart in the repository: they are the inverses the parsers are
measured against.

Time is a non-decreasing sequence of clock readings, and token counts are `real`. Text is ASCII.

## Where the code and its documentation differ

The model follows the code.

* `aspect-core/src/pointcut/parser.rs:34` calls `!` the operator of highest precedence. An unbracketed `!` at the
  start of a text negates all the text that follows (`PointcutRoundTrip.NotTakesTheRest`); behind `&&` it ends at the
  next `||` (`Precedence.NotInside`). A text is read as documented exactly when every `!` has no operator behind it
  within its brackets, or stands behind `&&` and is followed by `||` (`Precedence.ParsedAsDocumentedIff`).
* The two parsers give `&&` and `||` opposite precedence (`ParserAgreement.ParsersDisagreeOnPrecedence`). They read a
  text alike exactly when no pair of brackets in it, and not the text itself, shows both operators
  (`ParserAgreement.ParsersAgreeIff`).
* `pub` in an execution pattern means exactly `pub` to the runtime's matcher and any visibility but private to the
  driver's (`VerdictConditions.PublicAgreesIff`). In `pub(crate) fn ..` and `pub(super) fn ..` the driver takes the
  visibility for the name and selects nothing (`VerdictAgreement.RestrictedSelectsNothing`). A leading star is a
  wildcard to the runtime's matcher and a literal star to the driver's
  (`VerdictConditions.LeadingStarSelectsNothing`).
* The pattern `**` reads as the suffix pattern `*`, and stars inside a pattern are literal: a pattern text has its
  glob meaning exactly under the condition in `Globs.GlobRefinement`.
* `aspect-driver/src/types.rs:68-70` speaks of matching the simple name. A prefix pattern also matches names in
  which some module segment after the first has the prefix (`DriverNames.PrefixPatternIffSegmentStarts`), and a
  fully qualified pattern does not match the function it names (`DriverNames.QualifiedPatternMissesItself`).
* In the driver's execution patterns a name counts only with a star at its end or a parameter list behind it: `fn NAME`
  selects every function (`DriverExecution.BareNameIsIgnored`).
* `half_open_max_requests` is documented as the number of requests allowed while half open. While half open every
  request is allowed (`CircuitBreakerRuns.HalfOpenAdmitsEveryone`); the number is how many successes close the
  circuit. It bounds the executed bodies if and only if calls do not overlap
  (`CircuitBreakerOverlap.DocumentedLimitIffSequential`): each caller that may overlap adds one, and some traffic
  makes use of it (`CircuitBreakerOverlap.HalfOpenUnderOverlap`, `CircuitBreakerOverlap.HalfOpenBoundIsReached`).
* A page of the book makes a higher `order` the outer one. In the code a lower `order` is further out.
* In a stack of `#[aspect(..)]` attributes only the outermost aspect sees the function's own name; the others see
  generated names (`WovenStacks.WovenLog`). Sync wrappers reformat an error once per attribute, async
  wrappers return it as it is (`WovenStacks.SyncAndAsyncAgree`).

## Model

| member | source | states |
|---|---|---|
| RateLimit.RateLimitAspect.constructor | aspect-std/src/ratelimit.rs:62-75 | a new limiter is global, its bucket is full at the given instant, and it refills by the maximum per window |
| RateLimit.RateLimitAspect.PerFunction | aspect-std/src/ratelimit.rs:80-83 | turns per-function buckets on and changes nothing else |
| RateLimit.RateLimitAspect.TryAcquire | aspect-std/src/ratelimit.rs:86-132 | the whole state and the answer after one call are those of the limiter's step function, in both modes; without a name the per-function mode denies and changes nothing |
| RateLimit.RateLimitAspect.AvailableTokens | aspect-std/src/ratelimit.rs:135-142 | refills the global bucket and touches no per-function bucket; what it reports is in `RateLimitReports` |
| RateLimit.RateLimitAspect.Around | aspect-std/src/ratelimit.rs:146-157 | the call proceeds, and its answer is handed back, exactly when a token was spent; otherwise the error names the function |
| RateLimitRuns.AdmissionIsExact | aspect-std/src/ratelimit.rs:119-131 | over any run on a non-decreasing clock, a call is admitted if and only if every window that it closes has room for one more within burst plus earned tokens |
| RateLimitRuns.TokensAreTightestWindow | aspect-std/src/ratelimit.rs:119-142 | after any run the bucket holds exactly the least amount left over by any window that ends now, and never less than zero |
| RateLimitRuns.WindowBound | aspect-std/src/ratelimit.rs:62-131 | in no window of any run are more calls admitted than the burst plus what the rate earns in it |
| RateLimitRuns.GreedyIsMaximal | aspect-std/src/ratelimit.rs:119-131 | at no prefix of any run has a policy with an identical bucket that may decline requests admitted more than the limiter |
| RateLimitRuns.NoSpendingIsInvisible | aspect-std/src/ratelimit.rs:105-142 | a token query or a denied call leaves every bucket worth the same at every later instant |
| RateLimitIsolation.PerFunctionIsolation | aspect-std/src/ratelimit.rs:90-131 | in any interleaved run the decisions for a function are those of a private limiter, created at any earlier time, that sees only its calls |
| RateLimitIsolation.ObserversAreInvisible | aspect-std/src/ratelimit.rs:85-142 | deleting any token queries and denied calls from a run changes no other decision and no other reported amount, then or later |
| RateLimitReports.ReportsTightestWindow | aspect-std/src/ratelimit.rs:135-142 | at any point of any run of calls and queries on a fresh global limiter a query reports the smaller of the maximum and the least that any window of earlier calls has left: burst plus earned tokens minus admitted calls |
| RateLimitReports.ReportDecides | aspect-std/src/ratelimit.rs:119-142 | a global call at the instant of a query is admitted if and only if at least one token was reported, and the next report there is one less |
| RateLimitReports.PerFunctionReportsFull | aspect-std/src/ratelimit.rs:90-142 | in the per-function mode a query always reports the maximum |
| CircuitBreaker.CircuitBreakerAspect.constructor | aspect-std/src/circuitbreaker.rs:74-85 | a new breaker is closed with both counters at zero and closes again after one success |
| CircuitBreaker.CircuitBreakerAspect.WithHalfOpenRequests | aspect-std/src/circuitbreaker.rs:88-91 | sets the number of closing successes and nothing else |
| CircuitBreaker.CircuitBreakerAspect.Reset | aspect-std/src/circuitbreaker.rs:99-104 | closed, counters at zero, limits kept |
| CircuitBreaker.CircuitBreakerAspect.RecordSuccess | aspect-std/src/circuitbreaker.rs:107-130 | the whole new state in each of the three circuit states |
| CircuitBreaker.CircuitBreakerAspect.RecordFailure | aspect-std/src/circuitbreaker.rs:133-157 | the whole new state in each of the three circuit states, with the deadline of a new open episode |
| CircuitBreaker.CircuitBreakerAspect.ShouldAllowRequest | aspect-std/src/circuitbreaker.rs:160-179 | the whole new state and the answer; only an open circuit before its deadline refuses |
| CircuitBreaker.CircuitBreakerAspect.Around | aspect-std/src/circuitbreaker.rs:183-198 | admission, the call, and recording its outcome; the call's own answer is returned, or the fail-fast error if it was not made |
| CircuitBreakerRuns.SafeUnderEveryInterleaving | aspect-std/src/circuitbreaker.rs:99-179 | after any interleaving of admissions, successes, failures and resets: closed is below the failure threshold, half-open below the closing successes, successes are counted only while half open |
| CircuitBreakerRuns.OpenUntilWoken | aspect-std/src/circuitbreaker.rs:99-179 | while open, the deadline does not move and every admission check before it is refused, whatever else happens |
| CircuitBreakerRuns.WakingEndsOpen | aspect-std/src/circuitbreaker.rs:99-179 | open ends exactly by a reset or by a check at or after the deadline, which is admitted and half-opens |
| CircuitBreakerRuns.FailureCountIsTrailingRun | aspect-std/src/circuitbreaker.rs:107-157 | while closed, the failure counter is the length of the run of failures recorded last since closed was entered or reset |
| CircuitBreakerRuns.OpensExactlyOnConsecutiveFailures | aspect-std/src/circuitbreaker.rs:144-152 | closed gives way to open exactly on the failure that completes max(threshold, 1) in a row |
| CircuitBreakerRuns.HalfOpenAdmitsEveryone | aspect-std/src/circuitbreaker.rs:163-165 | while half open and nothing is recorded, any number of checks is admitted |
| CircuitBreakerRuns.EachRetryWaits | aspect-std/src/circuitbreaker.rs:133-198 | in a sequential run of failing bodies every execution past the first max(threshold, 1) has cost a full timeout |
| CircuitBreakerRuns.BoundedLoadOnDeadDependency | aspect-std/src/circuitbreaker.rs:133-198 | such a run executes at most max(threshold, 1) + floor(elapsed / timeout) bodies |
| CircuitBreakerRuns.BoundIsReached | aspect-std/src/circuitbreaker.rs:133-198 | for every threshold and every number of timeouts some run reaches that bound |
| CircuitBreakerRuns.HalfOpenEpisode | aspect-std/src/circuitbreaker.rs:107-198 | a half-open episode of a sequential run executes at most max(half_open_max, 1) bodies, and closes if and only if that many succeed in a row |
| CircuitBreakerOverlap.BoundedLoadUnderOverlap | aspect-std/src/circuitbreaker.rs:99-179 | with at most k callers in flight, under every interleaving, a dead dependency gets at most max(threshold, 1) - 1 + k * (1 + floor(elapsed / timeout)) bodies |
| CircuitBreakerOverlap.OverlapBoundIsReached | aspect-std/src/circuitbreaker.rs:99-179 | for every threshold, every k and every number of timeouts some interleaving reaches that bound |
| CircuitBreakerOverlap.HalfOpenUnderOverlap | aspect-std/src/circuitbreaker.rs:107-179 | with at most k callers in flight a half-open episode executes at most max(half_open_max, 1) - 1 + k bodies, less those already in flight |
| CircuitBreakerOverlap.HalfOpenBoundIsReached | aspect-std/src/circuitbreaker.rs:107-179 | from every waking of an open breaker, with any callers still in flight, some traffic of at most k callers reaches that bound |
| CircuitBreakerOverlap.AdmissionKeepsLimitIff | aspect-std/src/circuitbreaker.rs:107-179 | one more admission keeps the episode within the documented limit if and only if successes plus callers in flight, less those from before, are below it |
| CircuitBreakerOverlap.DocumentedLimitIffSequential | aspect-std/src/circuitbreaker.rs:87-91 | for a fresh breaker with any limits: no half-open episode of any traffic of at most k callers executes more than max(half_open_max, 1) bodies, if and only if k is at most 1 |
| Brackets.FindOperator | aspect-core/src/pointcut/parser.rs:96-117 | the scan finds the first position at bracket depth zero at which the operator stands, or none if there is none |
| Brackets.StripOuterParens | aspect-core/src/pointcut/parser.rs:65-92 | the inside of the outer brackets exactly when it is balanced, that is when these brackets close each other |
| PointcutLeaves.NameTextRoundTrip | aspect-core/src/pointcut/parser.rs:183-195 | for every string, printing the name pattern parsed from it gives the string back |
| PointcutLeaves.LeafParses | aspect-core/src/pointcut/parser.rs:119-180 | every basic pointcut of the image, printed, parses back to itself |
| PointcutLeafImage.LeafImage | aspect-core/src/pointcut/parser.rs:119-195 | every basic pointcut the parser returns is one of those, and printing it keeps depth and balance of the text it came from |
| PointcutLeaves.UnclosedRefused | aspect-core/src/pointcut/parser.rs:119-123 | an `execution(..)` or `within(..)` that is not closed is refused, by keyword |
| PointcutLeaves.NoKeywordRefused | aspect-core/src/pointcut/parser.rs:119-137 | an execution pattern whose body starts with neither a visibility nor `fn` is refused for the missing keyword |
| PointcutLeaves.NoSignatureRefused | aspect-core/src/pointcut/parser.rs:119-150 | an execution pattern without a parameter list is refused for that, behind any visibility |
| PointcutRoundTrip.BlanksAreIgnored | aspect-core/src/pointcut/parser.rs:23-24 | any of the six blanks before and behind a text changes nothing |
| PointcutRoundTrip.BracketsAreTransparent | aspect-core/src/pointcut/parser.rs:26-32 | a pair of brackets around a balanced text does not change what is read, errors included |
| PointcutRoundTrip.OrParses | aspect-core/src/pointcut/parser.rs:40-45 | two texts with the outer shape of printed ones (they end in a closing bracket, the left one has depth zero, no leading `!` and shows no or-operator), joined by the or-operator, read as the disjunction of the two readings, the first error winning |
| PointcutRoundTrip.AndParses | aspect-core/src/pointcut/parser.rs:47-52 | the same for the and-operator and conjunction, when besides neither text shows an or-operator |
| PointcutRoundTrip.InImage | aspect-core/src/pointcut/parser.rs:23-195 | every tree the parser returns, for any text, is printable |
| PointcutRoundTrip.RoundTrip | aspect-core/src/pointcut/parser.rs:23-195 | every printable tree, printed with minimal brackets, parses back to itself |
| FewestBrackets.PrintedHasFewestBrackets | aspect-core/src/pointcut/parser.rs:23-195 | of all texts that read as a tree none has fewer brackets than the printed one |
| FewestBrackets.EveryPairIsNeeded | aspect-core/src/pointcut/parser.rs:23-195 | so a printed text without any one pair of its brackets, at whatever depth, no longer reads as the tree |
| PointcutMinimality.LeftOfOrNeedsBrackets | aspect-core/src/pointcut/parser.rs:34-45 | without the brackets around a disjunction or negation on the left of the or-operator the text does not read as the tree |
| PointcutMinimality.LeftOfAndNeedsBrackets | aspect-core/src/pointcut/parser.rs:34-52 | nor without those around anything but a basic pointcut on the left of the and-operator |
| PointcutMinimality.RightOfAndNeedsBrackets | aspect-core/src/pointcut/parser.rs:40-52 | nor without those that hide an or-operator on the right of the and-operator; and where none would show, none are printed |
| PointcutRoundTrip.ParsePrintParse | aspect-core/src/pointcut/parser.rs:23-195 | for every text the parser accepts: parse, print, parse gives the first tree again |
| PointcutRoundTrip.ImageIsPrintable | aspect-core/src/pointcut/parser.rs:23-195 | a tree is the reading of some text if and only if it is printable |
| PointcutRoundTrip.AndBindsTighter | aspect-core/src/pointcut/parser.rs:40-52 | in a mixed chain of three the and-operator binds tighter, on either side of the or-operator |
| PointcutRoundTrip.ChainsNestRight | aspect-core/src/pointcut/parser.rs:40-52 | chains of one operator nest to the right |
| PointcutRoundTrip.NotTakesTheRest | aspect-core/src/pointcut/parser.rs:34-38 | for every text, `!` in front of it reads as the negation of all of it |
| Precedence.NotInside | aspect-core/src/pointcut/parser.rs:34-52 | but in `a and !b or c`, for any operands, it negates b alone |
| Precedence.ParsedAsDocumentedIff | aspect-core/src/pointcut/parser.rs:34-52 | for every text of basic pointcuts, `!`, both operators and brackets: the parser returns what the documented precedence says (`!` tightest, then and, then or; the first error otherwise) if and only if it rejects the text or every `!` has no operator behind it in its brackets, or stands behind and and is followed by or |
| PointcutRoundTrip.NamedParses | aspect-core/src/pointcut/ast.rs:56-94 | the named pointcut of every visibility the parser knows is what its text parses to, the two documented texts among them |
| Pointcuts.VisibilitiesPartition | aspect-core/src/pointcut/pattern.rs:18-26 | each of the four spellings of a visibility is matched by exactly one visibility, and no other text by any |
| Pointcuts.ReturnTypeNarrows | aspect-core/src/pointcut/matcher.rs:76-82 | a return type in a pattern narrows it to the functions whose return type contains it |
| Globs.LiteralPatternIsGlob | aspect-core/src/pointcut/pattern.rs:46-54 | a parsed pattern without literal stars matches exactly the names its text matches as a glob |
| Globs.GlobRefinement | aspect-core/src/pointcut/parser.rs:183-195 | a pattern text agrees with its glob on every name if and only if its stars stand at its ends and it is not `**` |
| ModulePaths.MatchesIffSegmentPrefix | aspect-core/src/pointcut/pattern.rs:124-126 | on paths of non-empty colon-free segments, matching holds if and only if the pattern's segments are a prefix of the module's |
| ModulePaths.MatchingIsPartialOrder | aspect-core/src/pointcut/pattern.rs:124-126 | matching is reflexive, antisymmetric and transitive |
| DriverRoundTrip.AndParses | aspect-driver/src/match.rs:193-198 | in the driver's language two texts with the outer shape of printed ones (the left one of depth zero, without a leading `!` and showing no and-operator), joined by the and-operator between spaces, read as the conjunction of the two readings |
| DriverRoundTrip.OrParses | aspect-driver/src/match.rs:200-204 | the same for the or-operator and disjunction, when besides neither text shows an and-operator |
| DriverRoundTrip.BracketsParse | aspect-driver/src/match.rs:206-209 | brackets are looked through, once no operator shows around them |
| DriverRoundTrip.LeafParses | aspect-driver/src/match.rs:211-262 | a basic pointcut with an unquoted pattern, printed, parses back to itself |
| DriverRoundTrip.LeafImage | aspect-driver/src/match.rs:248-262 | the pattern of every accepted basic pointcut is unquoted, and its print shows operators at no depth at which its text showed none |
| DriverRoundTrip.EmptyPatternRefused | aspect-driver/src/match.rs:248-262 | any of the three leaves with nothing between its brackets is refused |
| DriverRoundTrip.UnclosedRefused | aspect-driver/src/match.rs:248-262 | so is one that is never closed |
| DriverRoundTrip.BlanksAreIgnored | aspect-driver/src/match.rs:184-185 | any of the six blanks before and behind a text changes nothing |
| DriverRoundTrip.InImage | aspect-driver/src/match.rs:184-262 | every tree the driver's parser returns, for any text, is printable |
| DriverRoundTrip.RoundTrip | aspect-driver/src/match.rs:184-262 | every printable tree, printed with the roles of the two operators exchanged, parses back to itself |
| DriverFewestBrackets.PrintedHasFewestBrackets | aspect-driver/src/match.rs:184-262 | of all texts the driver reads as a tree none has fewer brackets than the printed one |
| DriverFewestBrackets.EveryPairIsNeeded | aspect-driver/src/match.rs:184-262 | so a text printed for the driver, without any one pair of its brackets, no longer reads as the tree |
| DriverRoundTrip.ParsePrintParse | aspect-driver/src/match.rs:184-262 | for every text the driver accepts: parse, print, parse gives the first tree again |
| DriverRoundTrip.ImageIsPrintable | aspect-driver/src/match.rs:184-262 | a tree is the driver's reading of some text if and only if it is printable |
| BracketLevels.CoreReads | aspect-core/src/pointcut/parser.rs:23-62 | every text of basic pointcuts, `!`, both operators between blanks, and brackets, reads in the core as its token structure says: a leading `!` takes its brackets, then the first or splits, then the first and; errors included |
| BracketLevels.DriverReads | aspect-driver/src/match.rs:184-224 | the same for the driver, where the first and splits before the first or |
| ParserAgreement.ParsersAgreeIff | aspect-driver/src/match.rs:184-224 | on every such text that both parsers accept they return the same boolean tree, with leaves read from the same texts, if and only if no brackets of it show both operators |
| ParserAgreement.ParsersReadFormula | aspect-core/src/pointcut/parser.rs:23-62 | a text without such mixing reads in both parsers as the formula it writes, or as that formula's first error |
| ParserAgreement.FullTextReads | aspect-driver/src/match.rs:184-224 | every formula has such a text, for example with brackets around every operand |
| ParserAgreement.ParsersAgreeOnBracketedText | aspect-driver/src/match.rs:184-262 | in particular on that text, if both parsers accept it, they return the same boolean tree |
| ParserAgreement.ParsersDisagreeOnPrecedence | aspect-driver/src/match.rs:193-204 | on `a or b and c`, for any three operands, the core returns a disjunction and the driver a conjunction |
| VerdictAgreement.VerdictsOnText | aspect-core/src/pointcut/matcher.rs:50-92 | from any unmixed text of a query over modules, `[pub..] fn PATTERN(..)` and `name(..)`: the driver accepts it, the runtime if and only if no `name(..)` is in it, and what each language then selects |
| VerdictAgreement.Verdicts | aspect-core/src/pointcut/matcher.rs:50-92 | the same from the text with all brackets |
| VerdictAgreement.NamedExactIff | aspect-driver/src/match.rs:138-140 | the pointcut `name(..)` of quoted segments selects a function if and only if they are the last ones of its qualified name, and either not all of them or a single one |
| VerdictAgreement.NamedPrefixIff | aspect-driver/src/match.rs:138-140 | `name(..)` of quoted segments with a star at the end does if and only if the qualified name goes on like them behind its first segment, or they are one and the last segment starts with it |
| VerdictAgreement.RestrictedSelectsNothing | aspect-driver/src/match.rs:109-127 | `pub(crate) fn PATTERN(..)` and `pub(super) fn PATTERN(..)` select nothing in the driver, which takes the visibility for the name |
| VerdictConditions.LeafAgreesIff | aspect-core/src/pointcut/matcher.rs:62-92 | for every visibility and pattern: the exact condition, on the pattern, the name and the visibility, for one verdict in both languages |
| VerdictConditions.NamesAgreeIff | aspect-driver/src/types.rs:71-85 | the exact condition for a name pattern alone, for all five kinds of pattern |
| VerdictConditions.NamedFunctionAgrees | aspect-driver/src/types.rs:82-84 | `fn NAME(..)`, for a name without stars and separators, always gives one verdict |
| VerdictConditions.PrefixFunctionAgreesIff | aspect-driver/src/types.rs:79-81 | `fn p*(..)` does if and only if the name starts with p or no segment strictly between first and last does (p without separators) |
| VerdictConditions.SuffixFunctionAgreesIff | aspect-driver/src/types.rs:82-84 | `fn *p(..)` does if and only if the name does not end with p |
| VerdictConditions.LeadingStarSelectsNothing | aspect-driver/src/types.rs:71-85 | a pattern that starts with a star, other than `*`, matches no star-free name in the driver |
| VerdictConditions.PublicAgreesIff | aspect-driver/src/types.rs:93-98 | `pub fn NAME(..)` gives one verdict if and only if the function has another name, or is fully public or private |
| VerdictConditions.PublicStarAgreesIff | aspect-driver/src/types.rs:93-98 | `pub fn *(..)` gives one verdict if and only if the function is fully public or private |
| VerdictConditions.PublicPrefixAgreesIff | aspect-driver/src/types.rs:79-98 | `pub fn p*(..)` does if and only if the function is private, or its name starts with p and it is fully public, or its name does not and no segment strictly between first and last does (p without separators) |
| VerdictConditions.TheyDiffer | aspect-driver/src/match.rs:107-130 | one crate-visible function on which `pub(crate) fn`, `pub fn` and a prefix pattern each give two verdicts |
| VerdictConditions.SameVerdict | aspect-driver/src/match.rs:91-104 | every query without `name(..)`, over leaves that agree, gives one verdict, from every unmixed text that writes it |
| VerdictConditions.SameOnAllQueries | aspect-driver/src/match.rs:91-104 | all unmixed texts of all queries over a set of leaves give one verdict if and only if each of these leaves does |
| VerdictConditions.MixedTextAgreesIff | aspect-driver/src/match.rs:193-204 | on the mixed text `a or b and c`, over leaves that agree, the verdicts are still two exactly on the functions that a selects and c does not |
| VerdictConditions.PublicMeansMoreToTheDriver | aspect-driver/src/types.rs:93-98 | on a function that is neither `pub` nor private, `pub fn PATTERN(..)` fails in the core and holds in the driver whenever the name matches |
| DriverMatch.InModuleIsMatchesPath | aspect-driver/src/types.rs:88-90 | the driver's module test is the segment-prefix relation too |
| DriverMatch.PointcutMatcher.Register | aspect-driver/src/match.rs:51-53 | appends the registration |
| DriverMatch.PointcutMatcher.MatchFunction | aspect-driver/src/match.rs:58-79 | one entry for each registration whose pointcut matches the function, with that registration's name and pointcut, and no other; larger priorities of the aspect's name first, ties as registered |
| DriverMatch.GetPriority | aspect-driver/src/match.rs:144-150 | the priority of the first registration of the name, or 0 |
| DriverMatch.MatchAll | aspect-driver/src/match.rs:292-312 | the result maps a name to the answer of the last function of that name that has one, and has no other entry |
| DriverMatch.AnsweredIffMatched | aspect-driver/src/match.rs:58-88 | a function has an answer if and only if some registered pointcut parses and matches it |
| DriverMatch.UniqueNamesSortByOwnPriority | aspect-driver/src/match.rs:71-79 | with unique aspect names the answer is sorted by each registration's own priority, although the code looks priorities up by name |
| DriverMatch.DistinctNamesAnswered | aspect-driver/src/match.rs:292-312 | for functions with distinct names, a name is a key if and only if some aspect matches its function, and its value is that function's answer |
| DriverNames.SimpleNameIsLastSegment | aspect-driver/src/types.rs:76-77 | the simple name of a qualified name is its last segment |
| DriverNames.ExactPatternIffSuffix | aspect-driver/src/types.rs:82-84 | a pattern without final star matches if and only if its segments are the last ones of the name, and either not all of them or a single one |
| DriverNames.QualifiedPatternMissesItself | aspect-driver/src/types.rs:71-85 | a name matches itself as a pattern if and only if it has one segment |
| DriverNames.PrefixPatternIffSegmentsStart | aspect-driver/src/types.rs:79-81 | a prefix pattern of any number of segments (`p*`, `a::p*`) matches if and only if the name goes on like it somewhere after its first segment, or it is one segment and the last segment starts with it |
| DriverNames.PrefixPatternIffSegmentStarts | aspect-driver/src/types.rs:79-81 | in particular `p*`, for p without a colon, matches if and only if the last segment or any segment but the first starts with p |
| DriverExecution.WordsOfSpaced | aspect-driver/src/match.rs:109 | any number of words, with any white space between and around them, are split into just these words |
| DriverExecution.FunctionPattern | aspect-driver/src/match.rs:107-130 | `fn NAME(..)` selects a function if and only if its name matches |
| DriverExecution.PublicFunctionPattern | aspect-driver/src/match.rs:107-130 | `pub fn NAME(..)` selects it if and only if, besides, it is not private |
| DriverExecution.BracketedWordIsTheName | aspect-driver/src/match.rs:121-127 | a word with a bracket in front of `fn` is matched as the name, and the name behind is not looked at |
| DriverExecution.NoKeywordNoMatch | aspect-driver/src/match.rs:116-119 | words of which none is `fn`, however many and however spaced, select nothing |
| DriverExecution.StarredWordIsTheName | aspect-driver/src/match.rs:121-127 | `fn p*`, without a parameter list, selects by the starred name |
| DriverExecution.BareNameIsIgnored | aspect-driver/src/match.rs:121-130 | `fn NAME`, without star and parameter list, selects every function |
| DriverExecution.AllSignaturesTrimmed | aspect-driver/src/match.rs:123 | any number of parameter lists is dropped from the name |
| AroundChain.JoinedMeans | aspect-core/src/joinpoint.rs:136-166 | running nested one-shot joinpoints is the recursive meaning of the chain; only the innermost aspect is given the caller's context |
| AroundChain.ChainRunsInwardThenOutward | aspect-core/src/joinpoint.rs:136-161 | every chain enters from the outside in, runs the body if nobody cut it short, and leaves from the inside out |
| AroundChain.NothingRunsInsideACut | aspect-core/src/joinpoint.rs:148-151 | what stands inside an aspect that does not proceed, body included, can be replaced without any difference |
| ChainTraces.TraceIsNested | aspect-core/src/aspect.rs:22-36 | the exact event trace of a chain of default, pass-through and short-circuiting aspects, and its outcome |
| ChainTraces.BodyRunsOnceIffNobodyCuts | aspect-core/src/aspect.rs:22-36 | the body runs at most once, and exactly once if and only if no aspect short-circuits |
| ChainTraces.ClosingsMirrorBefores | aspect-core/src/aspect.rs:22-36 | the closing hooks mirror the `before` hooks, aspect for aspect and context for context |
| StableSort.StableSortIsUnique | aspect-runtime/src/registry.rs:71-72 | a stable sort of the same input has only one possible result |
| Registry.AspectRegistry.Register | aspect-runtime/src/registry.rs:56-73 | the vector stays the stable sort by `order` of the whole registration history |
| Registry.AspectRegistry.FindMatching | aspect-runtime/src/registry.rs:78-85 | every registration whose pointcut matches the function, as often as it was registered, and no other; lowest `order` first, ties as registered |
| Registry.AspectRegistry.ApplyAspects | aspect-runtime/src/registry.rs:90-116 | the loop from the last aspect to the first runs the chain of just the aspects whose pointcut matches, a lower `order` further out; all but the innermost see the function's name and module, and no location or arguments |
| Registry.AspectRegistry.Count | aspect-runtime/src/registry.rs:119-121 | the number of registrations since the last clear |
| Registry.AspectRegistry.Clear | aspect-runtime/src/registry.rs:124-126 | empties the registry |
| Registry.RegistrationSortsHistory | aspect-runtime/src/registry.rs:56-73 | sorting at every registration ends where sorting the history once does; nothing is lost or duplicated, ties keep their order |
| Registry.MatchingIsSortedMatches | aspect-runtime/src/registry.rs:78-85 | filtering the sorted vector is sorting the filtered history |
| Metrics.MetricsAspect.GetCount | aspect-std/src/metrics.rs:44-50 | the count of a function, zero if it was never called |
| Metrics.MetricsAspect.GetHistogram | aspect-std/src/metrics.rs:53-59 | the durations of a function, none if it was never called |
| Metrics.MetricsAspect.Clear | aspect-std/src/metrics.rs:86-89 | empties counters and histograms |
| Metrics.MetricsAspect.Around | aspect-std/src/metrics.rs:99-121 | the count of this function is one more and its histogram the old one with the elapsed time at its end, both of every other function are unchanged, whatever the call returns |
| Metrics.EachFunctionIsMeasured | aspect-std/src/metrics.rs:44-121 | over any calls of any functions the count of each is the number of its calls, and its histogram their durations in order |
| AspectStack.CallHasItsEffect | aspect-runtime/src/registry.rs:90-116 | what one call through limiter, breaker and metrics does to each of them, and what the caller gets, by where it ended |
| AspectStack.StackConserves | aspect-std/src/metrics.rs:99-121 | over any calls: all = limited + failed fast + executed; bodies run = count = histogram length = executed |
| AspectStack.DeniedCallsAreInvisibleToBreaker | aspect-std/src/circuitbreaker.rs:183-198 | breaker and body fare as in a run in which the calls denied by the limiter were never made |
| AspectStack.DecidedByOneBucket | aspect-std/src/ratelimit.rs:146-157 | in either mode the limiter passes exactly the calls that one private bucket would admit |
| AspectStack.ExecutedObeyTheRate | aspect-std/src/ratelimit.rs:146-157 | in every window of any run the executed calls stay within the limiter's burst plus rate |
| AspectStack.RegistryBuildsTheStack | aspect-runtime/src/registry.rs:56-116 | registered under the orders 1, 2, 3 in any sequence and among registrations whose pointcuts do not match, the three form the chain limiter, breaker, metrics |
| WovenStacks.NamesAreDistinct | aspect-macros/src/codegen.rs:48-53 | the names generated for a stack of attributes are pairwise distinct |
| WovenStacks.ExpansionDefinesNames | aspect-macros/src/codegen.rs:100-106 | an expansion defines exactly those names: one per attribute, and one for the body as written |
| WovenStacks.UsageIsValidIff | aspect-macros/src/aspect_attr.rs:34-64 | an attribute passes the usage check if and only if async aspects stand on async functions, and on these an overridden `around` belongs to an async aspect and the return type is not `impl Trait`; the complaint names what is missing |
| WovenStacks.ExpandsIffAllValid | aspect-macros/src/aspect_attr.rs:34-64 | a stack expands if and only if every attribute may stand on the function, and is otherwise refused for the outermost that may not |
| WovenStacks.AcceptedWrapper | aspect-macros/src/codegen.rs:416-600 | an accepted attribute never emits a compile error and never drops an overridden `around` |
| WovenStacks.ExpansionMeansLayers | aspect-macros/src/codegen.rs:36-600 | calling the woven function, through all generated names, is running the layers one inside the other, for default and overridden `around`, sync and async, `Result` and plain |
| WovenStacks.OverriddenAround | aspect-macros/src/codegen.rs:110-298 | one attribute with an overridden `around`: without a call of the body the caller gets the aspect's own outcome, else what the aspect makes of the body's answer; errors come back as the error type, or as a panic with its text |
| WovenStacks.ResultByLastName | aspect-macros/src/codegen.rs:300-307 | a return type counts as `Result` by the last name of its path alone |
| WovenStacks.PanicPasses | aspect-macros/src/codegen.rs:110-298 | a panic from inside passes a layer and no closing hook is called |
| WovenStacks.DefaultLayer | aspect-core/src/aspect.rs:23-36 | a sync layer with the default `around` and an async layer of hooks have the same effect, and only the sync one reformats the error |
| WovenStacks.WovenDefaultStack | aspect-macros/src/codegen.rs:36-298 | n default-around attributes: hooks nested, value unchanged, errors reformatted n times (sync) or not at all (async) |
| WovenStacks.SyncAndAsyncAgree | aspect-macros/src/codegen.rs:110-298 | the same stack on a function and on its async twin: the same value and effects; errors unchanged or reformatted; effects still equal if no aspect looks into the error |
| WovenStacks.LogsAgreeIff | aspect-macros/src/codegen.rs:110-298 | the event logs of a stack on a function and on its async twin agree if and only if the body succeeds, or the error reads the same after each number of reformattings |
| WovenStacks.WovenEvents | aspect-macros/src/codegen.rs:110-298 | the exact event sequence of a woven stack, with the body run once |
| WovenStacks.WovenLog | aspect-macros/src/codegen.rs:110-298 | in the log of a run layer k enters k-th and leaves k-th last, in one context: its generated name, the function's module, file and arguments, the attribute's own line; it sees a failure reformatted once per sync layer inside it, and only the outermost aspect sees the function's own name |
| WovenStacks.NamesBuildUp | aspect-macros/src/codegen.rs:48-53 | each attribute puts its prefix, by sync or async aspect, in front of the name it finds |

## Left out

- RateLimit.RateLimitAspect.constructor: requires a positive window; the code divides by a zero window and gets an infinite or undefined rate.
- Floating-point rounding: token counts are `real`.
- The widths of counters (`u64`, `usize`, `i32`) and overflow of `Duration` and `Instant` arithmetic.
- Text beyond ASCII: both parsers use character positions as byte offsets, which agree on ASCII only.
- Thread scheduling below the granularity of a lock, lock poisoning, `Box::leak`, and panics inside bodies.
- Changing `per_function` or `with_half_open_requests` on a clone during a run: the runs keep the configuration they start with.
- Brackets.FindOperator: stands for the identical loops of both parsers (`aspect-driver/src/match.rs:227-246` is the second one).
- AspectStack.StackConserves: says nothing about runs with a `clear` or `reset` in them.
- AspectStack.CallHasItsEffect: hooks take no time on the model's clock; only the body moves it on.
- VerdictConditions.LeafAgreesIff: is about names without stars and brackets, as Rust's are, and about patterns of one word without brackets.
- Boxed values are opaque: a failing downcast after a wrongly typed `around` is not modelled.
- In woven code: argument patterns and their capture (`collect_pat_idents`), generics, visibility, and interleaving of futures. A future runs to its end where it is awaited, and the arguments are the same in every context of a layer.
- Whether an aspect's type overrides `around` or implements `AsyncAspect` is an input; the scan of the source tree that guesses it (`aspect-macros/src/aspect_attr.rs:66-280`) and `advice_macro.rs` are not part of this model.
- `aspect-driver`: `extract.rs`, `generate.rs`, `mir_analyzer.rs`, `compiler.rs` and the placeholder `load_from_registry`; `aspect-rustc-driver`; `cargo-aspect`: compiler internals, templates with elided parts, command line.
- `logging.rs`, `caching.rs`, `authorization.rs`, `validation.rs`, `timing.rs` of `aspect-std`, and `MetricsAspect::print`: they would add only easy members.
- Benchmarks, examples and prose.
