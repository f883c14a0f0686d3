/** From one text to two verdicts: which functions a query selects in the runtime, and which in the driver. */
module VerdictAgreement {
  import opened Common
  import opened Strings
  import opened Brackets
  import opened BracketLevels
  import opened ParserAgreement
  import opened ModulePaths
  import P = Pointcuts
  import Core = PointcutParser
  import LeafImage = PointcutLeafImage
  import Leaves = PointcutLeaves
  import Driver = DriverParser
  import DriverText = DriverRoundTrip
  import DriverMatch
  import DriverExecution
  import DriverNames

  // ------------------------------------------------------------------ queries, their text, their verdicts

  /** A query: modules, functions by visibility and name pattern, `name("..")`, which only the driver knows, and their combinations. */
  datatype Query =
    | InModule(path: string)
    | Function(visibility: Option<P.Visibility>, pattern: string)
    | Named(pattern: string)
    | Both(left: Query, right: Query)
    | Either(left: Query, right: Query)
    | Except(inner: Query)
  {
    predicate IsLeaf() { InModule? || Function? || Named? }

    /** Both languages know all of it. */
    predicate Shared() {
      match this
      case Named(_) => false
      case Both(l, r) => l.Shared() && r.Shared()
      case Either(l, r) => l.Shared() && r.Shared()
      case Except(x) => x.Shared()
      case _ => true
    }
  }

  /** No white space, quotes or unbalanced brackets where the languages treat them differently. */
  predicate WellPosed(q: Query) {
    match q
    case InModule(path) => |path| > 0 && Balanced(path) && Trimmed(path) && Unquoted(path)
    case Function(v, p) => v != Some(P.Private) && DriverExecution.PlainName(p) && ')' !in p
    case Named(p) => Balanced(p) && Unquoted(p)
    case Both(l, r) => WellPosed(l) && WellPosed(r)
    case Either(l, r) => WellPosed(l) && WellPosed(r)
    case Except(x) => WellPosed(x)
  }

  /** `fn PATTERN(..)`, behind the visibility. */
  function BodyText(v: Option<P.Visibility>, pattern: string): string {
    Core.VisibilityText(v) + ("fn " + (pattern + "(..)"))
  }

  function AsFormula(q: Query): Formula {
    match q
    case InModule(path) => Atom(Within, path)
    case Function(v, p) => Atom(Execution, BodyText(v, p))
    case Named(p) => Atom(Name, "\"" + p + "\"")
    case Both(l, r) => Formula.And(AsFormula(l), AsFormula(r))
    case Either(l, r) => Formula.Or(AsFormula(l), AsFormula(r))
    case Except(x) => Formula.Not(AsFormula(x))
  }

  /** The text keeps `&&` and `||` apart, with whatever brackets, and its formula is the query's. */
  predicate Writes(l: Level, q: Query) { Unmixed(l) && FormulaOf(l) == AsFormula(q) }

  /** One such text: brackets around every operand. */
  function TextOf(q: Query): string { FullText(AsFormula(q)) }

  /** What a text selects, parsed and evaluated by the runtime's matcher. */
  predicate CoreSelects(text: string, info: P.FunctionInfo) {
    var t := Core.Parse(text);
    t.Ok? && P.Matches(t.value, info)
  }

  /** What it selects, parsed and evaluated by the driver's. */
  predicate DriverSelects(text: string, meta: DriverMatch.FunctionMetadata) {
    DriverMatch.MatchesPointcut(meta, text)
  }

  predicate CoreVerdict(q: Query, info: P.FunctionInfo) { CoreSelects(TextOf(q), info) }

  predicate DriverVerdict(q: Query, meta: DriverMatch.FunctionMetadata) { DriverSelects(TextOf(q), meta) }

  // ------------------------------------------------------------------ both parsers read the text

  lemma BodyIsBalanced(v: Option<P.Visibility>, pattern: string)
    requires '(' !in pattern && ')' !in pattern
    ensures Balanced(BodyText(v, pattern))
  {
    FlatText("fn ");
    FlatText("..");
    FlatText(pattern);
    BracketsKeepBalance("..");
    LeafImage.VisibilityIsBalanced(v);
    BalancedJoin(pattern, "(" + ".." + ")");
    assert "(" + ".." + ")" == "(..)";
    BalancedJoin("fn ", pattern + "(..)");
    BalancedJoin(Core.VisibilityText(v), "fn " + (pattern + "(..)"));
  }

  lemma QuotedIsBalanced(p: string)
    requires Balanced(p)
    ensures Balanced("\"" + p + "\"")
  {
    FlatText("\"");
    BalancedJoin("\"", p);
    BalancedJoin("\"" + p, "\"");
  }

  lemma {:induction false} QueryIsBalanced(q: Query)
    requires WellPosed(q)
    ensures BodiesBalanced(AsFormula(q))
  {
    match q {
      case InModule(_) =>
      case Function(v, p) => BodyIsBalanced(v, p);
      case Named(p) => QuotedIsBalanced(p);
      case Both(l, r) =>
        QueryIsBalanced(l);
        QueryIsBalanced(r);
      case Either(l, r) =>
        QueryIsBalanced(l);
        QueryIsBalanced(r);
      case Except(x) => QueryIsBalanced(x);
    }
  }

  lemma QuotesNone(s: string)
    requires Unquoted(s)
    ensures TrimQuotes(s) == s
  {}

  lemma ModuleText(path: string)
    ensures AtomText(Within, path) == Core.LeafText(P.Within(P.ModulePattern(path)))
  {
    assert "within" + ("(" + path + ")") == "within(" + path + ")";
  }

  lemma CoreModule(path: string)
    requires Trimmed(path)
    ensures Core.ParseLeaf(AtomText(Within, path)) == Ok(P.Within(P.ModulePattern(path)))
  {
    ModuleText(path);
    Leaves.WithinParses(path);
  }

  lemma FunctionText(body: string)
    ensures AtomText(Execution, body) == "execution(" + body + ")"
  {
    assert "execution" + ("(" + body + ")") == "execution(" + body + ")";
  }

  lemma CoreFunction(v: Option<P.Visibility>, pattern: string)
    requires v != Some(P.Private) && DriverExecution.PlainName(pattern)
    ensures Core.ParseLeaf(AtomText(Execution, BodyText(v, pattern)))
         == Ok(P.Execution(P.ExecutionPattern(v, Core.ParseNamePattern(pattern), None)))
  {
    var t := P.Execution(P.ExecutionPattern(v, Core.ParseNamePattern(pattern), None));
    FunctionText(BodyText(v, pattern));
    Leaves.HeadParses(v, pattern, "(..)");
    Leaves.Between("execution(", BodyText(v, pattern), ")");
    Leaves.ExecutionPrefix("execution(" + BodyText(v, pattern) + ")", Ok(t));
  }

  lemma DriverAtomText(t: Driver.PointcutExpr, kind: Kind, body: string)
    requires t.IsLeaf() && Driver.Keyword(t) == Keyword(kind)
    ensures (Driver.Keyword(t) + "(") + body + (")" + "") == AtomText(kind, body)
  {
    var k := Driver.Keyword(t);
    assert k + "(" + body + (")" + "") == k + ("(" + body + ")");
  }

  lemma DriverLeaf(t: Driver.PointcutExpr, kind: Kind, body: string)
    requires t.IsLeaf() && Driver.Keyword(t) == Keyword(kind)
    requires |body| > 0 && Trimmed(body) && Unquoted(body) && t.pattern == body
    ensures Driver.ParseLeaf(AtomText(kind, body)) == Ok(t)
  {
    DriverAtomText(t, kind, body);
    TrimKeepsTrimmed(body);
    QuotesNone(body);
    DriverText.LeafReads(t, body, "");
  }

  lemma BodyEnds(v: Option<P.Visibility>, pattern: string)
    ensures var b := BodyText(v, pattern); |b| > 0 && (b[0] == 'p' || b[0] == 'f') && b[|b| - 1] == ')'
  {}

  lemma DriverFunction(v: Option<P.Visibility>, pattern: string)
    ensures Driver.ParseLeaf(AtomText(Execution, BodyText(v, pattern)))
         == Ok(Driver.PointcutExpr.Execution(BodyText(v, pattern)))
  {
    BodyEnds(v, pattern);
    DriverLeaf(Driver.PointcutExpr.Execution(BodyText(v, pattern)), Execution, BodyText(v, pattern));
  }

  /** The quotes do not belong to the pattern. */
  lemma DriverNamed(p: string)
    requires Unquoted(p)
    ensures Driver.ParseLeaf(AtomText(Name, "\"" + p + "\"")) == Ok(Driver.PointcutExpr.Name(p))
  {
    var quoted := "\"" + p + "\"";
    DriverAtomText(Driver.PointcutExpr.Name(p), Name, quoted);
    TrimKeepsTrimmed(quoted);
    QuotesAround(p);
    DriverText.LeafReads(Driver.PointcutExpr.Name(p), quoted, "");
  }

  /** The runtime's parser does not know `name(..)`. */
  lemma CoreRejectsName(body: string)
    ensures Core.ParseLeaf(AtomText(Name, body)).Err?
  {
    var s := AtomText(Name, body);
    assert s[0] == 'n';
    assert |s| >= 10 ==> s[..10][0] == 'n';
    assert |s| >= 7 ==> s[..7][0] == 'n';
  }

  // ------------------------------------------------------------------ what the two verdicts are

  predicate CoreHolds(q: Query, info: P.FunctionInfo)
    requires q.Shared()
  {
    match q
    case InModule(path) => P.ModulePattern(path).MatchesPath(info.modulePath)
    case Function(v, p) =>
      && (v.Some? ==> v.value.Matches(info.visibility))
      && Core.ParseNamePattern(p).Matches(info.name)
    case Both(l, r) => CoreHolds(l, info) && CoreHolds(r, info)
    case Either(l, r) => CoreHolds(l, info) || CoreHolds(r, info)
    case Except(x) => !CoreHolds(x, info)
  }

  /** The driver takes a visibility with brackets for the function's name. */
  predicate DriverHolds(q: Query, meta: DriverMatch.FunctionMetadata) {
    match q
    case InModule(path) => meta.IsInModule(path)
    case Function(v, p) =>
      (match v
       case Some(Public) => meta.visibility != DriverMatch.Private && meta.MatchesNamePattern(p)
       case Some(Crate) => meta.MatchesNamePattern("pub(crate)")
       case Some(Super) => meta.MatchesNamePattern("pub(super)")
       case _ => meta.MatchesNamePattern(p))
    case Named(p) => meta.MatchesNamePattern(p)
    case Both(l, r) => DriverHolds(l, meta) && DriverHolds(r, meta)
    case Either(l, r) => DriverHolds(l, meta) || DriverHolds(r, meta)
    case Except(x) => !DriverHolds(x, meta)
  }

  lemma BodyWords(v: Option<P.Visibility>, p: string)
    requires v != Some(P.Private)
    ensures BodyText(v, p) ==
      (if v.None? then "fn" + (" " + (p + "(..)"))
       else (if v.value.Public? then "pub" else if v.value.Crate? then "pub(crate)" else "pub(super)")
            + (" " + ("fn" + (" " + (p + "(..)")))))
  {
    assert "fn " + (p + "(..)") == "fn" + (" " + (p + "(..)"));
    assert "pub(crate) " == "pub(crate)" + " " && "pub(super) " == "pub(super)" + " " && "pub " == "pub" + " ";
  }

  lemma BracketedWords()
    ensures forall w | w == "pub(crate)" || w == "pub(super)" ::
      DriverExecution.IsWord(w) && '(' in w && !EndsWith(w, "(..)") && !EndsWith(w, "*")
  {
    forall w | w == "pub(crate)" || w == "pub(super)"
      ensures '(' in w && !EndsWith(w, "(..)") && !EndsWith(w, "*")
    {
      assert w[3] == '(';
      assert w[6..][0] == w[6] && w[9..][0] == ')';
    }
  }

  lemma DriverFunctionHolds(v: Option<P.Visibility>, p: string, meta: DriverMatch.FunctionMetadata)
    requires v != Some(P.Private) && DriverExecution.PlainName(p)
    ensures DriverMatch.MatchesExecution(meta, BodyText(v, p)) <==> DriverHolds(Function(v, p), meta)
  {
    BodyWords(v, p);
    match v {
      case None => DriverExecution.FunctionPattern(meta, p);
      case Some(vis) =>
        if vis.Public? {
          DriverExecution.PublicFunctionPattern(meta, p);
        } else {
          BracketedWords();
          DriverExecution.BracketedWordIsTheName(meta, if vis.Crate? then "pub(crate)" else "pub(super)", p);
        }
    }
  }

  lemma {:induction false} CoreMeaningHolds(q: Query, info: P.FunctionInfo)
    requires WellPosed(q) && q.Shared()
    ensures CoreMeaning(AsFormula(q)).Ok? && (P.Matches(CoreMeaning(AsFormula(q)).value, info) <==> CoreHolds(q, info))
  {
    match q {
      case InModule(path) => CoreModule(path);
      case Function(v, p) => CoreFunction(v, p);
      case Both(l, r) =>
        CoreMeaningHolds(l, info);
        CoreMeaningHolds(r, info);
      case Either(l, r) =>
        CoreMeaningHolds(l, info);
        CoreMeaningHolds(r, info);
      case Except(x) => CoreMeaningHolds(x, info);
    }
  }

  lemma {:induction false} CoreMeaningFails(q: Query)
    requires WellPosed(q) && !q.Shared()
    ensures CoreMeaning(AsFormula(q)).Err?
  {
    match q {
      case Named(p) => CoreRejectsName("\"" + p + "\"");
      case Both(l, r) =>
        if l.Shared() {
          CoreMeaningFails(r);
        } else {
          CoreMeaningFails(l);
        }
      case Either(l, r) =>
        if l.Shared() {
          CoreMeaningFails(r);
        } else {
          CoreMeaningFails(l);
        }
      case Except(x) => CoreMeaningFails(x);
      case _ =>
    }
  }

  lemma {:induction false} DriverMeaningHolds(q: Query, meta: DriverMatch.FunctionMetadata)
    requires WellPosed(q)
    ensures DriverMeaning(AsFormula(q)).Ok?
    ensures DriverMatch.Evaluate(DriverMeaning(AsFormula(q)).value, meta) <==> DriverHolds(q, meta)
  {
    match q {
      case InModule(path) => DriverLeaf(Driver.PointcutExpr.Within(path), Within, path);
      case Function(v, p) =>
        DriverFunction(v, p);
        DriverFunctionHolds(v, p, meta);
      case Named(p) => DriverNamed(p);
      case Both(l, r) =>
        DriverMeaningHolds(l, meta);
        DriverMeaningHolds(r, meta);
      case Either(l, r) =>
        DriverMeaningHolds(l, meta);
        DriverMeaningHolds(r, meta);
      case Except(x) => DriverMeaningHolds(x, meta);
    }
  }

  /**
   From any text that writes the query to both verdicts, for any two descriptions of a function. The runtime
   rejects a text with a `name(..)` anywhere in it.
   */
  lemma VerdictsOnText(l: Level, q: Query, info: P.FunctionInfo, meta: DriverMatch.FunctionMetadata)
    requires WellPosed(q) && Writes(l, q)
    ensures Driver.Parse(Text(l)).Ok? && (Core.Parse(Text(l)).Ok? <==> q.Shared())
    ensures CoreSelects(Text(l), info) <==> q.Shared() && CoreHolds(q, info)
    ensures DriverSelects(Text(l), meta) <==> DriverHolds(q, meta)
  {
    QueryIsBalanced(q);
    FormulaIsBalanced(l);
    ParsersReadFormula(l);
    if q.Shared() {
      CoreMeaningHolds(q, info);
    } else {
      CoreMeaningFails(q);
    }
    DriverMeaningHolds(q, meta);
  }

  lemma TextOfWrites(q: Query)
    ensures Writes(Bracketed(AsFormula(q)), q)
  {
    BracketedWrites(AsFormula(q));
  }

  /** In particular from the one with all brackets. */
  lemma Verdicts(q: Query, info: P.FunctionInfo, meta: DriverMatch.FunctionMetadata)
    requires WellPosed(q)
    ensures Driver.Parse(TextOf(q)).Ok? && (Core.Parse(TextOf(q)).Ok? <==> q.Shared())
    ensures CoreVerdict(q, info) <==> q.Shared() && CoreHolds(q, info)
    ensures DriverVerdict(q, meta) <==> DriverHolds(q, meta)
  {
    TextOfWrites(q);
    VerdictsOnText(Bracketed(AsFormula(q)), q, info, meta);
  }

  /** `pub(crate) fn ..` and `pub(super) fn ..` select nothing in the driver, whatever the name pattern. */
  lemma RestrictedSelectsNothing(v: P.Visibility, p: string, meta: DriverMatch.FunctionMetadata)
    requires (v.Crate? || v.Super?) && WellPosed(Function(Some(v), p)) && '(' !in meta.name
    ensures !DriverVerdict(Function(Some(v), p), meta)
  {
    Verdicts(Function(Some(v), p), P.FunctionInfo("", "", "", None), meta);
    BracketedWords();
    DriverExecution.BracketedNameMatchesNothing(meta, if v.Crate? then "pub(crate)" else "pub(super)");
  }

  /**
   `name("a::b")` selects a function exactly when its segments are the last ones of the function's qualified
   name, and either not all of them or a single one.
   */
  lemma NamedExactIff(tail: seq<string>, meta: DriverMatch.FunctionMetadata, path: seq<string>)
    requires IsPath(path) && IsPath(tail) && meta.name == Join(path)
    requires WellPosed(Named(Join(tail))) && !DriverNames.EndsInStar(Join(tail))
    ensures DriverVerdict(Named(Join(tail)), meta)
       <==> DriverNames.IsSuffix(tail, path) && (|tail| == 1 || |tail| < |path|)
  {
    Verdicts(Named(Join(tail)), P.FunctionInfo("", "", "", None), meta);
    DriverNames.ExactPatternIffSuffix(meta, tail, path);
  }

  /**
   `name("a::p*")` selects it exactly when the qualified name goes on like the prefix somewhere behind its
   first segment, or the prefix is one segment and the last segment starts with it.
   */
  lemma NamedPrefixIff(prefix: seq<string>, meta: DriverMatch.FunctionMetadata, path: seq<string>)
    requires IsPath(path) && DriverNames.IsPrefixPath(prefix) && meta.name == Join(path)
    requires WellPosed(Named(Join(prefix) + "*"))
    ensures DriverVerdict(Named(Join(prefix) + "*"), meta)
       <==> (|prefix| == 1 && StartsWith(path[|path| - 1], prefix[0])) || DriverNames.LaterSegmentsStart(path, prefix)
  {
    Verdicts(Named(Join(prefix) + "*"), P.FunctionInfo("", "", "", None), meta);
    DriverNames.PrefixPatternIffSegmentsStart(meta, prefix, path);
  }
}
