/** Exactly when the runtime's matcher and the driver's give one verdict on a function. */
module VerdictConditions {
  import opened Common
  import opened Strings
  import opened ModulePaths
  import opened BracketLevels
  import opened ParserAgreement
  import opened VerdictAgreement
  import P = Pointcuts
  import Core = PointcutParser
  import DriverMatch
  import DriverExecution
  import DriverNames
  import Driver = DriverParser
  import Globs

  /** Two descriptions of one function: the runtime knows its simple name, the driver its qualified one. */
  ghost predicate SameFunction(info: P.FunctionInfo, meta: DriverMatch.FunctionMetadata, path: seq<string>) {
    && IsPath(path) && meta.name == Join(path) && info.name == path[|path| - 1]
    && '*' !in meta.name && '(' !in meta.name
    && info.modulePath == meta.modulePath
    && (meta.visibility.Public? <==> info.visibility == "pub")
    && (meta.visibility.Crate? <==> info.visibility == "pub(crate)")
    && (meta.visibility.Private? <==> info.visibility == "")
  }

  // ------------------------------------------------------------------ names

  /** The name patterns select the same: the condition on the pattern text and the name. */
  predicate NamesAgree(pattern: string, path: seq<string>)
    requires |path| > 0
  {
    var last := path[|path| - 1];
    match Core.ParseNamePattern(pattern)
    case Wildcard => true
    case Exact(t) => last == t || !EndsWith(Join(path), "::" + t)
    case Prefix(t) => StartsWith(last, t) || !Contains(Join(path), "::" + t)
    case Suffix(t) => !EndsWith(last, t)
    case Containing(t) => !Contains(last, t)
  }

  lemma StarIsPart(name: string, text: string)
    requires '*' !in name && '*' in text
    ensures !StartsWith(name, text) && !EndsWith(name, text) && !Contains(name, text) && name != text
  {
    var i :| 0 <= i < |text| && text[i] == '*';
    assert |text| <= |name| ==> name[..|text|][i] == name[i];
    assert |text| <= |name| ==> name[|name| - |text|..][i] == name[|name| - |text| + i];
    forall k | 0 <= k <= |name|
      ensures !OccursAt(name, text, k)
    {
      assert k + |text| <= |name| ==> name[k..k + |text|][i] == name[k + i];
    }
  }

  /** A pattern that starts with a star, and is not a lone star, selects nothing in the driver: it is compared literally. */
  lemma LeadingStarSelectsNothing(meta: DriverMatch.FunctionMetadata, pattern: string)
    requires '*' !in meta.name && StartsWith(pattern, "*") && pattern != "*"
    ensures !meta.MatchesNamePattern(pattern)
  {
    assert pattern[..1] == "*" && pattern[0] == '*';
    var last := meta.LastComponent();
    LastIsPart(meta);
    StarIsPart(last, pattern);
    StarredBehindSeparator(meta.name, pattern);
    if EndsWith(pattern, "*") {
      var p := pattern[..|pattern| - 1];
      assert |pattern| > 1 && p[0] == '*';
      StarIsPart(last, p);
      StarredBehindSeparator(meta.name, p);
    }
  }

  lemma StarredBehindSeparator(name: string, p: string)
    requires '*' !in name && '*' in p
    ensures !EndsWith(name, "::" + p) && !Contains(name, "::" + p)
  {
    var i :| 0 <= i < |p| && p[i] == '*';
    assert ("::" + p)[i + 2] == '*';
    StarIsPart(name, "::" + p);
  }

  lemma LastIsPart(meta: DriverMatch.FunctionMetadata)
    requires '*' !in meta.name
    ensures '*' !in meta.LastComponent()
  {
    DriverExecution.AfterSeparatorIsPart(meta.name, |meta.name|, '*');
  }

  lemma NamesAgreeIff(meta: DriverMatch.FunctionMetadata, pattern: string, path: seq<string>)
    requires IsPath(path) && meta.name == Join(path) && '*' !in meta.name
    ensures (Core.ParseNamePattern(pattern).Matches(path[|path| - 1]) <==> meta.MatchesNamePattern(pattern))
       <==> NamesAgree(pattern, path)
  {
    DriverNames.SimpleNameIsLastSegment(path);
    Globs.NameTextIs(pattern);
    match Core.ParseNamePattern(pattern) {
      case Wildcard =>
      case Exact(t) => assert EndsWith("*", "*");
      case Prefix(t) =>
        assert pattern[|pattern| - 1..] == "*" && pattern[..|pattern| - 1] == t;
      case Suffix(t) =>
        assert pattern[..1] == "*";
        LeadingStarSelectsNothing(meta, pattern);
      case Containing(t) =>
        assert pattern[..1] == "*";
        LeadingStarSelectsNothing(meta, pattern);
    }
  }

  /** A plain name without separators is understood alike. */
  lemma ExactNamesAgree(name: string, path: seq<string>)
    requires IsPath(path) && IsSegment(name) && Core.ParseNamePattern(name) == P.Exact(name)
    ensures NamesAgree(name, path)
  {
    DriverNames.EndsIffSegmentSuffix([name], path, "::" + name);
    assert path[|path| - 1..] == [path[|path| - 1]];
  }

  /** `p*` is not, exactly when a segment between the first and the last starts with p and the last does not. */
  lemma PrefixesAgreeIff(p: string, path: seq<string>)
    requires IsPath(path) && ':' !in p && Core.ParseNamePattern(p + "*") == P.Prefix(p)
    ensures NamesAgree(p + "*", path)
       <==> StartsWith(path[|path| - 1], p) || forall i | 1 <= i < |path| - 1 :: !StartsWith(path[i], p)
  {
    DriverNames.ContainsIffLaterSegments(path, "::" + p, [p]);
    DriverNames.LaterSegmentAlone(path, p);
  }

  // ------------------------------------------------------------------ visibility and name

  /** The condition under which `VISIBILITY fn PATTERN(..)` gives one verdict. */
  ghost predicate LeafAgrees(q: Query, info: P.FunctionInfo, meta: DriverMatch.FunctionMetadata, path: seq<string>)
    requires |path| > 0
  {
    match q
    case Function(v, p) =>
      (match v
       case Some(Public) =>
         if meta.visibility.Private? then true
         else if meta.visibility.Public? then NamesAgree(p, path)
         else !meta.MatchesNamePattern(p)
       case Some(Crate) => meta.visibility.Crate? ==> !Core.ParseNamePattern(p).Matches(info.name)
       case Some(Super) => info.visibility == "pub(super)" ==> !Core.ParseNamePattern(p).Matches(info.name)
       case _ => NamesAgree(p, path))
    case Named(p) => !meta.MatchesNamePattern(p)
    case _ => true
  }

  /** The one text gives the same verdict in both languages. */
  predicate SameOn(text: string, info: P.FunctionInfo, meta: DriverMatch.FunctionMetadata) {
    CoreSelects(text, info) <==> DriverSelects(text, meta)
  }

  predicate Same(q: Query, info: P.FunctionInfo, meta: DriverMatch.FunctionMetadata) { SameOn(TextOf(q), info, meta) }

  lemma RestrictedIsNoName(meta: DriverMatch.FunctionMetadata)
    requires '(' !in meta.name
    ensures !meta.MatchesNamePattern("pub(crate)") && !meta.MatchesNamePattern("pub(super)")
  {
    BracketedWords();
    DriverExecution.BracketedNameMatchesNothing(meta, "pub(crate)");
    DriverExecution.BracketedNameMatchesNothing(meta, "pub(super)");
  }

  lemma LeafHoldsAgreeIff(v: Option<P.Visibility>, p: string, info: P.FunctionInfo, meta: DriverMatch.FunctionMetadata,
                          path: seq<string>)
    requires v != Some(P.Private) && SameFunction(info, meta, path)
    ensures (CoreHolds(Function(v, p), info) <==> DriverHolds(Function(v, p), meta))
       <==> LeafAgrees(Function(v, p), info, meta, path)
  {
    NamesAgreeIff(meta, p, path);
    RestrictedIsNoName(meta);
  }

  lemma LeafAgreesIff(q: Query, info: P.FunctionInfo, meta: DriverMatch.FunctionMetadata, path: seq<string>)
    requires q.IsLeaf() && WellPosed(q) && SameFunction(info, meta, path)
    ensures Same(q, info, meta) <==> LeafAgrees(q, info, meta, path)
  {
    Verdicts(q, info, meta);
    if q.Function? {
      LeafHoldsAgreeIff(q.visibility, q.pattern, info, meta, path);
    }
  }

  /** `fn NAME(..)` always gives one verdict. */
  lemma NamedFunctionAgrees(name: string, info: P.FunctionInfo, meta: DriverMatch.FunctionMetadata, path: seq<string>)
    requires WellPosed(Function(None, name)) && SameFunction(info, meta, path)
    requires IsSegment(name) && Core.ParseNamePattern(name) == P.Exact(name)
    ensures Same(Function(None, name), info, meta)
  {
    LeafAgreesIff(Function(None, name), info, meta, path);
    ExactNamesAgree(name, path);
  }

  /** `fn p*(..)` does not, exactly when a segment strictly between first and last starts with p and the last does not. */
  lemma PrefixFunctionAgreesIff(p: string, info: P.FunctionInfo, meta: DriverMatch.FunctionMetadata, path: seq<string>)
    requires WellPosed(Function(None, p + "*")) && SameFunction(info, meta, path)
    requires ':' !in p && Core.ParseNamePattern(p + "*") == P.Prefix(p)
    ensures Same(Function(None, p + "*"), info, meta)
       <==> StartsWith(info.name, p) || forall i | 1 <= i < |path| - 1 :: !StartsWith(path[i], p)
  {
    LeafAgreesIff(Function(None, p + "*"), info, meta, path);
    PrefixesAgreeIff(p, path);
  }

  /** `fn *p(..)` does not, exactly when the name ends with p: the driver looks for a name with a star in it. */
  lemma SuffixFunctionAgreesIff(p: string, info: P.FunctionInfo, meta: DriverMatch.FunctionMetadata, path: seq<string>)
    requires WellPosed(Function(None, "*" + p)) && SameFunction(info, meta, path)
    requires Core.ParseNamePattern("*" + p) == P.Suffix(p)
    ensures Same(Function(None, "*" + p), info, meta) <==> !EndsWith(info.name, p)
  {
    LeafAgreesIff(Function(None, "*" + p), info, meta, path);
  }

  /**
   `pub fn NAME(..)` gives one verdict exactly when the function has another name, or is fully public or
   private: the runtime wants exactly `pub`, the driver any visibility but private.
   */
  lemma PublicAgreesIff(name: string, info: P.FunctionInfo, meta: DriverMatch.FunctionMetadata, path: seq<string>)
    requires WellPosed(Function(Some(P.Public), name)) && SameFunction(info, meta, path)
    requires IsSegment(name) && Core.ParseNamePattern(name) == P.Exact(name)
    ensures Same(Function(Some(P.Public), name), info, meta)
       <==> info.name != name || meta.visibility.Public? || meta.visibility.Private?
  {
    LeafAgreesIff(Function(Some(P.Public), name), info, meta, path);
    NamesAgreeIff(meta, name, path);
    ExactNamesAgree(name, path);
  }

  lemma StarIsPlain()
    ensures WellPosed(Function(Some(P.Public), "*")) && Core.ParseNamePattern("*") == P.Wildcard
  {
    assert DriverExecution.PlainName("*");
  }

  /** `pub fn *(..)` gives one verdict exactly on the functions that are fully public or private. */
  lemma PublicStarAgreesIff(info: P.FunctionInfo, meta: DriverMatch.FunctionMetadata, path: seq<string>)
    requires SameFunction(info, meta, path)
    ensures Same(Function(Some(P.Public), "*"), info, meta) <==> meta.visibility.Public? || meta.visibility.Private?
  {
    StarIsPlain();
    LeafAgreesIff(Function(Some(P.Public), "*"), info, meta, path);
  }

  /**
   `pub fn p*(..)` gives one verdict exactly when the last segment starts with p and the function is fully
   public or private, or it does not and, unless the function is private, no segment behind the first does.
   */
  lemma PublicPrefixAgreesIff(p: string, info: P.FunctionInfo, meta: DriverMatch.FunctionMetadata, path: seq<string>)
    requires WellPosed(Function(Some(P.Public), p + "*")) && SameFunction(info, meta, path)
    requires ':' !in p && Core.ParseNamePattern(p + "*") == P.Prefix(p)
    ensures Same(Function(Some(P.Public), p + "*"), info, meta)
       <==> meta.visibility.Private?
            || (if StartsWith(info.name, p) then meta.visibility.Public?
                else forall i | 1 <= i < |path| - 1 :: !StartsWith(path[i], p))
  {
    LeafAgreesIff(Function(Some(P.Public), p + "*"), info, meta, path);
    PrefixesAgreeIff(p, path);
    DriverNames.PrefixPatternIffSegmentStarts(meta, p, path);
  }

  /** In particular, on a crate-visible function of that name the runtime says no and the driver yes. */
  lemma PublicMeansMoreToTheDriver(name: string, info: P.FunctionInfo, meta: DriverMatch.FunctionMetadata)
    requires WellPosed(Function(Some(P.Public), name)) && meta.MatchesNamePattern(name)
    requires info.visibility != "pub" && meta.visibility != DriverMatch.Private
    ensures !CoreVerdict(Function(Some(P.Public), name), info) && DriverVerdict(Function(Some(P.Public), name), meta)
  {
    Verdicts(Function(Some(P.Public), name), info, meta);
  }

  // ------------------------------------------------------------------ a function on which they differ

  function Described(first: string, middle: string, name: string, vis: DriverMatch.Visibility): DriverMatch.FunctionMetadata {
    DriverMatch.FunctionMetadata(Join([first, middle, name]), name, Join([first, middle]), vis, false, "")
  }

  function Known(first: string, middle: string, name: string, vis: string): P.FunctionInfo {
    P.FunctionInfo(name, Join([first, middle]), vis, None)
  }

  lemma JoinedThree(a: string, b: string, c: string)
    ensures Join([a, b, c]) == a + "::" + (b + "::" + c)
  {
    assert [a, b, c][1..] == [b, c];
    assert [b, c][1..] == [c];
    assert Join([c]) == c && Join([b, c]) == b + "::" + c;
  }

  lemma DescribedAlike(first: string, middle: string, name: string)
    requires IsSegment(first) && IsSegment(middle) && IsSegment(name)
    requires '*' !in first + middle + name && '(' !in first + middle + name
    ensures SameFunction(Known(first, middle, name, "pub(crate)"), Described(first, middle, name, DriverMatch.Crate), [first, middle, name])
  {
    var all := first + middle + name;
    JoinedThree(first, middle, name);
    assert forall i | 0 <= i < |first| :: all[i] == first[i];
    assert forall i | 0 <= i < |middle| :: all[|first| + i] == middle[i];
    assert forall i | 0 <= i < |name| :: all[|first| + |middle| + i] == name[i];
  }

  lemma RunIsExact()
    ensures Core.ParseNamePattern("run") == P.Exact("run") && IsSegment("run")
    ensures DriverExecution.PlainName("run") && ')' !in "run"
  {
    assert "run"[..1][0] == 'r' && "run"[2..][0] == 'n';
  }

  lemma LoadIsPrefix()
    ensures Core.ParseNamePattern("load" + "*") == P.Prefix("load") && ':' !in "load"
    ensures DriverExecution.PlainName("load" + "*") && ')' !in "load" + "*"
  {
    var t := "load" + "*";
    assert t[0] == 'l' && t[..1][0] == 'l' && t[4..] == "*" && t[..4] == "load";
  }

  lemma CrateDiffers(info: P.FunctionInfo, meta: DriverMatch.FunctionMetadata, path: seq<string>)
    requires SameFunction(info, meta, path) && meta.visibility.Crate? && info.name == "run"
    ensures !Same(Function(Some(P.Crate), "run"), info, meta) && !Same(Function(Some(P.Public), "run"), info, meta)
  {
    RunIsExact();
    LeafAgreesIff(Function(Some(P.Crate), "run"), info, meta, path);
    PublicAgreesIff("run", info, meta, path);
  }

  lemma PrefixDiffers(info: P.FunctionInfo, meta: DriverMatch.FunctionMetadata, path: seq<string>)
    requires SameFunction(info, meta, path) && |path| == 3 && path[1] == "loader" && info.name == "run"
    ensures !Same(Function(None, "load" + "*"), info, meta)
  {
    LoadIsPrefix();
    PrefixFunctionAgreesIff("load", info, meta, path);
    assert "loader"[..4] == "load" && StartsWith(path[1], "load");
    assert "run"[0] == 'r' && !StartsWith("run", "load");
  }

  /**
   On `app::loader::run`, visible in its crate, each of `pub(crate) fn run(..)`, `pub fn run(..)` and
   `fn load*(..)` gives one verdict in the runtime and the other in the driver.
   */
  lemma TheyDiffer()
    ensures
      var (info, meta) := (Known("app", "loader", "run", "pub(crate)"), Described("app", "loader", "run", DriverMatch.Crate));
      && SameFunction(info, meta, ["app", "loader", "run"])
      && !Same(Function(Some(P.Crate), "run"), info, meta)
      && !Same(Function(Some(P.Public), "run"), info, meta)
      && !Same(Function(None, "load" + "*"), info, meta)
  {
    var (info, meta) := (Known("app", "loader", "run", "pub(crate)"), Described("app", "loader", "run", DriverMatch.Crate));
    var path := ["app", "loader", "run"];
    DescribedAlike("app", "loader", "run");
    CrateDiffers(info, meta, path);
    PrefixDiffers(info, meta, path);
  }

  // ------------------------------------------------------------------ whole queries

  function LeavesOf(q: Query): set<Query> {
    match q
    case Both(l, r) => LeavesOf(l) + LeavesOf(r)
    case Either(l, r) => LeavesOf(l) + LeavesOf(r)
    case Except(x) => LeavesOf(x)
    case _ => {q}
  }

  lemma {:induction false} SameHolds(q: Query, info: P.FunctionInfo, meta: DriverMatch.FunctionMetadata, path: seq<string>)
    requires WellPosed(q) && q.Shared() && SameFunction(info, meta, path)
    requires forall leaf | leaf in LeavesOf(q) :: LeafAgrees(leaf, info, meta, path)
    ensures CoreHolds(q, info) <==> DriverHolds(q, meta)
  {
    match q {
      case Both(l, r) =>
        SameHolds(l, info, meta, path);
        SameHolds(r, info, meta, path);
      case Either(l, r) =>
        SameHolds(l, info, meta, path);
        SameHolds(r, info, meta, path);
      case Except(x) => SameHolds(x, info, meta, path);
      case InModule(_) =>
      case Function(v, p) =>
        assert q in LeavesOf(q);
        LeafHoldsAgreeIff(v, p, info, meta, path);
    }
  }

  /** A query over leaves that agree gives one verdict, from any text that writes it. */
  lemma SameVerdict(l: Level, q: Query, info: P.FunctionInfo, meta: DriverMatch.FunctionMetadata, path: seq<string>)
    requires WellPosed(q) && q.Shared() && Writes(l, q) && SameFunction(info, meta, path)
    requires forall leaf | leaf in LeavesOf(q) :: LeafAgrees(leaf, info, meta, path)
    ensures SameOn(Text(l), info, meta)
  {
    VerdictsOnText(l, q, info, meta);
    SameHolds(q, info, meta, path);
  }

  lemma {:induction false} LeavesShared(q: Query, leaves: set<Query>)
    requires LeavesOf(q) <= leaves && forall leaf | leaf in leaves :: leaf.Shared()
    ensures q.Shared()
  {
    match q {
      case Both(l, r) =>
        LeavesShared(l, leaves);
        LeavesShared(r, leaves);
      case Either(l, r) =>
        LeavesShared(l, leaves);
        LeavesShared(r, leaves);
      case Except(x) => LeavesShared(x, leaves);
      case _ =>
    }
  }

  /** And no weaker condition on the leaves will do: all texts of all queries over them agree exactly when each leaf does. */
  lemma SameOnAllQueries(leaves: set<Query>, info: P.FunctionInfo, meta: DriverMatch.FunctionMetadata, path: seq<string>)
    requires SameFunction(info, meta, path) && forall leaf | leaf in leaves :: leaf.IsLeaf() && leaf.Shared() && WellPosed(leaf)
    ensures (forall l, q | WellPosed(q) && Writes(l, q) && LeavesOf(q) <= leaves :: SameOn(Text(l), info, meta))
       <==> forall leaf | leaf in leaves :: LeafAgrees(leaf, info, meta, path)
  {
    if forall leaf | leaf in leaves :: LeafAgrees(leaf, info, meta, path) {
      forall l, q | WellPosed(q) && Writes(l, q) && LeavesOf(q) <= leaves
        ensures SameOn(Text(l), info, meta)
      {
        LeavesShared(q, leaves);
        SameVerdict(l, q, info, meta, path);
      }
    }
    if forall l, q | WellPosed(q) && Writes(l, q) && LeavesOf(q) <= leaves :: SameOn(Text(l), info, meta) {
      forall leaf | leaf in leaves
        ensures LeafAgrees(leaf, info, meta, path)
      {
        assert LeavesOf(leaf) == {leaf} <= leaves;
        TextOfWrites(leaf);
        assert Same(leaf, info, meta);
        LeafAgreesIff(leaf, info, meta, path);
      }
    }
  }

  // ------------------------------------------------------------------ a mixed text

  function LeafUnit(q: Query): Unit
    requires q.IsLeaf()
  {
    Basic(AsFormula(q).kind, AsFormula(q).body)
  }

  /** Both readings were accepted, and both select the function or both do not. */
  ghost predicate Say(selected: bool, p: Core.Parsed, d: Driver.Parsed, info: P.FunctionInfo, meta: DriverMatch.FunctionMetadata) {
    p.Ok? && d.Ok? && P.Matches(p.value, info) == DriverMatch.Evaluate(d.value, meta) == selected
  }

  lemma LeafReads(q: Query, info: P.FunctionInfo, meta: DriverMatch.FunctionMetadata, path: seq<string>)
    requires q.IsLeaf() && q.Shared() && WellPosed(q) && SameFunction(info, meta, path) && LeafAgrees(q, info, meta, path)
    ensures UnitWellFormed(LeafUnit(q))
    ensures Say(CoreVerdict(q, info), CoreUnit(LeafUnit(q)), DriverUnit(LeafUnit(q)), info, meta)
  {
    QueryIsBalanced(q);
    CoreMeaningHolds(q, info);
    DriverMeaningHolds(q, meta);
    Verdicts(q, info, meta);
    LeafAgreesIff(q, info, meta, path);
  }

  lemma MixedTrees(a: bool, b: bool, c: bool, p: seq<Core.Parsed>, d: seq<Driver.Parsed>,
                   info: P.FunctionInfo, meta: DriverMatch.FunctionMetadata)
    requires |p| == |d| == 3
    requires Say(a, p[0], d[0], info, meta) && Say(b, p[1], d[1], info, meta) && Say(c, p[2], d[2], info, meta)
    ensures var (core, driver) := (Core.OrOf(p[0], Core.AndOf(p[1], p[2])), Driver.AndOf(Driver.OrOf(d[0], d[1]), d[2]));
      && core.Ok? && driver.Ok?
      && P.Matches(core.value, info) == (a || (b && c)) && DriverMatch.Evaluate(driver.value, meta) == ((a || b) && c)
  {}

  /**
   On a mixed text leaves that agree do not suffice: `a || b && c` still gives two verdicts exactly on the
   functions that a selects and c does not.
   */
  lemma MixedTextAgreesIff(a: Query, b: Query, c: Query, info: P.FunctionInfo, meta: DriverMatch.FunctionMetadata,
                           path: seq<string>)
    requires a.IsLeaf() && b.IsLeaf() && c.IsLeaf() && a.Shared() && b.Shared() && c.Shared()
    requires WellPosed(a) && WellPosed(b) && WellPosed(c)
    requires SameFunction(info, meta, path)
    requires LeafAgrees(a, info, meta, path) && LeafAgrees(b, info, meta, path) && LeafAgrees(c, info, meta, path)
    ensures SameOn(UnitText(LeafUnit(a)) + " || " + (UnitText(LeafUnit(b)) + " && " + UnitText(LeafUnit(c))), info, meta)
       <==> !(CoreVerdict(a, info) && !CoreVerdict(c, info))
  {
    LeafReads(a, info, meta, path);
    LeafReads(b, info, meta, path);
    LeafReads(c, info, meta, path);
    var (u, v, w) := (LeafUnit(a), LeafUnit(b), LeafUnit(c));
    ParsersDisagreeOnPrecedence(u, v, w);
    MixedTrees(CoreVerdict(a, info), CoreVerdict(b, info), CoreVerdict(c, info),
               [CoreUnit(u), CoreUnit(v), CoreUnit(w)],
               [DriverUnit(u), DriverUnit(v), DriverUnit(w)], info, meta);
  }
}
