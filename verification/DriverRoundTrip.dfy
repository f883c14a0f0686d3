/** The image of the driver's parser, and the round trip through its printer. */
module DriverRoundTrip {
  import opened Common
  import opened Strings
  import opened Brackets
  import opened DriverParser

  predicate NoOperators(s: string) { NoOperator(s, AND) && NoOperator(s, OR) }

  /**
   No operator stands at the depths -1, .., -level. This parser splits at operators before it looks at
   brackets, so a text inside k pairs of brackets has to hide its operators from k more scans.
   */
  ghost predicate Hidden(s: string, level: nat) {
    forall d: int {:trigger Clear(s, AND, d)} {:trigger Clear(s, OR, d)} | d < 0 <= level + d ::
      Clear(s, AND, d) && Clear(s, OR, d)
  }

  /** What the place of a text demands: net depth zero left of an operator, and operators hidden. */
  ghost predicate Fits(s: string, inline: bool, level: nat) {
    (inline ==> Depth(s) == 0) && Hidden(s, level)
  }

  function Deeper(bracketed: bool, level: nat): nat { if bracketed then level + 1 else level }

  predicate LeafOk(t: PointcutExpr)
    requires t.IsLeaf()
  {
    Unquoted(t.pattern) && NoOperators(LeafText(t))
  }

  /** The trees in the parser's image: only their leaves are constrained. */
  ghost predicate Printable(t: PointcutExpr, inline: bool, level: nat, exposed: bool) {
    match t
    case And(l, r) =>
      var k := Deeper(!exposed, level);
      Printable(l, true, Deeper(l.And? || l.Not?, k), true) && Printable(r, inline, k, true)
    case Or(l, r) =>
      Printable(l, true, Deeper(!l.IsLeaf(), level), true) && Printable(r, inline, level, false)
    case Not(x) => Printable(x, inline, level, exposed)
    case _ => LeafOk(t) && Fits(LeafText(t), inline, level)
  }

  // ------------------------------------------------------------------ brackets around a text

  ghost predicate IsOperator(op: string) { op == AND || op == OR }

  lemma OpInBrackets(s: string, op: string, i: nat, d: int)
    requires IsOperator(op)
    ensures OpAtDepth("(" + s + ")", op, i + 1, d) <==> OpAtDepth(s, op, i, d - 1)
  {
    var t := "(" + s + ")";
    if i < |s| {
      assert t == "(" + (s + ")");
      DepthInRight("(", s + ")", i);
      DepthInLeft(s, ")", i);
      assert DepthAt("(", 1) == 1;
      OpShape(t, op, i + 1);
      if i + 2 <= |s| { OpShape(s, op, i); }
    }
  }

  lemma BracketsShift(s: string, op: string, d: int)
    requires IsOperator(op)
    ensures Clear("(" + s + ")", op, d) <==> Clear(s, op, d - 1)
  {
    var t := "(" + s + ")";
    var e := d - 1;
    if Clear(t, op, d) {
      forall i: nat
        ensures !OpAtDepth(s, op, i, e)
      {
        OpInBrackets(s, op, i, d);
      }
    }
    if Clear(s, op, e) {
      forall i: nat
        ensures !OpAtDepth(t, op, i, d)
      {
        if i > 0 { OpInBrackets(s, op, i - 1, d); }
      }
    }
  }

  /** Hidden one level further down is hidden, brackets included, from the scan at this level too. */
  lemma BracketsHide(s: string, level: nat)
    ensures Hidden(s, level + 1) <==> Hidden("(" + s + ")", level) && NoOperators("(" + s + ")")
  {
    var t := "(" + s + ")";
    ClearIsNoOperator(t, AND);
    ClearIsNoOperator(t, OR);
    forall d: int
      ensures Clear(t, AND, d + 1) <==> Clear(s, AND, d)
      ensures Clear(t, OR, d + 1) <==> Clear(s, OR, d)
    {
      BracketsShift(s, AND, d + 1);
      BracketsShift(s, OR, d + 1);
    }
    if Hidden(s, level + 1) {
      assert Clear(s, AND, -1) && Clear(s, OR, -1);
      assert Clear(t, AND, -1 + 1) && Clear(t, OR, -1 + 1);
      forall d: int | d < 0 <= level + d
        ensures Clear(t, AND, d) && Clear(t, OR, d)
      {
        assert Clear(s, AND, d - 1) && Clear(s, OR, d - 1);
        assert Clear(t, AND, d - 1 + 1) && Clear(t, OR, d - 1 + 1);
      }
    }
    if Hidden(t, level) && NoOperators(t) {
      forall d: int | d < 0 <= level + 1 + d
        ensures Clear(s, AND, d) && Clear(s, OR, d)
      {
        assert Clear(t, AND, d + 1) && Clear(t, OR, d + 1);
      }
    }
  }

  lemma OpShape(s: string, op: string, i: nat)
    requires i + 2 <= |s| && IsOperator(op)
    ensures s[i..i + 2] == op <==> s[i] == op[0] && s[i + 1] == op[0]
  {
    var w := s[i..i + 2];
    assert w[0] == s[i] && w[1] == s[i + 1];
    assert op[0] == op[1];
  }

  lemma BracketsDepth(s: string)
    ensures Depth("(" + s + ")") == Depth(s)
  {
    assert DepthAt("(", 1) == 1 && DepthAt(")", 1) == -1;
    DepthOfJoin("(", s);
    DepthOfJoin("(" + s, ")");
  }

  // ------------------------------------------------------------------ printed text parses back

  /** The shape of every printed text. */
  ghost predicate Solid(s: string) {
    && |s| > 0 && (s[0] == '(' || s[0] == '!' || s[0] == 'e' || s[0] == 'w' || s[0] == 'n')
    && (s[|s| - 1] == ')' || s[|s| - 1] == '(')
  }

  /** Two texts joined by an operator between spaces. */
  function Joined(l: string, op: string, r: string): string { l + (" " + op + " ") + r }

  lemma MiddleIsFlat(op: string)
    requires IsOperator(op)
    ensures var m := " " + op + " "; Depth(m) == 0 && DepthAt(m, 1) == 0
  {
    var m := " " + op + " ";
    FlatDepth(m, 4);
    FlatDepth(m, 1);
  }

  lemma FlatMiddle(l: string, m: string, r: string)
    requires Depth(l) == 0 && Depth(m) == 0 && |m| > 0 && DepthAt(m, 1) == 0
    ensures l + m + r == l + (m + r)
    ensures Depth(l + m) == 0 && DepthAt(l + m + r, |l| + 1) == 0 && Depth(l + m + r) == Depth(r)
  {
    DepthOfJoin(l, m);
    DepthInRight(l, m, 1);
    DepthInLeft(l + m, r, |l| + 1);
    DepthOfJoin(l + m, r);
  }

  lemma JoinedParts(l: string, op: string, r: string)
    requires Depth(l) == 0 && IsOperator(op)
    ensures
      var s := Joined(l, op, r);
      && s == l + ((" " + op + " ") + r)
      && Depth(l + (" " + op + " ")) == 0
      && DepthAt(s, |l| + 1) == 0 && Depth(s) == Depth(r)
  {
    MiddleIsFlat(op);
    FlatMiddle(l, " " + op + " ", r);
  }

  /** Where an operator can show in joined text: in the left part, in the middle, or in the right part. */
  lemma JoinedOperators(l: string, op: string, r: string, seek: string, i: nat, d: int)
    requires Solid(l) && Solid(r) && Depth(l) == 0 && IsOperator(op) && IsOperator(seek)
    ensures OpAtDepth(Joined(l, op, r), seek, i, d) ==>
      || (i < |l| && OpAtDepth(l, seek, i, d))
      || (i == |l| + 1 && op == seek && d == 0)
      || (i >= |l| + 4 && OpAtDepth(r, seek, i - |l| - 4, d))
  {
    var s := Joined(l, op, r);
    var m := " " + op + " ";
    JoinedParts(l, op, r);
    if OpAtDepth(s, seek, i, d) {
      OpShape(s, seek, i);
      assert s[|l|] == ' ' && s[|l| + 1] == op[0] && s[|l| + 3] == ' ';
      if i < |l| {
        assert s[|l| - 1] == l[|l| - 1];
        DepthInLeft(l, m + r, i);
        assert s[i..i + 2] == l[i..i + 2];
      } else if i >= |l| + 4 {
        DepthInRight(l + m, r, i - |l| - 4);
        assert s[i..i + 2] == r[i - |l| - 4..i - |l| - 2];
      }
    }
  }

  lemma JoinSplits(l: string, op: string, r: string)
    requires Solid(l) && Solid(r) && Depth(l) == 0 && IsOperator(op) && NoOperator(l, op)
    ensures FirstOperator(Joined(l, op, r), op) == Some(|l| + 1)
  {
    var s := Joined(l, op, r);
    JoinedParts(l, op, r);
    OpShape(s, op, |l| + 1);
    assert OpAt(s, op, |l| + 1);
    forall i: nat | i < |l| + 1
      ensures !OpAt(s, op, i)
    {
      JoinedOperators(l, op, r, op, i, 0);
      assert OpAtDepth(s, op, i, 0) ==> OpAt(l, op, i);
    }
  }

  lemma JoinHides(l: string, op: string, r: string, seek: string)
    requires Solid(l) && Solid(r) && Depth(l) == 0 && IsOperator(op) && IsOperator(seek) && op != seek
    requires NoOperator(l, seek) && NoOperator(r, seek)
    ensures NoOperator(Joined(l, op, r), seek)
  {
    ClearIsNoOperator(l, seek);
    ClearIsNoOperator(r, seek);
    ClearIsNoOperator(Joined(l, op, r), seek);
    forall i: nat
      ensures !OpAtDepth(Joined(l, op, r), seek, i, 0)
    {
      JoinedOperators(l, op, r, seek, i, 0);
    }
  }

  lemma SolidIsTrimmed(s: string)
    requires Solid(s)
    ensures Trimmed(s) && Trim(s) == s
  {
    TrimKeepsTrimmed(s);
  }

  lemma JoinedSides(l: string, op: string, r: string)
    requires Solid(l) && Solid(r) && IsOperator(op)
    ensures
      var s := Joined(l, op, r);
      && Solid(s) && s[0] == l[0]
      && Trim(s[..|l| + 1]) == l && Trim(s[|l| + 3..]) == r
  {
    var s := Joined(l, op, r);
    SolidIsTrimmed(l);
    SolidIsTrimmed(r);
    assert s[..|l| + 1] == "" + l + " ";
    TrimIsUnique("", l, " ");
    assert s[|l| + 3..] == " " + r + "";
    TrimIsUnique(" ", r, "");
  }

  lemma ReadAtAnd(s: string, p: nat, l: Parsed, r: Parsed)
    requires var x := Trim(s);
      && !StartsWith(x, "!") && FirstOperator(x, AND) == Some(p)
      && Parse(Trim(x[..p])) == l && Parse(Trim(x[p + 2..])) == r
    ensures Parse(s) == AndOf(l, r)
  {}

  lemma ReadAtOr(s: string, p: nat, l: Parsed, r: Parsed)
    requires var x := Trim(s);
      && !StartsWith(x, "!") && NoOperator(x, AND) && FirstOperator(x, OR) == Some(p)
      && Parse(Trim(x[..p])) == l && Parse(Trim(x[p + 2..])) == r
    ensures Parse(s) == OrOf(l, r)
  {}

  lemma ReadSplitAtAnd(s: string, p: nat, l: string, r: string)
    requires Trim(s) == s && !StartsWith(s, "!") && FirstOperator(s, AND) == Some(p)
    requires Trim(s[..p]) == l && Trim(s[p + 2..]) == r
    ensures Parse(s) == AndOf(Parse(l), Parse(r))
  {
    ReadAtAnd(s, p, Parse(l), Parse(r));
  }

  lemma ReadSplitAtOr(s: string, p: nat, l: string, r: string)
    requires Trim(s) == s && !StartsWith(s, "!") && NoOperator(s, AND) && FirstOperator(s, OR) == Some(p)
    requires Trim(s[..p]) == l && Trim(s[p + 2..]) == r
    ensures Parse(s) == OrOf(Parse(l), Parse(r))
  {
    ReadAtOr(s, p, Parse(l), Parse(r));
  }

  lemma AndParses(l: string, r: string)
    requires Solid(l) && Solid(r) && l[0] != '!' && Depth(l) == 0 && NoOperator(l, AND)
    ensures Parse(Joined(l, AND, r)) == AndOf(Parse(l), Parse(r))
  {
    JoinSplits(l, AND, r);
    JoinedSides(l, AND, r);
    SolidIsTrimmed(Joined(l, AND, r));
    ReadSplitAtAnd(Joined(l, AND, r), |l| + 1, l, r);
  }

  lemma OrParses(l: string, r: string)
    requires Solid(l) && Solid(r) && l[0] != '!' && Depth(l) == 0
    requires NoOperator(l, AND) && NoOperator(l, OR) && NoOperator(r, AND)
    ensures Parse(Joined(l, OR, r)) == OrOf(Parse(l), Parse(r))
  {
    JoinHides(l, OR, r, AND);
    JoinSplits(l, OR, r);
    JoinedSides(l, OR, r);
    SolidIsTrimmed(Joined(l, OR, r));
    ReadSplitAtOr(Joined(l, OR, r), |l| + 1, l, r);
  }

  lemma NotParses(x: string)
    requires Solid(x)
    ensures Parse("!" + x) == NotOf(Parse(x))
  {
    SolidIsTrimmed("!" + x);
    assert ("!" + x)[1..] == x;
    SolidIsTrimmed(x);
  }

  lemma BracketsParse(s: string)
    requires NoOperators("(" + s + ")")
    ensures Parse("(" + s + ")") == Parse(s)
  {
    SolidIsTrimmed("(" + s + ")");
    assert ("(" + s + ")")[1..|s| + 1] == s;
  }

  lemma NotFits(x: string, inline: bool, level: nat)
    requires Fits(x, inline, level)
    ensures Fits("!" + x, inline, level)
    ensures NoOperator(x, AND) ==> NoOperator("!" + x, AND)
  {
    FlatText("!");
    DepthOfJoin("!", x);
    ClearIsNoOperator(x, AND);
    ClearIsNoOperator("!" + x, AND);
    if NoOperator(x, AND) {
      PrefixKeepsClear("!", x, AND, 0);
    }
    forall d: int | d < 0 <= level + d
      ensures Clear("!" + x, AND, d) && Clear("!" + x, OR, d)
    {
      assert Clear(x, AND, d) && Clear(x, OR, d);
      PrefixKeepsClear("!", x, AND, d);
      PrefixKeepsClear("!", x, OR, d);
    }
  }

  lemma JoinFits(l: string, op: string, r: string, inline: bool, level: nat)
    requires Solid(l) && Solid(r) && Depth(l) == 0 && IsOperator(op)
    requires Hidden(l, level) && Fits(r, inline, level)
    ensures Fits(Joined(l, op, r), inline, level)
  {
    JoinedParts(l, op, r);
    forall d: int | d < 0 <= level + d
      ensures Clear(Joined(l, op, r), AND, d) && Clear(Joined(l, op, r), OR, d)
    {
      assert Clear(l, AND, d) && Clear(l, OR, d) && Clear(r, AND, d) && Clear(r, OR, d);
      forall i: nat
        ensures !OpAtDepth(Joined(l, op, r), AND, i, d) && !OpAtDepth(Joined(l, op, r), OR, i, d)
      {
        JoinedOperators(l, op, r, AND, i, d);
        JoinedOperators(l, op, r, OR, i, d);
      }
    }
  }

  // ------------------------------------------------------------------ leaves

  lemma AroundBrackets(a: string, m: string, b: string)
    ensures
      var s := (a + "(") + m + (")" + b);
      && s[..|a|] == a && s[|a|] == '('
      && s[|a| + 1..|a| + 1 + |m|] == m
      && s[|a| + 1 + |m|] == ')' && s[|a| + 2 + |m|..] == b
  {}

  lemma Extracted(s: string, keyword: string, i: nat, j: nat, content: string)
    requires StartsWith(s, keyword) && '(' in s && Find(s, '(') == Some(i) && FindLast(s, ')') == Some(j)
    requires i + 1 < j <= |s| && s[i + 1..j] == content
    ensures ExtractPattern(s, keyword) == Ok(TrimQuotes(Trim(content)))
  {}

  lemma ExtractBetween(s: string, keyword: string, content: string)
    requires '(' !in keyword && |content| > 0
    requires var (i, j) := (|keyword|, |keyword| + 1 + |content|);
      && j < |s| && s[..i] == keyword && s[i] == '(' && s[i + 1..j] == content
      && s[j] == ')' && ')' !in s[j + 1..]
    ensures ExtractPattern(s, keyword) == Ok(TrimQuotes(Trim(content)))
  {
    FindIs(s, '(', |keyword|);
    FindLastIs(s, ')', |keyword| + 1 + |content|);
    Extracted(s, keyword, |keyword|, |keyword| + 1 + |content|, content);
  }

  lemma ExtractFrom(keyword: string, content: string, tail: string)
    requires '(' !in keyword && ')' !in tail && |content| > 0
    ensures ExtractPattern((keyword + "(") + content + (")" + tail), keyword) == Ok(TrimQuotes(Trim(content)))
  {
    AroundBrackets(keyword, content, tail);
    ExtractBetween((keyword + "(") + content + (")" + tail), keyword, content);
  }

  /** The leaf text, grouped the way the parser takes it apart. */
  lemma LeafTextParts(t: PointcutExpr)
    requires t.IsLeaf()
    ensures
      var k := if Depth(t.pattern) < 0 then -Depth(t.pattern) else 0;
      LeafText(t) == (Keyword(t) + "(") + ("\"" + t.pattern + "\"") + (")" + Opened(k))
  {
    var k := if Depth(t.pattern) < 0 then -Depth(t.pattern) else 0;
    RegroupQuoted(Keyword(t), "(", "\"", t.pattern, "\"", ")", Opened(k));
    assert "(\"" == "(" + "\"" && "\")" == "\"" + ")";
  }

  /** The keyword decides which leaf is read. */
  lemma KeywordDecides(t: PointcutExpr, s: string)
    requires t.IsLeaf() && StartsWith(s, Keyword(t) + "(")
    ensures ParseLeaf(s) == match ExtractPattern(s, Keyword(t)) case Ok(p) => Ok(t.(pattern := p)) case Err(e) => Err(e)
  {
    var n := |Keyword(t)| + 1;
    assert s[..n][0] == s[0];
    assert |s| >= 10 ==> s[..10][0] == s[0];
    assert |s| >= 7 ==> s[..7][0] == s[0];
  }

  lemma LeafTextSolid(t: PointcutExpr)
    requires t.IsLeaf()
    ensures Solid(LeafText(t)) && LeafText(t)[0] == Keyword(t)[0]
  {}

  lemma LeafReads(t: PointcutExpr, content: string, tail: string)
    requires t.IsLeaf() && ')' !in tail && |content| > 0
    ensures ParseLeaf((Keyword(t) + "(") + content + (")" + tail)) == Ok(t.(pattern := TrimQuotes(Trim(content))))
  {
    KeywordDecides(t, (Keyword(t) + "(") + content + (")" + tail));
    ExtractFrom(Keyword(t), content, tail);
  }

  lemma LeafParses(t: PointcutExpr)
    requires t.IsLeaf() && Unquoted(t.pattern)
    ensures ParseLeaf(LeafText(t)) == Ok(t)
  {
    var k := if Depth(t.pattern) < 0 then -Depth(t.pattern) else 0;
    var quoted := "\"" + t.pattern + "\"";
    LeafTextParts(t);
    LeafReads(t, quoted, Opened(k));
    TrimKeepsTrimmed(quoted);
    QuotesAround(t.pattern);
  }

  lemma NothingExtracted(keyword: string)
    requires '(' !in keyword && ')' !in keyword
    ensures ExtractPattern(keyword + "()", keyword) == Err("Empty pattern")
  {
    var (s, n) := (keyword + "()", |keyword|);
    assert s[..n] == keyword && s[n] == '(' && s[n + 1] == ')';
    FindIs(s, '(', n);
    FindLastIs(s, ')', n + 1);
  }

  lemma EmptyText(t: PointcutExpr)
    requires t.IsLeaf()
    ensures var s := Keyword(t) + "()";
      StartsWith(s, Keyword(t) + "(") && Trimmed(s) && s[0] != '!' && s[0] != '(' && '&' !in s && '|' !in s
  {
    assert (Keyword(t) + "()")[..|Keyword(t)| + 1] == Keyword(t) + "(";
  }

  /** A leaf with nothing between its brackets is refused. */
  lemma EmptyPatternRefused(t: PointcutExpr)
    requires t.IsLeaf()
    ensures Parse(Keyword(t) + "()") == Err("Empty pattern")
  {
    EmptyText(t);
    NothingExtracted(Keyword(t));
    KeywordDecides(t, Keyword(t) + "()");
    NoOperatorChars(Keyword(t) + "()");
    ParseAtLeaf(Keyword(t) + "()");
  }

  lemma NothingClosed(keyword: string, b: string)
    requires '(' !in keyword && ')' !in keyword && ')' !in b
    ensures ExtractPattern(keyword + "(" + b, keyword) == Err("Missing closing parenthesis")
    ensures StartsWith(keyword + "(" + b, keyword + "(")
  {
    var (s, n) := (keyword + "(" + b, |keyword|);
    assert s[..n] == keyword && s[n] == '(' && s[..n + 1] == keyword + "(";
    FindIs(s, '(', n);
    assert ')' !in s;
  }

  /** So is one that is never closed. */
  lemma UnclosedRefused(t: PointcutExpr, b: string)
    requires t.IsLeaf() && ')' !in b
    ensures ParseLeaf(Keyword(t) + "(" + b) == Err("Missing closing parenthesis")
  {
    NothingClosed(Keyword(t), b);
    KeywordDecides(t, Keyword(t) + "(" + b);
  }

  /** A text with none of the keywords. */
  lemma UnknownRefused(s: string)
    requires s == "" || (s[0] != 'e' && s[0] != 'w' && s[0] != 'n')
    ensures ParseLeaf(s) == Err("Unknown pointcut pattern: " + s)
  {
    assert |s| >= 10 ==> s[..10][0] == s[0];
    assert |s| >= 7 ==> s[..7][0] == s[0];
    assert |s| >= 5 ==> s[..5][0] == s[0];
  }

  lemma NoOperatorChars(s: string)
    requires '&' !in s && '|' !in s
    ensures NoOperators(s)
  {
    forall i: nat, op | IsOperator(op)
      ensures !OpAt(s, op, i)
    {
      assert i + 2 <= |s| ==> s[i..i + 2][0] == s[i];
    }
  }

  lemma ParseAtLeaf(s: string)
    requires Trimmed(s) && |s| > 0 && s[0] != '!' && s[0] != '(' && NoOperators(s)
    ensures Parse(s) == ParseLeaf(s)
  {
    TrimKeepsTrimmed(s);
  }

  lemma LeafPrints(t: PointcutExpr)
    requires t.IsLeaf() && LeafOk(t)
    ensures Parse(LeafText(t)) == Ok(t)
    ensures Solid(LeafText(t)) && LeafText(t)[0] != '!'
  {
    LeafParses(t);
    LeafTextSolid(t);
    ParseAtLeaf(LeafText(t));
  }

  lemma LastLeafIsStart(t: PointcutExpr)
    requires t.IsLeaf()
    ensures LeafText(t) == "" + LastLeafText(t) + Opened(if Depth(t.pattern) < 0 then -Depth(t.pattern) else 0)
  {}

  lemma LastLeafParts(t: PointcutExpr)
    requires t.IsLeaf()
    ensures LastLeafText(t) == (Keyword(t) + "(") + ("\"" + t.pattern + "\"") + (")" + "")
  {
    RegroupQuoted(Keyword(t), "(", "\"", t.pattern, "\"", ")", "");
    assert "(\"" == "(" + "\"" && "\")" == "\"" + ")";
    assert LastLeafText(t) + "" == LastLeafText(t);
  }

  lemma LastLeafReads(t: PointcutExpr)
    requires t.IsLeaf() && Unquoted(t.pattern)
    ensures ParseLeaf(LastLeafText(t)) == Ok(t)
  {
    var quoted := "\"" + t.pattern + "\"";
    LastLeafParts(t);
    LeafReads(t, quoted, "");
    TrimKeepsTrimmed(quoted);
    QuotesAround(t.pattern);
  }

  /** Without the brackets behind it a leaf hides its operators as well as with them. */
  lemma LastLeafPrints(t: PointcutExpr, level: nat)
    requires t.IsLeaf() && LeafOk(t) && Hidden(LeafText(t), level)
    ensures Parse(LastLeafText(t)) == Ok(t) && NoOperators(LastLeafText(t)) && Hidden(LastLeafText(t), level)
    ensures Solid(LastLeafText(t)) && LastLeafText(t)[0] != '!'
  {
    var s := LastLeafText(t);
    LastLeafReads(t);
    LastLeafIsStart(t);
    assert s[0] == Keyword(t)[0] && s[|s| - 1] == ')';
    PartFits("", s, Opened(if Depth(t.pattern) < 0 then -Depth(t.pattern) else 0), false, level);
    ParseAtLeaf(s);
  }

  // ------------------------------------------------------------------ printing

  /** What the printed form of a left operand provides. */
  ghost predicate GoodOperand(s: string, t: PointcutExpr, bracketed: bool, level: nat) {
    && Solid(s) && s[0] != '!' && Fits(s, true, level)
    && Parse(s) == Ok(t)
    && NoOperator(s, AND)
    && (bracketed || t.IsLeaf() ==> NoOperator(s, OR))
  }

  /** What the printer promises about the text of a tree. */
  ghost predicate GoodText(s: string, t: PointcutExpr, inline: bool, level: nat, exposed: bool) {
    && Solid(s) && Fits(s, inline, level) && Parse(s) == Ok(t)
    && (!exposed || t.Or? || t.IsLeaf() ==> NoOperator(s, AND))
    && (t.IsLeaf() ==> NoOperator(s, OR))
    && (!t.Not? ==> s[0] != '!')
  }

  lemma BracketedIsGood(x: string, inline: bool, level: nat)
    requires Fits(x, inline, level + 1)
    ensures
      var s := "(" + x + ")";
      Solid(s) && s[0] == '(' && Fits(s, inline, level) && NoOperators(s) && Parse(s) == Parse(x)
  {
    BracketsHide(x, level);
    BracketsDepth(x);
    BracketsParse(x);
  }

  lemma AndPrinted(a: string, b: string, l: PointcutExpr, r: PointcutExpr, bracketed: bool,
                   inline: bool, level: nat, exposed: bool)
    requires GoodOperand(a, l, bracketed, Deeper(!exposed, level)) && GoodText(b, r, inline, Deeper(!exposed, level), true)
    ensures GoodText(if exposed then Joined(a, AND, b) else "(" + Joined(a, AND, b) + ")", And(l, r), inline, level, exposed)
  {
    AndParses(a, b);
    JoinFits(a, AND, b, inline, Deeper(!exposed, level));
    JoinedSides(a, AND, b);
    if !exposed {
      BracketedIsGood(Joined(a, AND, b), inline, level);
    }
  }

  lemma OrPrinted(s: string, a: string, b: string, l: PointcutExpr, r: PointcutExpr, bracketed: bool,
                  inline: bool, level: nat, exposed: bool)
    requires s == Joined(a, OR, b) && (bracketed || l.IsLeaf())
    requires GoodOperand(a, l, bracketed, level) && GoodText(b, r, inline, level, false)
    ensures GoodText(s, Or(l, r), inline, level, exposed)
  {
    OrParses(a, b);
    JoinFits(a, OR, b, inline, level);
    JoinHides(a, OR, b, AND);
    JoinedSides(a, OR, b);
  }

  lemma NotPrinted(x: string, t: PointcutExpr, inline: bool, level: nat, exposed: bool)
    requires GoodText(x, t, inline, level, exposed)
    ensures GoodText("!" + x, Not(t), inline, level, exposed)
  {
    NotParses(x);
    NotFits(x, inline, level);
  }

  lemma {:induction false} OperandPrints(l: PointcutExpr, bracketed: bool, level: nat)
    requires Printable(l, true, Deeper(bracketed, level), true)
    requires bracketed || l.Or? || l.IsLeaf()
    ensures GoodOperand(Operand(l, bracketed), l, bracketed, level)
    decreases l, 1
  {
    Prints(l, true, Deeper(bracketed, level), true);
    if bracketed {
      BracketedIsGood(Print(l, false, true), true, level);
    }
  }

  lemma PrintedJoin(t: PointcutExpr, last: bool, exposed: bool)
    requires t.And? || t.Or?
    ensures Print(t, last, exposed) ==
      if t.Or? then Joined(Operand(t.left, !t.left.IsLeaf()), OR, Print(t.right, last, false))
      else
        var s := Joined(Operand(t.left, t.left.And? || t.left.Not?), AND, Print(t.right, last, true));
        if exposed then s else "(" + s + ")"
  {
    assert " && " == " " + AND + " " && " || " == " " + OR + " ";
  }

  /** Everything the printer promises about a printable tree. */
  lemma {:induction false} Prints(t: PointcutExpr, inline: bool, level: nat, exposed: bool)
    requires Printable(t, inline, level, exposed)
    ensures GoodText(Print(t, !inline, exposed), t, inline, level, exposed)
    decreases t, 0
  {
    match t {
      case And(l, r) =>
        var bracketed := l.And? || l.Not?;
        OperandPrints(l, bracketed, Deeper(!exposed, level));
        Prints(r, inline, Deeper(!exposed, level), true);
        AndPrinted(Operand(l, bracketed), Print(r, !inline, true), l, r, bracketed, inline, level, exposed);
        PrintedJoin(t, !inline, exposed);
      case Or(l, r) =>
        OperandPrints(l, !l.IsLeaf(), level);
        Prints(r, inline, level, false);
        PrintedJoin(t, !inline, exposed);
        OrPrinted(Print(t, !inline, exposed), Operand(l, !l.IsLeaf()), Print(r, !inline, false), l, r, !l.IsLeaf(), inline, level, exposed);
      case Not(x) =>
        Prints(x, inline, level, exposed);
        NotPrinted(Print(x, !inline, exposed), x, inline, level, exposed);
      case _ =>
        LeafPrints(t);
        LastLeafPrints(t, level);
    }
  }

  // ------------------------------------------------------------------ parsed trees are printable

  /** A tree fit for a deeper level, left of an operator or not, is fit for this one. */
  lemma {:induction false} DeeperFits(t: PointcutExpr, inline: bool, level: nat, e: bool, exposed: bool)
    requires Printable(t, inline, level + 1, e)
    ensures Printable(t, inline, level, exposed)
  {
    match t {
      case And(l, r) =>
        ShallowerFits(l, true, Deeper(l.And? || l.Not?, Deeper(!e, level + 1)), Deeper(l.And? || l.Not?, Deeper(!exposed, level)), true);
        ShallowerFits(r, inline, Deeper(!e, level + 1), Deeper(!exposed, level), true);
      case Or(l, r) =>
        DeeperFits(l, true, Deeper(!l.IsLeaf(), level), true, true);
        DeeperFits(r, inline, level, false, false);
      case Not(x) =>
        DeeperFits(x, inline, level, e, exposed);
      case _ =>
    }
  }

  lemma {:induction false} ShallowerFits(t: PointcutExpr, inline: bool, level: nat, lower: nat, exposed: bool)
    requires Printable(t, inline, level, exposed) && lower <= level
    ensures Printable(t, inline, lower, exposed)
  {
    match t {
      case And(l, r) =>
        ShallowerFits(l, true, Deeper(l.And? || l.Not?, Deeper(!exposed, level)), Deeper(l.And? || l.Not?, Deeper(!exposed, lower)), true);
        ShallowerFits(r, inline, Deeper(!exposed, level), Deeper(!exposed, lower), true);
      case Or(l, r) =>
        ShallowerFits(l, true, Deeper(!l.IsLeaf(), level), Deeper(!l.IsLeaf(), lower), true);
        ShallowerFits(r, inline, level, lower, false);
      case Not(x) =>
        ShallowerFits(x, inline, level, lower, exposed);
      case _ =>
    }
  }

  /** What shows at no depth of a text shows at no depth of a part that starts at depth zero. */
  lemma PartFits(a: string, m: string, b: string, inline: bool, level: nat)
    requires Depth(a) == 0 && Hidden(a + m + b, level) && (inline ==> Depth(m) == 0)
    ensures Fits(m, inline, level)
    ensures NoOperator(a + m + b, AND) ==> NoOperator(m, AND)
    ensures NoOperator(a + m + b, OR) ==> NoOperator(m, OR)
  {
    var s := a + m + b;
    forall d: int | Clear(s, AND, d)
      ensures Clear(m, AND, d)
    {
      ClearPart(a, m, b, AND, d);
    }
    forall d: int | Clear(s, OR, d)
      ensures Clear(m, OR, d)
    {
      ClearPart(a, m, b, OR, d);
    }
    ClearIsNoOperator(s, AND);
    ClearIsNoOperator(m, AND);
    ClearIsNoOperator(s, OR);
    ClearIsNoOperator(m, OR);
    forall d: int | d < 0 <= level + d
      ensures Clear(m, AND, d) && Clear(m, OR, d)
    {
      assert Clear(s, AND, d) && Clear(s, OR, d);
    }
  }

  lemma TrimFits(s: string, inline: bool, level: nat)
    requires Fits(s, inline, level)
    ensures Fits(Trim(s), inline, level)
    ensures NoOperator(s, AND) ==> NoOperator(Trim(s), AND)
    ensures NoOperator(s, OR) ==> NoOperator(Trim(s), OR)
  {
    var a, b := TrimParts(s);
    SpaceIsFlat(a);
    TrimKeepsDepth(s);
    PartFits(a, Trim(s), b, inline, level);
  }

  /** What is known about the tree t read from the text s. */
  ghost predicate Fitting(s: string, t: PointcutExpr, inline: bool, level: nat) {
    var x := Trim(s);
    && Printable(t, inline, level, true)
    && (NoOperator(x, AND) ==> Printable(t, inline, level, false))
    && (t.Not? && !StartsWith(x, "!") ==> Printable(t, inline, level + 1, true))
    && (t.Or? && NoOperators(x) ==> Printable(t, inline, level + 1, true))
  }

  lemma LeftOfOperator(x: string, op: string, p: nat, level: nat)
    requires Trimmed(x) && !StartsWith(x, "!") && Hidden(x, level)
    requires IsOperator(op) && FirstOperator(x, op) == Some(p)
    ensures var left := Trim(x[..p]);
      && Fits(left, true, level) && NoOperator(left, op) && !StartsWith(left, "!")
      && (NoOperator(x, AND) ==> NoOperator(left, AND))
  {
    var l, rest := x[..p], x[p..];
    assert x == l + rest == "" + l + rest;
    DepthInLeft(l, rest, p);
    NoOperatorInLeft(l, rest, op);
    PartFits("", l, rest, true, level);
    TrimFits(l, true, level);
    if p > 0 {
      assert TrimStart(l) == l;
      var b := TrimEndParts(l);
      assert Trim(l) != "" ==> Trim(l)[0] == x[0];
      assert x[..1] == [x[0]];
    }
  }

  lemma RightOfOperator(x: string, op: string, p: nat, inline: bool, level: nat)
    requires Fits(x, inline, level) && IsOperator(op) && FirstOperator(x, op) == Some(p)
    ensures var right := Trim(x[p + 2..]);
      Fits(right, inline, level) && (NoOperator(x, AND) ==> NoOperator(right, AND))
  {
    var a, b := x[..p] + op, x[p + 2..];
    assert x == a + b == a + b + "";
    DepthInLeft(x[..p], x[p..], p);
    assert x == x[..p] + x[p..];
    FlatText(op);
    DepthOfJoin(x[..p], op);
    DepthOfJoin(a, b);
    PartFits(a, b, "", inline, level);
    TrimFits(b, inline, level);
  }

  lemma AfterNot(x: string, inline: bool, level: nat)
    requires StartsWith(x, "!") && Fits(x, inline, level)
    ensures Fits(Trim(x[1..]), inline, level)
    ensures NoOperator(x, AND) ==> NoOperator(Trim(x[1..]), AND)
  {
    assert x == "!" + x[1..] == "!" + x[1..] + "";
    FlatText("!");
    DepthOfJoin("!", x[1..]);
    PartFits("!", x[1..], "", inline, level);
    TrimFits(x[1..], inline, level);
  }

  // ------------------------------------------------------------------ leaves of accepted texts

  lemma {:induction false} OnlyOpening(s: string, i: nat)
    requires ')' !in s && i <= |s|
    ensures DepthAt(s, i) >= 0
    decreases i
  {
    if i > 0 {
      OnlyOpening(s, i - 1);
    }
  }

  lemma QuotesAreFlat(s: string)
    requires AllQuotes(s)
    ensures Depth(s) == 0
  {
    FlatText(s);
  }

  lemma {:induction false} OpenedDepth(n: nat)
    ensures Depth(Opened(n)) == n
  {
    if n > 0 {
      OpenedDepth(n - 1);
      DepthOfJoin(Opened(n - 1), "(");
      assert DepthAt("(", 1) == 1;
    }
  }

  lemma LeafKeyword(x: string)
    requires ParseLeaf(x).Ok?
    ensures
      var t := ParseLeaf(x).value;
      t.IsLeaf() && StartsWith(x, Keyword(t) + "(") && ExtractPattern(x, Keyword(t)) == Ok(t.pattern)
  {}

  /** What `ExtractPattern` found when it succeeds. */
  lemma WhatWasExtracted(x: string, keyword: string)
    requires ExtractPattern(x, keyword).Ok?
    ensures Find(x, '(').Some? && FindLast(x, ')').Some?
    ensures Find(x, '(').value + 1 < FindLast(x, ')').value
    ensures ExtractPattern(x, keyword) == Ok(TrimQuotes(Trim(x[Find(x, '(').value + 1..FindLast(x, ')').value])))
  {}

  lemma Cut(x: string, i: nat, j: nat)
    requires i < j < |x|
    ensures x == x[..i] + x[i..j] + ([x[j]] + x[j + 1..])
  {}

  lemma ExtractedParts(x: string, keyword: string) returns (content: string, tail: string)
    requires '(' !in keyword && StartsWith(x, keyword + "(") && ExtractPattern(x, keyword).Ok?
    ensures x == (keyword + "(") + content + (")" + tail) && ')' !in tail
    ensures ExtractPattern(x, keyword) == Ok(TrimQuotes(Trim(content)))
  {
    var n := |keyword| + 1;
    assert x[..n][..|keyword|] == keyword && x[..n][|keyword|] == '(';
    FindIs(x, '(', |keyword|);
    WhatWasExtracted(x, keyword);
    var end := FindLast(x, ')').value;
    content, tail := x[n..end], x[end + 1..];
    Cut(x, n, end);
  }

  /** An accepted leaf text, taken apart around the pattern read from it. */
  lemma LeafParts(x: string) returns (before: string, after: string, closing: string, tail: string)
    requires ParseLeaf(x).Ok?
    ensures
      var t := ParseLeaf(x).value;
      && t.IsLeaf() && Unquoted(t.pattern)
      && x == before + t.pattern + after
      && Depth(before) == 1 && Depth(after) == Depth(tail) - 1 && ')' !in tail
      && after == closing + tail
  {
    var t := ParseLeaf(x).value;
    var k := Keyword(t);
    var content: string;
    LeafKeyword(x);
    content, tail := ExtractedParts(x, k);
    var a, b := AroundPattern(content);
    KeywordDepth(k);
    DepthOfJoin(k + "(", a);
    DepthOfJoin(b, ")" + tail);
    DepthOfJoin(")", tail);
    assert DepthAt(")", 1) == -1;
    before, after, closing := k + "(" + a, b + (")" + tail), b + ")";
    Regrouped(b, ")", tail);
    RegroupAround(k + "(", a, t.pattern, b, ")" + tail);
  }

  lemma Regrouped(a: string, b: string, c: string)
    ensures a + (b + c) == a + b + c
  {}

  lemma KeywordDepth(k: string)
    requires k == "execution" || k == "within" || k == "name"
    ensures Depth(k + "(") == 1
  {
    FlatText(k);
    DepthOfJoin(k, "(");
    assert DepthAt("(", 1) == 1;
  }

  lemma AroundPattern(content: string) returns (a: string, b: string)
    ensures content == a + TrimQuotes(Trim(content)) + b
    ensures Depth(a) == 0 && Depth(b) == 0 && Unquoted(TrimQuotes(Trim(content)))
  {
    var s, e := TrimParts(content);
    var q, r := QuotesParts(Trim(content));
    a, b := s + q, r + e;
    SpaceIsFlat(s);
    SpaceIsFlat(e);
    QuotesAreFlat(q);
    QuotesAreFlat(r);
    DepthOfJoin(s, q);
    DepthOfJoin(r, e);
  }

  lemma PrintedLeafDepth(t: PointcutExpr)
    requires t.IsLeaf()
    ensures
      var k := if Depth(t.pattern) < 0 then -Depth(t.pattern) else 0;
      var head, tail := Keyword(t) + "(\"", "\")" + Opened(k);
      && LeafText(t) == head + t.pattern + tail
      && Depth(head) == 1 && NoOpChars(head) && NoOpChars(tail)
      && Depth(LeafText(t)) == Depth(t.pattern) + k
  {
    var k := if Depth(t.pattern) < 0 then -Depth(t.pattern) else 0;
    var head, tail := Keyword(t) + "(\"", "\")" + Opened(k);
    assert LeafText(t) == head + t.pattern + tail;
    KeywordDepth(Keyword(t));
    FlatText("\"");
    assert head == Keyword(t) + "(" + "\"";
    DepthOfJoin(Keyword(t) + "(", "\"");
    DepthOfJoin("\"", ")");
    assert "\")" == "\"" + ")" && DepthAt(")", 1) == -1;
    OpenedDepth(k);
    DepthOfJoin("\")", Opened(k));
    DepthOfJoin(head, t.pattern);
    DepthOfJoin(head + t.pattern, tail);
  }

  lemma LeafMoves(x: string, t: PointcutExpr, before: string, after: string, op: string, d: int)
    requires t.IsLeaf() && x == before + t.pattern + after && Depth(before) == 1
    requires IsOperator(op) && Clear(x, op, d)
    ensures Clear(LeafText(t), op, d)
  {
    var k := if Depth(t.pattern) < 0 then -Depth(t.pattern) else 0;
    PrintedLeafDepth(t);
    ClearMoves(before, t.pattern, after, Keyword(t) + "(\"", "\")" + Opened(k), op, d);
  }

  lemma LeafImage(x: string, inline: bool, level: nat)
    requires ParseLeaf(x).Ok? && NoOperators(x) && Fits(x, inline, level)
    ensures
      var t := ParseLeaf(x).value;
      t.IsLeaf() && LeafOk(t) && Fits(LeafText(t), inline, level)
  {
    var t := ParseLeaf(x).value;
    var before, after, closing, tail := LeafParts(x);
    ClearIsNoOperator(x, AND);
    ClearIsNoOperator(x, OR);
    LeafMoves(x, t, before, after, AND, 0);
    LeafMoves(x, t, before, after, OR, 0);
    ClearIsNoOperator(LeafText(t), AND);
    ClearIsNoOperator(LeafText(t), OR);
    forall d: int | d < 0 <= level + d
      ensures Clear(LeafText(t), AND, d) && Clear(LeafText(t), OR, d)
    {
      assert Clear(x, AND, d) && Clear(x, OR, d);
      LeafMoves(x, t, before, after, AND, d);
      LeafMoves(x, t, before, after, OR, d);
    }
    PrintedLeafDepth(t);
    OnlyOpening(tail, |tail|);
    DepthOfJoin(before, t.pattern);
    DepthOfJoin(before + t.pattern, after);
  }

  // ------------------------------------------------------------------ the main results

  lemma AndFits(s: string, p: nat, l: PointcutExpr, r: PointcutExpr, inline: bool, level: nat)
    requires var x := Trim(s);
      FirstOperator(x, AND) == Some(p) && !StartsWith(x, "!") && Fits(x, inline, level)
    requires Fitting(Trim(Trim(s)[..p]), l, true, level) && Fitting(Trim(Trim(s)[p + 2..]), r, inline, level)
    ensures Fitting(s, And(l, r), inline, level)
  {
    var x := Trim(s);
    var a, b := TrimParts(s);
    LeftOfOperator(x, AND, p, level);
    TrimTwice(x[..p]);
    assert l.And? ==> Printable(l, true, level, false);
  }

  lemma OrFits(s: string, p: nat, l: PointcutExpr, r: PointcutExpr, inline: bool, level: nat)
    requires var x := Trim(s);
      NoOperator(x, AND) && FirstOperator(x, OR) == Some(p) && !StartsWith(x, "!") && Fits(x, inline, level)
    requires Fitting(Trim(Trim(s)[..p]), l, true, level) && Fitting(Trim(Trim(s)[p + 2..]), r, inline, level)
    ensures Fitting(s, Or(l, r), inline, level)
  {
    var x := Trim(s);
    var a, b := TrimParts(s);
    LeftOfOperator(x, OR, p, level);
    RightOfOperator(x, OR, p, inline, level);
    TrimTwice(x[..p]);
    TrimTwice(x[p + 2..]);
    assert l.And? ==> Printable(l, true, level, false);
  }

  lemma NotFitsHere(s: string, t: PointcutExpr, inline: bool, level: nat)
    requires StartsWith(Trim(s), "!") && Fits(Trim(s), inline, level)
    requires Fitting(Trim(Trim(s)[1..]), t, inline, level)
    ensures Fitting(s, Not(t), inline, level)
  {
    AfterNot(Trim(s), inline, level);
    TrimTwice(Trim(s)[1..]);
  }

  lemma BracketedFits(s: string, t: PointcutExpr, inline: bool, level: nat)
    requires Printable(t, inline, level + 1, true)
    ensures Fitting(s, t, inline, level)
  {
    DeeperFits(t, inline, level, true, true);
    DeeperFits(t, inline, level, true, false);
  }

  lemma LeafFits(s: string, t: PointcutExpr, inline: bool, level: nat)
    requires NoOperators(Trim(s)) && ParseLeaf(Trim(s)) == Ok(t) && Fits(Trim(s), inline, level)
    ensures Fitting(s, t, inline, level)
  {
    LeafImage(Trim(s), inline, level);
  }

  lemma InsideFits(x: string, inline: bool, level: nat)
    requires InParens(x) && NoOperators(x) && Fits(x, inline, level)
    ensures Fits(x[1..|x| - 1], inline, level + 1)
  {
    var inner := x[1..|x| - 1];
    assert x == "(" + inner + ")";
    BracketsHide(inner, level);
    BracketsDepth(inner);
  }

  lemma Sides(x: string, op: string, p: nat, inline: bool, level: nat)
    requires Trimmed(x) && !StartsWith(x, "!") && Fits(x, inline, level)
    requires IsOperator(op) && FirstOperator(x, op) == Some(p)
    ensures Fits(Trim(x[..p]), true, level) && Fits(Trim(x[p + 2..]), inline, level)
    ensures |Trim(x[..p])| < |x| && |Trim(x[p + 2..])| < |x|
  {
    LeftOfOperator(x, op, p, level);
    RightOfOperator(x, op, p, inline, level);
  }

  lemma {:induction false} AndBranchFits(s: string, p: nat, inline: bool, level: nat, t: PointcutExpr)
    requires var x := Trim(s);
      !StartsWith(x, "!") && FirstOperator(x, AND) == Some(p) && Fits(x, inline, level) && |x| <= |s|
    requires Parse(s) == Ok(t)
    ensures Fitting(s, t, inline, level)
    decreases |s|, 0
  {
    var x := Trim(s);
    var a, b := TrimParts(s);
    var left, right := Trim(x[..p]), Trim(x[p + 2..]);
    Sides(x, AND, p, inline, level);
    ReadAtAnd(s, p, Parse(left), Parse(right));
    ParsedFits(left, true, level);
    ParsedFits(right, inline, level);
    AndFits(s, p, Parse(left).value, Parse(right).value, inline, level);
  }

  lemma {:induction false} OrBranchFits(s: string, p: nat, inline: bool, level: nat, t: PointcutExpr)
    requires var x := Trim(s);
      !StartsWith(x, "!") && NoOperator(x, AND) && FirstOperator(x, OR) == Some(p) && Fits(x, inline, level) && |x| <= |s|
    requires Parse(s) == Ok(t)
    ensures Fitting(s, t, inline, level)
    decreases |s|, 0
  {
    var x := Trim(s);
    var a, b := TrimParts(s);
    var left, right := Trim(x[..p]), Trim(x[p + 2..]);
    Sides(x, OR, p, inline, level);
    ReadAtOr(s, p, Parse(left), Parse(right));
    ParsedFits(left, true, level);
    ParsedFits(right, inline, level);
    OrFits(s, p, Parse(left).value, Parse(right).value, inline, level);
  }

  lemma {:induction false} NotBranchFits(s: string, inline: bool, level: nat)
    requires var x := Trim(s); StartsWith(x, "!") && Fits(x, inline, level) && |x| <= |s|
    requires Parse(s).Ok?
    ensures Fitting(s, Parse(s).value, inline, level)
    decreases |s|, 0
  {
    var x := Trim(s);
    AfterNot(x, inline, level);
    ParsedFits(Trim(x[1..]), inline, level);
    NotFitsHere(s, Parse(Trim(x[1..])).value, inline, level);
  }

  /** By induction on the text: each branch of the parser yields a tree that fits where its text stood. */
  lemma {:induction false} ParsedFits(s: string, inline: bool, level: nat)
    requires Fits(s, inline, level) && Parse(s).Ok?
    ensures Fitting(s, Parse(s).value, inline, level)
    decreases |s|, 1
  {
    var x := Trim(s);
    TrimFits(s, inline, level);
    if StartsWith(x, "!") {
      NotBranchFits(s, inline, level);
    } else if FirstOperator(x, AND).Some? {
      AndBranchFits(s, FirstOperator(x, AND).value, inline, level, Parse(s).value);
    } else if FirstOperator(x, OR).Some? {
      OrBranchFits(s, FirstOperator(x, OR).value, inline, level, Parse(s).value);
    } else if InParens(x) {
      InsideFits(x, inline, level);
      ParsedFits(x[1..|x| - 1], inline, level + 1);
      BracketedFits(s, Parse(x[1..|x| - 1]).value, inline, level);
    } else {
      LeafFits(s, Parse(s).value, inline, level);
    }
  }

  /** Every tree the parser returns is printable. */
  lemma InImage(s: string)
    requires Parse(s).Ok?
    ensures Printable(Parse(s).value, false, 0, true)
  {
    ParsedFits(s, false, 0);
  }

  /** Printing with minimal brackets, `&&` now binding weakest, and parsing gives the tree back. */
  lemma RoundTrip(t: PointcutExpr)
    requires Printable(t, false, 0, true)
    ensures Parse(Show(t)) == Ok(t)
  {
    Prints(t, false, 0, true);
  }

  /** For every text the parser accepts, what it read can be printed and read again unchanged. */
  lemma ParsePrintParse(s: string)
    requires Parse(s).Ok?
    ensures Parse(Show(Parse(s).value)) == Parse(s)
  {
    InImage(s);
    RoundTrip(Parse(s).value);
  }

  /** `Printable` is exactly the parser's image. */
  lemma ImageIsPrintable(t: PointcutExpr)
    ensures (exists s :: Parse(s) == Ok(t)) <==> Printable(t, false, 0, true)
  {
    if s :| Parse(s) == Ok(t) {
      InImage(s);
    }
    if Printable(t, false, 0, true) {
      RoundTrip(t);
    }
  }

  /** Blanks before and behind a text are ignored. */
  lemma BlanksAreIgnored(a: string, s: string, b: string)
    requires forall c | c in a + b :: c in {' ', '\t', '\n', '\U{B}', '\U{C}', '\r'}
    ensures Parse(a + s + b) == Parse(s)
  {
    TrimDropsBlanks(a, s, b, ' ');
    ParseIgnoresOuterSpace(a + s + b);
    ParseIgnoresOuterSpace(s);
  }

  lemma ParseIgnoresOuterSpace(s: string)
    ensures Parse(Trim(s)) == Parse(s)
  {
    TrimTwice(s);
  }
}
