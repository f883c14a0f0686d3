/** Which trees the parser can produce, and that printing and parsing undo each other on exactly those. */
module PointcutRoundTrip {
  import opened Common
  import opened Strings
  import opened Brackets
  import opened Pointcuts
  import opened PointcutParser
  import opened PointcutLeaves
  import opened PointcutLeafImage

  /**
   Where a subtree's text stands: at the end of the whole text with nothing after it, left of an
   operator, or inside a pair of brackets.
   */
  datatype Place = Tail | Inline | Nested

  /** What the place demands of the bracket structure of the text. */
  predicate Fits(s: string, place: Place) {
    match place
    case Tail => true
    case Inline => Depth(s) == 0
    case Nested => Balanced(s)
  }

  /** The place of a left operand of an operator that itself stands at `place`. */
  function LeftPlace(bracketed: bool, place: Place): Place {
    if bracketed || place == Nested then Nested else Inline
  }

  /** The trees in the parser's image (`InImage` and `RoundTrip` below): only their leaves are constrained. */
  predicate Printable(t: Pointcut, place: Place, exposed: bool) {
    match t
    case Or(l, r) =>
      var p := if exposed then place else Nested;
      Printable(l, LeftPlace(l.Or? || l.Not?, p), true) && Printable(r, p, true)
    case And(l, r) => Printable(l, LeftPlace(!l.IsLeaf(), place), true) && Printable(r, place, false)
    case Not(x) => Printable(x, place, exposed)
    case _ => LeafOk(t) && Fits(LeafText(t), place)
  }

  // ------------------------------------------------------------------ printed text parses back

  /** The shape of every printed text, and of the driver's `name(..)`. */
  ghost predicate Solid(s: string) {
    && |s| > 0 && Trimmed(s) && s[|s| - 1] == ')'
    && (s[0] == '(' || s[0] == '!' || s[0] == 'e' || s[0] == 'w' || s[0] == 'n')
  }

  /** An extra pair of brackets around a balanced text changes nothing, whatever the text. */
  lemma BracketsAreTransparent(s: string)
    requires Balanced(s)
    ensures Parse("(" + s + ")") == Parse(s)
  {
    BracketsAreOuter(s);
    TrimKeepsTrimmed("(" + s + ")");
  }

  ghost predicate IsOperator(op: string) { op == OR || op == AND }

  lemma JoinSplits(l: string, op: string, r: string)
    requires Solid(l) && Depth(l) == 0 && IsOperator(op) && NoOperator(l, op)
    ensures FirstOperator(l + op + r, op) == Some(|l|)
  {
    var s := l + op + r;
    assert s == l + (op + r);
    DepthInLeft(l, op + r, |l|);
    assert s[|l|..|l| + 4] == op && s[|l|] == op[0];
    assert OpAt(s, op, |l|);
    forall i: nat | i < |l|
      ensures !OpAt(s, op, i)
    {
      if i + 4 <= |l| {
        OpInLeft(l, op + r, op, i);
      } else if i + 4 <= |s| {
        assert s[i..i + 4][|l| - 1 - i] == ')';
      }
    }
  }

  lemma JoinHides(l: string, r: string)
    requires Solid(l) && Solid(r) && Depth(l) == 0 && NoOperator(l, OR) && NoOperator(r, OR)
    ensures NoOperator(l + AND + r, OR)
  {
    var s := l + AND + r;
    var head := l + AND;
    DepthOfJoin(l, AND);
    FlatText(AND);
    assert s == l + (AND + r);
    forall i: nat
      ensures !OpAt(s, OR, i)
    {
      if i >= |head| {
        OpInRight(head, r, OR, i - |head|);
        assert !OpAt(r, OR, i - |head|);
        assert !OpAt(s, OR, i);
      } else if i < |l| && i + 4 <= |l| {
        OpInLeft(l, AND + r, OR, i);
        assert !OpAt(s, OR, i);
      } else if i + 4 <= |s| {
        OrShape(s, i);
        assert i < |l| ==> s[|l| - 1] == ')';
        assert i == |l| ==> s[i + 1] == '&';
        assert |l| < i < |l| + 3 ==> s[i] == '&';
        assert i == |l| + 3 ==> s[i + 1] == r[0];
        assert !OpAt(s, OR, i);
      }
    }
  }

  lemma OrShape(s: string, i: nat)
    requires i + 4 <= |s|
    ensures s[i..i + 4] == OR ==> s[i] == ' ' && s[i + 1] == '|' && s[i + 2] == '|' && s[i + 3] == ' '
  {
    var w := s[i..i + 4];
    assert w[0] == s[i] && w[1] == s[i + 1] && w[2] == s[i + 2] && w[3] == s[i + 3];
  }

  /** The text is neither bracketed as a whole nor negated, so an operator or a leaf decides. */
  ghost predicate Undecided(s: string) { Trimmed(s) && Stripped(s).None? && !StartsWith(s, "!") }

  lemma ReadAtOr(s: string, p: nat, l: Parsed, r: Parsed)
    requires var x := Trim(s);
      && Stripped(x).None? && !StartsWith(x, "!") && FirstOperator(x, OR) == Some(p)
      && Parse(x[..p]) == l && Parse(x[p + 4..]) == r
    ensures Parse(s) == OrOf(l, r)
  {}

  lemma ReadAtAnd(s: string, p: nat, l: Parsed, r: Parsed)
    requires var x := Trim(s);
      && Stripped(x).None? && !StartsWith(x, "!") && NoOperator(x, OR) && FirstOperator(x, AND) == Some(p)
      && Parse(x[..p]) == l && Parse(x[p + 4..]) == r
    ensures Parse(s) == AndOf(l, r)
  {}

  lemma ParseAtLeaf(s: string, t: Parsed)
    requires Undecided(s) && NoOperators(s) && ParseLeaf(s) == t
    ensures Parse(s) == t
  {
    TrimKeepsTrimmed(s);
  }

  lemma JoinUndecided(l: string, op: string, r: string)
    requires Solid(l) && Solid(r) && l[0] != '!' && Depth(l) == 0 && IsOperator(op)
    ensures Undecided(l + op + r)
    ensures (l + op + r)[..|l|] == l && (l + op + r)[|l| + 4..] == r
  {
    assert l + op + r == l + (op + r);
    NotOuter(l, op + r);
  }

  lemma OrParses(l: string, r: string)
    requires Solid(l) && Solid(r) && l[0] != '!' && Depth(l) == 0 && NoOperator(l, OR)
    ensures Parse(l + OR + r) == OrOf(Parse(l), Parse(r))
  {
    JoinUndecided(l, OR, r);
    JoinSplits(l, OR, r);
    TrimKeepsTrimmed(l + OR + r);
    ReadAtOr(l + OR + r, |l|, Parse(l), Parse(r));
  }

  lemma AndParses(l: string, r: string)
    requires Solid(l) && Solid(r) && l[0] != '!' && Depth(l) == 0
    requires NoOperator(l, OR) && NoOperator(l, AND) && NoOperator(r, OR)
    ensures Parse(l + AND + r) == AndOf(Parse(l), Parse(r))
  {
    JoinUndecided(l, AND, r);
    JoinHides(l, r);
    JoinSplits(l, AND, r);
    TrimKeepsTrimmed(l + AND + r);
    ReadAtAnd(l + AND + r, |l|, Parse(l), Parse(r));
  }

  lemma NotParses(x: string)
    requires Solid(x) && Parse(x).Ok?
    ensures Parse("!" + x) == Ok(Not(Parse(x).value))
  {
    TrimKeepsTrimmed("!" + x);
    assert ("!" + x)[1..] == x;
    TrimKeepsTrimmed(x);
  }

  lemma NotFits(x: string, place: Place)
    requires Fits(x, place) && Solid(x)
    ensures Fits("!" + x, place) && Solid("!" + x)
    ensures NoOperator(x, OR) ==> NoOperator("!" + x, OR)
  {
    FlatText("!");
    DepthOfJoin("!", x);
    if place == Nested {
      BalancedJoin("!", x);
    }
    if NoOperator(x, OR) {
      forall i: nat
        ensures !OpAt("!" + x, OR, i)
      {
        if i > 0 {
          OpInRight("!", x, OR, i - 1);
        }
      }
    }
  }

  lemma JoinFits(l: string, op: string, r: string, place: Place)
    requires Solid(l) && Solid(r) && IsOperator(op) && Depth(l) == 0
    requires place == Nested ==> Balanced(l)
    requires Fits(r, place)
    ensures Fits(l + op + r, place) && Solid(l + op + r)
  {
    FlatText(op);
    DepthOfJoin(l, op);
    DepthOfJoin(l + op, r);
    if place == Nested {
      BalancedJoin(l, op);
      BalancedJoin(l + op, r);
    }
  }

  /** What the printer promises about the text of a tree. */
  ghost predicate GoodText(s: string, t: Pointcut, place: Place, exposed: bool) {
    && Solid(s) && Fits(s, place) && Parse(s) == Ok(t)
    && (!exposed || t.And? || t.IsLeaf() ==> NoOperator(s, OR))
    && (t.IsLeaf() ==> NoOperator(s, AND))
    && (!t.Not? ==> s[0] != '!')
  }

  /** What the printed form of a left operand provides. */
  ghost predicate GoodOperand(s: string, t: Pointcut, bracketed: bool, place: Place) {
    && Solid(s) && s[0] != '!' && Depth(s) == 0 && (place == Nested ==> Balanced(s))
    && Parse(s) == Ok(t)
    && NoOperator(s, OR)
    && (bracketed || t.IsLeaf() ==> NoOperator(s, AND))
  }

  lemma {:induction false} OperandPrints(l: Pointcut, bracketed: bool, place: Place)
    requires Printable(l, LeftPlace(bracketed, place), true)
    requires bracketed || l.And? || l.IsLeaf()
    ensures GoodOperand(Operand(l, bracketed), l, bracketed, place)
    decreases l, 1
  {
    Prints(l, LeftPlace(bracketed, place), true);
    if bracketed {
      BracketedOperand(Print(l, false, true), l, place);
    }
  }

  lemma BracketedOperand(x: string, t: Pointcut, place: Place)
    requires Balanced(x) && Parse(x) == Ok(t)
    ensures GoodOperand("(" + x + ")", t, true, place)
  {
    BracketsAreTransparent(x);
    BracketsKeepBalance(x);
    NoOperatorInBrackets(x, OR);
    NoOperatorInBrackets(x, AND);
  }

  lemma OrPrinted(a: string, b: string, l: Pointcut, r: Pointcut, bracketed: bool, place: Place, exposed: bool)
    requires var p := if exposed then place else Nested;
      GoodOperand(a, l, bracketed, p) && GoodText(b, r, p, true)
    ensures GoodText(if exposed then a + OR + b else "(" + (a + OR + b) + ")", Or(l, r), place, exposed)
  {
    var p := if exposed then place else Nested;
    OrParses(a, b);
    JoinFits(a, OR, b, p);
    if !exposed {
      BracketedOperand(a + OR + b, Or(l, r), place);
    }
  }

  lemma AndPrinted(a: string, b: string, l: Pointcut, r: Pointcut, bracketed: bool, place: Place, exposed: bool)
    requires GoodOperand(a, l, bracketed, place) && GoodText(b, r, place, false) && (bracketed || l.IsLeaf())
    ensures GoodText(a + AND + b, And(l, r), place, exposed)
  {
    AndParses(a, b);
    JoinFits(a, AND, b, place);
    JoinHides(a, b);
  }

  lemma NotPrinted(x: string, t: Pointcut, place: Place, exposed: bool)
    requires GoodText(x, t, place, exposed)
    ensures GoodText("!" + x, Not(t), place, exposed)
  {
    NotParses(x);
    NotFits(x, place);
  }

  /** Everything the printer promises about a printable tree. */
  lemma {:induction false} Prints(t: Pointcut, place: Place, exposed: bool)
    requires Printable(t, place, exposed)
    ensures GoodText(Print(t, place == Tail, exposed), t, place, exposed)
    decreases t, 0
  {
    match t {
      case Or(l, r) =>
        var p := if exposed then place else Nested;
        var bracketed := l.Or? || l.Not?;
        OperandPrints(l, bracketed, p);
        Prints(r, p, true);
        OrPrinted(Operand(l, bracketed), Print(r, p == Tail, true), l, r, bracketed, place, exposed);
      case And(l, r) =>
        OperandPrints(l, !l.IsLeaf(), place);
        Prints(r, place, false);
        AndPrinted(Operand(l, !l.IsLeaf()), Print(r, place == Tail, false), l, r, !l.IsLeaf(), place, exposed);
      case Not(x) =>
        Prints(x, place, exposed);
        NotPrinted(Print(x, place == Tail, exposed), x, place, exposed);
      case _ =>
        LeafPrints(t);
        LastLeafPrints(t);
    }
  }

  lemma LeafUndecided(s: string)
    requires Trimmed(s) && |s| > 0 && (s[0] == 'e' || s[0] == 'w' || s[0] == 'n') && s[|s| - 1] == ')'
    ensures Undecided(s) && Solid(s)
  {}

  lemma LeafPrints(t: Pointcut)
    requires t.IsLeaf() && LeafOk(t)
    ensures Parse(LeafText(t)) == Ok(t) && Solid(LeafText(t)) && LeafText(t)[0] != '!'
  {
    LeafParses(t);
    LeafUndecided(LeafText(t));
    ParseAtLeaf(LeafText(t), Ok(t));
  }

  lemma LastLeafPrints(t: Pointcut)
    requires t.IsLeaf() && LeafOk(t)
    ensures Parse(LastLeafText(t)) == Ok(t) && Solid(LastLeafText(t)) && LastLeafText(t)[0] != '!'
    ensures NoOperators(LastLeafText(t))
  {
    LastLeafParses(t);
    LeafUndecided(LastLeafText(t));
    ParseAtLeaf(LastLeafText(t), Ok(t));
  }

  // ------------------------------------------------------------------ parsed trees are printable

  /** A tree fit to stand inside brackets is fit to stand anywhere. */
  lemma {:induction false} NestedFitsAnywhere(t: Pointcut, e: bool, place: Place, exposed: bool)
    requires Printable(t, Nested, e)
    ensures Printable(t, place, exposed)
  {
    match t {
      case Or(l, r) =>
        var p := if exposed then place else Nested;
        NestedFitsAnywhere(l, true, LeftPlace(l.Or? || l.Not?, p), true);
        NestedFitsAnywhere(r, true, p, true);
      case And(l, r) =>
        NestedFitsAnywhere(l, true, LeftPlace(!l.IsLeaf(), place), true);
        NestedFitsAnywhere(r, false, place, false);
      case Not(x) =>
        NestedFitsAnywhere(x, e, place, exposed);
      case _ =>
    }
  }

  lemma TrimFits(s: string, place: Place)
    requires Fits(s, place)
    ensures Fits(Trim(s), place)
  {
    TrimKeepsDepth(s);
    if place == Nested {
      TrimKeepsBalanced(s);
    }
  }

  /** What is known about the tree t read from the text s that stands at `place`. */
  ghost predicate Fitting(s: string, t: Pointcut, place: Place) {
    var x := Trim(s);
    && Printable(t, place, true)
    && (NoOperator(x, OR) ==> Printable(t, place, false))
    && (t.Not? && !StartsWith(x, "!") ==> Printable(t, Nested, true))
    && (t.And? && NoOperators(x) ==> Printable(t, Nested, true))
  }

  /** The text left of the first operator: operator free, at depth zero, and it starts as the whole does. */
  lemma LeftOfOperator(x: string, op: string, p: nat, place: Place)
    requires Trimmed(x) && !StartsWith(x, "!") && Fits(x, place)
    requires IsOperator(op) && FirstOperator(x, op) == Some(p)
    ensures Depth(x[..p]) == 0 && Fits(x[..p], LeftPlace(false, place))
    ensures NoOperator(Trim(x[..p]), op)
    ensures op == AND && NoOperator(x, OR) ==> NoOperator(Trim(x[..p]), OR)
    ensures !StartsWith(Trim(x[..p]), "!")
  {
    assert x == x[..p] + x[p..];
    DepthInLeft(x[..p], x[p..], p);
    NoOperatorInLeft(x[..p], x[p..], op);
    NoOperatorInTrim(x[..p], op);
    if op == AND && NoOperator(x, OR) {
      NoOperatorInLeft(x[..p], x[p..], OR);
      NoOperatorInTrim(x[..p], OR);
    }
    if place == Nested {
      NeverNegativePart(x[..p], x[p..]);
    }
    if p > 0 {
      assert !IsSpace(x[..p][0]);
      assert TrimStart(x[..p]) == x[..p];
      var b := TrimEndParts(x[..p]);
      assert Trim(x[..p]) != "" ==> Trim(x[..p])[0] == x[0];
      assert x[..1] == [x[0]];
    }
  }

  lemma RightOfOperator(x: string, op: string, p: nat, place: Place)
    requires Fits(x, place) && IsOperator(op) && FirstOperator(x, op) == Some(p)
    ensures Fits(x[p + 4..], place)
    ensures NoOperator(x, OR) ==> NoOperator(Trim(x[p + 4..]), OR)
  {
    var a, b := x[..p] + op, x[p + 4..];
    assert x == a + b;
    assert x == x[..p] + x[p..];
    DepthInLeft(x[..p], x[p..], p);
    FlatText(op);
    DepthOfJoin(x[..p], op);
    DepthOfJoin(a, b);
    if NoOperator(x, OR) {
      NoOperatorInRight(a, b, OR);
      NoOperatorInTrim(b, OR);
    }
    if place == Nested {
      NeverNegativePart(a, b);
    }
  }

  lemma AfterNot(x: string, place: Place)
    requires Trimmed(x) && StartsWith(x, "!") && Fits(x, place)
    ensures Fits(Trim(x[1..]), place)
    ensures NoOperator(x, OR) ==> NoOperator(Trim(x[1..]), OR)
  {
    assert x == "!" + x[1..];
    FlatText("!");
    DepthOfJoin("!", x[1..]);
    if place == Nested {
      NeverNegativePart("!", x[1..]);
    }
    TrimFits(x[1..], place);
    if NoOperator(x, OR) {
      NoOperatorInRight("!", x[1..], OR);
      NoOperatorInTrim(x[1..], OR);
    }
  }

  lemma OrFits(s: string, p: nat, l: Pointcut, r: Pointcut, place: Place)
    requires var x := Trim(s); FirstOperator(x, OR) == Some(p) && !StartsWith(x, "!") && Fits(x, place)
    requires Fitting(Trim(s)[..p], l, LeftPlace(false, place)) && Fitting(Trim(s)[p + 4..], r, place)
    ensures Fitting(s, Or(l, r), place)
  {
    var x := Trim(s);
    var a, b := TrimParts(s);
    LeftOfOperator(x, OR, p, place);
    assert l.Or? ==> Printable(l, Nested, true);
  }

  lemma AndFits(s: string, p: nat, l: Pointcut, r: Pointcut, place: Place)
    requires var x := Trim(s);
      NoOperator(x, OR) && FirstOperator(x, AND) == Some(p) && !StartsWith(x, "!") && Fits(x, place)
    requires Fitting(Trim(s)[..p], l, LeftPlace(false, place)) && Fitting(Trim(s)[p + 4..], r, place)
    ensures Fitting(s, And(l, r), place)
  {
    var x := Trim(s);
    var a, b := TrimParts(s);
    LeftOfOperator(x, AND, p, place);
    RightOfOperator(x, AND, p, place);
    assert l.Or? ==> Printable(l, Nested, true);
  }

  lemma NotFitsHere(s: string, t: Pointcut, place: Place)
    requires StartsWith(Trim(s), "!") && Fits(Trim(s), place)
    requires Fitting(Trim(Trim(s)[1..]), t, place)
    ensures Fitting(s, Not(t), place)
  {
    var a, b := TrimParts(s);
    AfterNot(Trim(s), place);
    TrimTwice(Trim(s)[1..]);
  }

  lemma NestedFitsHere(s: string, t: Pointcut, place: Place)
    requires Printable(t, Nested, true)
    ensures Fitting(s, t, place)
  {
    NestedFitsAnywhere(t, true, place, true);
    NestedFitsAnywhere(t, true, place, false);
  }

  lemma LeafFits(s: string, t: Pointcut, place: Place)
    requires NoOperators(Trim(s)) && ParseLeaf(Trim(s)) == Ok(t) && Fits(Trim(s), place)
    ensures Fitting(s, t, place)
  {
    LeafImage(Trim(s));
  }

  lemma Sides(x: string, op: string, p: nat, place: Place)
    requires Trimmed(x) && !StartsWith(x, "!") && Fits(x, place)
    requires IsOperator(op) && FirstOperator(x, op) == Some(p)
    ensures Fits(x[..p], LeftPlace(false, place)) && Fits(x[p + 4..], place)
    ensures |x[..p]| < |x| && |x[p + 4..]| < |x|
  {
    LeftOfOperator(x, op, p, place);
    RightOfOperator(x, op, p, place);
  }

  lemma {:induction false} OrBranchFits(s: string, p: nat, place: Place, t: Pointcut)
    requires var x := Trim(s);
      Stripped(x).None? && !StartsWith(x, "!") && FirstOperator(x, OR) == Some(p) && Fits(x, place) && |x| <= |s|
    requires Parse(s) == Ok(t)
    ensures Fitting(s, t, place)
    decreases |s|, 0
  {
    var x := Trim(s);
    var a, b := TrimParts(s);
    var left, right := x[..p], x[p + 4..];
    Sides(x, OR, p, place);
    ReadAtOr(s, p, Parse(left), Parse(right));
    ParsedFits(left, LeftPlace(false, place));
    ParsedFits(right, place);
    OrFits(s, p, Parse(left).value, Parse(right).value, place);
  }

  lemma {:induction false} AndBranchFits(s: string, p: nat, place: Place, t: Pointcut)
    requires var x := Trim(s);
      Stripped(x).None? && !StartsWith(x, "!") && NoOperator(x, OR) && FirstOperator(x, AND) == Some(p)
      && Fits(x, place) && |x| <= |s|
    requires Parse(s) == Ok(t)
    ensures Fitting(s, t, place)
    decreases |s|, 0
  {
    var x := Trim(s);
    var a, b := TrimParts(s);
    var left, right := x[..p], x[p + 4..];
    Sides(x, AND, p, place);
    ReadAtAnd(s, p, Parse(left), Parse(right));
    ParsedFits(left, LeftPlace(false, place));
    ParsedFits(right, place);
    AndFits(s, p, Parse(left).value, Parse(right).value, place);
  }

  lemma {:induction false} NotBranchFits(s: string, place: Place)
    requires var x := Trim(s); Stripped(x).None? && StartsWith(x, "!") && Fits(x, place) && |x| <= |s|
    requires Parse(s).Ok?
    ensures Fitting(s, Parse(s).value, place)
    decreases |s|, 0
  {
    var x := Trim(s);
    var a, b := TrimParts(s);
    AfterNot(x, place);
    ParsedFits(Trim(x[1..]), place);
    NotFitsHere(s, Parse(Trim(x[1..])).value, place);
  }

  /** By induction on the text: each branch of the parser yields a tree that fits where its text stood. */
  lemma {:induction false} ParsedFits(s: string, place: Place)
    requires Fits(s, place) && Parse(s).Ok?
    ensures Fitting(s, Parse(s).value, place)
    decreases |s|, 1
  {
    var x := Trim(s);
    TrimFits(s, place);
    if Stripped(x).Some? {
      ParsedFits(Stripped(x).value, Nested);
      NestedFitsHere(s, Parse(s).value, place);
    } else if StartsWith(x, "!") {
      NotBranchFits(s, place);
    } else if FirstOperator(x, OR).Some? {
      OrBranchFits(s, FirstOperator(x, OR).value, place, Parse(s).value);
    } else if FirstOperator(x, AND).Some? {
      AndBranchFits(s, FirstOperator(x, AND).value, place, Parse(s).value);
    } else {
      LeafFits(s, Parse(s).value, place);
    }
  }

  // ------------------------------------------------------------------ the main results

  /** Every tree the parser returns is printable. */
  lemma InImage(s: string)
    requires Parse(s).Ok?
    ensures Printable(Parse(s).value, Tail, true)
  {
    ParsedFits(s, Tail);
  }

  /** Printing a printable tree with minimal brackets and parsing the text gives the tree back. */
  lemma RoundTrip(t: Pointcut)
    requires Printable(t, Tail, true)
    ensures Parse(Show(t)) == Ok(t)
  {
    Prints(t, Tail, true);
  }

  /** For every text the parser accepts, what it read can be printed and read again unchanged. */
  lemma ParsePrintParse(s: string)
    requires Parse(s).Ok?
    ensures Parse(Show(Parse(s).value)) == Parse(s)
  {
    InImage(s);
    RoundTrip(Parse(s).value);
  }

  /** `Printable` is exactly the parser's image. */
  lemma ImageIsPrintable(t: Pointcut)
    ensures (exists s :: Parse(s) == Ok(t)) <==> Printable(t, Tail, true)
  {
    if s :| Parse(s) == Ok(t) {
      InImage(s);
    }
    if Printable(t, Tail, true) {
      RoundTrip(t);
    }
  }

  // ------------------------------------------------------------------ the named pointcuts

  lemma NoOperatorWithout(s: string, c: char, op: string)
    requires |op| > 1 && op[1] == c && c !in s
    ensures NoOperator(s, op)
  {
    forall i: nat
      ensures !OpAt(s, op, i)
    {
      assert i + |op| <= |s| ==> s[i..i + |op|][1] == s[i + 1];
    }
  }

  lemma TextOfNamed(v: Option<Visibility>)
    ensures var t := Execution(ExecutionPattern(v, Wildcard, None));
      LeafText(t) == "execution(" + VisibilityText(v) + "fn *(..))"
  {
    assert DepthAt("*", 1) == 0;
  }

  lemma NamedTextIsPlain(v: Option<Visibility>)
    ensures var s := "execution(" + VisibilityText(v) + "fn *(..))"; '|' !in s && '&' !in s
  {}

  lemma NamedHasNoOperators(v: Option<Visibility>)
    ensures NoOperators(LeafText(Execution(ExecutionPattern(v, Wildcard, None))))
  {
    var s := LeafText(Execution(ExecutionPattern(v, Wildcard, None)));
    TextOfNamed(v);
    NamedTextIsPlain(v);
    NoOperatorWithout(s, '|', OR);
    NoOperatorWithout(s, '&', AND);
  }

  lemma NamedParses(v: Option<Visibility>)
    requires v != Some(Private)
    ensures var t := Execution(ExecutionPattern(v, Wildcard, None)); Parse(LeafText(t)) == Ok(t)
  {
    NamedHasNoOperators(v);
    StarIsAName();
    LeafPrints(Execution(ExecutionPattern(v, Wildcard, None)));
  }

  lemma StarIsAName()
    ensures NameText(Wildcard) == "*" && ParseNamePattern("*") == Wildcard && Trimmed("*") && '(' !in "*"
  {}

  /** `public_functions()` and `all_functions()` are what their documentation says they parse from. */
  lemma NamedPointcuts()
    ensures Parse("execution(pub fn *(..))") == Ok(Execution(ExecutionPattern(Some(Public), Wildcard, None)))
    ensures Parse("execution(fn *(..))") == Ok(Execution(ExecutionPattern(None, Wildcard, None)))
  {
    TextOfNamed(Some(Public));
    TextOfNamed(None);
    assert "execution(" + "pub " + "fn *(..))" == "execution(pub fn *(..))";
    assert "execution(" + "" + "fn *(..))" == "execution(fn *(..))";
    NamedParses(Some(Public));
    NamedParses(None);
  }

  // ------------------------------------------------------------------ precedence

  /** A text that operators can be put around: operator free, and closing the brackets it opens. */
  ghost predicate AtomText(s: string) {
    Solid(s) && s[0] != '!' && Depth(s) == 0 && NoOperators(s) && Parse(s).Ok?
  }

  /** `&&` binds tighter than `||` on either side. */
  lemma AndBindsTighter(a: string, b: string, c: string)
    requires AtomText(a) && AtomText(b) && AtomText(c)
    ensures Parse(a + OR + (b + AND + c)) == Ok(Or(Parse(a).value, And(Parse(b).value, Parse(c).value)))
    ensures Parse(a + AND + b + OR + c) == Ok(Or(And(Parse(a).value, Parse(b).value), Parse(c).value))
  {
    AndParses(b, c);
    JoinFits(b, AND, c, Inline);
    OrParses(a, b + AND + c);
    AndParses(a, b);
    JoinFits(a, AND, b, Inline);
    JoinHides(a, b);
    OrParses(a + AND + b, c);
  }

  /** Chains of one operator nest to the right. */
  lemma ChainsNestRight(a: string, b: string, c: string)
    requires AtomText(a) && AtomText(b) && AtomText(c)
    ensures Parse(a + OR + (b + OR + c)) == Ok(Or(Parse(a).value, Or(Parse(b).value, Parse(c).value)))
    ensures Parse(a + AND + (b + AND + c)) == Ok(And(Parse(a).value, And(Parse(b).value, Parse(c).value)))
  {
    OrParses(b, c);
    JoinFits(b, OR, c, Inline);
    OrParses(a, b + OR + c);
    AndParses(b, c);
    JoinFits(b, AND, c, Inline);
    JoinHides(b, c);
    AndParses(a, b + AND + c);
  }

  lemma TrimAfterNot(s: string)
    ensures StartsWith(Trim("!" + s), "!") && Trim(Trim("!" + s)[1..]) == Trim(s)
  {
    var a, b := TrimParts(s);
    var m := Trim(s);
    if m == "" {
      assert a + b == s && "!" + s == "" + "!" + s;
      TrimIsUnique("", "!", s);
    } else {
      assert "!" + s == "" + ("!" + a + m) + b;
      TrimIsUnique("", "!" + a + m, b);
      assert ("!" + a + m)[1..] == a + m + "";
      TrimIsUnique(a, m, "");
    }
  }

  lemma ParseIgnoresOuterSpace(s: string)
    ensures Parse(Trim(s)) == Parse(s)
  {
    TrimTwice(s);
  }

  /** Blanks before and behind a text are ignored. */
  lemma BlanksAreIgnored(a: string, s: string, b: string)
    requires forall c | c in a + b :: c in {' ', '\t', '\n', '\U{B}', '\U{C}', '\r'}
    ensures Parse(a + s + b) == Parse(s)
  {
    TrimDropsBlanks(a, s, b, ' ');
    ParseIgnoresOuterSpace(a + s + b);
    ParseIgnoresOuterSpace(s);
  }

  /**
   An unbracketed `!` at the start of a text negates all of the rest, operators included. How far one behind
   an operator reaches is in `Precedence`.
   */
  lemma NotTakesTheRest(s: string)
    ensures Parse("!" + s) == NotOf(Parse(s))
  {
    TrimAfterNot(s);
    ParseIgnoresOuterSpace(s);
    assert Trim("!" + s)[0] == '!';
    ParseIgnoresOuterSpace(Trim("!" + s)[1..]);
  }
}
