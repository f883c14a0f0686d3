/** The printer uses the fewest brackets: no text that reads as the tree has fewer than the printed one. */
module FewestBrackets {
  import opened Common
  import opened Strings
  import opened Brackets
  import opened Pointcuts
  import opened PointcutParser
  import opened PointcutLeaves
  import opened PointcutLeafImage
  import opened PointcutRoundTrip

  /** The opening brackets that any text of the leaf has. */
  function LeafFewest(t: Pointcut): nat
    requires t.IsLeaf()
  {
    match t
    case Execution(e) => 2 + Opens(VisibilityText(e.visibility)) + Opens(NameText(e.name))
    case Within(m) => 1 + Opens(m.path)
  }

  /** What a name that closes more brackets than the keyword opens costs besides, where depth zero is wanted. */
  function Surplus(t: Pointcut): nat
    requires t.IsLeaf()
  {
    if t.Execution? && Depth(NameText(t.execution.name)) < -1 then -Depth(NameText(t.execution.name)) - 1 else 0
  }

  /** The opening brackets that any text of the tree has, by the place of the text and whether an `||` may show. */
  function Fewest(t: Pointcut, last: bool, exposed: bool): nat {
    match t
    case Or(l, r) =>
      (if l.Or? || l.Not? then 1 else 0) + Fewest(l, false, true) + Fewest(r, last && exposed, true) + (if exposed then 0 else 1)
    case And(l, r) => (if !l.IsLeaf() then 1 else 0) + Fewest(l, false, true) + Fewest(r, last, false)
    case Not(x) => Fewest(x, last, exposed)
    case _ => LeafFewest(t) + if last then 0 else Surplus(t)
  }

  // ------------------------------------------------------------------ the printed text

  lemma {:induction false} RepeatOpens(n: nat)
    ensures Opens(Repeat('(', n)) == n
  {
    if n > 0 {
      RepeatOpens(n - 1);
      assert Repeat('(', n)[..n - 1] == Repeat('(', n - 1);
    }
  }

  lemma SignatureOpens(name: string)
    ensures Opens(Signature(name)) == 1 + if Depth(name) < -1 then -Depth(name) - 1 else 0
  {
    if Depth(name) >= 0 {
      DotsOpen();
    } else {
      RepeatOpens(-Depth(name));
      NoOpens("..)");
      OpensOfJoin(Repeat('(', -Depth(name)), "..)");
    }
  }

  lemma KeywordOpens()
    ensures Opens("execution(") == 1 && Opens("within(") == 1 && Opens("fn ") == 0 && Opens(OR) == 0 && Opens(AND) == 0
  {
    OneOpen();
    NoOpens("execution");
    NoOpens("within");
    NoOpens("fn ");
    NoOpens(OR);
    NoOpens(AND);
    OpensOfJoin("execution", "(");
    OpensOfJoin("within", "(");
    assert "execution" + "(" == "execution(" && "within" + "(" == "within(";
  }

  lemma LeafPrintOpens(t: Pointcut)
    requires t.IsLeaf()
    ensures Opens(LeafText(t)) == LeafFewest(t) + Surplus(t) && Opens(LastLeafText(t)) == LeafFewest(t)
  {
    KeywordOpens();
    match t {
      case Within(m) =>
        OneOpen();
        OpensOfJoin("within(", m.path);
        OpensOfJoin("within(" + m.path, ")");
      case Execution(e) =>
        var (v, n) := (VisibilityText(e.visibility), NameText(e.name));
        OpensOfJoin("execution(", v);
        OpensOfJoin("execution(" + v, "fn ");
        OpensOfJoin("execution(" + v + "fn ", n);
        OpensOfJoin("execution(" + v + "fn " + n, Signature(n));
        OpensOfJoin("execution(" + v + "fn " + n, "(..))");
        SignatureOpens(n);
        DotsOpen();
    }
  }

  lemma DotsOpen()
    ensures Opens("(..))") == 1
  {
    OneOpen();
    NoOpens("..))");
    OpensOfJoin("(", "..))");
    assert "(" + "..))" == "(..))";
  }

  lemma JoinOpens(a: string, op: string, b: string)
    requires op == OR || op == AND
    ensures Opens(a + op + b) == Opens(a) + Opens(b)
  {
    KeywordOpens();
    OpensOfJoin(a, op);
    OpensOfJoin(a + op, b);
  }

  lemma {:induction false} OperandOpens(t: Pointcut, bracketed: bool)
    ensures Opens(Operand(t, bracketed)) == Fewest(t, false, true) + if bracketed then 1 else 0
    decreases t, 1
  {
    PrintOpens(t, false, true);
    BracketsAddOpen(Print(t, false, true));
  }

  lemma JoinedOpens(a: string, op: string, b: string, bracketed: bool)
    requires op == OR || op == AND
    ensures Opens(if bracketed then "(" + (a + op + b) + ")" else a + op + b)
         == Opens(a) + Opens(b) + if bracketed then 1 else 0
  {
    JoinOpens(a, op, b);
    BracketsAddOpen(a + op + b);
  }

  lemma PrintedNot(x: Pointcut, last: bool, exposed: bool)
    ensures Opens(Print(Not(x), last, exposed)) == Opens(Print(x, last, exposed))
  {
    NoOpens("!");
    OpensOfJoin("!", Print(x, last, exposed));
  }

  lemma PrintedJoin(t: Pointcut, last: bool, exposed: bool)
    requires t.Or? || t.And?
    ensures Opens(Print(t, last, exposed)) ==
      if t.Or? then
        Opens(Operand(t.left, t.left.Or? || t.left.Not?)) + Opens(Print(t.right, last && exposed, true)) + if exposed then 0 else 1
      else
        Opens(Operand(t.left, !t.left.IsLeaf())) + Opens(Print(t.right, last, false))
  {
    if t.Or? {
      JoinedOpens(Operand(t.left, t.left.Or? || t.left.Not?), OR, Print(t.right, last && exposed, true), !exposed);
    } else {
      JoinedOpens(Operand(t.left, !t.left.IsLeaf()), AND, Print(t.right, last, false), false);
    }
  }

  lemma PrintedLeaf(t: Pointcut, last: bool, exposed: bool)
    requires t.IsLeaf()
    ensures Opens(Print(t, last, exposed)) == Fewest(t, last, exposed)
  {
    LeafPrintOpens(t);
  }

  lemma {:induction false} PrintOpens(t: Pointcut, last: bool, exposed: bool)
    ensures Opens(Print(t, last, exposed)) == Fewest(t, last, exposed)
    decreases t, 0
  {
    if t.Or? {
      OperandOpens(t.left, t.left.Or? || t.left.Not?);
      PrintOpens(t.right, last && exposed, true);
      PrintedJoin(t, last, exposed);
    } else if t.And? {
      OperandOpens(t.left, !t.left.IsLeaf());
      PrintOpens(t.right, last, false);
      PrintedJoin(t, last, exposed);
    } else if t.Not? {
      PrintOpens(t.inner, last, exposed);
      PrintedNot(t.inner, last, exposed);
    } else {
      PrintedLeaf(t, last, exposed);
    }
  }

  // ------------------------------------------------------------------ any text

  /** At least as many brackets are opened as are left open. */
  lemma {:induction false} DepthIsOpened(s: string)
    ensures Depth(s) <= Opens(s)
  {
    if |s| > 0 {
      var n := |s| - 1;
      DepthIsOpened(s[..n]);
      DepthInLeft(s[..n], s[n..], n);
      assert s == s[..n] + s[n..];
    }
  }

  /** The signature of an accepted execution text: the name, then the bracket that ends it, then the rest. */
  lemma NameOpens(rest: string)
    requires Find(rest, '(').Some?
    ensures var name := Trim(rest[..Find(rest, '(').value]);
      Opens(rest) >= 1 + Opens(name) && Opens(rest) >= Opens(name) + Depth(rest) - Depth(name)
  {
    var k := Find(rest, '(').value;
    TrimKeepsOpens(rest[..k]);
    TrimKeepsDepth(rest[..k]);
    OneOpen();
    OpensOfJoin(rest[..k], "(");
    OpensOfJoin(rest[..k] + "(", rest[k + 1..]);
    assert rest == rest[..k] + "(" + rest[k + 1..];
    OpensOfJoin(rest[..k], rest[k..]);
    DepthOfJoin(rest[..k], rest[k..]);
    assert rest == rest[..k] + rest[k..];
    DepthIsOpened(rest[k..]);
  }

  lemma ExecutionSteps(x: string)
    requires StartsWith(x, "execution(") && EndsWith(x, ")") && ParseExecution(x).Ok?
    ensures x[9] == '('
    ensures
      var (v, tail) := ParseVisibility(Trim(x[10..|x| - 1]));
      && StartsWith(Trim(tail), "fn ") && Find(Trim(Trim(tail)[3..]), '(').Some?
      && ParseExecution(x) == Ok(Execution(ExecutionPattern(v,
           ParseNamePattern(Trim(Trim(Trim(tail)[3..])[..Find(Trim(Trim(tail)[3..]), '(').value])), None)))
  {
    assert x[9] == '(';
  }

  lemma TailOpens(tail: string)
    requires StartsWith(Trim(tail), "fn ")
    ensures Opens(Trim(Trim(tail)[3..])) == Opens(tail) && Depth(Trim(Trim(tail)[3..])) == Depth(tail)
  {
    var t := Trim(tail);
    TrimKeepsOpens(tail);
    TrimKeepsDepth(tail);
    TrimKeepsOpens(t[3..]);
    TrimKeepsDepth(t[3..]);
    KeywordOpens();
    OpensOfJoin("fn ", t[3..]);
    FlatText("fn ");
    DepthOfJoin("fn ", t[3..]);
    assert t == "fn " + t[3..];
  }

  /** What stands between the outer brackets of a leaf. */
  lemma ContentOpens(x: string, opening: string)
    requires (opening == "execution(" || opening == "within(") && StartsWith(x, opening) && EndsWith(x, ")") && |x| > |opening|
    ensures var c := x[|opening|..|x| - 1]; Opens(x) == 1 + Opens(Trim(c)) && Depth(x) == Depth(Trim(c))
  {
    var c := x[|opening|..|x| - 1];
    Wrapped(x, opening);
    KeywordOpens();
    OneOpen();
    OpensOfJoin(opening, c);
    OpensOfJoin(opening + c, ")");
    TrimKeepsOpens(c);
    KeywordDepth();
    DepthOfJoin(opening, c);
    DepthOfJoin(opening + c, ")");
    TrimKeepsDepth(c);
  }

  lemma KeywordDepth()
    ensures Depth("execution(") == 1 && Depth("within(") == 1 && Depth(")") == -1
  {
    FlatText("execution");
    FlatText("within");
    DepthOfJoin("execution", "(");
    DepthOfJoin("within", "(");
    assert "execution" + "(" == "execution(" && "within" + "(" == "within(";
    assert DepthAt("(", 1) == 1 && DepthAt(")", 1) == -1;
  }

  /** Visibility, keyword and signature, by the brackets they open and leave open. */
  lemma SignatureBrackets(content: string)
    requires var (v, tail) := ParseVisibility(content);
      StartsWith(Trim(tail), "fn ") && Find(Trim(Trim(tail)[3..]), '(').Some?
    ensures
      var (v, tail) := ParseVisibility(content);
      var rest := Trim(Trim(tail)[3..]);
      var name := Trim(rest[..Find(rest, '(').value]);
      && Opens(content) >= Opens(VisibilityText(v)) + Opens(name) + 1
      && Opens(content) >= Opens(VisibilityText(v)) + Opens(name) + Depth(content) - Depth(name)
  {
    var (v, tail) := ParseVisibility(content);
    VisibilityPrefix(content);
    OpensOfJoin(VisibilityText(v), tail);
    VisibilityIsBalanced(v);
    DepthOfJoin(VisibilityText(v), tail);
    TailOpens(tail);
    NameOpens(Trim(Trim(tail)[3..]));
  }

  lemma ExecutionOpens(x: string)
    requires StartsWith(x, "execution(") && EndsWith(x, ")") && ParseExecution(x).Ok?
    ensures
      var t := ParseExecution(x).value;
      t.Execution? && Opens(x) >= LeafFewest(t) && (Depth(x) == 0 ==> Opens(x) >= LeafFewest(t) + Surplus(t))
  {
    ExecutionSteps(x);
    ContentOpens(x, "execution(");
    var content := Trim(x[10..|x| - 1]);
    SignatureBrackets(content);
    var rest := Trim(Trim(ParseVisibility(content).1)[3..]);
    NameTextRoundTrip(Trim(rest[..Find(rest, '(').value]));
  }

  lemma WithinOpens(x: string)
    requires StartsWith(x, "within(") && EndsWith(x, ")")
    ensures ParseWithin(x).Ok? && ParseWithin(x).value.Within? && Opens(x) == LeafFewest(ParseWithin(x).value)
  {
    WithinReads(x);
    ContentOpens(x, "within(");
  }

  lemma LeafOpens(x: string)
    requires ParseLeaf(x).Ok?
    ensures
      var t := ParseLeaf(x).value;
      t.IsLeaf() && Opens(x) >= LeafFewest(t) && (Depth(x) == 0 ==> Opens(x) >= LeafFewest(t) + Surplus(t))
  {
    if StartsWith(x, "execution(") {
      ExecutionOpens(x);
    } else {
      WithinOpens(x);
    }
  }

  /** What the text s, standing at `place`, needs to be read as t, by what shows in it. */
  ghost predicate Enough(s: string, t: Pointcut, place: Place) {
    var (x, n, last) := (Trim(s), Opens(s), place == Tail);
    && n >= Fewest(t, last, true)
    && (NoOperator(x, OR) ==> n >= Fewest(t, last, false))
    && (t.Not? && !StartsWith(x, "!") ==> n >= 1 + Fewest(t, last, true))
    && (t.And? && NoOperators(x) ==> n >= 1 + Fewest(t, last, true))
  }

  lemma {:induction false} HidingCostsOne(t: Pointcut, last: bool)
    ensures Fewest(t, last, true) <= Fewest(t, last, false) <= Fewest(t, false, true) + 1
    ensures Fewest(t, last, true) <= Fewest(t, false, true)
  {
    match t {
      case Or(l, r) => HidingCostsOne(r, last);
      case And(l, r) => LastIsCheaper(r);
      case Not(x) => HidingCostsOne(x, last);
      case _ =>
    }
  }

  lemma {:induction false} LastIsCheaper(t: Pointcut)
    ensures Fewest(t, true, false) <= Fewest(t, false, false)
  {
    match t {
      case And(l, r) => LastIsCheaper(r);
      case Not(x) => LastIsCheaper(x);
      case _ =>
    }
  }

  lemma SplitOpens(x: string, op: string, p: nat)
    requires (op == OR || op == AND) && FirstOperator(x, op) == Some(p)
    ensures Opens(x) == Opens(x[..p]) + Opens(x[p + 4..])
  {
    JoinOpens(x[..p], op, x[p + 4..]);
    assert x == x[..p] + op + x[p + 4..];
  }

  lemma OrEnough(s: string, p: nat, l: Pointcut, r: Pointcut, place: Place)
    requires var x := Trim(s); FirstOperator(x, OR) == Some(p) && !StartsWith(x, "!") && Fits(x, place)
    requires Enough(Trim(s)[..p], l, LeftPlace(false, place)) && Enough(Trim(s)[p + 4..], r, place)
    ensures Enough(s, Or(l, r), place)
  {
    var x := Trim(s);
    var a, b := TrimParts(s);
    TrimKeepsOpens(s);
    SplitOpens(x, OR, p);
    LeftOfOperator(x, OR, p, place);
  }

  lemma AndEnough(s: string, p: nat, l: Pointcut, r: Pointcut, place: Place)
    requires var x := Trim(s);
      NoOperator(x, OR) && FirstOperator(x, AND) == Some(p) && !StartsWith(x, "!") && Fits(x, place)
    requires Enough(Trim(s)[..p], l, LeftPlace(false, place)) && Enough(Trim(s)[p + 4..], r, place)
    ensures Enough(s, And(l, r), place)
  {
    var x := Trim(s);
    var a, b := TrimParts(s);
    TrimKeepsOpens(s);
    SplitOpens(x, AND, p);
    LeftOfOperator(x, AND, p, place);
    RightOfOperator(x, AND, p, place);
  }

  lemma NotEnough(s: string, t: Pointcut, place: Place)
    requires StartsWith(Trim(s), "!") && Fits(Trim(s), place) && Enough(Trim(Trim(s)[1..]), t, place)
    ensures Enough(s, Not(t), place)
  {
    var x := Trim(s);
    var a, b := TrimParts(s);
    TrimKeepsOpens(s);
    TrimKeepsOpens(x[1..]);
    NoOpens("!");
    OpensOfJoin("!", x[1..]);
    assert x == "!" + x[1..];
    AfterNot(x, place);
    TrimTwice(x[1..]);
  }

  lemma BracketedEnough(s: string, t: Pointcut, place: Place)
    requires Stripped(Trim(s)).Some? && Enough(Stripped(Trim(s)).value, t, Nested)
    ensures Enough(s, t, place)
  {
    TrimKeepsOpens(s);
    BracketsAddOpen(Stripped(Trim(s)).value);
    HidingCostsOne(t, place == Tail);
  }

  lemma LeafEnough(s: string, t: Pointcut, place: Place)
    requires ParseLeaf(Trim(s)) == Ok(t) && Fits(Trim(s), place)
    ensures Enough(s, t, place)
  {
    TrimKeepsOpens(s);
    LeafOpens(Trim(s));
  }

  lemma {:induction false} OrBranchEnough(s: string, p: nat, t: Pointcut, place: Place)
    requires var x := Trim(s);
      Stripped(x).None? && !StartsWith(x, "!") && FirstOperator(x, OR) == Some(p) && Fits(x, place) && |x| <= |s|
    requires Parse(s) == Ok(t)
    ensures Enough(s, t, place)
    decreases |s|, 0
  {
    var (left, right) := (Trim(s)[..p], Trim(s)[p + 4..]);
    var a, b := TrimParts(s);
    Sides(Trim(s), OR, p, place);
    ReadAtOr(s, p, Parse(left), Parse(right));
    ReadNeedsOpens(left, LeftPlace(false, place));
    ReadNeedsOpens(right, place);
    OrEnough(s, p, Parse(left).value, Parse(right).value, place);
  }

  lemma {:induction false} AndBranchEnough(s: string, p: nat, t: Pointcut, place: Place)
    requires var x := Trim(s);
      Stripped(x).None? && !StartsWith(x, "!") && NoOperator(x, OR) && FirstOperator(x, AND) == Some(p)
      && Fits(x, place) && |x| <= |s|
    requires Parse(s) == Ok(t)
    ensures Enough(s, t, place)
    decreases |s|, 0
  {
    var (left, right) := (Trim(s)[..p], Trim(s)[p + 4..]);
    var a, b := TrimParts(s);
    Sides(Trim(s), AND, p, place);
    ReadAtAnd(s, p, Parse(left), Parse(right));
    ReadNeedsOpens(left, LeftPlace(false, place));
    ReadNeedsOpens(right, place);
    AndEnough(s, p, Parse(left).value, Parse(right).value, place);
  }

  lemma {:induction false} NotBranchEnough(s: string, place: Place)
    requires var x := Trim(s); Stripped(x).None? && StartsWith(x, "!") && Fits(x, place) && |x| <= |s|
    requires Parse(s).Ok?
    ensures Enough(s, Parse(s).value, place)
    decreases |s|, 0
  {
    var x := Trim(s);
    var a, b := TrimParts(s);
    AfterNot(x, place);
    ReadNeedsOpens(Trim(x[1..]), place);
    NotEnough(s, Parse(Trim(x[1..])).value, place);
  }

  /** By induction on the text: each branch of the parser needs the brackets it has seen. */
  lemma {:induction false} ReadNeedsOpens(s: string, place: Place)
    requires Fits(s, place) && Parse(s).Ok?
    ensures Enough(s, Parse(s).value, place)
    decreases |s|, 1
  {
    var x := Trim(s);
    TrimFits(s, place);
    if Stripped(x).Some? {
      ReadNeedsOpens(Stripped(x).value, Nested);
      BracketedEnough(s, Parse(s).value, place);
    } else if StartsWith(x, "!") {
      NotBranchEnough(s, place);
    } else if FirstOperator(x, OR).Some? {
      OrBranchEnough(s, FirstOperator(x, OR).value, Parse(s).value, place);
    } else if FirstOperator(x, AND).Some? {
      AndBranchEnough(s, FirstOperator(x, AND).value, Parse(s).value, place);
    } else {
      LeafEnough(s, Parse(s).value, place);
    }
  }

  // ------------------------------------------------------------------ the main results

  /** Of all texts that read as the tree none has fewer brackets than the printed one. */
  lemma PrintedHasFewestBrackets(s: string)
    requires Parse(s).Ok?
    ensures Opens(Show(Parse(s).value)) <= Opens(s)
  {
    ReadNeedsOpens(s, Tail);
    PrintOpens(Parse(s).value, true, true);
  }

  /** So leave any pair of brackets out of a printed text, at whatever depth: it no longer reads as the tree. */
  lemma EveryPairIsNeeded(t: Pointcut, a: string, b: string, c: string)
    requires Show(t) == a + "(" + b + ")" + c
    ensures Parse(a + b + c) != Ok(t)
  {
    OpensWithout(a, b, c);
    if Parse(a + b + c) == Ok(t) {
      PrintedHasFewestBrackets(a + b + c);
    }
  }
}
