/** The driver's printer uses the fewest brackets, too: here `&&` is what has to be hidden. */
module DriverFewestBrackets {
  import opened Common
  import opened Strings
  import opened Brackets
  import opened DriverParser
  import opened DriverRoundTrip

  /** The opening brackets that any text of the leaf has. */
  function LeafFewest(t: PointcutExpr): nat
    requires t.IsLeaf()
  {
    1 + Opens(t.pattern)
  }

  /** What a pattern that closes more brackets than it opens costs besides, where depth zero is wanted. */
  function Surplus(t: PointcutExpr): nat
    requires t.IsLeaf()
  {
    if Depth(t.pattern) < 0 then -Depth(t.pattern) else 0
  }

  /** The opening brackets that any text of the tree has, by the place of the text and whether an `&&` may show. */
  function Fewest(t: PointcutExpr, last: bool, exposed: bool): nat {
    match t
    case And(l, r) =>
      (if l.And? || l.Not? then 1 else 0) + Fewest(l, false, true) + Fewest(r, last, true) + (if exposed then 0 else 1)
    case Or(l, r) => (if !l.IsLeaf() then 1 else 0) + Fewest(l, false, true) + Fewest(r, last, false)
    case Not(x) => Fewest(x, last, exposed)
    case _ => LeafFewest(t) + if last then 0 else Surplus(t)
  }

  // ------------------------------------------------------------------ the printed text

  lemma {:induction false} OpenedOpens(n: nat)
    ensures Opens(Opened(n)) == n
  {
    if n > 0 {
      OneOpen();
      OpenedOpens(n - 1);
      OpensOfJoin(Opened(n - 1), "(");
    }
  }

  lemma HeadOpens(k: string)
    requires '(' !in k
    ensures Opens(k + "(\"") == 1 && Opens("\")") == 0
  {
    OneOpen();
    NoOpens(k);
    NoOpens("\"");
    NoOpens("\")");
    OpensOfJoin("(", "\"");
    OpensOfJoin(k, "(\"");
    assert "(" + "\"" == "(\"";
  }

  lemma LeafPrintOpens(t: PointcutExpr)
    requires t.IsLeaf()
    ensures Opens(LeafText(t)) == LeafFewest(t) + Surplus(t) && Opens(LastLeafText(t)) == LeafFewest(t)
  {
    var (head, k) := (Keyword(t) + "(\"", Surplus(t));
    HeadOpens(Keyword(t));
    OpenedOpens(k);
    OpensOfJoin(head, t.pattern);
    OpensOfJoin(head + t.pattern, "\")");
    OpensOfJoin(head + t.pattern + "\")", Opened(k));
  }

  lemma JoinOpens(a: string, op: string, b: string)
    requires '(' !in op
    ensures Opens(a + op + b) == Opens(a) + Opens(b)
  {
    NoOpens(op);
    OpensOfJoin(a, op);
    OpensOfJoin(a + op, b);
  }

  lemma {:induction false} OperandOpens(t: PointcutExpr, bracketed: bool)
    ensures Opens(Operand(t, bracketed)) == Fewest(t, false, true) + if bracketed then 1 else 0
    decreases t, 1
  {
    PrintOpens(t, false, true);
    BracketsAddOpen(Print(t, false, true));
  }

  lemma JoinedOpens(a: string, op: string, b: string, bracketed: bool)
    requires op == " && " || op == " || "
    ensures Opens(if bracketed then "(" + (a + op + b) + ")" else a + op + b)
         == Opens(a) + Opens(b) + if bracketed then 1 else 0
  {
    JoinOpens(a, op, b);
    BracketsAddOpen(a + op + b);
  }

  lemma PrintedNotOpens(x: PointcutExpr, last: bool, exposed: bool)
    ensures Opens(Print(Not(x), last, exposed)) == Opens(Print(x, last, exposed))
  {
    NoOpens("!");
    OpensOfJoin("!", Print(x, last, exposed));
  }

  lemma PrintedJoinOpens(t: PointcutExpr, last: bool, exposed: bool)
    requires t.And? || t.Or?
    ensures Opens(Print(t, last, exposed)) ==
      if t.And? then
        Opens(Operand(t.left, t.left.And? || t.left.Not?)) + Opens(Print(t.right, last, true)) + if exposed then 0 else 1
      else
        Opens(Operand(t.left, !t.left.IsLeaf())) + Opens(Print(t.right, last, false))
  {
    if t.And? {
      JoinedOpens(Operand(t.left, t.left.And? || t.left.Not?), " && ", Print(t.right, last, true), !exposed);
    } else {
      JoinedOpens(Operand(t.left, !t.left.IsLeaf()), " || ", Print(t.right, last, false), false);
    }
  }

  lemma PrintedLeafOpens(t: PointcutExpr, last: bool, exposed: bool)
    requires t.IsLeaf()
    ensures Opens(Print(t, last, exposed)) == Fewest(t, last, exposed)
  {
    LeafPrintOpens(t);
  }

  lemma {:induction false} PrintOpens(t: PointcutExpr, last: bool, exposed: bool)
    ensures Opens(Print(t, last, exposed)) == Fewest(t, last, exposed)
    decreases t, 0
  {
    if t.And? {
      OperandOpens(t.left, t.left.And? || t.left.Not?);
      PrintOpens(t.right, last, true);
      PrintedJoinOpens(t, last, exposed);
    } else if t.Or? {
      OperandOpens(t.left, !t.left.IsLeaf());
      PrintOpens(t.right, last, false);
      PrintedJoinOpens(t, last, exposed);
    } else if t.Not? {
      PrintOpens(t.inner, last, exposed);
      PrintedNotOpens(t.inner, last, exposed);
    } else {
      PrintedLeafOpens(t, last, exposed);
    }
  }

  // ------------------------------------------------------------------ any text

  lemma {:induction false} DepthIsOpened(s: string, i: nat)
    requires i <= |s|
    ensures DepthAt(s, i) <= Opens(s[..i])
    decreases i
  {
    if i > 0 {
      DepthIsOpened(s, i - 1);
      assert s[..i][..i - 1] == s[..i - 1];
    }
  }

  lemma ThreeParts(a: string, b: string, c: string)
    ensures Opens(a + b + c) == Opens(a) + Opens(b) + Opens(c) && Depth(a + b + c) == Depth(a) + Depth(b) + Depth(c)
  {
    OpensOfJoin(a, b);
    OpensOfJoin(a + b, c);
    DepthOfJoin(a, b);
    DepthOfJoin(a + b, c);
  }

  lemma LeafOpens(x: string)
    requires ParseLeaf(x).Ok?
    ensures
      var t := ParseLeaf(x).value;
      t.IsLeaf() && Opens(x) >= LeafFewest(t) && (Depth(x) == 0 ==> Opens(x) >= LeafFewest(t) + Surplus(t))
  {
    var before, after, closing, tail := LeafParts(x);
    ThreeParts(before, ParseLeaf(x).value.pattern, after);
    AllOpened(before);
    AllOpened(tail);
    OpensOfJoin(closing, tail);
  }

  lemma AllOpened(s: string)
    ensures Depth(s) <= Opens(s)
  {
    DepthIsOpened(s, |s|);
    assert s[..|s|] == s;
  }

  /** What the text s needs to be read as t, by what shows in it and whether it stands left of an operator. */
  ghost predicate Enough(s: string, t: PointcutExpr, inline: bool) {
    var (x, n) := (Trim(s), Opens(s));
    && n >= Fewest(t, !inline, true)
    && (NoOperator(x, AND) ==> n >= Fewest(t, !inline, false))
    && (t.Not? && !StartsWith(x, "!") ==> n >= 1 + Fewest(t, !inline, true))
    && (t.Or? && NoOperators(x) ==> n >= 1 + Fewest(t, !inline, true))
  }

  lemma {:induction false} HidingCostsOne(t: PointcutExpr, last: bool)
    ensures Fewest(t, last, true) <= Fewest(t, last, false) <= Fewest(t, last, true) + 1
  {
    if t.Not? {
      HidingCostsOne(t.inner, last);
    }
  }

  lemma SplitOpens(x: string, op: string, p: nat)
    requires IsOperator(op) && FirstOperator(x, op) == Some(p)
    ensures Opens(x) == Opens(Trim(x[..p])) + Opens(Trim(x[p + 2..]))
  {
    TrimKeepsOpens(x[..p]);
    TrimKeepsOpens(x[p + 2..]);
    JoinOpens(x[..p], op, x[p + 2..]);
    assert x == x[..p] + op + x[p + 2..];
  }

  lemma AndEnough(s: string, p: nat, l: PointcutExpr, r: PointcutExpr, inline: bool)
    requires var x := Trim(s); FirstOperator(x, AND) == Some(p) && !StartsWith(x, "!")
    requires Enough(Trim(Trim(s)[..p]), l, true) && Enough(Trim(Trim(s)[p + 2..]), r, inline)
    ensures Enough(s, And(l, r), inline)
  {
    var x := Trim(s);
    var a, b := TrimParts(s);
    TrimKeepsOpens(s);
    SplitOpens(x, AND, p);
    LeftOfOperator(x, AND, p, 0);
    TrimTwice(x[..p]);
  }

  lemma OrEnough(s: string, p: nat, l: PointcutExpr, r: PointcutExpr, inline: bool)
    requires var x := Trim(s); NoOperator(x, AND) && FirstOperator(x, OR) == Some(p) && !StartsWith(x, "!")
    requires Enough(Trim(Trim(s)[..p]), l, true) && Enough(Trim(Trim(s)[p + 2..]), r, inline)
    ensures Enough(s, Or(l, r), inline)
  {
    var x := Trim(s);
    var a, b := TrimParts(s);
    TrimKeepsOpens(s);
    SplitOpens(x, OR, p);
    LeftOfOperator(x, OR, p, 0);
    RightOfOperator(x, OR, p, false, 0);
    TrimTwice(x[..p]);
    TrimTwice(x[p + 2..]);
  }

  lemma NotEnough(s: string, t: PointcutExpr, inline: bool)
    requires StartsWith(Trim(s), "!") && Enough(Trim(Trim(s)[1..]), t, inline)
    ensures Enough(s, Not(t), inline)
  {
    var x := Trim(s);
    TrimKeepsOpens(s);
    TrimKeepsOpens(x[1..]);
    NoOpens("!");
    OpensOfJoin("!", x[1..]);
    assert x == "!" + x[1..];
    AfterNot(x, false, 0);
    TrimTwice(x[1..]);
  }

  lemma BracketedEnough(s: string, t: PointcutExpr, inline: bool)
    requires var x := Trim(s); InParens(x) && Enough(x[1..|x| - 1], t, inline)
    ensures Enough(s, t, inline)
  {
    var x := Trim(s);
    TrimKeepsOpens(s);
    BracketsAddOpen(x[1..|x| - 1]);
    assert x == "(" + x[1..|x| - 1] + ")";
    HidingCostsOne(t, !inline);
  }

  lemma LeafEnough(s: string, t: PointcutExpr, inline: bool)
    requires ParseLeaf(Trim(s)) == Ok(t) && Fits(Trim(s), inline, 0)
    ensures Enough(s, t, inline)
  {
    TrimKeepsOpens(s);
    LeafOpens(Trim(s));
  }

  lemma {:induction false} AndBranchEnough(s: string, p: nat, t: PointcutExpr, inline: bool)
    requires var x := Trim(s); !StartsWith(x, "!") && FirstOperator(x, AND) == Some(p) && Fits(x, inline, 0) && |x| <= |s|
    requires Parse(s) == Ok(t)
    ensures Enough(s, t, inline)
    decreases |s|, 0
  {
    var (left, right) := (Trim(Trim(s)[..p]), Trim(Trim(s)[p + 2..]));
    var a, b := TrimParts(s);
    Sides(Trim(s), AND, p, inline, 0);
    ReadAtAnd(s, p, Parse(left), Parse(right));
    ReadNeedsOpens(left, true);
    ReadNeedsOpens(right, inline);
    AndEnough(s, p, Parse(left).value, Parse(right).value, inline);
  }

  lemma {:induction false} OrBranchEnough(s: string, p: nat, t: PointcutExpr, inline: bool)
    requires var x := Trim(s);
      !StartsWith(x, "!") && NoOperator(x, AND) && FirstOperator(x, OR) == Some(p) && Fits(x, inline, 0) && |x| <= |s|
    requires Parse(s) == Ok(t)
    ensures Enough(s, t, inline)
    decreases |s|, 0
  {
    var (left, right) := (Trim(Trim(s)[..p]), Trim(Trim(s)[p + 2..]));
    var a, b := TrimParts(s);
    Sides(Trim(s), OR, p, inline, 0);
    ReadAtOr(s, p, Parse(left), Parse(right));
    ReadNeedsOpens(left, true);
    ReadNeedsOpens(right, inline);
    OrEnough(s, p, Parse(left).value, Parse(right).value, inline);
  }

  /** By induction on the text: each branch of the parser needs the brackets it has seen. */
  lemma {:induction false} ReadNeedsOpens(s: string, inline: bool)
    requires Fits(s, inline, 0) && Parse(s).Ok?
    ensures Enough(s, Parse(s).value, inline)
    decreases |s|, 1
  {
    var x := Trim(s);
    TrimFits(s, inline, 0);
    if StartsWith(x, "!") {
      AfterNot(x, inline, 0);
      ReadNeedsOpens(Trim(x[1..]), inline);
      NotEnough(s, Parse(Trim(x[1..])).value, inline);
    } else if FirstOperator(x, AND).Some? {
      AndBranchEnough(s, FirstOperator(x, AND).value, Parse(s).value, inline);
    } else if FirstOperator(x, OR).Some? {
      OrBranchEnough(s, FirstOperator(x, OR).value, Parse(s).value, inline);
    } else if InParens(x) {
      InsideFits(x, inline, 0);
      ReadNeedsOpens(x[1..|x| - 1], inline);
      BracketedEnough(s, Parse(s).value, inline);
    } else {
      LeafEnough(s, Parse(s).value, inline);
    }
  }

  // ------------------------------------------------------------------ the main results

  /** Of all texts that the driver reads as the tree none has fewer brackets than the printed one. */
  lemma PrintedHasFewestBrackets(s: string)
    requires Parse(s).Ok?
    ensures Opens(Show(Parse(s).value)) <= Opens(s)
  {
    ReadNeedsOpens(s, false);
    PrintOpens(Parse(s).value, true, true);
  }

  /** So leave any pair of brackets out of a printed text, at whatever depth: it no longer reads as the tree. */
  lemma EveryPairIsNeeded(t: PointcutExpr, a: string, b: string, c: string)
    requires Show(t) == a + "(" + b + ")" + c
    ensures Parse(a + b + c) != Ok(t)
  {
    OpensWithout(a, b, c);
    if Parse(a + b + c) == Ok(t) {
      PrintedHasFewestBrackets(a + b + c);
    }
  }
}
