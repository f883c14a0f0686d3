/** What becomes of the root operator when the brackets around one of its operands are left out. */
module PointcutMinimality {
  import opened Common
  import opened Strings
  import opened Brackets
  import opened Pointcuts
  import opened PointcutParser
  import opened PointcutLeaves
  import opened PointcutRoundTrip

  ghost predicate OrWithLeft(t: Parsed, a: Pointcut) { t.Ok? ==> t.value.Or? && t.value.left == a }

  ghost predicate AndWithLeft(t: Parsed, a: Pointcut) { t.Ok? ==> t.value.And? && t.value.left == a }

  lemma LeftOfJoin(a: Pointcut, r: Parsed)
    ensures OrWithLeft(OrOf(Ok(a), r), a) && AndWithLeft(AndOf(Ok(a), r), a)
  {}

  lemma OrAtRoot(text: string, left: string, rest: string, a: Pointcut)
    requires text == left + OR + rest && Solid(rest)
    requires GoodOperand(left, a, true, Inline) || GoodOperand(left, a, false, Inline)
    ensures OrWithLeft(Parse(text), a)
  {
    OrParses(left, rest);
    LeftOfJoin(a, Parse(rest));
  }

  lemma AndAtRoot(text: string, left: string, rest: string, a: Pointcut, bracketed: bool)
    requires text == left + AND + rest && Solid(rest) && NoOperator(rest, OR)
    requires GoodOperand(left, a, bracketed, Inline) && (bracketed || a.IsLeaf())
    ensures AndWithLeft(Parse(text), a)
  {
    AndParses(left, rest);
    LeftOfJoin(a, Parse(rest));
  }

  lemma RestIsSolid(right: string, op: string, s: string)
    requires Solid(right) && Solid(s) && Depth(right) == 0 && IsOperator(op)
    ensures Solid(right + op + s)
    ensures op == AND && NoOperator(right, OR) && NoOperator(s, OR) ==> NoOperator(right + op + s, OR)
  {
    JoinFits(right, op, s, Tail);
    if op == AND && NoOperator(right, OR) && NoOperator(s, OR) {
      JoinHides(right, s);
    }
  }

  /** A disjunction in front of an operator gives its left part to the root, whatever follows. */
  lemma OrLeadsToOr(a: Pointcut, b: Pointcut, op: string, s: string, text: string)
    requires Printable(Or(a, b), Inline, true) && IsOperator(op) && Solid(s)
    requires text == Print(Or(a, b), false, true) + op + s
    ensures OrWithLeft(Parse(text), a)
  {
    var bracketed := a.Or? || a.Not?;
    var (left, right) := (Operand(a, bracketed), Print(b, false, true));
    OperandPrints(a, bracketed, Inline);
    Prints(b, Inline, true);
    RestIsSolid(right, op, s);
    RegroupTail(left, OR, right, op, s);
    OrAtRoot(text, left, right + op + s, a);
  }

  lemma AndLeadsToAnd(a: Pointcut, b: Pointcut, s: string, text: string)
    requires Printable(And(a, b), Inline, true) && Solid(s) && NoOperator(s, OR)
    requires text == Print(And(a, b), false, true) + AND + s
    ensures AndWithLeft(Parse(text), a)
  {
    var (left, right) := (Operand(a, !a.IsLeaf()), Print(b, false, false));
    OperandPrints(a, !a.IsLeaf(), Inline);
    Prints(b, Inline, false);
    RestIsSolid(right, AND, s);
    RegroupTail(left, AND, right, AND, s);
    AndAtRoot(text, left, right + AND + s, a, !a.IsLeaf());
  }

  lemma NotAtRoot(text: string, rest: string)
    requires text == "!" + rest
    ensures Parse(text).Ok? ==> Parse(text).value.Not?
  {
    NotTakesTheRest(rest);
  }

  lemma NotText(x: Pointcut, op: string, s: string)
    ensures Print(Not(x), false, true) + op + s == "!" + (Print(x, false, true) + op + s)
  {
    RegroupFront("!", Print(x, false, true), op, s);
  }

  /** On the left of an `||`: brackets around a disjunction or a negation cannot be left out. */
  lemma LeftOfOrNeedsBrackets(l: Pointcut, r: Pointcut)
    requires Printable(Or(l, r), Tail, true) && (l.Or? || l.Not?)
    ensures Parse(Print(l, false, true) + OR + Print(r, true, true)) != Ok(Or(l, r))
  {
    Prints(r, Tail, true);
    match l {
      case Or(a, b) =>
        NestedFitsAnywhere(l, true, Inline, true);
        OrLeadsToOr(a, b, OR, Print(r, true, true), Print(l, false, true) + OR + Print(r, true, true));
      case Not(x) =>
        NotText(x, OR, Print(r, true, true));
        NotAtRoot(Print(l, false, true) + OR + Print(r, true, true), Print(x, false, true) + OR + Print(r, true, true));
    }
  }

  /** On the left of an `&&`: brackets around anything but a basic pointcut cannot be left out. */
  lemma LeftOfAndNeedsBrackets(l: Pointcut, r: Pointcut)
    requires Printable(And(l, r), Tail, true) && !l.IsLeaf()
    ensures Parse(Print(l, false, true) + AND + Print(r, true, false)) != Ok(And(l, r))
  {
    Prints(r, Tail, false);
    match l {
      case Or(a, b) =>
        NestedFitsAnywhere(l, true, Inline, true);
        OrLeadsToOr(a, b, AND, Print(r, true, false), Print(l, false, true) + AND + Print(r, true, false));
      case And(a, b) =>
        NestedFitsAnywhere(l, true, Inline, true);
        AndLeadsToAnd(a, b, Print(r, true, false), Print(l, false, true) + AND + Print(r, true, false));
      case Not(x) =>
        NotText(x, AND, Print(r, true, false));
        NotAtRoot(Print(l, false, true) + AND + Print(r, true, false), Print(x, false, true) + AND + Print(r, true, false));
    }
  }

  /** What may stand where no `||` may show may also stand where one may. */
  lemma {:induction false} UnexposedFits(t: Pointcut, place: Place)
    requires Printable(t, place, false)
    ensures Printable(t, place, true)
  {
    match t {
      case Or(l, r) =>
        NestedFitsAnywhere(t, true, place, true);
      case And(l, r) =>
      case Not(x) => UnexposedFits(x, place);
      case _ =>
    }
  }

  /** An `||` showing in the right part of a text is the root of the whole. */
  lemma ShownOrIsRoot(a: string, b: string)
    requires Solid(a) && Solid(b) && a[0] != '!' && Depth(a) == 0 && !NoOperator(b, OR)
    ensures
      var t := Parse(a + AND + b);
      t.Ok? ==> t.value.Or?
  {
    var s := a + AND + b;
    FlatText(AND);
    DepthOfJoin(a, AND);
    OpInRight(a + AND, b, OR, FirstOperator(b, OR).value);
    var p := FirstOperator(s, OR).value;
    JoinUndecided(a, AND, b);
    TrimKeepsTrimmed(s);
    ReadAtOr(s, p, Parse(s[..p]), Parse(s[p + 4..]));
  }

  /**
   On the right of an `&&`: if an `||` would show, printing the operand as if it stood alone gives another
   tree; and if none would, the operand is printed exactly as if it stood alone.
   */
  lemma RightOfAndNeedsBrackets(l: Pointcut, r: Pointcut)
    requires Printable(And(l, r), Tail, true)
    ensures !NoOperator(Print(r, true, true), OR) ==>
              Parse(Operand(l, !l.IsLeaf()) + AND + Print(r, true, true)) != Ok(And(l, r))
    ensures NoOperator(Print(r, true, true), OR) ==> Print(r, true, false) == Print(r, true, true)
  {
    UnexposedFits(r, Tail);
    Prints(r, Tail, true);
    OperandPrints(l, !l.IsLeaf(), Tail);
    if !NoOperator(Print(r, true, true), OR) {
      ShownOrIsRoot(Operand(l, !l.IsLeaf()), Print(r, true, true));
    } else {
      NothingShownNothingBracketed(r, Tail);
    }
  }

  lemma {:induction false} NothingShownNothingBracketed(t: Pointcut, place: Place)
    requires Printable(t, place, true) && NoOperator(Print(t, place == Tail, true), OR)
    ensures Print(t, place == Tail, false) == Print(t, place == Tail, true)
  {
    match t {
      case Or(l, r) =>
        OrShows(l, r, place);
        assert false;
      case Not(x) =>
        FlatText("!");
        NoOperatorInRight("!", Print(x, place == Tail, true), OR);
        NothingShownNothingBracketed(x, place);
      case _ =>
    }
  }

  lemma OrShows(l: Pointcut, r: Pointcut, place: Place)
    requires Printable(Or(l, r), place, true)
    ensures !NoOperator(Print(Or(l, r), place == Tail, true), OR)
  {
    OperandPrints(l, l.Or? || l.Not?, place);
    JoinSplits(Operand(l, l.Or? || l.Not?), OR, Print(r, place == Tail, true));
  }
}
