/** Where the two pointcut parsers agree: exactly on the texts that do not mix `&&` and `||` within one pair of brackets. */
module ParserAgreement {
  import opened Common
  import opened Brackets
  import opened BracketLevels
  import P = Pointcuts
  import Core = PointcutParser
  import Driver = DriverParser

  /** Two trees of the same shape, whose leaves at the same place were read from the same text. */
  ghost predicate Correspond(p: P.Pointcut, d: Driver.PointcutExpr) {
    match p
    case And(l, r) => d.And? && Correspond(l, d.left) && Correspond(r, d.right)
    case Or(l, r) => d.Or? && Correspond(l, d.left) && Correspond(r, d.right)
    case Not(x) => d.Not? && Correspond(x, d.inner)
    case _ => exists kind, body :: Core.ParseLeaf(AtomText(kind, body)) == Ok(p) && Driver.ParseLeaf(AtomText(kind, body)) == Ok(d)
  }

  /** No pair of brackets shows both operators, nor does the whole text. */
  predicate Unmixed(l: Level) {
    && !(Shows(l, AndOp) && Shows(l, OrOp))
    && match l
       case One(u) => UnmixedUnit(u)
       case Bang(x) => Unmixed(x)
       case Link(u, _, rest) => UnmixedUnit(u) && Unmixed(rest)
  }

  predicate UnmixedUnit(u: Unit) {
    match u
    case Basic(_, _) => true
    case Group(l) => Unmixed(l)
  }

  // ------------------------------------------------------------------ exactly the unmixed texts are read alike

  lemma BasicsCorrespond(kind: Kind, body: string)
    requires Core.ParseLeaf(AtomText(kind, body)).Ok? && Driver.ParseLeaf(AtomText(kind, body)).Ok?
    ensures Correspond(Core.ParseLeaf(AtomText(kind, body)).value, Driver.ParseLeaf(AtomText(kind, body)).value)
  {
    var p := Core.ParseLeaf(AtomText(kind, body)).value;
    assert !p.And? && !p.Or? && !p.Not?;
  }

  lemma {:induction false} ReadAlikeIff(l: Level)
    requires CoreRead(l).Ok? && DriverRead(l).Ok?
    ensures Correspond(CoreRead(l).value, DriverRead(l).value) <==> Unmixed(l)
    decreases Size(l)
  {
    if l.Bang? {
      ReadAlikeIff(l.level);
    } else if Shows(l, AndOp) && Shows(l, OrOp) {
      assert CoreRead(l).value.Or? && DriverRead(l).value.And?;
    } else if Shows(l, AndOp) {
      FirstLink(l, AndOp);
      ReadAlikeIff(One(l.unit));
      ReadAlikeIff(l.rest);
    } else if Shows(l, OrOp) {
      FirstLink(l, OrOp);
      ReadAlikeIff(One(l.unit));
      ReadAlikeIff(l.rest);
    } else {
      NothingShown(l);
      match l.unit {
        case Basic(kind, body) => BasicsCorrespond(kind, body);
        case Group(x) =>
          assert Size(l) == 1 + UnitSize(l.unit);
          ReadAlikeIff(x);
      }
    }
  }

  /** The parsers build the same tree from a text both accept if and only if no brackets of it mix the operators. */
  lemma ParsersAgreeIff(l: Level)
    requires WellFormed(l)
    requires Core.Parse(Text(l)).Ok? && Driver.Parse(Text(l)).Ok?
    ensures Correspond(Core.Parse(Text(l)).value, Driver.Parse(Text(l)).value) <==> Unmixed(l)
  {
    CoreReads(l);
    DriverReads(l);
    ReadAlikeIff(l);
  }

  // ------------------------------------------------------------------ the formula that an unmixed text writes

  /** A boolean combination of basic pointcuts. */
  datatype Formula =
    | Atom(kind: Kind, body: string)
    | And(left: Formula, right: Formula)
    | Or(left: Formula, right: Formula)
    | Not(inner: Formula)

  /** The bodies of the atoms close the brackets they open. */
  predicate BodiesBalanced(f: Formula) {
    match f
    case Atom(_, body) => Balanced(body)
    case And(l, r) => BodiesBalanced(l) && BodiesBalanced(r)
    case Or(l, r) => BodiesBalanced(l) && BodiesBalanced(r)
    case Not(x) => BodiesBalanced(x)
  }

  /** What a parser should make of the formula: its own leaves, the formula's tree, the first error. */
  function CoreMeaning(f: Formula): Core.Parsed {
    match f
    case Atom(kind, body) => Core.ParseLeaf(AtomText(kind, body))
    case And(l, r) => Core.AndOf(CoreMeaning(l), CoreMeaning(r))
    case Or(l, r) => Core.OrOf(CoreMeaning(l), CoreMeaning(r))
    case Not(x) => Core.NotOf(CoreMeaning(x))
  }

  function DriverMeaning(f: Formula): Driver.Parsed {
    match f
    case Atom(kind, body) => Driver.ParseLeaf(AtomText(kind, body))
    case And(l, r) => Driver.AndOf(DriverMeaning(l), DriverMeaning(r))
    case Or(l, r) => Driver.OrOf(DriverMeaning(l), DriverMeaning(r))
    case Not(x) => Driver.NotOf(DriverMeaning(x))
  }

  /** From the left: a `!` negates the rest of its brackets, an operator joins one unit to the rest of them. */
  function FormulaOf(l: Level): Formula {
    match l
    case One(u) => UnitFormula(u)
    case Bang(x) => Formula.Not(FormulaOf(x))
    case Link(u, op, rest) =>
      if op.AndOp? then Formula.And(UnitFormula(u), FormulaOf(rest)) else Formula.Or(UnitFormula(u), FormulaOf(rest))
  }

  function UnitFormula(u: Unit): Formula {
    match u
    case Basic(kind, body) => Atom(kind, body)
    case Group(l) => FormulaOf(l)
  }

  lemma {:induction false} FormulaIsBalanced(l: Level)
    ensures WellFormed(l) <==> BodiesBalanced(FormulaOf(l))
    decreases l
  {
    match l {
      case One(u) => UnitIsBalanced(u);
      case Bang(x) => FormulaIsBalanced(x);
      case Link(u, _, rest) =>
        UnitIsBalanced(u);
        FormulaIsBalanced(rest);
    }
  }

  lemma {:induction false} UnitIsBalanced(u: Unit)
    ensures UnitWellFormed(u) <==> BodiesBalanced(UnitFormula(u))
    decreases u
  {
    if u.Group? {
      FormulaIsBalanced(u.level);
    }
  }

  lemma {:induction false} ReadsAsFormula(l: Level)
    requires Unmixed(l)
    ensures CoreRead(l) == CoreMeaning(FormulaOf(l)) && DriverRead(l) == DriverMeaning(FormulaOf(l))
    decreases l
  {
    match l {
      case One(u) => UnitReadsAsFormula(u);
      case Bang(x) => ReadsAsFormula(x);
      case Link(u, op, rest) =>
        UnitReadsAsFormula(u);
        ReadsAsFormula(rest);
        FirstLink(l, op);
    }
  }

  lemma {:induction false} UnitReadsAsFormula(u: Unit)
    requires UnmixedUnit(u)
    ensures CoreRead(One(u)) == CoreMeaning(UnitFormula(u)) && DriverRead(One(u)) == DriverMeaning(UnitFormula(u))
    decreases u
  {
    if u.Group? {
      ReadsAsFormula(u.level);
    }
  }

  /** So either parser reads an unmixed text as the formula it writes, or as that formula's first error. */
  lemma ParsersReadFormula(l: Level)
    requires WellFormed(l) && Unmixed(l)
    ensures Core.Parse(Text(l)) == CoreMeaning(FormulaOf(l))
    ensures Driver.Parse(Text(l)) == DriverMeaning(FormulaOf(l))
  {
    CoreReads(l);
    DriverReads(l);
    ReadsAsFormula(l);
  }

  // ------------------------------------------------------------------ every formula has such a text

  /** Brackets around every operand. */
  function Bracketed(f: Formula): Level {
    match f
    case Atom(kind, body) => One(Basic(kind, body))
    case And(l, r) => Link(Group(Bracketed(l)), AndOp, One(Group(Bracketed(r))))
    case Or(l, r) => Link(Group(Bracketed(l)), OrOp, One(Group(Bracketed(r))))
    case Not(x) => Bang(One(Group(Bracketed(x))))
  }

  function FullText(f: Formula): string { Text(Bracketed(f)) }

  lemma GroupsJoined(a: Level, op: Op, b: Level)
    requires Unmixed(a) && Unmixed(b)
    ensures var l := Link(Group(a), op, One(Group(b)));
      && Unmixed(l)
      && FormulaOf(l) == if op.AndOp? then Formula.And(FormulaOf(a), FormulaOf(b)) else Formula.Or(FormulaOf(a), FormulaOf(b))
  {
    assert UnitFormula(Group(a)) == FormulaOf(a) && FormulaOf(One(Group(b))) == UnitFormula(Group(b)) == FormulaOf(b);
    assert !Shows(One(Group(b)), AndOp) && !Shows(One(Group(b)), OrOp) && Unmixed(One(Group(b)));
  }

  lemma {:induction false} BracketedWrites(f: Formula)
    ensures FormulaOf(Bracketed(f)) == f && Unmixed(Bracketed(f))
  {
    match f {
      case Atom(_, _) =>
      case And(l, r) =>
        BracketedWrites(l);
        BracketedWrites(r);
        GroupsJoined(Bracketed(l), AndOp, Bracketed(r));
      case Or(l, r) =>
        BracketedWrites(l);
        BracketedWrites(r);
        GroupsJoined(Bracketed(l), OrOp, Bracketed(r));
      case Not(x) =>
        BracketedWrites(x);
        assert UnitFormula(Group(Bracketed(x))) == x && FormulaOf(One(Group(Bracketed(x)))) == x;
    }
  }

  /** Any formula can be written so that both parsers read it as meant. */
  lemma FullTextReads(f: Formula)
    requires BodiesBalanced(f)
    ensures Core.Parse(FullText(f)) == CoreMeaning(f) && Driver.Parse(FullText(f)) == DriverMeaning(f)
  {
    BracketedWrites(f);
    FormulaIsBalanced(Bracketed(f));
    ParsersReadFormula(Bracketed(f));
  }

  /** On fully bracketed text both parsers accept, they build the same tree with corresponding leaves. */
  lemma ParsersAgreeOnBracketedText(f: Formula)
    requires BodiesBalanced(f)
    requires Core.Parse(FullText(f)).Ok? && Driver.Parse(FullText(f)).Ok?
    ensures Correspond(Core.Parse(FullText(f)).value, Driver.Parse(FullText(f)).value)
  {
    BracketedWrites(f);
    FormulaIsBalanced(Bracketed(f));
    ParsersAgreeIff(Bracketed(f));
  }

  // ------------------------------------------------------------------ a text that mixes them

  /** On `a || b && c` the core makes `||` the root and the driver `&&`, whatever the three operands are. */
  lemma ParsersDisagreeOnPrecedence(a: Unit, b: Unit, c: Unit)
    requires UnitWellFormed(a) && UnitWellFormed(b) && UnitWellFormed(c)
    ensures var s := UnitText(a) + " || " + (UnitText(b) + " && " + UnitText(c));
      && Core.Parse(s) == Core.OrOf(CoreUnit(a), Core.AndOf(CoreUnit(b), CoreUnit(c)))
      && Driver.Parse(s) == Driver.AndOf(Driver.OrOf(DriverUnit(a), DriverUnit(b)), DriverUnit(c))
  {
    var bc := Link(b, AndOp, One(c));
    TwoUnits(b, AndOp, c);
    CoreReads(Link(a, OrOp, bc));
    DriverReads(Link(a, OrOp, bc));
    CoreSplits(a, bc);
    DriverSplits(a, b, c);
  }

  lemma CoreSplits(a: Unit, rest: Level)
    ensures CoreRead(Link(a, OrOp, rest)) == Core.OrOf(CoreUnit(a), CoreRead(rest))
  {
    assert Before(Link(a, OrOp, rest), OrOp) == One(a);
  }

  lemma DriverSplits(a: Unit, b: Unit, c: Unit)
    ensures DriverRead(Link(a, OrOp, Link(b, AndOp, One(c))))
         == Driver.AndOf(Driver.OrOf(DriverUnit(a), DriverUnit(b)), DriverUnit(c))
  {
    TwoUnits(a, OrOp, b);
    TwoUnits(b, AndOp, c);
    var l := Link(a, OrOp, Link(b, AndOp, One(c)));
    assert Before(l, AndOp) == Link(a, OrOp, One(b)) && After(l, AndOp) == One(c);
  }
}
