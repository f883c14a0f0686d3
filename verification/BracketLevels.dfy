/**
 How each of the two parsers reads a text built from basic pointcuts, `!`, `&&`, `||` and brackets.
 */
module BracketLevels {
  import opened Common
  import opened Strings
  import opened Brackets
  import Core = PointcutParser
  import CoreText = PointcutRoundTrip
  import Driver = DriverParser
  import DriverText = DriverRoundTrip

  datatype Kind = Execution | Within | Name

  datatype Op = AndOp | OrOp

  /** What one pair of brackets holds, from left to right; a `!` may stand in front of any unit. */
  datatype Level = One(unit: Unit) | Bang(level: Level) | Link(unit: Unit, op: Op, rest: Level)

  datatype Unit = Basic(kind: Kind, body: string) | Group(level: Level)

  // ------------------------------------------------------------------ the text

  function AtomText(kind: Kind, body: string): string {
    Keyword(kind) + ("(" + body + ")")
  }

  function Keyword(kind: Kind): string {
    match kind case Execution => "execution" case Within => "within" case Name => "name"
  }

  function OpText(op: Op): string { if op.AndOp? then " && " else " || " }

  function Text(l: Level): string {
    match l
    case One(u) => UnitText(u)
    case Bang(x) => "!" + Text(x)
    case Link(u, op, rest) => UnitText(u) + OpText(op) + Text(rest)
  }

  function UnitText(u: Unit): string {
    match u
    case Basic(kind, body) => AtomText(kind, body)
    case Group(l) => "(" + Text(l) + ")"
  }

  /** The bodies of the basic pointcuts close the brackets they open. */
  predicate WellFormed(l: Level) {
    match l
    case One(u) => UnitWellFormed(u)
    case Bang(x) => WellFormed(x)
    case Link(u, _, rest) => UnitWellFormed(u) && WellFormed(rest)
  }

  predicate UnitWellFormed(u: Unit) {
    match u
    case Basic(_, body) => Balanced(body)
    case Group(l) => WellFormed(l)
  }

  // ------------------------------------------------------------------ cutting a level at an operator

  /** The level itself shows the operator, whether in front of a `!` or behind it. */
  predicate Shows(l: Level, op: Op) {
    match l
    case One(_) => false
    case Bang(x) => Shows(x, op)
    case Link(_, o, rest) => o == op || Shows(rest, op)
  }

  function Size(l: Level): nat {
    match l
    case One(u) => 1 + UnitSize(u)
    case Bang(x) => 1 + Size(x)
    case Link(u, _, rest) => 1 + UnitSize(u) + Size(rest)
  }

  function UnitSize(u: Unit): nat {
    match u
    case Basic(_, _) => 1
    case Group(l) => 1 + Size(l)
  }

  /** Up to the first such operator. */
  function Before(l: Level, op: Op): (r: Level)
    requires Shows(l, op)
    ensures Size(r) < Size(l) && !Shows(r, op) && (r.Bang? <==> l.Bang?) && (WellFormed(l) ==> WellFormed(r))
  {
    match l
    case Bang(x) => Bang(Before(x, op))
    case Link(u, o, rest) => if o == op then One(u) else Link(u, o, Before(rest, op))
  }

  /** From behind it. */
  function After(l: Level, op: Op): (r: Level)
    requires Shows(l, op)
    ensures Size(r) < Size(l) && (WellFormed(l) ==> WellFormed(r))
  {
    match l
    case Bang(x) => After(x, op)
    case Link(u, o, rest) => if o == op then rest else After(rest, op)
  }

  lemma {:induction false} TextSplits(l: Level, op: Op)
    requires Shows(l, op)
    ensures Text(l) == Text(Before(l, op)) + OpText(op) + Text(After(l, op))
  {
    match l {
      case Bang(x) =>
        TextSplits(x, op);
        RegroupFront("!", Text(Before(x, op)), OpText(op), Text(After(x, op)));
      case Link(u, o, rest) =>
        if o != op {
          TextSplits(rest, op);
          RegroupTail(UnitText(u), OpText(o), Text(Before(rest, op)), OpText(op), Text(After(rest, op)));
        }
    }
  }

  // ------------------------------------------------------------------ the two readings

  /** The core: `!` in front takes all, then the first `||` decides, then the first `&&`. */
  function CoreRead(l: Level): Core.Parsed
    decreases Size(l), 0
  {
    if l.Bang? then Core.NotOf(CoreRead(l.level))
    else if Shows(l, OrOp) then Core.OrOf(CoreRead(Before(l, OrOp)), CoreRead(After(l, OrOp)))
    else if Shows(l, AndOp) then Core.AndOf(CoreRead(Before(l, AndOp)), CoreRead(After(l, AndOp)))
    else CoreUnit(l.unit)
  }

  function CoreUnit(u: Unit): Core.Parsed
    decreases UnitSize(u), 0
  {
    match u
    case Basic(kind, body) => Core.ParseLeaf(AtomText(kind, body))
    case Group(l) => CoreRead(l)
  }

  /** The driver: `!` in front takes all, then the first `&&` decides, then the first `||`. */
  function DriverRead(l: Level): Driver.Parsed
    decreases Size(l), 0
  {
    if l.Bang? then Driver.NotOf(DriverRead(l.level))
    else if Shows(l, AndOp) then Driver.AndOf(DriverRead(Before(l, AndOp)), DriverRead(After(l, AndOp)))
    else if Shows(l, OrOp) then Driver.OrOf(DriverRead(Before(l, OrOp)), DriverRead(After(l, OrOp)))
    else DriverUnit(l.unit)
  }

  function DriverUnit(u: Unit): Driver.Parsed
    decreases UnitSize(u), 0
  {
    match u
    case Basic(kind, body) => Driver.ParseLeaf(AtomText(kind, body))
    case Group(l) => DriverRead(l)
  }

  // ------------------------------------------------------------------ what the texts look like

  /** Operator texts of either parser. */
  const OPERATORS := ["&&", "||", " && ", " || "]

  lemma OperatorsListed()
    ensures Core.AND in OPERATORS && Core.OR in OPERATORS && Driver.AND in OPERATORS && Driver.OR in OPERATORS
  {
    assert OPERATORS[0] == Driver.AND && OPERATORS[1] == Driver.OR && OPERATORS[2] == Core.AND && OPERATORS[3] == Core.OR;
  }

  lemma AtomIsBalanced(kind: Kind, body: string)
    requires Balanced(body)
    ensures Balanced(AtomText(kind, body))
    ensures forall op | op in OPERATORS :: NoOperator(AtomText(kind, body), op)
  {
    var keyword := Keyword(kind);
    FlatText(keyword);
    BracketsKeepBalance(body);
    BalancedJoin(keyword, "(" + body + ")");
    forall op | op in OPERATORS
      ensures NoOperator(AtomText(kind, body), op)
    {
      NoOperatorInBrackets(body, op);
      ClearIsNoOperator("(" + body + ")", op);
      PrefixKeepsClear(keyword, "(" + body + ")", op, 0);
      ClearIsNoOperator(AtomText(kind, body), op);
    }
  }

  /** What both parsers take as one operand. */
  ghost predicate Operand(s: string) {
    && CoreText.Solid(s) && DriverText.Solid(s) && s[0] != '!' && Balanced(s)
    && NoOperator(s, Driver.AND) && NoOperator(s, Driver.OR) && NoOperator(s, Core.AND) && NoOperator(s, Core.OR)
  }

  lemma AtomIsOperand(kind: Kind, body: string)
    requires Balanced(body)
    ensures Operand(AtomText(kind, body))
  {
    var s := AtomText(kind, body);
    AtomIsBalanced(kind, body);
    OperatorsListed();
    assert s[0] == Keyword(kind)[0] && s[|s| - 1] == ')';
  }

  lemma GroupIsOperand(s: string)
    requires Balanced(s)
    ensures Operand("(" + s + ")")
  {
    BracketsKeepBalance(s);
    NoOperatorInBrackets(s, Driver.AND);
    NoOperatorInBrackets(s, Driver.OR);
    NoOperatorInBrackets(s, Core.AND);
    NoOperatorInBrackets(s, Core.OR);
  }

  /** The shape of a level's text, and which operators show in it. */
  ghost predicate Shaped(s: string, l: Level) {
    && CoreText.Solid(s) && DriverText.Solid(s) && Balanced(s) && (!l.Bang? ==> s[0] != '!')
    && (!Shows(l, OrOp) ==> NoOperator(s, Core.OR))
    && (!Shows(l, AndOp) ==> NoOperator(s, Driver.AND))
  }

  lemma BangIsShaped(s: string, x: Level)
    requires Shaped(s, x)
    ensures Shaped("!" + s, Bang(x))
  {
    CoreText.NotFits(s, CoreText.Nested);
    BangKeepsClear(s);
  }

  lemma BangKeepsClear(s: string)
    ensures NoOperator(s, Driver.AND) ==> NoOperator("!" + s, Driver.AND)
  {
    if NoOperator(s, Driver.AND) {
      FlatText("!");
      ClearIsNoOperator(s, Driver.AND);
      PrefixKeepsClear("!", s, Driver.AND, 0);
      ClearIsNoOperator("!" + s, Driver.AND);
    }
  }

  lemma JoinedText(a: string, b: string)
    ensures DriverText.Joined(a, Driver.AND, b) == a + " && " + b
    ensures DriverText.Joined(a, Driver.OR, b) == a + " || " + b
  {
    assert " " + Driver.AND + " " == " && " && " " + Driver.OR + " " == " || ";
  }

  lemma AndLinkIsShaped(a: string, s: string, u: Unit, rest: Level)
    requires Operand(a) && Shaped(s, rest)
    ensures Shaped(a + " && " + s, Link(u, AndOp, rest))
  {
    CoreText.JoinFits(a, Core.AND, s, CoreText.Nested);
    DriverText.JoinedSides(a, Driver.AND, s);
    JoinedText(a, s);
    if !Shows(rest, OrOp) {
      CoreText.JoinHides(a, s);
    }
  }

  lemma OrLinkIsShaped(a: string, s: string, u: Unit, rest: Level)
    requires Operand(a) && Shaped(s, rest)
    ensures Shaped(a + " || " + s, Link(u, OrOp, rest))
  {
    CoreText.JoinFits(a, Core.OR, s, CoreText.Nested);
    DriverText.JoinedSides(a, Driver.OR, s);
    JoinedText(a, s);
    if !Shows(rest, AndOp) {
      DriverText.JoinHides(a, Driver.OR, s, Driver.AND);
    }
  }

  lemma {:induction false} LevelIsShaped(l: Level)
    requires WellFormed(l)
    ensures Shaped(Text(l), l)
    decreases l
  {
    match l {
      case One(u) => UnitIsOperand(u);
      case Bang(x) =>
        LevelIsShaped(x);
        BangIsShaped(Text(x), x);
      case Link(u, op, rest) =>
        UnitIsOperand(u);
        LevelIsShaped(rest);
        if op.AndOp? {
          AndLinkIsShaped(UnitText(u), Text(rest), u, rest);
        } else {
          OrLinkIsShaped(UnitText(u), Text(rest), u, rest);
        }
    }
  }

  lemma {:induction false} UnitIsOperand(u: Unit)
    requires UnitWellFormed(u)
    ensures Operand(UnitText(u))
    decreases u
  {
    match u {
      case Basic(kind, body) => AtomIsOperand(kind, body);
      case Group(l) =>
        LevelIsShaped(l);
        GroupIsOperand(Text(l));
    }
  }

  // ------------------------------------------------------------------ each parser reads as described

  lemma CoreAtom(kind: Kind, body: string)
    requires Balanced(body)
    ensures Core.Parse(AtomText(kind, body)) == Core.ParseLeaf(AtomText(kind, body))
  {
    var s := AtomText(kind, body);
    AtomIsOperand(kind, body);
    assert s[0] == Keyword(kind)[0] && s[|s| - 1] == ')';
    CoreText.LeafUndecided(s);
    CoreText.ParseAtLeaf(s, Core.ParseLeaf(s));
  }

  lemma DriverAtom(kind: Kind, body: string)
    requires Balanced(body)
    ensures Driver.Parse(AtomText(kind, body)) == Driver.ParseLeaf(AtomText(kind, body))
  {
    var s := AtomText(kind, body);
    AtomIsOperand(kind, body);
    assert s[0] == Keyword(kind)[0] && s[|s| - 1] == ')';
    DriverText.ParseAtLeaf(s);
  }

  /** Without operators, and without a `!` in front, a level is its one unit. */
  lemma NothingShown(l: Level)
    requires !l.Bang? && !Shows(l, OrOp) && !Shows(l, AndOp)
    ensures l.One?
  {}

  /** The first operator of a level without the other one is the one behind its first unit. */
  lemma FirstLink(l: Level, op: Op)
    requires !l.Bang? && Shows(l, op) && !Shows(l, if op.AndOp? then OrOp else AndOp)
    ensures l.Link? && Before(l, op) == One(l.unit) && After(l, op) == l.rest
  {}

  /** The core parser reads every such text as `CoreRead` says, errors included. */
  lemma {:induction false} CoreReads(l: Level)
    requires WellFormed(l)
    ensures Core.Parse(Text(l)) == CoreRead(l)
    decreases Size(l)
  {
    if l.Bang? {
      CoreReads(l.level);
      CoreText.NotTakesTheRest(Text(l.level));
    } else if Shows(l, OrOp) {
      var (a, b) := (Before(l, OrOp), After(l, OrOp));
      CoreReads(a);
      CoreReads(b);
      LevelIsShaped(a);
      LevelIsShaped(b);
      TextSplits(l, OrOp);
      CoreText.OrParses(Text(a), Text(b));
    } else if Shows(l, AndOp) {
      var (a, b) := (Before(l, AndOp), After(l, AndOp));
      CoreReads(a);
      CoreReads(b);
      FirstLink(l, AndOp);
      UnitIsOperand(l.unit);
      LevelIsShaped(b);
      TextSplits(l, AndOp);
      CoreText.AndParses(Text(a), Text(b));
    } else {
      NothingShown(l);
      match l.unit {
        case Basic(kind, body) => CoreAtom(kind, body);
        case Group(x) =>
          assert Size(l) == 1 + UnitSize(l.unit);
          CoreReads(x);
          LevelIsShaped(x);
          CoreText.BracketsAreTransparent(Text(x));
      }
    }
  }

  /** And the driver's as `DriverRead` says. */
  lemma {:induction false} DriverReads(l: Level)
    requires WellFormed(l)
    ensures Driver.Parse(Text(l)) == DriverRead(l)
    decreases Size(l)
  {
    if l.Bang? {
      DriverReads(l.level);
      LevelIsShaped(l.level);
      DriverText.NotParses(Text(l.level));
    } else if Shows(l, AndOp) {
      var (a, b) := (Before(l, AndOp), After(l, AndOp));
      DriverReads(a);
      DriverReads(b);
      LevelIsShaped(a);
      LevelIsShaped(b);
      TextSplits(l, AndOp);
      JoinedText(Text(a), Text(b));
      DriverText.AndParses(Text(a), Text(b));
    } else if Shows(l, OrOp) {
      var (a, b) := (Before(l, OrOp), After(l, OrOp));
      DriverReads(a);
      DriverReads(b);
      FirstLink(l, OrOp);
      UnitIsOperand(l.unit);
      LevelIsShaped(b);
      TextSplits(l, OrOp);
      JoinedText(Text(a), Text(b));
      DriverText.OrParses(Text(a), Text(b));
    } else {
      NothingShown(l);
      match l.unit {
        case Basic(kind, body) => DriverAtom(kind, body);
        case Group(x) =>
          assert Size(l) == 1 + UnitSize(l.unit);
          DriverReads(x);
          LevelIsShaped(x);
          GroupIsOperand(Text(x));
          DriverText.BracketsParse(Text(x));
      }
    }
  }

  /** Two units joined by an operator. */
  lemma TwoUnits(a: Unit, op: Op, b: Unit)
    ensures var l := Link(a, op, One(b));
      && Before(l, op) == One(a) && After(l, op) == One(b) && Text(l) == UnitText(a) + OpText(op) + UnitText(b)
      && CoreRead(l) == (if op.AndOp? then Core.AndOf(CoreUnit(a), CoreUnit(b)) else Core.OrOf(CoreUnit(a), CoreUnit(b)))
      && DriverRead(l) ==
         (if op.AndOp? then Driver.AndOf(DriverUnit(a), DriverUnit(b)) else Driver.OrOf(DriverUnit(a), DriverUnit(b)))
  {
    var l := Link(a, op, One(b));
    assert !Shows(One(b), AndOp) && !Shows(One(b), OrOp);
    assert Before(l, op) == One(a) && After(l, op) == One(b);
  }
}
