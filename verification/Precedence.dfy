/** What the documented precedence of the core's operators makes of a text, and when the parser does as documented. */
module Precedence {
  import opened Common
  import opened BracketLevels
  import Core = PointcutParser

  /** As documented: the first `||` decides, then the first `&&`, and `!` binds tightest. */
  function Documented(l: Level): Core.Parsed
    decreases Size(l), 0
  {
    if Shows(l, OrOp) then Core.OrOf(Documented(Before(l, OrOp)), Documented(After(l, OrOp)))
    else if Shows(l, AndOp) then Core.AndOf(Documented(Before(l, AndOp)), Documented(After(l, AndOp)))
    else if l.Bang? then Core.NotOf(Documented(l.level))
    else DocumentedUnit(l.unit)
  }

  function DocumentedUnit(u: Unit): Core.Parsed
    decreases UnitSize(u), 0
  {
    match u
    case Basic(kind, body) => Core.ParseLeaf(AtomText(kind, body))
    case Group(l) => Documented(l)
  }

  // ------------------------------------------------------------------ the texts that are accepted

  /** The error of the first basic pointcut the core does not know. */
  function FirstError(l: Level): Option<string> {
    match l
    case One(u) => FirstUnitError(u)
    case Bang(x) => FirstError(x)
    case Link(u, _, rest) => if FirstUnitError(u).Some? then FirstUnitError(u) else FirstError(rest)
  }

  function FirstUnitError(u: Unit): Option<string> {
    match u
    case Basic(kind, body) =>
      var r := Core.ParseLeaf(AtomText(kind, body));
      if r.Ok? then None else Some(r.error)
    case Group(l) => FirstError(l)
  }

  lemma {:induction false} FirstErrorParts(l: Level, op: Op)
    requires Shows(l, op)
    ensures var (a, b) := (FirstError(Before(l, op)), FirstError(After(l, op)));
      FirstError(l) == if a.Some? then a else b
  {
    match l {
      case Bang(x) => FirstErrorParts(x, op);
      case Link(_, o, rest) =>
        if o != op {
          FirstErrorParts(rest, op);
        }
    }
  }

  /** Accepted, or rejected with this error. */
  predicate Ends(r: Core.Parsed, e: Option<string>) { if e.None? then r.Ok? else r == Err(e.value) }

  /** Both readings reject a text for the same reason. */
  lemma {:induction false} BothEnd(l: Level)
    ensures Ends(CoreRead(l), FirstError(l)) && Ends(Documented(l), FirstError(l))
    decreases Size(l)
  {
    if Shows(l, OrOp) {
      FirstErrorParts(l, OrOp);
      BothEnd(Before(l, OrOp));
      BothEnd(After(l, OrOp));
    } else if Shows(l, AndOp) {
      FirstErrorParts(l, AndOp);
      BothEnd(Before(l, AndOp));
      BothEnd(After(l, AndOp));
    }
    if l.Bang? {
      BothEnd(l.level);
    } else if l.One? {
      BothUnitsEnd(l.unit);
    }
  }

  lemma {:induction false} BothUnitsEnd(u: Unit)
    ensures Ends(CoreUnit(u), FirstUnitError(u)) && Ends(DocumentedUnit(u), FirstUnitError(u))
    decreases UnitSize(u)
  {
    if u.Group? {
      BothEnd(u.level);
    }
  }

  // ------------------------------------------------------------------ the condition

  /** The operator that comes next in the level, if any. */
  function NextOp(l: Level): Option<Op> {
    match l
    case One(_) => None
    case Bang(x) => NextOp(x)
    case Link(_, op, _) => Some(op)
  }

  /**
   Every `!` is the last word in its brackets, no operator behind it, or else stands behind `&&` and is
   followed by `||`. The flag says whether the level is read from behind an `&&`.
   */
  predicate AsDocumented(l: Level, behindAnd: bool) {
    match l
    case One(u) => UnitAsDocumented(u)
    case Bang(x) => (NextOp(x) == None || (behindAnd && NextOp(x) == Some(OrOp))) && AsDocumented(x, behindAnd)
    case Link(u, op, rest) => UnitAsDocumented(u) && AsDocumented(rest, op == AndOp)
  }

  predicate UnitAsDocumented(u: Unit) {
    match u
    case Basic(_, _) => true
    case Group(l) => AsDocumented(l, false)
  }

  lemma {:induction false} NextIsShown(l: Level)
    ensures NextOp(l) == None <==> !Shows(l, OrOp) && !Shows(l, AndOp)
    ensures NextOp(l) == Some(OrOp) ==> Shows(l, OrOp)
  {
    if l.Bang? {
      NextIsShown(l.level);
    }
  }

  lemma {:induction false} NextBeforeOr(l: Level)
    requires Shows(l, OrOp)
    ensures NextOp(Before(l, OrOp)) == if NextOp(l) == Some(OrOp) then None else NextOp(l)
    ensures NextOp(l) != None
  {
    if l.Bang? {
      NextBeforeOr(l.level);
    }
  }

  lemma {:induction false} AsDocumentedParts(l: Level, behindAnd: bool)
    requires Shows(l, OrOp) && (l.Bang? ==> behindAnd)
    ensures AsDocumented(l, behindAnd)
       <==> AsDocumented(Before(l, OrOp), behindAnd) && AsDocumented(After(l, OrOp), false)
  {
    match l {
      case Bang(x) =>
        AsDocumentedParts(x, behindAnd);
        NextBeforeOr(x);
        NextIsShown(Before(x, OrOp));
      case Link(_, op, rest) =>
        if op.AndOp? {
          AsDocumentedParts(rest, true);
        }
    }
  }

  /** Without an `||` it does not matter what stands in front. */
  lemma {:induction false} NoOrNoDifference(l: Level)
    requires !Shows(l, OrOp)
    ensures AsDocumented(l, true) <==> AsDocumented(l, false)
  {
    if l.Bang? {
      NoOrNoDifference(l.level);
      NextIsShown(l.level);
    }
  }

  lemma {:induction false} ReadAsDocumentedIff(l: Level)
    requires FirstError(l).None?
    ensures CoreRead(l) == Documented(l) <==> AsDocumented(l, false)
    decreases Size(l), 1
  {
    BothEnd(l);
    if l.Bang? {
      NextIsShown(l.level);
      BothEnd(l.level);
      if NextOp(l.level) == None {
        ReadAsDocumentedIff(l.level);
      }
    } else if Shows(l, OrOp) {
      PartsReadIff(l, OrOp);
      AsDocumentedParts(l, false);
    } else if Shows(l, AndOp) {
      PartsReadIff(l, AndOp);
      FirstLink(l, AndOp);
      NoOrNoDifference(l.rest);
    } else {
      NothingShown(l);
      if l.unit.Group? {
        assert Size(l) == 1 + UnitSize(l.unit);
        ReadAsDocumentedIff(l.unit.level);
      }
    }
  }

  lemma {:induction false} PartsReadIff(l: Level, op: Op)
    requires FirstError(l).None? && Shows(l, op)
    ensures var (a, b) := (Before(l, op), After(l, op));
      && CoreRead(a).Ok? && CoreRead(b).Ok? && Documented(a).Ok? && Documented(b).Ok?
      && (CoreRead(a) == Documented(a) <==> AsDocumented(a, false))
      && (CoreRead(b) == Documented(b) <==> AsDocumented(b, false))
    decreases Size(l), 0
  {
    FirstErrorParts(l, op);
    BothEnd(Before(l, op));
    BothEnd(After(l, op));
    ReadAsDocumentedIff(Before(l, op));
    ReadAsDocumentedIff(After(l, op));
  }

  /** The core's parser reads a text as documented exactly if it rejects it or every `!` stands as it should. */
  lemma ParsedAsDocumentedIff(l: Level)
    requires WellFormed(l)
    ensures Core.Parse(Text(l)) == Documented(l) <==> Core.Parse(Text(l)).Err? || AsDocumented(l, false)
  {
    CoreReads(l);
    BothEnd(l);
    if FirstError(l).None? {
      ReadAsDocumentedIff(l);
    }
  }

  /** So a `!` at the start is weaker than `||`: in `!a || b` it negates both. */
  lemma NotInFront(a: Unit, b: Unit)
    requires UnitWellFormed(a) && UnitWellFormed(b)
    ensures Core.Parse("!" + (UnitText(a) + " || " + UnitText(b))) == Core.NotOf(Core.OrOf(CoreUnit(a), CoreUnit(b)))
  {
    TwoUnits(a, OrOp, b);
    CoreReads(Bang(Link(a, OrOp, One(b))));
  }

  /** And behind `&&` it is tighter: in `a && !b || c` it negates b alone. */
  lemma NotInside(a: Unit, b: Unit, c: Unit)
    requires UnitWellFormed(a) && UnitWellFormed(b) && UnitWellFormed(c)
    ensures Core.Parse(UnitText(a) + " && " + ("!" + (UnitText(b) + " || " + UnitText(c))))
         == Core.OrOf(Core.AndOf(CoreUnit(a), Core.NotOf(CoreUnit(b))), CoreUnit(c))
  {
    NotInsideText(a, b, c);
    NotBehindAnd(a, b, c);
    CoreReads(Link(a, AndOp, Bang(Link(b, OrOp, One(c)))));
  }

  lemma NotInsideText(a: Unit, b: Unit, c: Unit)
    ensures var l := Link(a, AndOp, Bang(Link(b, OrOp, One(c))));
      && Text(l) == UnitText(a) + " && " + ("!" + (UnitText(b) + " || " + UnitText(c)))
      && (UnitWellFormed(a) && UnitWellFormed(b) && UnitWellFormed(c) ==> WellFormed(l))
  {
    var y := Link(b, OrOp, One(c));
    assert Text(y) == UnitText(b) + " || " + UnitText(c) && Text(Bang(y)) == "!" + Text(y);
    assert WellFormed(y) <==> UnitWellFormed(b) && UnitWellFormed(c);
  }

  lemma NotBehindAnd(a: Unit, b: Unit, c: Unit)
    ensures CoreRead(Link(a, AndOp, Bang(Link(b, OrOp, One(c)))))
         == Core.OrOf(Core.AndOf(CoreUnit(a), Core.NotOf(CoreUnit(b))), CoreUnit(c))
  {
    var y := Link(b, OrOp, One(c));
    TwoUnits(b, OrOp, c);
    assert Before(Bang(y), OrOp) == Bang(One(b)) && After(Bang(y), OrOp) == One(c);
    CutAtOr(a, Bang(y));
    AndNot(a, b);
  }

  lemma CutAtOr(a: Unit, y: Level)
    requires Shows(y, OrOp)
    ensures CoreRead(Link(a, AndOp, y)) == Core.OrOf(CoreRead(Link(a, AndOp, Before(y, OrOp))), CoreRead(After(y, OrOp)))
  {}

  lemma AndNot(a: Unit, b: Unit)
    ensures CoreRead(Link(a, AndOp, Bang(One(b)))) == Core.AndOf(CoreUnit(a), Core.NotOf(CoreUnit(b)))
  {
    var x := Link(a, AndOp, Bang(One(b)));
    assert CoreRead(One(b)) == CoreUnit(b) && !Shows(One(b), OrOp);
    assert CoreRead(Bang(One(b))) == Core.NotOf(CoreUnit(b)) && !Shows(Bang(One(b)), OrOp);
    assert Before(x, AndOp) == One(a) && After(x, AndOp) == Bang(One(b));
  }
}
