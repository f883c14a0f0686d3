/** The driver's own pointcut parser (aspect-driver/src/match.rs), over ASCII text. */
module DriverParser {
  import opened Common
  import opened Strings
  import opened Brackets

  datatype PointcutExpr =
    | Execution(pattern: string)
    | Within(pattern: string)
    | Name(pattern: string)
    | And(left: PointcutExpr, right: PointcutExpr)
    | Or(left: PointcutExpr, right: PointcutExpr)
    | Not(inner: PointcutExpr)
  {
    predicate IsLeaf() { Execution? || Within? || Name? }
  }

  type Parsed = Result<PointcutExpr, string>

  const AND := "&&"
  const OR := "||"

  /** The first error wins, as `?` makes it. */
  function AndOf(l: Parsed, r: Parsed): Parsed {
    if l.Err? then l else if r.Err? then r else Ok(And(l.value, r.value))
  }

  function OrOf(l: Parsed, r: Parsed): Parsed {
    if l.Err? then l else if r.Err? then r else Ok(Or(l.value, r.value))
  }

  function NotOf(x: Parsed): Parsed { if x.Err? then x else Ok(Not(x.value)) }

  predicate InParens(s: string) { |s| > 0 && s[0] == '(' && s[|s| - 1] == ')' }

  function Parse(text: string): Parsed
    decreases |text|
  {
    var input := Trim(text);
    if StartsWith(input, "!") then NotOf(Parse(Trim(input[1..])))
    else
      var and := FirstOperator(input, AND);
      if and.Some? then AndOf(Parse(Trim(input[..and.value])), Parse(Trim(input[and.value + 2..])))
      else
        var or := FirstOperator(input, OR);
        if or.Some? then OrOf(Parse(Trim(input[..or.value])), Parse(Trim(input[or.value + 2..])))
        else if InParens(input) then Parse(input[1..|input| - 1])
        else ParseLeaf(input)
  }

  function ParseLeaf(input: string): Parsed {
    if StartsWith(input, "execution(") then LeafOf(ExtractPattern(input, "execution"), p => Execution(p))
    else if StartsWith(input, "within(") then LeafOf(ExtractPattern(input, "within"), p => Within(p))
    else if StartsWith(input, "name(") then LeafOf(ExtractPattern(input, "name"), p => Name(p))
    else Err("Unknown pointcut pattern: " + input)
  }

  function LeafOf(p: Result<string, string>, make: string -> PointcutExpr): Parsed {
    match p case Ok(v) => Ok(make(v)) case Err(e) => Err(e)
  }

  function ExtractPattern(input: string, prefix: string): Result<string, string> {
    if !StartsWith(input, prefix) || '(' !in input then Err("Invalid " + prefix + " pattern")
    else
      var start := Find(input, '(').value + 1;
      match FindLast(input, ')')
      case None => Err("Missing closing parenthesis")
      case Some(end) =>
        if start >= end then Err("Empty pattern")
        else Ok(TrimQuotes(Trim(input[start..end])))
  }

  // ------------------------------------------------------------------ the printer

  function Keyword(t: PointcutExpr): string
    requires t.IsLeaf()
  {
    match t
    case Execution(_) => "execution"
    case Within(_) => "within"
    case Name(_) => "name"
  }

  function Opened(n: nat): (r: string)
    ensures |r| == n && forall i | 0 <= i < n :: r[i] == '('
  {
    if n == 0 then "" else Opened(n - 1) + "("
  }

  /**
   The pattern in quotes, which protect spaces at its ends. Anything may follow the last closing
   bracket of a leaf; a pattern that closes more brackets than it opens is followed by as many
   opening ones.
   */
  function LeafText(t: PointcutExpr): string
    requires t.IsLeaf()
  {
    Keyword(t) + "(\"" + t.pattern + "\")" + Opened(if Depth(t.pattern) < 0 then -Depth(t.pattern) else 0)
  }

  /** The same leaf at the end of a text, where nothing has to make up for the brackets it closes. */
  function LastLeafText(t: PointcutExpr): string
    requires t.IsLeaf()
  {
    Keyword(t) + "(\"" + t.pattern + "\")"
  }

  /**
   Minimal brackets; here it is `&&` that binds weakest, and `exposed` says whether one may show. `last` says
   whether the part is on the left of no operator.
   */
  function Print(t: PointcutExpr, last: bool, exposed: bool): string
    decreases t, 0
  {
    match t
    case And(l, r) =>
      var s := Operand(l, l.And? || l.Not?) + " && " + Print(r, last, true);
      if exposed then s else "(" + s + ")"
    case Or(l, r) => Operand(l, !l.IsLeaf()) + " || " + Print(r, last, false)
    case Not(x) => "!" + Print(x, last, exposed)
    case _ => if last then LastLeafText(t) else LeafText(t)
  }

  function Operand(t: PointcutExpr, bracketed: bool): string
    decreases t, 1
  {
    if bracketed then "(" + Print(t, false, true) + ")" else Print(t, false, true)
  }

  function Show(t: PointcutExpr): string { Print(t, true, true) }
}
