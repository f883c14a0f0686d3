/** The pointcut parser (aspect-core/src/pointcut/parser.rs), over ASCII text. */
module PointcutParser {
  import opened Common
  import opened Strings
  import opened Brackets
  import opened Pointcuts

  type Parsed = Result<Pointcut, string>

  const OR := " || "
  const AND := " && "

  /** The first error wins, as `?` makes it. */
  function OrOf(l: Parsed, r: Parsed): Parsed {
    if l.Err? then l else if r.Err? then r else Ok(Or(l.value, r.value))
  }

  function AndOf(l: Parsed, r: Parsed): Parsed {
    if l.Err? then l else if r.Err? then r else Ok(And(l.value, r.value))
  }

  function NotOf(x: Parsed): Parsed { if x.Err? then x else Ok(Not(x.value)) }

  function Parse(text: string): Parsed
    decreases |text|
  {
    var input := Trim(text);
    var stripped := Stripped(input);
    if stripped.Some? then Parse(stripped.value)
    else if StartsWith(input, "!") then NotOf(Parse(Trim(input[1..])))
    else
      var or := FirstOperator(input, OR);
      if or.Some? then OrOf(Parse(input[..or.value]), Parse(input[or.value + 4..]))
      else
        var and := FirstOperator(input, AND);
        if and.Some? then AndOf(Parse(input[..and.value]), Parse(input[and.value + 4..]))
        else ParseLeaf(input)
  }

  function ParseLeaf(input: string): Parsed {
    if StartsWith(input, "execution(") then ParseExecution(input)
    else if StartsWith(input, "within(") then ParseWithin(input)
    else Err("Unknown pointcut type: " + input)
  }

  function ParseExecution(input: string): Parsed {
    if !StartsWith(input, "execution(") || !EndsWith(input, ")") then Err("Invalid execution syntax")
    else
      assert input[9] == '(';
      var content := Trim(input[10..|input| - 1]);
      var (visibility, rest) := ParseVisibility(content);
      var rest := Trim(rest);
      if !StartsWith(rest, "fn ") then Err("Expected 'fn' keyword")
      else
        var rest := Trim(rest[3..]);
        match Find(rest, '(')
        case None => Err("Expected function signature")
        case Some(p) => Ok(Execution(ExecutionPattern(visibility, ParseNamePattern(Trim(rest[..p])), None)))
  }

  function ParseWithin(input: string): Parsed {
    if !StartsWith(input, "within(") || !EndsWith(input, ")") then Err("Invalid within syntax")
    else
      assert input[6] == '(';
      Ok(Within(ModulePattern(Trim(input[7..|input| - 1]))))
  }

  function ParseVisibility(input: string): (Option<Visibility>, string) {
    if StartsWith(input, "pub(crate) ") then (Some(Crate), input[11..])
    else if StartsWith(input, "pub(super) ") then (Some(Super), input[11..])
    else if StartsWith(input, "pub ") then (Some(Public), input[4..])
    else (None, input)
  }

  function ParseNamePattern(name: string): NamePattern {
    if name == "*" then Wildcard
    else if StartsWith(name, "*") && EndsWith(name, "*") && |name| > 2 then Containing(name[1..|name| - 1])
    else if StartsWith(name, "*") then Suffix(name[1..])
    else if EndsWith(name, "*") then Prefix(name[..|name| - 1])
    else Exact(name)
  }

  // ------------------------------------------------------------------ the printer

  function VisibilityText(v: Option<Visibility>): string {
    match v
    case Some(Public) => "pub "
    case Some(Crate) => "pub(crate) "
    case Some(Super) => "pub(super) "
    case _ => ""
  }

  function NameText(n: NamePattern): string {
    match n
    case Wildcard => "*"
    case Exact(t) => t
    case Prefix(t) => t + "*"
    case Suffix(t) => "*" + t
    case Containing(t) => "*" + t + "*"
  }

  function Repeat(c: char, n: nat): (r: string)
    ensures |r| == n && forall i | 0 <= i < n :: r[i] == c
  {
    if n == 0 then "" else Repeat(c, n - 1) + [c]
  }

  /**
   The parameter list, closing the whole leaf. A pattern name may itself hold closing brackets; the
   list then opens as many, so that the leaf as a whole always has net depth zero.
   */
  function Signature(name: string): string {
    if Depth(name) >= 0 then "(..))" else Repeat('(', -Depth(name)) + "..)"
  }

  function LeafText(t: Pointcut): string
    requires t.IsLeaf()
  {
    match t
    case Execution(e) =>
      "execution(" + VisibilityText(e.visibility) + "fn " + NameText(e.name) + Signature(NameText(e.name))
    case Within(m) => "within(" + m.path + ")"
  }

  /** The same leaf at the end of a text, where nothing has to close the brackets that the name leaves open. */
  function LastLeafText(t: Pointcut): string
    requires t.IsLeaf()
  {
    match t
    case Execution(e) => "execution(" + VisibilityText(e.visibility) + "fn " + NameText(e.name) + "(..))"
    case Within(_) => LeafText(t)
  }

  /**
   Prints with as few brackets as this grammar allows. `last` says whether the whole text ends with this
   part, outside all brackets; `exposed` says whether an `||` may stand outside brackets: it may not on the
   right of an `&&`. A negation needs no brackets around its operand, because `!` takes all the text that
   follows; it needs them around itself on the left of an operator.
   */
  function Print(t: Pointcut, last: bool, exposed: bool): string
    decreases t, 0
  {
    match t
    case Or(l, r) =>
      var s := Operand(l, l.Or? || l.Not?) + OR + Print(r, last && exposed, true);
      if exposed then s else "(" + s + ")"
    case And(l, r) => Operand(l, !l.IsLeaf()) + AND + Print(r, last, false)
    case Not(x) => "!" + Print(x, last, exposed)
    case _ => if last then LastLeafText(t) else LeafText(t)
  }

  function Operand(t: Pointcut, bracketed: bool): string
    decreases t, 1
  {
    if bracketed then "(" + Print(t, false, true) + ")" else Print(t, false, true)
  }

  function Show(t: Pointcut): string { Print(t, true, true) }
}
