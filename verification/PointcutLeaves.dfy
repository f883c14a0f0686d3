/** The basic pointcuts `execution(..)` and `within(..)`: what they parse to, and printing them back. */
module PointcutLeaves {
  import opened Common
  import opened Strings
  import opened Brackets
  import opened Pointcuts
  import opened PointcutParser

  predicate NoOperators(s: string) { NoOperator(s, OR) && NoOperator(s, AND) }

  /** The leaves the parser can produce. */
  predicate LeafOk(t: Pointcut)
    requires t.IsLeaf()
  {
    && NoOperators(LeafText(t))
    && match t
       case Within(m) => Trimmed(m.path)
       case Execution(e) =>
         && e.returnType.None? && e.visibility != Some(Private)
         && ParseNamePattern(NameText(e.name)) == e.name
         && Trimmed(NameText(e.name)) && '(' !in NameText(e.name)
  }

  /** Printing a parsed name pattern gives its text back, whatever the text. */
  lemma NameTextRoundTrip(name: string)
    ensures NameText(ParseNamePattern(name)) == name
  {}

  // ------------------------------------------------------------------ printed leaves parse back

  lemma WithinParses(path: string)
    requires Trimmed(path)
    ensures ParseLeaf(LeafText(Within(ModulePattern(path)))) == Ok(Within(ModulePattern(path)))
  {
    var s := "within(" + path + ")";
    assert s[7..|s| - 1] == path;
    assert s[0] == 'w' && s[..7] == "within(" && s[|s| - 1..] == ")";
    assert |s| >= 10 ==> s[..10][0] == 'w';
    TrimKeepsTrimmed(path);
  }

  lemma VisibilityParses(v: Option<Visibility>, rest: string)
    requires v != Some(Private) && StartsWith(rest, "fn ")
    ensures ParseVisibility(VisibilityText(v) + rest) == (v, rest)
  {
    var s := VisibilityText(v) + rest;
    assert rest[0] == 'f' && rest[1] == 'n' && rest[2] == ' ';
    assert s[0] == (if v.None? then 'f' else 'p');
    if v == Some(Public) {
      assert s[3] == ' ' && s[4] == 'f';
    } else if v == Some(Super) {
      assert s[4] == 's';
    }
    assert v.None? ==> s == rest;
    assert v.Some? ==> s[|VisibilityText(v)|..] == rest;
    assert v.Some? ==> s[..|VisibilityText(v)|] == VisibilityText(v);
  }

  /** The parameter list opens first, and its last bracket closes the leaf. */
  lemma SignatureShape(name: string)
    ensures var g := Signature(name); |g| >= 3 && g[0] == '(' && g[|g| - 1] == ')' && !IsSpace(g[|g| - 2])
  {}

  /** The name ends where the parameter list opens. */
  lemma NameFound(name: string, params: string)
    requires '(' !in name && |params| > 0 && params[0] == '('
    ensures Find(name + params, '(') == Some(|name|) && (name + params)[..|name|] == name
  {
    FindIs(name + params, '(', |name|);
  }

  /** The steps of the execution parser, one after the other. */
  lemma ExecutionReads(s: string, content: string, v: Option<Visibility>, rest: string, call: string, name: string)
    requires |s| >= 11 && StartsWith(s, "execution(") && EndsWith(s, ")") && Trim(s[10..|s| - 1]) == content
    requires ParseVisibility(content) == (v, rest) && Trim(rest) == rest && StartsWith(rest, "fn ")
    requires Trim(rest[3..]) == call && Find(call, '(') == Some(|name|) && Trim(call[..|name|]) == name
    ensures ParseExecution(s) == Ok(Execution(ExecutionPattern(v, ParseNamePattern(name), None)))
  {}

  lemma Between(open: string, m: string, close: string)
    ensures
      var s := open + m + close;
      StartsWith(s, open) && EndsWith(s, close) && s[|open|..|s| - |close|] == m
  {}

  lemma HeadIsTrimmed(v: Option<Visibility>, name: string, params: string)
    requires Trimmed(name) && |params| > 0 && params[0] == '(' && !IsSpace(params[|params| - 1])
    ensures
      var call := name + params;
      var rest := "fn " + call;
      && Trim(VisibilityText(v) + rest) == VisibilityText(v) + rest && Trim(rest) == rest && Trim(call) == call && Trim(name) == name
      && StartsWith(rest, "fn ") && rest[3..] == call
  {
    var call := name + params;
    TrimKeepsTrimmed(VisibilityText(v) + ("fn " + call));
    TrimKeepsTrimmed("fn " + call);
    TrimKeepsTrimmed(call);
    TrimKeepsTrimmed(name);
  }

  lemma HeadParses(v: Option<Visibility>, name: string, params: string)
    requires v != Some(Private) && Trimmed(name) && '(' !in name
    requires |params| > 0 && params[0] == '(' && !IsSpace(params[|params| - 1])
    ensures ParseExecution("execution(" + (VisibilityText(v) + ("fn " + (name + params))) + ")")
         == Ok(Execution(ExecutionPattern(v, ParseNamePattern(name), None)))
  {
    var call := name + params;
    var rest := "fn " + call;
    var content := VisibilityText(v) + rest;
    Between("execution(", content, ")");
    HeadIsTrimmed(v, name, params);
    VisibilityParses(v, rest);
    NameFound(name, params);
    ExecutionReads("execution(" + content + ")", content, v, rest, call, name);
  }

  lemma ExecutionTextParts(e: ExecutionPattern)
    ensures
      var g := Signature(NameText(e.name));
      |g| > 0 && g[|g| - 1] == ')' &&
      LeafText(Execution(e))
        == "execution(" + (VisibilityText(e.visibility) + ("fn " + (NameText(e.name) + g[..|g| - 1]))) + ")"
  {
    var g := Signature(NameText(e.name));
    SignatureShape(NameText(e.name));
    assert g[..|g| - 1] + ")" == g;
    RegroupNested("execution(", VisibilityText(e.visibility), "fn ", NameText(e.name), g[..|g| - 1], ")");
  }

  lemma ExecutionPrefix(s: string, t: Parsed)
    requires StartsWith(s, "execution(") && ParseExecution(s) == t
    ensures ParseLeaf(s) == t
  {}

  lemma ExecutionParses(e: ExecutionPattern)
    requires LeafOk(Execution(e))
    ensures ParseLeaf(LeafText(Execution(e))) == Ok(Execution(e))
  {
    var name := NameText(e.name);
    var g := Signature(name);
    var content := VisibilityText(e.visibility) + ("fn " + (name + g[..|g| - 1]));
    SignatureShape(name);
    ExecutionTextParts(e);
    HeadParses(e.visibility, name, g[..|g| - 1]);
    Between("execution(", content, ")");
    ExecutionPrefix("execution(" + content + ")", Ok(Execution(e)));
  }

  /** Brackets and dots at the end of a text can be exchanged for others without an operator showing. */
  lemma NoOperatorMovesEnd(head: string, g: string, g': string, op: string)
    requires op == OR || op == AND
    requires |g| > 0 && (forall c | c in g' :: c == '(' || c == '.' || c == ')')
    requires NoOperator(head + g, op) && |g'| > 0
    ensures NoOperator(head + g', op)
  {
    var s := head + g';
    forall i: nat
      ensures !OpAt(s, op, i)
    {
      if i + 4 <= |head| {
        OpInLeft(head, g', op, i);
        OpInLeft(head, g, op, i);
        assert !OpAt(head + g, op, i);
      } else if i + 4 <= |s| {
        assert s[i..i + 4][3] == s[i + 3];
        assert s[i + 3] == g'[i + 3 - |head|];
        assert g'[i + 3 - |head|] in g';
        assert op[3] == ' ';
      }
    }
  }

  lemma LastLeafParts(e: ExecutionPattern)
    ensures LastLeafText(Execution(e)) == "execution(" + (VisibilityText(e.visibility) + ("fn " + (NameText(e.name) + "(..)"))) + ")"
  {
    RegroupNested("execution(", VisibilityText(e.visibility), "fn ", NameText(e.name), "(..)", ")");
    assert "(..)" + ")" == "(..))";
  }

  lemma LastLeafReads(e: ExecutionPattern)
    requires LeafOk(Execution(e))
    ensures ParseLeaf(LastLeafText(Execution(e))) == Ok(Execution(e))
  {
    var content := VisibilityText(e.visibility) + ("fn " + (NameText(e.name) + "(..)"));
    LastLeafParts(e);
    HeadParses(e.visibility, NameText(e.name), "(..)");
    Between("execution(", content, ")");
    ExecutionPrefix("execution(" + content + ")", Ok(Execution(e)));
  }

  lemma LastLeafHides(e: ExecutionPattern)
    requires NoOperators(LeafText(Execution(e)))
    ensures NoOperators(LastLeafText(Execution(e)))
  {
    var head := "execution(" + VisibilityText(e.visibility) + "fn " + NameText(e.name);
    SignatureShape(NameText(e.name));
    NoOperatorMovesEnd(head, Signature(NameText(e.name)), "(..))", OR);
    NoOperatorMovesEnd(head, Signature(NameText(e.name)), "(..))", AND);
  }

  lemma LastLeafParses(t: Pointcut)
    requires t.IsLeaf() && LeafOk(t)
    ensures ParseLeaf(LastLeafText(t)) == Ok(t) && NoOperators(LastLeafText(t))
    ensures Trimmed(LastLeafText(t)) && |LastLeafText(t)| > 0
    ensures LastLeafText(t)[0] == (if t.Execution? then 'e' else 'w') && LastLeafText(t)[|LastLeafText(t)| - 1] == ')'
  {
    LeafParses(t);
    if t.Execution? {
      LastLeafReads(t.execution);
      LastLeafHides(t.execution);
    }
  }

  lemma LeafParses(t: Pointcut)
    requires t.IsLeaf() && LeafOk(t)
    ensures ParseLeaf(LeafText(t)) == Ok(t)
    ensures Trimmed(LeafText(t)) && |LeafText(t)| > 0
    ensures LeafText(t)[0] == (if t.Execution? then 'e' else 'w') && LeafText(t)[|LeafText(t)| - 1] == ')'
  {
    match t {
      case Within(m) => WithinParses(m.path);
      case Execution(e) =>
        ExecutionParses(e);
        SignatureShape(NameText(e.name));
    }
  }

  // ------------------------------------------------------------------ refused leaves

  /** A leaf that is not closed, by its keyword. */
  lemma UnclosedRefused(b: string)
    requires b == "" || b[|b| - 1] != ')'
    ensures ParseLeaf("execution(" + b) == Err("Invalid execution syntax")
    ensures ParseLeaf("within(" + b) == Err("Invalid within syntax")
  {
    Unclosed("execution(", b);
    Unclosed("within(", b);
    var w := "within(" + b;
    assert w[0] == 'w';
    assert |w| >= 10 ==> w[..10][0] == 'w';
  }

  lemma Unclosed(opening: string, b: string)
    requires opening != "" && opening[|opening| - 1] != ')' && (b == "" || b[|b| - 1] != ')')
    ensures StartsWith(opening + b, opening) && !EndsWith(opening + b, ")")
  {
    var s := opening + b;
    assert s[..|opening|] == opening && s[|s| - 1..][0] == s[|s| - 1];
  }

  /** A text with neither keyword. */
  lemma UnknownRefused(s: string)
    requires s == "" || (s[0] != 'e' && s[0] != 'w')
    ensures ParseLeaf(s) == Err("Unknown pointcut type: " + s)
  {
    assert |s| >= 10 ==> s[..10][0] == s[0];
    assert |s| >= 7 ==> s[..7][0] == s[0];
  }

  lemma NoVisibility(b: string)
    requires b == "" || b[0] != 'p'
    ensures ParseVisibility(b) == (None, b)
  {
    assert |b| >= 11 ==> b[..11][0] == b[0];
    assert |b| >= 4 ==> b[..4][0] == b[0];
  }

  lemma ExecutionStops(s: string, content: string)
    requires |s| >= 11 && StartsWith(s, "execution(") && EndsWith(s, ")") && Trim(s[10..|s| - 1]) == content
    ensures
      var rest := Trim(ParseVisibility(content).1);
      && (!StartsWith(rest, "fn ") ==> ParseLeaf(s) == Err("Expected 'fn' keyword"))
      && (StartsWith(rest, "fn ") && Find(Trim(rest[3..]), '(').None? ==> ParseLeaf(s) == Err("Expected function signature"))
  {}

  /** An execution pattern without the keyword `fn`. */
  lemma NoKeywordRefused(b: string)
    requires |b| > 0 && Trimmed(b) && b[0] != 'f' && b[0] != 'p'
    ensures ParseLeaf("execution(" + b + ")") == Err("Expected 'fn' keyword")
  {
    Between("execution(", b, ")");
    TrimKeepsTrimmed(b);
    NoVisibility(b);
    assert |b| >= 3 ==> b[..3][0] == b[0];
    ExecutionStops("execution(" + b + ")", b);
  }

  /** An execution pattern without a parameter list. */
  lemma NoSignatureRefused(v: Option<Visibility>, b: string)
    requires v != Some(Private) && |b| > 0 && Trimmed(b) && '(' !in b
    ensures ParseLeaf("execution(" + (VisibilityText(v) + ("fn " + b)) + ")") == Err("Expected function signature")
  {
    var rest := "fn " + b;
    Between("execution(", VisibilityText(v) + rest, ")");
    TrimKeepsTrimmed(VisibilityText(v) + rest);
    TrimKeepsTrimmed(rest);
    TrimKeepsTrimmed(b);
    assert rest[3..] == b && rest[..3] == "fn ";
    VisibilityParses(v, rest);
    ExecutionStops("execution(" + (VisibilityText(v) + rest) + ")", VisibilityText(v) + rest);
  }
}
