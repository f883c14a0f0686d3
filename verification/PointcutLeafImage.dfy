/** Every leaf the parser produces prints to a text that is at least as well behaved as the one it came from. */
module PointcutLeafImage {
  import opened Common
  import opened Strings
  import opened Brackets
  import opened Pointcuts
  import opened PointcutParser
  import opened PointcutLeaves

  // ------------------------------------------------------------------ within

  lemma WithinHead()
    ensures Guarded("within(") && NeverNegative("within(") && Depth("within(") == 1
    ensures Depth(")") == -1 && DepthAt(")", 0) == 0 && NoOpChars(")")
  {
    FlatDepth("within", 6);
    forall i | 0 <= i <= 7
      ensures DepthAt("within(", i) == if i == 7 then 1 else 0
    {
      FlatDepth("within", if i == 7 then 6 else i);
      DepthInLeft("within", "(", if i == 7 then 6 else i);
      assert "within" + "(" == "within(";
    }
    assert DepthAt(")", 1) == -1;
  }

  lemma Wrapped(x: string, open: string)
    requires StartsWith(x, open) && EndsWith(x, ")") && |x| > |open|
    ensures x == open + x[|open|..|x| - 1] + ")"
  {}

  lemma WithinReads(x: string)
    requires StartsWith(x, "within(") && EndsWith(x, ")")
    ensures |x| >= 8 && ParseWithin(x) == Ok(Within(ModulePattern(Trim(x[7..|x| - 1]))))
  {
    assert x[6] == '(';
  }

  lemma WithinParts(x: string) returns (head: string, path: string, tail: string)
    requires StartsWith(x, "within(") && EndsWith(x, ")")
    ensures ParseWithin(x) == Ok(Within(ModulePattern(path))) && Trimmed(path)
    ensures x == head + path + tail && Depth(head) == 1 && Depth(tail) == -1
  {
    WithinReads(x);
    Wrapped(x, "within(");
    var c := x[7..|x| - 1];
    var a, b := TrimParts(c);
    path := Trim(c);
    head, tail := "within(" + a, b + ")";
    WithinHead();
    SpaceIsFlat(a);
    SpaceIsFlat(b);
    DepthOfJoin("within(", a);
    DepthOfJoin(b, ")");
  }

  lemma WithinImage(x: string)
    requires StartsWith(x, "within(") && EndsWith(x, ")") && NoOperators(x)
    ensures ParseWithin(x).Ok?
    ensures
      var t := ParseWithin(x).value;
      && t.Within? && LeafOk(t)
      && Depth(LeafText(t)) == Depth(x)
      && (Balanced(x) ==> Balanced(LeafText(t)))
  {
    var head, path, tail := WithinParts(x);
    WithinHead();
    NoOperatorMoves(head, path, tail, "within(", ")", OR);
    NoOperatorMoves(head, path, tail, "within(", ")", AND);
    DepthOfJoin("within(", path);
    DepthOfJoin("within(" + path, ")");
    DepthOfJoin(head, path);
    DepthOfJoin(head + path, tail);
    if Balanced(x) {
      PartStaysNonNegative(head, path, tail);
      NeverNegativeJoin("within(", path);
      NeverNegativeJoin("within(" + path, ")");
    }
  }

  // ------------------------------------------------------------------ execution

  /** x is an execution text around `name`, with depth 1 where the name starts. */
  ghost predicate Around(x: string, a: string, name: string, b: string) {
    x == a + name + b && Depth(a) == 1
  }

  lemma Peel(x: string, p: string, cur: string, q: string, a: string, mid: string, b: string)
    requires Around(x, p, cur, q) && cur == a + mid + b && Depth(a) == 0
    ensures Around(x, p + a, mid, b + q)
  {
    DepthOfJoin(p, a);
  }

  lemma VisibilityPrefix(input: string)
    ensures var (v, rest) := ParseVisibility(input);
      input == VisibilityText(v) + rest && v != Some(Private)
  {}

  lemma VisibilityIsBalanced(v: Option<Visibility>)
    ensures Balanced(VisibilityText(v))
  {
    FlatText("");
    FlatText("pub ");
    FlatText("pub");
    FlatText(" ");
    FlatText("crate");
    FlatText("super");
    BracketsKeepBalance("crate");
    BracketsKeepBalance("super");
    BalancedJoin("pub", "(" + "crate" + ")");
    BalancedJoin("pub" + ("(" + "crate" + ")"), " ");
    BalancedJoin("pub", "(" + "super" + ")");
    BalancedJoin("pub" + ("(" + "super" + ")"), " ");
    assert "pub" + ("(" + "crate" + ")") + " " == "pub(crate) ";
    assert "pub" + ("(" + "super" + ")") + " " == "pub(super) ";
  }

  lemma ExecutionHeadParts(v: Option<Visibility>)
    ensures var head := "execution(" + VisibilityText(v) + "fn ";
      Guarded(head) && NeverNegative(head) && Depth(head) == 1
  {
    var opening := "execution(";
    var rest := VisibilityText(v) + "fn ";
    var head := "execution(" + VisibilityText(v) + "fn ";
    assert head == opening + rest;
    VisibilityIsBalanced(v);
    FlatText("fn ");
    BalancedJoin(VisibilityText(v), "fn ");
    FlatText("execution");
    assert opening == "execution" + "(";
    forall i | 0 <= i <= |head|
      ensures DepthAt(head, i) >= if i < 10 then 0 else 1
    {
      if i < 10 {
        DepthInLeft(opening, rest, i);
        DepthInLeft("execution", "(", i);
      } else {
        OpeningDepth();
        DepthInRight(opening, rest, i - 10);
      }
    }
    assert forall i | 0 <= i < 10 :: head[i] == opening[i];
    OpeningDepth();
    DepthOfJoin(opening, rest);
  }

  lemma OpeningDepth()
    ensures Depth("execution(") == 1
  {
    FlatText("execution");
    DepthOfJoin("execution", "(");
    assert "execution" + "(" == "execution(";
    assert DepthAt("(", 1) == 1;
  }

  lemma PeelSpace(x: string, p: string, cur: string, q: string) returns (p': string, q': string)
    requires Around(x, p, cur, q)
    ensures Around(x, p', Trim(cur), q')
  {
    var a, b := TrimParts(cur);
    SpaceIsFlat(a);
    Peel(x, p, cur, q, a, Trim(cur), b);
    p', q' := p + a, b + q;
  }

  lemma PeelPrefix(x: string, p: string, cur: string, q: string, a: string, mid: string)
    requires Around(x, p, cur, q) && cur == a + mid && Depth(a) == 0
    ensures Around(x, p + a, mid, q)
  {
    assert cur == a + mid + "";
    Peel(x, p, cur, q, a, mid, "");
    assert "" + q == q;
  }

  /** From the whole text to what follows the `fn` keyword. */
  lemma SignatureWithin(x: string) returns (a: string, rest: string, b: string)
    requires StartsWith(x, "execution(") && EndsWith(x, ")") && ParseExecution(x).Ok?
    ensures x[9] == '('
    ensures
      var (v, tail) := ParseVisibility(Trim(x[10..|x| - 1]));
      v != Some(Private) && StartsWith(Trim(tail), "fn ") && rest == Trim(Trim(tail)[3..])
    ensures Around(x, a, rest, b)
  {
    assert x[9] == '(';
    var c := x[10..|x| - 1];
    Wrapped(x, "execution(");
    OpeningDepth();
    assert Around(x, "execution(", c, ")");
    a, b := PeelSpace(x, "execution(", c, ")");
    var (v, tail) := ParseVisibility(Trim(c));
    VisibilityPrefix(Trim(c));
    VisibilityIsBalanced(v);
    PeelPrefix(x, a, Trim(c), b, VisibilityText(v), tail);
    a, b := PeelSpace(x, a + VisibilityText(v), tail, b);
    FlatText("fn ");
    PeelPrefix(x, a, Trim(tail), b, "fn ", Trim(tail)[3..]);
    a, b := PeelSpace(x, a + "fn ", Trim(tail)[3..], b);
    rest := Trim(Trim(tail)[3..]);
  }

  /** Takes an execution text apart, up to the name the parser reads from it. */
  lemma NameWithin(x: string) returns (a: string, b: string)
    requires StartsWith(x, "execution(") && EndsWith(x, ")") && ParseExecution(x).Ok?
    ensures
      var t := ParseExecution(x).value;
      && t.Execution? && t.execution.returnType.None? && t.execution.visibility != Some(Private)
      && ParseNamePattern(NameText(t.execution.name)) == t.execution.name
      && Trimmed(NameText(t.execution.name)) && '(' !in NameText(t.execution.name)
      && Around(x, a, NameText(t.execution.name), b)
  {
    var rest: string;
    a, rest, b := SignatureWithin(x);
    var k := Find(rest, '(').value;
    var before := rest[..k];
    FlatText("");
    assert rest == "" + before + rest[k..];
    Peel(x, a, rest, b, "", before, rest[k..]);
    a, b := PeelSpace(x, a + "", before, rest[k..] + b);
    var name := Trim(before);
    var c, d := TrimParts(before);
    TrimAddsNothing(before, '(');
    NameTextRoundTrip(name);
  }

  lemma TrimAddsNothing(s: string, c: char)
    requires c !in s
    ensures c !in Trim(s)
  {
    var a, b := TrimParts(s);
    assert forall i | 0 <= i < |Trim(s)| :: Trim(s)[i] == s[|a| + i];
  }

  lemma {:induction false} RepeatDepth(n: nat, i: nat)
    requires i <= n
    ensures DepthAt(Repeat('(', n), i) == i
    decreases i
  {
    if i > 0 {
      RepeatDepth(n, i - 1);
    }
  }

  lemma {:induction false} OnlyClosing(name: string, i: nat)
    requires '(' !in name && i <= |name|
    ensures DepthAt(name, i) <= 0
    decreases i
  {
    if i > 0 {
      OnlyClosing(name, i - 1);
    }
  }

  lemma TailDepths()
    ensures Depth("..)") == -1 && Depth("(..))") == -1 && NoOpChars("(..))") && NoOpChars("..)")
    ensures forall j | 0 <= j <= 5 :: 1 + DepthAt("(..))", j) >= 0
    ensures forall j | 0 <= j <= 3 :: 1 + DepthAt("..)", j) >= 0
  {
    assert DepthAt("..)", 1) == 0 && DepthAt("..)", 2) == 0 && DepthAt("..)", 3) == -1;
    assert DepthAt("(..))", 1) == 1 && DepthAt("(..))", 2) == 1 && DepthAt("(..))", 3) == 1;
    assert DepthAt("(..))", 4) == 0 && DepthAt("(..))", 5) == -1;
  }

  lemma SignatureDepth(name: string)
    requires '(' !in name
    ensures
      var g := Signature(name);
      && Depth(g) == -1 - Depth(name) && NoOpChars(g)
      && (Depth(name) >= -1 ==> forall j | 0 <= j <= |g| :: 1 + Depth(name) + DepthAt(g, j) >= 0)
  {
    OnlyClosing(name, |name|);
    TailDepths();
    if Depth(name) < 0 {
      var k := -Depth(name);
      var g := Repeat('(', k) + "..)";
      RepeatDepth(k, k);
      DepthOfJoin(Repeat('(', k), "..)");
      if k == 1 {
        forall j | 0 <= j <= |g|
          ensures DepthAt(g, j) >= 0
        {
          if j <= 1 {
            RepeatDepth(1, j);
            DepthInLeft(Repeat('(', 1), "..)", j);
          } else {
            DepthInRight(Repeat('(', 1), "..)", j - 1);
          }
        }
      }
    }
  }

  /** A name moved from its surroundings a, b into a head and a parameter list that close together. */
  lemma MovedName(a: string, name: string, b: string, head: string, g: string)
    requires Depth(a) == 1 && Depth(head) == 1 && Depth(g) == -1 - Depth(name)
    requires NoOperators(a + name + b) && Guarded(head) && NoOpChars(g) && |g| > 0
    ensures NoOperators(head + name + g) && Depth(head + name + g) == 0
  {
    NoOperatorMoves(a, name, b, head, g, OR);
    NoOperatorMoves(a, name, b, head, g, AND);
    DepthOfJoin(head, name);
    DepthOfJoin(head + name, g);
  }

  lemma MovedNameIsBalanced(a: string, name: string, b: string, head: string, g: string)
    requires Depth(a) == 1 && Depth(head) == 1 && NeverNegative(head) && NeverNegative(a + name + b)
    requires Depth(name) >= -1 ==> forall j | 0 <= j <= |g| :: 1 + Depth(name) + DepthAt(g, j) >= 0
    ensures NeverNegative(head + name + g)
  {
    PartStaysNonNegative(a, name, b);
    NeverNegativeJoin(head, name);
    DepthOfJoin(head, name);
    assert 1 + DepthAt(name, |name|) >= 0;
    NeverNegativeJoin(head + name, g);
  }

  lemma ExecutionImage(x: string)
    requires StartsWith(x, "execution(") && EndsWith(x, ")") && NoOperators(x) && ParseExecution(x).Ok?
    ensures
      var t := ParseExecution(x).value;
      && t.Execution? && LeafOk(t)
      && Depth(LeafText(t)) == 0
      && (Balanced(x) ==> Balanced(LeafText(t)))
  {
    var a, b := NameWithin(x);
    var t := ParseExecution(x).value;
    var name := NameText(t.execution.name);
    var g := Signature(name);
    var head := "execution(" + VisibilityText(t.execution.visibility) + "fn ";
    assert LeafText(t) == head + name + g;
    ExecutionHeadParts(t.execution.visibility);
    SignatureShape(name);
    SignatureDepth(name);
    MovedName(a, name, b, head, g);
    if Balanced(x) {
      MovedNameIsBalanced(a, name, b, head, g);
    }
  }

  /** The leaf read from an operator-free text is printable, and printing does not unbalance it. */
  lemma LeafImage(x: string)
    requires NoOperators(x) && ParseLeaf(x).Ok?
    ensures
      var t := ParseLeaf(x).value;
      && t.IsLeaf() && LeafOk(t)
      && (Depth(x) == 0 ==> Depth(LeafText(t)) == 0)
      && (Balanced(x) ==> Balanced(LeafText(t)))
  {
    if StartsWith(x, "execution(") {
      ExecutionImage(x);
    } else {
      WithinImage(x);
    }
  }
}
