/** Bracket depth, and the two scanning loops of the pointcut parsers. */
module Brackets {
  import opened Common
  import opened Strings

  function Delta(c: char): int { if c == '(' then 1 else if c == ')' then -1 else 0 }

  /** Bracket depth just before position i. */
  function DepthAt(s: string, i: nat): int
    requires i <= |s|
  {
    if i == 0 then 0 else DepthAt(s, i - 1) + Delta(s[i - 1])
  }

  /** Net bracket depth of a whole text. */
  function Depth(s: string): int { DepthAt(s, |s|) }

  predicate NeverNegative(s: string) { forall i | 0 <= i <= |s| :: DepthAt(s, i) >= 0 }

  predicate Balanced(s: string) { NeverNegative(s) && Depth(s) == 0 }

  /** The operator stands at position i, outside all brackets opened since the start of the text. */
  predicate OpAt(s: string, op: string, i: nat) {
    && i < |s| && i + |op| <= |s|
    && s[i] != '(' && s[i] != ')'
    && DepthAt(s, i) == 0
    && s[i..i + |op|] == op
  }

  /** The first operator outside brackets, from position i on. */
  function FindFrom(s: string, op: string, i: nat): (r: Option<nat>)
    requires i <= |s|
    ensures r.None? ==> forall j: nat | i <= j :: !OpAt(s, op, j)
    ensures r.Some? ==> i <= r.value && OpAt(s, op, r.value) && forall j: nat | i <= j < r.value :: !OpAt(s, op, j)
    decreases |s| - i
  {
    if i == |s| then None
    else if OpAt(s, op, i) then Some(i)
    else FindFrom(s, op, i + 1)
  }

  function FirstOperator(s: string, op: string): Option<nat> { FindFrom(s, op, 0) }

  predicate NoOperator(s: string, op: string) { FirstOperator(s, op).None? }

  /** `find_operator`: a left-to-right scan that keeps the current depth. */
  method FindOperator(input: string, operator: string) returns (r: Option<nat>)
    ensures r == FirstOperator(input, operator)
  {
    var depth := 0;
    for i := 0 to |input|
      invariant depth == DepthAt(input, i)
      invariant FirstOperator(input, operator) == FindFrom(input, operator, i)
    {
      if input[i] == '(' {
        depth := depth + 1;
      } else if input[i] == ')' {
        depth := depth - 1;
      } else if depth == 0 && i + |operator| <= |input| && input[i..i + |operator|] == operator {
        return Some(i);
      }
    }
    return None;
  }

  /** The text without its outer brackets, when they close each other. */
  function Stripped(s: string): (r: Option<string>)
    ensures r.Some? ==> |s| >= 2 && s == "(" + r.value + ")" && Balanced(r.value)
  {
    if |s| > 0 && s[0] == '(' && s[|s| - 1] == ')' && Balanced(s[1..|s| - 1]) then Some(s[1..|s| - 1]) else None
  }

  /** `strip_outer_parens`: gives up as soon as the depth inside drops below zero. */
  method StripOuterParens(input: string) returns (r: Option<string>)
    ensures r == Stripped(input)
  {
    if !(|input| > 0 && input[0] == '(' && input[|input| - 1] == ')') {
      return None;
    }
    var inner := input[1..|input| - 1];
    var depth := 0;
    for i := 0 to |inner|
      invariant depth == DepthAt(inner, i)
      invariant forall j | 0 <= j <= i :: DepthAt(inner, j) >= 0
    {
      if inner[i] == '(' {
        depth := depth + 1;
      } else if inner[i] == ')' {
        depth := depth - 1;
        if depth < 0 {
          assert DepthAt(inner, i + 1) < 0;
          return None;
        }
      }
    }
    return if depth == 0 then Some(inner) else None;
  }

  // ------------------------------------------------------------------ depth of joined texts

  lemma {:induction false} DepthInLeft(a: string, b: string, i: nat)
    requires i <= |a|
    ensures DepthAt(a + b, i) == DepthAt(a, i)
    decreases i
  {
    if i > 0 {
      DepthInLeft(a, b, i - 1);
    }
  }

  lemma {:induction false} DepthInRight(a: string, b: string, i: nat)
    requires i <= |b|
    ensures DepthAt(a + b, |a| + i) == Depth(a) + DepthAt(b, i)
    decreases i
  {
    if i == 0 {
      DepthInLeft(a, b, |a|);
    } else {
      DepthInRight(a, b, i - 1);
    }
  }

  lemma DepthOfJoin(a: string, b: string)
    ensures Depth(a + b) == Depth(a) + Depth(b)
  {
    DepthInRight(a, b, |b|);
  }

  lemma {:induction false} FlatDepth(s: string, i: nat)
    requires i <= |s| && '(' !in s && ')' !in s
    ensures DepthAt(s, i) == 0
    decreases i
  {
    if i > 0 {
      FlatDepth(s, i - 1);
    }
  }

  lemma SpaceIsFlat(s: string)
    requires AllSpace(s)
    ensures Depth(s) == 0 && '(' !in s && ')' !in s
  {
    FlatDepth(s, |s|);
  }

  lemma TrimKeepsDepth(s: string)
    ensures Depth(Trim(s)) == Depth(s)
  {
    var a, b := TrimParts(s);
    SpaceIsFlat(a);
    SpaceIsFlat(b);
    DepthOfJoin(a, Trim(s));
    DepthOfJoin(a + Trim(s), b);
  }

  /** A text within a never-negative text, starting at depth 0, is never negative. */
  lemma NeverNegativePart(a: string, b: string)
    requires NeverNegative(a + b)
    ensures NeverNegative(a)
    ensures Depth(a) == 0 ==> NeverNegative(b)
  {
    forall i | 0 <= i <= |a|
      ensures DepthAt(a, i) >= 0
    {
      DepthInLeft(a, b, i);
    }
    forall i | 0 <= i <= |b|
      ensures Depth(a) + DepthAt(b, i) >= 0
    {
      DepthInRight(a, b, i);
    }
  }

  lemma NeverNegativeJoin(a: string, b: string)
    requires NeverNegative(a) && Depth(a) >= 0
    requires forall i | 0 <= i <= |b| :: Depth(a) + DepthAt(b, i) >= 0
    ensures NeverNegative(a + b)
  {
    forall i | 0 <= i <= |a + b|
      ensures DepthAt(a + b, i) >= 0
    {
      if i <= |a| {
        DepthInLeft(a, b, i);
      } else {
        DepthInRight(a, b, i - |a|);
      }
    }
  }

  lemma TrimKeepsBalanced(s: string)
    requires Balanced(s)
    ensures Balanced(Trim(s))
  {
    var a, b := TrimParts(s);
    TrimKeepsDepth(s);
    SpaceIsFlat(a);
    NeverNegativePart(a + Trim(s), b);
    NeverNegativePart(a, Trim(s));
  }

  // ------------------------------------------------------------------ operators in joined texts

  lemma OpInRight(a: string, b: string, op: string, i: nat)
    requires Depth(a) == 0
    ensures OpAt(b, op, i) <==> OpAt(a + b, op, |a| + i)
  {
    if i < |b| && i + |op| <= |b| {
      DepthInRight(a, b, i);
      assert (a + b)[|a| + i..|a| + i + |op|] == b[i..i + |op|];
    }
  }

  lemma OpInLeft(a: string, b: string, op: string, i: nat)
    requires i < |a| && i + |op| <= |a|
    ensures OpAt(a, op, i) <==> OpAt(a + b, op, i)
  {
    DepthInLeft(a, b, i);
    assert (a + b)[i..i + |op|] == a[i..i + |op|];
  }

  lemma NoOperatorInLeft(a: string, b: string, op: string)
    requires forall i: nat | i < |a| :: !OpAt(a + b, op, i)
    ensures NoOperator(a, op)
  {
    forall i: nat
      ensures !OpAt(a, op, i)
    {
      if i < |a| && i + |op| <= |a| {
        OpInLeft(a, b, op, i);
      }
    }
  }

  lemma NoOperatorInRight(a: string, b: string, op: string)
    requires Depth(a) == 0 && forall i: nat | |a| <= i :: !OpAt(a + b, op, i)
    ensures NoOperator(b, op)
  {
    forall i: nat
      ensures !OpAt(b, op, i)
    {
      OpInRight(a, b, op, i);
    }
  }

  lemma NoOperatorInTrim(s: string, op: string)
    requires NoOperator(s, op)
    ensures NoOperator(Trim(s), op)
  {
    var a, b := TrimParts(s);
    SpaceIsFlat(a);
    NoOperatorInLeft(a + Trim(s), b, op);
    NoOperatorInRight(a, Trim(s), op);
  }

  /** Nothing inside a pair of brackets around a never-negative text is outside brackets. */
  lemma NoOperatorInBrackets(s: string, op: string)
    requires NeverNegative(s)
    ensures NoOperator("(" + s + ")", op)
  {
    var t := "(" + s + ")";
    forall i: nat
      ensures !OpAt(t, op, i)
    {
      if 1 <= i <= |s| {
        DepthInRight("(", s + ")", i - 1);
        DepthInLeft(s, ")", i - 1);
        assert "(" + (s + ")") == t;
      }
    }
  }

  lemma BracketsKeepBalance(s: string)
    requires Balanced(s)
    ensures Balanced("(" + s + ")")
  {
    assert DepthAt("(", 1) == 1 && DepthAt(")", 1) == -1;
    DepthOfJoin("(", s);
    DepthOfJoin("(" + s, ")");
    NeverNegativeJoin("(", s);
    NeverNegativeJoin("(" + s, ")");
  }

  lemma BalancedJoin(a: string, b: string)
    requires Balanced(a) && Balanced(b)
    ensures Balanced(a + b)
  {
    DepthOfJoin(a, b);
    NeverNegativeJoin(a, b);
  }

  /** A first bracket that closes before the end of the text is not an outer bracket. */
  lemma NotOuter(a: string, b: string)
    requires |a| > 0 && |b| > 0 && Depth(a) == 0
    ensures Stripped(a + b).None?
  {
    var s := a + b;
    if Stripped(s).Some? {
      var inner := Stripped(s).value;
      assert s == "(" + (inner + ")");
      DepthInRight("(", inner + ")", |a| - 1);
      DepthInLeft(inner, ")", |a| - 1);
      DepthInLeft(a, b, |a|);
      assert false;
    }
  }

  lemma BracketsAreOuter(s: string)
    requires Balanced(s)
    ensures Stripped("(" + s + ")") == Some(s)
  {
    assert ("(" + s + ")")[1..|s| + 1] == s;
  }

  // ------------------------------------------------------------------ moving a text into other surroundings

  predicate OpChar(c: char) { c == ' ' || c == '|' || c == '&' }

  predicate AllOpChars(s: string) { forall i | 0 <= i < |s| :: OpChar(s[i]) }

  predicate NoOpChars(s: string) { forall i | 0 <= i < |s| :: !OpChar(s[i]) }

  /** No operator can start inside this head of a text. */
  predicate Guarded(head: string) { forall i | 0 <= i < |head| :: OpChar(head[i]) ==> DepthAt(head, i) > 0 }

  /** The operator stands at position i, where the bracket depth is d. */
  predicate OpAtDepth(s: string, op: string, i: nat, d: int) {
    && i < |s| && i + |op| <= |s|
    && s[i] != '(' && s[i] != ')'
    && DepthAt(s, i) == d
    && s[i..i + |op|] == op
  }

  ghost predicate Clear(s: string, op: string, d: int) { forall i: nat :: !OpAtDepth(s, op, i, d) }

  lemma ClearIsNoOperator(s: string, op: string)
    ensures Clear(s, op, 0) <==> NoOperator(s, op)
  {
    assert forall i: nat :: OpAtDepth(s, op, i, 0) <==> OpAt(s, op, i);
  }

  /** What shows in a part of a text that starts at depth zero shows in the whole. */
  lemma ClearPart(a: string, m: string, b: string, op: string, d: int)
    requires Depth(a) == 0 && Clear(a + m + b, op, d)
    ensures Clear(m, op, d)
  {
    forall i: nat
      ensures !OpAtDepth(m, op, i, d)
    {
      if i < |m| && i + |op| <= |m| {
        DepthInRight(a, m, i);
        DepthInLeft(a + m, b, |a| + i);
        assert (a + m + b)[|a| + i..|a| + i + |op|] == m[i..i + |op|];
        assert !OpAtDepth(a + m + b, op, |a| + i, d);
      }
    }
  }

  /** A flat prefix without operator characters adds no operator. */
  lemma PrefixKeepsClear(a: string, x: string, op: string, d: int)
    requires Depth(a) == 0 && NoOpChars(a) && |op| > 0 && AllOpChars(op) && Clear(x, op, d)
    ensures Clear(a + x, op, d)
  {
    var s := a + x;
    forall i: nat
      ensures !OpAtDepth(s, op, i, d)
    {
      if i < |s| && i + |op| <= |s| && s[i..i + |op|] == op {
        assert s[i] == s[i..i + |op|][0];
        assert i >= |a|;
        DepthInRight(a, x, i - |a|);
        assert s[i..i + |op|] == x[i - |a|..i - |a| + |op|];
        assert !OpAtDepth(x, op, i - |a|, d);
      }
    }
  }

  /** An operator made of operator characters cannot reach into a tail that has none. */
  lemma OpEndsBefore(front: string, tail: string, op: string, i: nat)
    requires NoOpChars(tail) && |tail| > 0 && |op| > 0 && AllOpChars(op)
    requires var t := front + tail; i + |op| <= |t| && t[i..i + |op|] == op
    ensures i + |op| <= |front| && OpChar(front[i])
  {
    var t := front + tail;
    assert forall j | i <= j < i + |op| :: t[j] == t[i..i + |op|][j - i];
    assert forall j | i <= j < i + |op| :: OpChar(t[j]);
    assert forall j | |front| <= j < |t| :: t[j] == tail[j - |front|] && !OpChar(t[j]);
    assert OpChar(t[i]) && !OpChar(t[|front|]);
  }

  /** An operator within m stands at the same place in any surroundings of the same depth. */
  lemma OpInMiddle(a: string, m: string, b: string, head: string, tail: string, op: string, k: nat, d: int)
    requires Depth(a) == Depth(head) && k < |m| && k + |op| <= |m|
    ensures OpAtDepth(head + m + tail, op, |head| + k, d) <==> OpAtDepth(a + m + b, op, |a| + k, d)
  {
    DepthInRight(head, m, k);
    DepthInLeft(head + m, tail, |head| + k);
    DepthInRight(a, m, k);
    DepthInLeft(a + m, b, |a| + k);
    assert (a + m + b)[|a| + k..|a| + k + |op|] == m[k..k + |op|];
    assert (head + m + tail)[|head| + k..|head| + k + |op|] == m[k..k + |op|];
  }

  /** Swap what stands around m for a head and a tail in which no operator can start: none appears. */
  lemma ClearMoves(a: string, m: string, b: string, head: string, tail: string, op: string, d: int)
    requires Depth(a) == Depth(head) && Clear(a + m + b, op, d)
    requires forall i | 0 <= i < |head| :: OpChar(head[i]) ==> DepthAt(head, i) != d
    requires NoOpChars(tail) && |tail| > 0 && |op| > 0 && AllOpChars(op)
    ensures Clear(head + m + tail, op, d)
  {
    var t := head + m + tail;
    forall i: nat
      ensures !OpAtDepth(t, op, i, d)
    {
      if i < |t| && i + |op| <= |t| && t[i..i + |op|] == op {
        OpEndsBefore(head + m, tail, op, i);
        if i < |head| {
          DepthInLeft(head, m + tail, i);
          assert head + (m + tail) == t;
        } else {
          OpInMiddle(a, m, b, head, tail, op, i - |head|, d);
          assert !OpAtDepth(a + m + b, op, |a| + (i - |head|), d);
        }
      }
    }
  }

  lemma NoOperatorMoves(a: string, m: string, b: string, head: string, tail: string, op: string)
    requires Depth(a) == Depth(head) && NoOperator(a + m + b, op)
    requires Guarded(head) && NoOpChars(tail) && |tail| > 0 && |op| > 0 && AllOpChars(op)
    ensures NoOperator(head + m + tail, op)
  {
    ClearIsNoOperator(a + m + b, op);
    ClearMoves(a, m, b, head, tail, op, 0);
    ClearIsNoOperator(head + m + tail, op);
  }

  lemma PartStaysNonNegative(a: string, m: string, b: string)
    requires NeverNegative(a + m + b)
    ensures forall j | 0 <= j <= |m| :: Depth(a) + DepthAt(m, j) >= 0
  {
    NeverNegativePart(a + m, b);
    forall j | 0 <= j <= |m|
      ensures Depth(a) + DepthAt(m, j) >= 0
    {
      DepthInRight(a, m, j);
    }
  }

  lemma FlatText(s: string)
    requires '(' !in s && ')' !in s
    ensures Balanced(s)
  {
    forall i | 0 <= i <= |s|
      ensures DepthAt(s, i) == 0
    {
      FlatDepth(s, i);
    }
  }

  // ------------------------------------------------------------------ counting brackets

  /** How many opening brackets the text holds. */
  function Opens(s: string): nat {
    if |s| == 0 then 0 else Opens(s[..|s| - 1]) + if s[|s| - 1] == '(' then 1 else 0
  }

  lemma {:induction false} OpensOfJoin(a: string, b: string)
    ensures Opens(a + b) == Opens(a) + Opens(b)
  {
    if |b| == 0 {
      assert a + b == a;
    } else {
      var n := |b| - 1;
      OpensOfJoin(a, b[..n]);
      assert (a + b)[..|a + b| - 1] == a + b[..n];
    }
  }

  lemma {:induction false} NoOpens(s: string)
    requires '(' !in s
    ensures Opens(s) == 0
  {
    if |s| > 0 {
      NoOpens(s[..|s| - 1]);
    }
  }

  lemma TrimKeepsOpens(s: string)
    ensures Opens(Trim(s)) == Opens(s)
  {
    var a, b := TrimParts(s);
    NoOpens(a);
    NoOpens(b);
    OpensOfJoin(a, Trim(s));
    OpensOfJoin(a + Trim(s), b);
  }

  lemma OneOpen()
    ensures Opens("(") == 1 && Opens(")") == 0
  {
    assert "("[..0] == "";
    NoOpens(")");
  }

  lemma BracketsAddOpen(s: string)
    ensures Opens("(" + s + ")") == Opens(s) + 1
  {
    OneOpen();
    OpensOfJoin("(", s);
    OpensOfJoin("(" + s, ")");
  }

  /** Without one of its opening brackets a text has one fewer, and a closing one more or less does not matter. */
  lemma OpensWithout(a: string, b: string, c: string)
    ensures Opens(a + "(" + b + ")" + c) == Opens(a + b + c) + 1
  {
    OneOpen();
    OpensOfJoin(a, "(");
    OpensOfJoin(a + "(", b);
    OpensOfJoin(a + "(" + b, ")");
    OpensOfJoin(a + "(" + b + ")", c);
    OpensOfJoin(a, b);
    OpensOfJoin(a + b, c);
  }
}
