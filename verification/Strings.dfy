/** The string operations the pointcut code takes from its standard library, over ASCII text. */
module Strings {
  import opened Common

  /** `char::is_whitespace` on ASCII: tab, line feed, vertical tab, form feed, carriage return, space. */
  predicate IsSpace(c: char) { c == ' ' || '\t' <= c <= '\r' }

  predicate AllSpace(s: string) { forall i | 0 <= i < |s| :: IsSpace(s[i]) }

  function TrimStart(s: string): (r: string)
    ensures |r| <= |s| && (r == "" || !IsSpace(r[0]))
  {
    if |s| > 0 && IsSpace(s[0]) then TrimStart(s[1..]) else s
  }

  function TrimEnd(s: string): (r: string)
    ensures |r| <= |s|
  {
    if |s| > 0 && IsSpace(s[|s| - 1]) then TrimEnd(s[..|s| - 1]) else s
  }

  function Trim(s: string): (r: string)
    ensures |r| <= |s|
  {
    TrimEnd(TrimStart(s))
  }

  predicate StartsWith(s: string, p: string) { |p| <= |s| && s[..|p|] == p }

  predicate EndsWith(s: string, p: string) { |p| <= |s| && s[|s| - |p|..] == p }

  predicate OccursAt(s: string, p: string, i: nat) { i + |p| <= |s| && s[i..i + |p|] == p }

  predicate Contains(s: string, p: string) { exists i | 0 <= i <= |s| :: OccursAt(s, p, i) }

  /** The first position of c. */
  function Find(s: string, c: char): (r: Option<nat>)
    ensures r.None? ==> c !in s
    ensures r.Some? ==> r.value < |s| && s[r.value] == c && c !in s[..r.value]
  {
    if |s| == 0 then None
    else if s[0] == c then Some(0)
    else match Find(s[1..], c)
      case None => None
      case Some(i) => assert s[..i + 1] == [s[0]] + s[1..][..i]; Some(i + 1)
  }

  /** The last position of c. */
  function FindLast(s: string, c: char): (r: Option<nat>)
    ensures r.None? ==> c !in s
    ensures r.Some? ==> r.value < |s| && s[r.value] == c && c !in s[r.value + 1..]
  {
    if |s| == 0 then None
    else if s[|s| - 1] == c then Some(|s| - 1)
    else
      var r := FindLast(s[..|s| - 1], c);
      assert r.Some? ==> s[r.value + 1..] == s[..|s| - 1][r.value + 1..] + [s[|s| - 1]];
      r
  }

  lemma FindIs(s: string, c: char, i: nat)
    requires i < |s| && s[i] == c && c !in s[..i]
    ensures Find(s, c) == Some(i)
  {
    assert forall j | 0 <= j < i :: s[j] == s[..i][j];
    assert forall k | i < k <= |s| :: s[..k][i] == c;
  }

  lemma FindLastIs(s: string, c: char, i: nat)
    requires i < |s| && s[i] == c && c !in s[i + 1..]
    ensures FindLast(s, c) == Some(i)
  {
    assert forall j | i < j < |s| :: s[j] == s[i + 1..][j - i - 1];
    assert forall k | 0 < k <= i :: s[k..][i - k] == c;
  }

  /** `trim_matches('"')`. */
  function TrimQuotes(s: string): string { QuotesEnd(QuotesStart(s)) }

  function QuotesStart(s: string): string { if |s| > 0 && s[0] == '"' then QuotesStart(s[1..]) else s }

  function QuotesEnd(s: string): string {
    if |s| > 0 && s[|s| - 1] == '"' then QuotesEnd(s[..|s| - 1]) else s
  }

  /** No quote at either end. */
  predicate Unquoted(s: string) { |s| == 0 || (s[0] != '"' && s[|s| - 1] != '"') }

  predicate AllQuotes(s: string) { forall i | 0 <= i < |s| :: s[i] == '"' }

  lemma {:induction false} QuotesStartParts(s: string) returns (a: string)
    ensures s == a + QuotesStart(s) && AllQuotes(a)
    ensures QuotesStart(s) == "" || QuotesStart(s)[0] != '"'
  {
    if |s| > 0 && s[0] == '"' {
      var b := QuotesStartParts(s[1..]);
      a := [s[0]] + b;
    } else {
      a := "";
    }
  }

  lemma {:induction false} QuotesEndParts(s: string) returns (b: string)
    ensures s == QuotesEnd(s) + b && AllQuotes(b)
    ensures QuotesEnd(s) == "" || QuotesEnd(s)[|QuotesEnd(s)| - 1] != '"'
  {
    if |s| > 0 && s[|s| - 1] == '"' {
      var c := QuotesEndParts(s[..|s| - 1]);
      b := c + [s[|s| - 1]];
    } else {
      b := "";
    }
  }

  lemma QuotesParts(s: string) returns (a: string, b: string)
    ensures s == a + TrimQuotes(s) + b && AllQuotes(a) && AllQuotes(b)
    ensures Unquoted(TrimQuotes(s))
  {
    a := QuotesStartParts(s);
    b := QuotesEndParts(QuotesStart(s));
    assert TrimQuotes(s) != "" ==> TrimQuotes(s)[0] == QuotesStart(s)[0];
  }

  lemma QuotesAround(p: string)
    requires Unquoted(p)
    ensures TrimQuotes("\"" + p + "\"") == p
  {
    var q := "\"" + p + "\"";
    assert q[1..] == p + "\"";
    assert (p + "\"")[..|p|] == p;
    if p == "" {
      assert QuotesStart("\"") == QuotesStart("\""[1..]) == "";
      assert p + "\"" == "\"";
    } else {
      assert QuotesStart(p + "\"") == p + "\"";
      assert QuotesEnd(p) == p;
    }
  }

  /** No white space at either end. */
  predicate Trimmed(s: string) { |s| == 0 || (!IsSpace(s[0]) && !IsSpace(s[|s| - 1])) }

  lemma {:induction false} TrimStartParts(s: string) returns (a: string)
    ensures s == a + TrimStart(s) && AllSpace(a)
    ensures TrimStart(s) == "" || !IsSpace(TrimStart(s)[0])
  {
    if |s| > 0 && IsSpace(s[0]) {
      var b := TrimStartParts(s[1..]);
      a := [s[0]] + b;
    } else {
      a := "";
    }
  }

  lemma {:induction false} TrimEndParts(s: string) returns (b: string)
    ensures s == TrimEnd(s) + b && AllSpace(b)
    ensures TrimEnd(s) == "" || !IsSpace(TrimEnd(s)[|TrimEnd(s)| - 1])
  {
    if |s| > 0 && IsSpace(s[|s| - 1]) {
      var c := TrimEndParts(s[..|s| - 1]);
      b := c + [s[|s| - 1]];
    } else {
      b := "";
    }
  }

  /** Trimming takes white space off both ends and nothing else. */
  lemma TrimParts(s: string) returns (a: string, b: string)
    ensures s == a + Trim(s) + b && AllSpace(a) && AllSpace(b)
    ensures Trimmed(Trim(s))
  {
    a := TrimStartParts(s);
    b := TrimEndParts(TrimStart(s));
    assert Trim(s) != "" ==> Trim(s)[0] == TrimStart(s)[0];
  }

  lemma TrimKeepsTrimmed(s: string)
    requires Trimmed(s)
    ensures Trim(s) == s
  {}

  lemma TrimTwice(s: string)
    ensures Trim(Trim(s)) == Trim(s)
  {
    var a, b := TrimParts(s);
    TrimKeepsTrimmed(Trim(s));
  }

  lemma {:induction false} TrimStartSkips(a: string, m: string)
    requires AllSpace(a) && (m == "" || !IsSpace(m[0]))
    ensures TrimStart(a + m) == m
  {
    if a != "" {
      assert (a + m)[1..] == a[1..] + m;
      TrimStartSkips(a[1..], m);
    } else {
      assert a + m == m;
    }
  }

  lemma {:induction false} TrimEndSkips(m: string, b: string)
    requires AllSpace(b) && (m == "" || !IsSpace(m[|m| - 1]))
    ensures TrimEnd(m + b) == m
  {
    if b != "" {
      assert (m + b)[..|m + b| - 1] == m + b[..|b| - 1];
      TrimEndSkips(m, b[..|b| - 1]);
    } else {
      assert m + b == m;
    }
  }

  /** There is one way to trim. */
  lemma TrimIsUnique(a: string, m: string, b: string)
    requires AllSpace(a) && Trimmed(m) && AllSpace(b)
    ensures Trim(a + m + b) == m
  {
    if m == "" {
      assert a + m + b == (a + b) + "";
      TrimStartSkips(a + b, "");
    } else {
      assert a + m + b == a + (m + b);
      TrimStartSkips(a, m + b);
      TrimEndSkips(m, b);
    }
  }

  /** The blanks: space, tab, line feed, vertical tab, form feed and carriage return. */
  const BLANKS := {' ', '\t', '\n', '\U{B}', '\U{C}', '\r'}

  /** Exactly the blanks are dropped at the ends of a text. */
  lemma TrimDropsBlanks(a: string, s: string, b: string, c: char)
    requires forall x | x in a + b :: x in BLANKS
    ensures Trim(a + s + b) == Trim(s)
    ensures c !in BLANKS ==> Trim([c]) == [c]
  {
    var d, e := TrimParts(s);
    AllBlank(a + b);
    assert forall i | 0 <= i < |a| :: (a + b)[i] == a[i];
    assert forall i | 0 <= i < |b| :: (a + b)[|a| + i] == b[i];
    assert AllSpace(a) && AllSpace(b);
    assert a + s + b == (a + d) + Trim(s) + (e + b);
    TrimIsUnique(a + d, Trim(s), e + b);
    if c !in BLANKS {
      BlankOrNot(c);
      TrimKeepsTrimmed([c]);
    }
  }

  lemma AllBlank(s: string)
    requires forall x | x in s :: x in BLANKS
    ensures AllSpace(s)
  {
    forall i | 0 <= i < |s|
      ensures IsSpace(s[i])
    {
      BlankOrNot(s[i]);
    }
  }

  lemma BlankOrNot(c: char)
    ensures IsSpace(c) <==> c in BLANKS
  {
    if '\t' <= c <= '\r' {
      assert c as int == 9 || c as int == 10 || c as int == 11 || c as int == 12 || c as int == 13;
    }
  }

  // ------------------------------------------------------------------ concatenation, regrouped

  lemma RegroupFront(a: string, b: string, c: string, d: string)
    ensures (a + b) + c + d == a + (b + c + d)
  {}

  lemma RegroupTail(a: string, b: string, c: string, d: string, e: string)
    ensures a + b + c + d + e == a + b + (c + d + e)
  {}

  lemma RegroupAround(a: string, b: string, m: string, c: string, d: string)
    ensures a + (b + m + c) + d == (a + b) + m + (c + d)
  {}

  lemma RegroupQuoted(a: string, b: string, c: string, m: string, d: string, e: string, f: string)
    ensures a + (b + c) + m + (d + e) + f == (a + b) + (c + m + d) + (e + f)
  {}

  lemma RegroupNested(a: string, b: string, c: string, d: string, e: string, f: string)
    ensures a + (b + (c + (d + e))) + f == a + b + c + d + (e + f)
  {}
}
