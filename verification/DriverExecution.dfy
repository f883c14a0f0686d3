/** What the driver's execution patterns mean (aspect-driver/src/match.rs `matches_execution`). */
module DriverExecution {
  import opened Common
  import opened Strings
  import opened DriverMatch

  /** A word of a pattern: not empty, no white space. */
  predicate IsWord(w: string) { |w| > 0 && forall i | 0 <= i < |w| :: !IsSpace(w[i]) }

  lemma {:induction false} WordEnds(w: string, rest: string)
    requires forall i | 0 <= i < |w| :: !IsSpace(w[i])
    requires rest == "" || IsSpace(rest[0])
    ensures WordLength(w + rest) == |w|
  {
    if w == "" {
      assert w + rest == rest;
    } else {
      assert (w + rest)[1..] == w[1..] + rest;
      WordEnds(w[1..], rest);
    }
  }

  lemma FirstWord(w: string, rest: string)
    requires IsWord(w) && (rest == "" || IsSpace(rest[0]))
    ensures Words(w + rest) == [w] + Words(rest)
  {
    var s := w + rest;
    WordEnds(w, rest);
    assert s[0] == w[0] && TrimStart(s) == s;
    assert s[..|w|] == w && s[|w|..] == rest;
  }

  lemma SpaceIsSkipped(a: string, s: string)
    requires AllSpace(a) && (s == "" || !IsSpace(s[0]))
    ensures Words(a + s) == Words(s)
  {
    TrimStartSkips(a, s);
    TrimStartSkips("", s);
    assert "" + s == s;
  }

  /** The words, each behind its gap. */
  function Spaced(words: seq<string>, gaps: seq<string>): string
    requires |words| == |gaps|
  {
    if |words| == 0 then "" else gaps[0] + (words[0] + Spaced(words[1..], gaps[1..]))
  }

  /** White space, and some of it between any two words. */
  predicate AreGaps(gaps: seq<string>) {
    forall i | 0 <= i < |gaps| :: AllSpace(gaps[i]) && (i > 0 ==> |gaps[i]| > 0)
  }

  lemma GapFirst(words: seq<string>, gaps: seq<string>, tail: string)
    requires |words| == |gaps| && AreGaps(gaps) && AllSpace(tail) && (|gaps| > 0 ==> |gaps[0]| > 0)
    ensures var s := Spaced(words, gaps) + tail; s == "" || IsSpace(s[0])
  {
    if |words| > 0 {
      assert (Spaced(words, gaps) + tail)[0] == gaps[0][0];
    }
  }

  lemma GappedWord(gap: string, w: string, rest: string)
    requires AllSpace(gap) && IsWord(w) && (rest == "" || IsSpace(rest[0]))
    ensures Words(gap + (w + rest)) == [w] + Words(rest)
  {
    SpaceIsSkipped(gap, w + rest);
    FirstWord(w, rest);
  }

  lemma SpacedFirst(words: seq<string>, gaps: seq<string>, tail: string)
    requires |words| == |gaps| > 0
    ensures Spaced(words, gaps) + tail == gaps[0] + (words[0] + (Spaced(words[1..], gaps[1..]) + tail))
  {
    var rest := Spaced(words[1..], gaps[1..]);
    assert gaps[0] + (words[0] + rest) + tail == gaps[0] + (words[0] + (rest + tail));
  }

  /** Words are split at white space, however many they are and however wide the gaps. */
  lemma {:induction false} WordsOfSpaced(words: seq<string>, gaps: seq<string>, tail: string)
    requires |words| == |gaps| && AreGaps(gaps) && AllSpace(tail) && forall i | 0 <= i < |words| :: IsWord(words[i])
    ensures Words(Spaced(words, gaps) + tail) == words
  {
    if |words| == 0 {
      SpaceIsSkipped(tail, "");
      assert "" + tail == tail + "" == tail;
    } else {
      WordsOfSpaced(words[1..], gaps[1..], tail);
      GapFirst(words[1..], gaps[1..], tail);
      GappedWord(gaps[0], words[0], Spaced(words[1..], gaps[1..]) + tail);
      SpacedFirst(words, gaps, tail);
    }
  }

  lemma LastWord(w: string)
    requires IsWord(w)
    ensures Words(w) == [w]
  {
    FirstWord(w, "");
    assert w + "" == w && Words("") == [];
  }

  /** Two words, joined by a space. */
  lemma TwoWords(a: string, b: string)
    requires IsWord(a) && IsWord(b)
    ensures Words(a + (" " + b)) == [a, b]
  {
    FirstWord(a, " " + b);
    SpaceIsSkipped(" ", b);
    LastWord(b);
  }

  lemma ThreeWords(a: string, b: string, c: string)
    requires IsWord(a) && IsWord(b) && IsWord(c)
    ensures Words(a + (" " + (b + (" " + c)))) == [a, b, c]
  {
    FirstWord(a, " " + (b + (" " + c)));
    SpaceIsSkipped(" ", b + (" " + c));
    TwoWords(b, c);
  }

  // ------------------------------------------------------------------ execution patterns

  /** A name pattern of one word, without brackets. */
  predicate PlainName(name: string) { IsWord(name) && '(' !in name }

  lemma SignatureIsTrimmed(name: string)
    requires PlainName(name)
    ensures TrimSignature(name + "(..)") == name
    ensures IsWord(name + "(..)") && IsNamePart(name + "(..)")
  {
    var s := name + "(..)";
    assert s[|s| - 4..] == "(..)" && s[..|s| - 4] == name;
    assert s[|name|] == '(';
    assert |name| >= 4 ==> name[|name| - 4..][0] == name[|name| - 4];
  }

  /** Keywords are no name parts. */
  lemma KeywordsAreNoNames()
    ensures !IsNamePart("fn") && !IsNamePart("pub") && IsWord("fn") && IsWord("pub")
  {
    assert "fn"[1..] == "n" && "pub"[2..] == "b";
  }

  lemma {:induction false} NamePartOf(keywords: seq<string>, part: string, more: seq<string>)
    requires IsNamePart(part) && forall k | k in keywords :: !IsNamePart(k)
    ensures FirstNamePart(keywords + [part] + more) == Some(part)
  {
    if |keywords| > 0 {
      assert (keywords + [part] + more)[1..] == keywords[1..] + [part] + more;
      NamePartOf(keywords[1..], part, more);
    }
  }

  lemma DecidedByParts(f: FunctionMetadata, pattern: string, keywords: seq<string>, part: string, more: seq<string>)
    requires Words(pattern) == keywords + [part] + more && IsNamePart(part) && part != "pub" && part != "fn"
    requires forall k | k in keywords :: !IsNamePart(k)
    ensures MatchesExecution(f, pattern)
       <==> ("pub" in keywords + more ==> f.IsPublic()) && "fn" in keywords + more && f.MatchesNamePattern(TrimSignature(part))
  {
    NamePartOf(keywords, part, more);
  }

  lemma SignatureIsNoKeyword(name: string)
    ensures name + "(..)" != "pub" && name + "(..)" != "fn"
  {
    assert (name + "(..)")[|name|] == '(' && '(' !in "pub" && '(' !in "fn";
  }

  /** `fn NAME(..)` selects by name alone. */
  lemma FunctionPattern(f: FunctionMetadata, name: string)
    requires PlainName(name)
    ensures MatchesExecution(f, "fn" + (" " + (name + "(..)"))) <==> f.MatchesNamePattern(name)
  {
    var part := name + "(..)";
    KeywordsAreNoNames();
    SignatureIsTrimmed(name);
    SignatureIsNoKeyword(name);
    TwoWords("fn", part);
    DecidedBehindFn(f, "fn" + (" " + part), part, name);
  }

  /** A pattern of the one keyword and a name part. */
  lemma DecidedBehindFn(f: FunctionMetadata, pattern: string, part: string, name: string)
    requires Words(pattern) == ["fn", part] && IsNamePart(part) && part != "pub" && part != "fn" && TrimSignature(part) == name
    ensures MatchesExecution(f, pattern) <==> f.MatchesNamePattern(name)
  {
    KeywordsAreNoNames();
    assert ["fn"] + [part] + [] == ["fn", part] && ["fn"] + [] == ["fn"];
    assert "pub"[0] != "fn"[0];
    DecidedByParts(f, pattern, ["fn"], part, []);
  }

  /** `pub fn NAME(..)` adds that the function is visible outside its module, in whatever measure. */
  lemma PublicFunctionPattern(f: FunctionMetadata, name: string)
    requires PlainName(name)
    ensures MatchesExecution(f, "pub" + (" " + ("fn" + (" " + (name + "(..)")))))
       <==> f.visibility != Private && f.MatchesNamePattern(name)
  {
    var part := name + "(..)";
    KeywordsAreNoNames();
    SignatureIsTrimmed(name);
    SignatureIsNoKeyword(name);
    ThreeWords("pub", "fn", part);
    assert ["pub", "fn"] + [part] + [] == ["pub", "fn", part];
    DecidedByParts(f, "pub" + (" " + ("fn" + (" " + part))), ["pub", "fn"], part, []);
  }

  /**
   A word with a bracket in front of `fn`, such as `pub(crate)`, is itself taken for the name; the name
   that follows is not looked at.
   */
  lemma BracketedWordIsTheName(f: FunctionMetadata, w: string, name: string)
    requires IsWord(w) && '(' in w && !EndsWith(w, "(..)") && PlainName(name)
    ensures MatchesExecution(f, w + (" " + ("fn" + (" " + (name + "(..)"))))) <==> f.MatchesNamePattern(w)
  {
    var part := name + "(..)";
    KeywordsAreNoNames();
    SignatureIsTrimmed(name);
    SignatureIsNoKeyword(name);
    ThreeWords(w, "fn", part);
    assert [] + [w] + ["fn", part] == [w, "fn", part];
    assert '(' !in "pub" && '(' !in "fn";
    DecidedByParts(f, w + (" " + ("fn" + (" " + part))), [], w, ["fn", part]);
  }

  /** `fn p*`, without a parameter list, selects by the starred name as well. */
  lemma StarredWordIsTheName(f: FunctionMetadata, p: string)
    requires PlainName(p + "*")
    ensures MatchesExecution(f, "fn" + (" " + (p + "*"))) <==> f.MatchesNamePattern(p + "*")
  {
    var part := p + "*";
    assert part[|p|..] == "*" && part[|p|] == '*';
    KeywordsAreNoNames();
    TwoWords("fn", part);
    assert '*' !in "pub" && '*' !in "fn";
    assert |part| >= 4 ==> part[|part| - 4..][3] == '*';
    DecidedBehindFn(f, "fn" + (" " + part), part, part);
  }

  /** But a bare name, without star or parameter list, is not looked at: `fn NAME` selects every function. */
  lemma BareNameIsIgnored(f: FunctionMetadata, name: string)
    requires PlainName(name) && !EndsWith(name, "*") && name != "pub"
    ensures MatchesExecution(f, "fn" + (" " + name))
  {
    KeywordsAreNoNames();
    TwoWords("fn", name);
    assert !IsNamePart(name);
    assert ["fn", name][1..] == [name] && [name][1..] == [];
    assert FirstNamePart(["fn", name]) == FirstNamePart([name]) == None;
  }

  lemma OneSignatureTrimmed(s: string)
    ensures TrimSignature(s + "(..)") == TrimSignature(s)
  {
    var t := s + "(..)";
    assert t[|t| - 4..] == "(..)" && t[..|t| - 4] == s;
  }

  /** Any number of parameter lists is dropped from the name. */
  lemma {:induction false} AllSignaturesTrimmed(name: string, n: nat)
    requires !EndsWith(name, "(..)")
    ensures TrimSignature(name + Signatures(n)) == name
    decreases n
  {
    if n == 0 {
      assert name + "" == name;
    } else {
      assert name + Signatures(n) == name + Signatures(n - 1) + "(..)";
      OneSignatureTrimmed(name + Signatures(n - 1));
      AllSignaturesTrimmed(name, n - 1);
    }
  }

  function Signatures(n: nat): string { if n == 0 then "" else Signatures(n - 1) + "(..)" }

  lemma {:induction false} AfterSeparatorIsPart(s: string, i: nat, c: char)
    requires i <= |s| && c !in s
    ensures c !in AfterLastSeparator(s, i)
    decreases i
  {
    if !OccursAt(s, "::", i) && i > 0 {
      AfterSeparatorIsPart(s, i - 1, c);
    }
  }

  /** A pattern with a bracket, and without a final star, matches no name without one. */
  lemma BracketedNameMatchesNothing(f: FunctionMetadata, w: string)
    requires '(' in w && !EndsWith(w, "*") && '(' !in f.name
    ensures !f.MatchesNamePattern(w)
  {
    var i :| 0 <= i < |w| && w[i] == '(';
    var t := "::" + w;
    AfterSeparatorIsPart(f.name, |f.name|, '(');
    assert t[i + 2] == '(';
    assert |t| <= |f.name| ==> f.name[|f.name| - |t|..][i + 2] == f.name[|f.name| - |t| + i + 2];
    assert EndsWith("*", "*");
  }

  /** Without the word `fn` an execution pattern selects nothing. */
  lemma NoKeywordNoMatch(f: FunctionMetadata, words: seq<string>, gaps: seq<string>, tail: string)
    requires |words| == |gaps| && AreGaps(gaps) && AllSpace(tail) && forall i | 0 <= i < |words| :: IsWord(words[i])
    requires "fn" !in words
    ensures !MatchesExecution(f, Spaced(words, gaps) + tail)
  {
    WordsOfSpaced(words, gaps, tail);
  }
}
