/** Name patterns against the textbook meaning of `*` (parser.rs `parse_name_pattern`, pattern.rs `matches`). */
module Globs {
  import opened Common
  import opened Strings
  import opened Pointcuts
  import opened PointcutParser

  /** Glob matching: `*` stands for any string, every other character for itself. */
  predicate Glob(p: string, s: string)
    decreases |p| + |s|
  {
    if |p| == 0 then |s| == 0
    else if p[0] == '*' then Glob(p[1..], s) || (|s| > 0 && Glob(p, s[1..]))
    else |s| > 0 && s[0] == p[0] && Glob(p[1..], s[1..])
  }

  /** The characters a parsed pattern compares literally. */
  function Literal(n: NamePattern): string { if n.Wildcard? then "" else n.text }

  lemma {:induction false} GlobLiteral(t: string, p: string, s: string)
    requires '*' !in t
    ensures Glob(t + p, s) <==> StartsWith(s, t) && Glob(p, s[|t|..])
  {
    if |t| == 0 {
      assert t + p == p;
    } else {
      assert (t + p)[1..] == t[1..] + p;
      assert (t + p)[0] == t[0];
      if |s| > 0 && s[0] == t[0] {
        GlobLiteral(t[1..], p, s[1..]);
        assert StartsWith(s, t) <==> StartsWith(s[1..], t[1..]) by {
          if StartsWith(s, t) { assert s[1..][..|t| - 1] == s[..|t|][1..]; }
          if StartsWith(s[1..], t[1..]) { assert s[..|t|] == [s[0]] + s[1..][..|t| - 1]; }
        }
        if StartsWith(s, t) {
          assert s[1..][|t| - 1..] == s[|t|..];
        }
      } else {
        assert |t| <= |s| ==> s[..|t|][0] == s[0];
      }
    }
  }

  lemma {:induction false} GlobStar(p: string, s: string)
    ensures Glob("*" + p, s) <==> exists k | 0 <= k <= |s| :: Glob(p, s[k..])
  {
    assert ("*" + p)[1..] == p;
    assert s[0..] == s;
    if |s| > 0 {
      GlobStar(p, s[1..]);
      forall k | 0 <= k <= |s[1..]|
        ensures s[1..][k..] == s[k + 1..]
      {}
      if k :| 0 <= k <= |s| && Glob(p, s[k..]) {
        if k > 0 {
          assert Glob(p, s[1..][k - 1..]);
        }
      }
    }
  }

  lemma GlobAll(s: string)
    ensures Glob("*", s)
  {
    GlobStar("", s);
    assert "*" + "" == "*";
    assert Glob("", s[|s|..]);
  }

  /** A star-free literal followed by the end, or by a final star. */
  lemma GlobEnd(t: string, s: string)
    requires '*' !in t
    ensures Glob(t, s) <==> s == t
    ensures Glob(t + "*", s) <==> StartsWith(s, t)
  {
    GlobLiteral(t, "", s);
    assert t + "" == t;
    GlobLiteral(t, "*", s);
    if StartsWith(s, t) {
      GlobAll(s[|t|..]);
      if |s| == |t| { assert s[..|t|] == s; }
    }
  }

  lemma SuffixIsGlob(t: string, s: string)
    requires '*' !in t
    ensures Glob("*" + t, s) <==> EndsWith(s, t)
  {
    GlobStar(t, s);
    forall k | 0 <= k <= |s|
      ensures Glob(t, s[k..]) <==> s[k..] == t
    {
      GlobEnd(t, s[k..]);
    }
    if EndsWith(s, t) {
      assert Glob(t, s[|s| - |t|..]);
    }
  }

  lemma ContainingIsGlob(t: string, s: string)
    requires '*' !in t
    ensures Glob("*" + (t + "*"), s) <==> Contains(s, t)
  {
    GlobStar(t + "*", s);
    forall k | 0 <= k <= |s|
      ensures Glob(t + "*", s[k..]) <==> OccursAt(s, t, k)
    {
      GlobEnd(t, s[k..]);
      if k + |t| <= |s| {
        assert s[k..][..|t|] == s[k..k + |t|];
      }
    }
  }

  lemma LiteralPatternIsGlob(p: string, s: string)
    requires '*' !in Literal(ParseNamePattern(p))
    ensures ParseNamePattern(p).Matches(s) <==> Glob(p, s)
  {
    var n := ParseNamePattern(p);
    NameTextIs(p);
    match n {
      case Wildcard => GlobAll(s);
      case Exact(t) => GlobEnd(t, s);
      case Prefix(t) => GlobEnd(t, s);
      case Suffix(t) => SuffixIsGlob(t, s);
      case Containing(t) => ContainingIsGlob(t, s);
    }
  }

  lemma NameTextIs(p: string)
    ensures match ParseNamePattern(p)
      case Wildcard => p == "*"
      case Exact(t) => p == t && !EndsWith(p, "*")
      case Prefix(t) => p == t + "*" && p != "*"
      case Suffix(t) => p == "*" + t && p != "*"
      case Containing(t) => p == "*" + (t + "*") && p != "*"
  {}

  /** The text without its stars: one of the names its glob matches. */
  function Starless(p: string): (r: string)
    ensures '*' !in r
  {
    if |p| == 0 then "" else (if p[0] == '*' then "" else [p[0]]) + Starless(p[1..])
  }

  lemma {:induction false} GlobMatchesStarless(p: string)
    ensures Glob(p, Starless(p))
  {
    if |p| > 0 {
      GlobMatchesStarless(p[1..]);
      if p[0] != '*' {
        assert Starless(p)[1..] == Starless(p[1..]);
      } else {
        assert Starless(p) == Starless(p[1..]);
      }
    }
  }

  /** A literal holding a star matches no star-free name. */
  lemma StarredLiteralNeedsStar(n: NamePattern, s: string)
    requires '*' in Literal(n) && '*' !in s
    ensures !n.Matches(s)
  {
    var t := Literal(n);
    var i :| 0 <= i < |t| && t[i] == '*';
    if n.Prefix? && |t| <= |s| {
      assert s[..|t|][i] == s[i];
    }
    if n.Suffix? && |t| <= |s| {
      assert s[|s| - |t|..][i] == s[|s| - |t| + i];
    }
    if n.Containing? {
      forall k | 0 <= k <= |s|
        ensures !OccursAt(s, t, k)
      {
        if k + |t| <= |s| {
          assert s[k..k + |t|][i] == s[k + i];
        }
      }
    }
  }

  /** All stars stand at the ends of the text, and it is not `**`. */
  predicate StarsAtEnds(p: string) {
    p != "**" && forall i | 0 < i < |p| - 1 :: p[i] != '*'
  }

  lemma StarsAtEndsIsLiteral(p: string)
    ensures StarsAtEnds(p) <==> '*' !in Literal(ParseNamePattern(p))
  {
    var n := ParseNamePattern(p);
    var t := Literal(n);
    var skip := if n.Suffix? || n.Containing? then 1 else 0;
    forall i | 0 <= i < |t|
      ensures t[i] == p[skip + i]
    {}
    if '*' in t {
      var i :| 0 <= i < |t| && t[i] == '*';
      assert p[skip + i] == '*';
    }
    if i :| 0 < i < |p| - 1 && p[i] == '*' {
      assert t[i - skip] == '*';
    }
    if p == "**" {
      assert p[1..] == "*" && t[0] == '*';
    }
  }

  /**
   A pattern text means what its glob means, on every name, exactly when its stars are at its ends and
   it is not `**`. (`**` reads as the suffix `*`: a name ending in a star.)
   */
  lemma GlobRefinement(p: string)
    ensures (forall s :: ParseNamePattern(p).Matches(s) <==> Glob(p, s)) <==> StarsAtEnds(p)
  {
    StarsAtEndsIsLiteral(p);
    if StarsAtEnds(p) {
      forall s
        ensures ParseNamePattern(p).Matches(s) <==> Glob(p, s)
      {
        LiteralPatternIsGlob(p, s);
      }
    } else {
      GlobMatchesStarless(p);
      StarredLiteralNeedsStar(ParseNamePattern(p), Starless(p));
    }
  }
}
