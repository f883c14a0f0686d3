/** What the driver's name patterns mean on qualified names (aspect-driver/src/types.rs `matches_name_pattern`). */
module DriverNames {
  import opened Common
  import opened Strings
  import opened Pointcuts
  import opened ModulePaths
  import DriverMatch

  /** `tail` are the last segments of `path`. */
  predicate IsSuffix(tail: seq<string>, path: seq<string>) {
    |tail| <= |path| && path[|path| - |tail|..] == tail
  }

  lemma JoinIsInjective(a: seq<string>, b: seq<string>)
    requires IsPath(a) && IsPath(b) && Join(a) == Join(b)
    ensures a == b
  {
    MatchesIffSegmentPrefix(a, b);
    MatchesIffSegmentPrefix(b, a);
  }

  lemma JoinStarts(path: seq<string>)
    requires IsPath(path)
    ensures |Join(path)| > 0 && Join(path)[0] == path[0][0] && Join(path)[0] != ':'
  {}

  /** The name is a first segment, a separator, and the rest. */
  ghost predicate Headed(name: string, first: string, rest: string) {
    && IsSegment(first) && |rest| > 0 && rest[0] != ':'
    && |name| == |first| + 2 + |rest|
    && (forall i | 0 <= i < |first| :: name[i] == first[i] && name[i] != ':')
    && name[|first|] == ':' && name[|first| + 1] == ':'
    && name[|first| + 2..] == rest
  }

  lemma JoinIsHeaded(path: seq<string>)
    requires IsPath(path) && |path| > 1
    ensures Headed(Join(path), path[0], Join(path[1..]))
  {
    JoinStarts(path[1..]);
    assert Join(path) == path[0] + "::" + Join(path[1..]);
  }

  lemma HeadedRest(name: string, first: string, rest: string, i: nat)
    requires Headed(name, first, rest) && i <= |rest|
    ensures name[|first| + 2 + i..] == rest[i..]
    ensures i < |rest| ==> name[|first| + 2 + i] == rest[i]
  {}

  // ------------------------------------------------------------------ separators in a joined name

  lemma SeparatorShape(s: string, i: nat)
    requires i + 2 <= |s|
    ensures OccursAt(s, "::", i) <==> s[i] == ':' && s[i + 1] == ':'
  {
    assert s[i..i + 2] == [s[i], s[i + 1]];
  }

  /** A separator in the name is the first one, or one of the rest. */
  lemma SeparatorAt(name: string, first: string, rest: string, i: nat)
    requires Headed(name, first, rest)
    ensures OccursAt(name, "::", i) <==> i == |first| || (i >= |first| + 2 && OccursAt(rest, "::", i - |first| - 2))
  {
    var n := |first| + 2;
    HeadedRest(name, first, rest, 0);
    if i + 2 <= |name| {
      SeparatorShape(name, i);
      if i >= n {
        HeadedRest(name, first, rest, i - n);
        HeadedRest(name, first, rest, i - n + 1);
        SeparatorShape(rest, i - n);
      }
    }
  }

  lemma NoSeparator(s: string, i: nat)
    requires ':' !in s
    ensures !OccursAt(s, "::", i)
  {
    if i + 2 <= |s| {
      SeparatorShape(s, i);
    }
  }

  lemma {:induction false} NothingAfterNoSeparator(s: string, i: nat)
    requires ':' !in s && i <= |s|
    ensures DriverMatch.AfterLastSeparator(s, i) == s
    decreases i
  {
    NoSeparator(s, i);
    if i > 0 {
      NothingAfterNoSeparator(s, i - 1);
    }
  }

  lemma LookBackStep(s: string, i: nat)
    requires 0 < i <= |s| && !OccursAt(s, "::", i)
    ensures DriverMatch.AfterLastSeparator(s, i) == DriverMatch.AfterLastSeparator(s, i - 1)
  {}

  lemma LookBackHit(s: string, i: nat)
    requires i <= |s| && OccursAt(s, "::", i)
    ensures DriverMatch.AfterLastSeparator(s, i) == s[i + 2..]
  {}

  /** Back at the first separator. */
  lemma LookBackToFirst(name: string, first: string, rest: string)
    requires Headed(name, first, rest)
    ensures DriverMatch.AfterLastSeparator(name, |first| + 2) == rest
    ensures !OccursAt(rest, "::", 0) && DriverMatch.AfterLastSeparator(rest, 0) == rest
  {
    if |rest| >= 2 {
      SeparatorShape(rest, 0);
    }
    SeparatorAt(name, first, rest, |first| + 2);
    SeparatorAt(name, first, rest, |first| + 1);
    SeparatorAt(name, first, rest, |first|);
    LookBackStep(name, |first| + 2);
    LookBackStep(name, |first| + 1);
    LookBackHit(name, |first|);
  }

  lemma LookBackBothHit(name: string, first: string, rest: string, i: nat)
    requires Headed(name, first, rest) && OccursAt(rest, "::", i) && OccursAt(name, "::", |first| + 2 + i)
    ensures DriverMatch.AfterLastSeparator(name, |first| + 2 + i) == DriverMatch.AfterLastSeparator(rest, i)
  {
    LookBackHit(name, |first| + 2 + i);
    LookBackHit(rest, i);
    HeadedRest(name, first, rest, i + 2);
  }

  lemma LookBackBothStep(name: string, n: nat, rest: string, i: nat)
    requires 0 < i <= |rest| && n + i <= |name| && !OccursAt(rest, "::", i) && !OccursAt(name, "::", n + i)
    requires DriverMatch.AfterLastSeparator(name, n + i - 1) == DriverMatch.AfterLastSeparator(rest, i - 1)
    ensures DriverMatch.AfterLastSeparator(name, n + i) == DriverMatch.AfterLastSeparator(rest, i)
  {
    LookBackStep(name, n + i);
    LookBackStep(rest, i);
  }

  /** Looking back through the name finds what looking back through the rest finds. */
  lemma {:induction false} LookBack(name: string, first: string, rest: string, i: nat)
    requires Headed(name, first, rest) && i <= |rest|
    ensures DriverMatch.AfterLastSeparator(name, |first| + 2 + i) == DriverMatch.AfterLastSeparator(rest, i)
    decreases i
  {
    SeparatorAt(name, first, rest, |first| + 2 + i);
    if OccursAt(rest, "::", i) {
      LookBackBothHit(name, first, rest, i);
    } else if i > 0 {
      LookBack(name, first, rest, i - 1);
      LookBackBothStep(name, |first| + 2, rest, i);
    } else {
      LookBackToFirst(name, first, rest);
    }
  }

  /** The simple name is the last segment. */
  lemma {:induction false} SimpleNameIsLastSegment(path: seq<string>)
    requires IsPath(path)
    ensures DriverMatch.AfterLastSeparator(Join(path), |Join(path)|) == path[|path| - 1]
  {
    if |path| == 1 {
      NothingAfterNoSeparator(path[0], |path[0]|);
    } else {
      var rest := Join(path[1..]);
      JoinIsHeaded(path);
      SimpleNameIsLastSegment(path[1..]);
      LookBack(Join(path), path[0], rest, |rest|);
    }
  }

  // ------------------------------------------------------------------ exact patterns

  /** The text, with a separator in front. */
  ghost predicate Separated(t: string, q: string) {
    |t| == |q| + 2 && t[0] == ':' && t[1] == ':' && t[2..] == q
  }

  lemma EndsAfterFirst(name: string, first: string, rest: string, t: string, q: string)
    requires Headed(name, first, rest) && Separated(t, q) && |q| > 0
    ensures EndsWith(name, t) <==> rest == q || EndsWith(rest, t)
  {
    if |t| <= |name| {
      var i := |name| - |t|;
      var n := |first| + 2;
      var w := name[i..];
      assert w[0] == name[i] && w[1] == name[i + 1];
      if i >= n {
        HeadedRest(name, first, rest, i - n);
      } else if i == |first| {
        assert w[2..] == rest;
        assert w == t <==> w[2..] == t[2..];
      } else {
        HeadedRest(name, first, rest, 0);
      }
    }
  }

  /** A joined name ends in `::` and another one exactly when the other's segments are its last ones, but not all of them. */
  lemma {:induction false} EndsIffSegmentSuffix(tail: seq<string>, path: seq<string>, t: string)
    requires IsPath(tail) && IsPath(path) && Separated(t, Join(tail))
    ensures EndsWith(Join(path), t) <==> |tail| < |path| && IsSuffix(tail, path)
    decreases |path|
  {
    JoinStarts(tail);
    if |path| == 1 {
      NoColonUnlessJoined(path);
      assert |t| <= |path[0]| ==> path[0][|path[0]| - |t|..][0] == path[0][|path[0]| - |t|];
    } else {
      JoinIsHeaded(path);
      EndsAfterFirst(Join(path), path[0], Join(path[1..]), t, Join(tail));
      EndsIffSegmentSuffix(tail, path[1..], t);
      if |tail| < |path| {
        SuffixOfRest(tail, path);
      }
      if Join(path[1..]) == Join(tail) {
        JoinIsInjective(path[1..], tail);
      }
    }
  }

  lemma SuffixOfRest(tail: seq<string>, path: seq<string>)
    requires |path| > 0 && |tail| < |path|
    ensures IsSuffix(tail, path) <==> IsSuffix(tail, path[1..])
    ensures |tail| == |path| - 1 ==> (IsSuffix(tail, path) <==> tail == path[1..])
  {
    assert path[1..][|path| - 1 - |tail|..] == path[|path| - |tail|..];
  }

  predicate EndsInStar(s: string) { EndsWith(s, "*") }

  lemma SimpleNameIffOneSegment(tail: seq<string>, path: seq<string>)
    requires IsPath(tail) && IsPath(path)
    ensures path[|path| - 1] == Join(tail) <==> |tail| == 1 && IsSuffix(tail, path)
  {
    NoColonUnlessJoined(tail);
    assert IsSegment(path[|path| - 1]);
    assert path[|path| - 1..] == [path[|path| - 1]];
  }

  /**
   A pattern of segments without a final star matches the names that end in these segments; except that
   a pattern of several segments never matches the very name it spells out.
   */
  lemma ExactPatternIffSuffix(f: DriverMatch.FunctionMetadata, tail: seq<string>, path: seq<string>)
    requires IsPath(tail) && IsPath(path) && f.name == Join(path) && !EndsInStar(Join(tail))
    ensures f.MatchesNamePattern(Join(tail)) <==> IsSuffix(tail, path) && (|tail| < |path| || |tail| == 1)
  {
    assert EndsInStar("*") && Join(tail) != "*";
    SimpleNameIsLastSegment(path);
    SimpleNameIffOneSegment(tail, path);
    EndsIffSegmentSuffix(tail, path, "::" + Join(tail));
  }

  /** So a qualified pattern does not match its own function. */
  lemma QualifiedPatternMissesItself(f: DriverMatch.FunctionMetadata, path: seq<string>)
    requires IsPath(path) && f.name == Join(path) && !EndsInStar(f.name)
    ensures f.MatchesNamePattern(f.name) <==> |path| == 1
  {
    ExactPatternIffSuffix(f, path, path);
  }

  // ------------------------------------------------------------------ prefix patterns

  /** A colon-free text that starts a joined name starts its first segment. */
  lemma StartsIffFirstSegment(path: seq<string>, p: string)
    requires IsPath(path) && ':' !in p
    ensures StartsWith(Join(path), p) <==> StartsWith(path[0], p)
  {
    var a := path[0];
    if |path| > 1 {
      var s := a + "::" + Join(path[1..]);
      assert s == Join(path);
      if |p| <= |a| {
        assert s[..|p|] == a[..|p|];
      } else if |p| <= |s| {
        assert s[..|p|][|a|] == ':';
      }
    }
  }

  lemma SliceOfRest(s: string, n: nat, i: nat, k: nat)
    requires n + i + k <= |s|
    ensures s[n..][i..i + k] == s[n + i..n + i + k]
  {
    var u, v := s[n..][i..i + k], s[n + i..n + i + k];
    assert forall j | 0 <= j < k :: u[j] == v[j];
  }

  /** In the rest, a text stands where it stands in the name. */
  lemma OccursInRest(name: string, first: string, rest: string, t: string, i: nat)
    requires Headed(name, first, rest)
    ensures OccursAt(rest, t, i) <==> OccursAt(name, t, |first| + 2 + i)
  {
    if i + |t| <= |rest| {
      SliceOfRest(name, |first| + 2, i, |t|);
    }
  }

  lemma OccursAtFirst(name: string, first: string, rest: string, t: string, p: string)
    requires Headed(name, first, rest) && Separated(t, p)
    ensures OccursAt(name, t, |first|) <==> StartsWith(rest, p)
  {
    var k := |first|;
    if k + |t| <= |name| {
      var w := name[k..k + |t|];
      assert w[0] == ':' && w[1] == ':';
      assert w[2..] == name[k + 2..][..|p|];
      assert w == t <==> w[2..] == t[2..] by {
        assert w == [w[0], w[1]] + w[2..] && t == [t[0], t[1]] + t[2..];
      }
    }
  }

  lemma OccursOnlyAtSeparators(name: string, first: string, rest: string, t: string, p: string, i: nat)
    requires Headed(name, first, rest) && Separated(t, p) && OccursAt(name, t, i)
    ensures i == |first| || i >= |first| + 2
  {
    var w := name[i..i + |t|];
    assert name[i] == w[0] && name[i + 1] == w[1];
    HeadedRest(name, first, rest, 0);
  }

  lemma ContainedAfterFirst(name: string, first: string, rest: string, t: string, p: string)
    requires Headed(name, first, rest) && Separated(t, p)
    ensures Contains(name, t) <==> StartsWith(rest, p) || Contains(rest, t)
  {
    var n := |first| + 2;
    OccursAtFirst(name, first, rest, t, p);
    if i: nat :| 0 <= i <= |name| && OccursAt(name, t, i) {
      OccursOnlyAtSeparators(name, first, rest, t, p, i);
      if i >= n {
        OccursInRest(name, first, rest, t, i - n);
      }
    }
    if i: nat :| 0 <= i <= |rest| && OccursAt(rest, t, i) {
      OccursInRest(name, first, rest, t, i);
      assert n + i <= |name|;
    }
  }

  /** The segments of a prefix pattern: all but the last are whole, the last may be anything without a colon. */
  predicate IsPrefixPath(prefix: seq<string>) {
    && |prefix| > 0 && (forall k | 0 <= k < |prefix| - 1 :: IsSegment(prefix[k]))
    && ':' !in prefix[|prefix| - 1]
  }

  /** From segment i on the path has the segments of the prefix, of which the last is only started. */
  predicate SegmentsStart(path: seq<string>, i: nat, prefix: seq<string>)
    requires |prefix| > 0
  {
    && i + |prefix| <= |path|
    && path[i..i + |prefix| - 1] == prefix[..|prefix| - 1]
    && StartsWith(path[i + |prefix| - 1], prefix[|prefix| - 1])
  }

  lemma SegmentsStartStep(path: seq<string>, prefix: seq<string>)
    requires |path| > 1 && |prefix| > 1
    ensures SegmentsStart(path, 0, prefix) <==> path[0] == prefix[0] && SegmentsStart(path[1..], 0, prefix[1..])
  {
    var n := |prefix| - 1;
    if n < |path| {
      assert path[..n] == [path[0]] + path[1..][..n - 1];
      assert prefix[..n] == [prefix[0]] + prefix[1..][..n - 1];
    }
  }

  lemma SegmentsStartLater(path: seq<string>, i: nat, prefix: seq<string>)
    requires |path| > 0 && |prefix| > 0
    ensures SegmentsStart(path, i + 1, prefix) <==> SegmentsStart(path[1..], i, prefix)
  {
    if i + 1 + |prefix| <= |path| {
      assert path[1..][i..i + |prefix| - 1] == path[i + 1..i + |prefix|];
    }
  }

  /** A joined name starts with a joined prefix exactly when its segments do. */
  lemma {:induction false} StartsIffSegmentsStart(path: seq<string>, prefix: seq<string>)
    requires IsPath(path) && IsPrefixPath(prefix)
    ensures StartsWith(Join(path), Join(prefix)) <==> SegmentsStart(path, 0, prefix)
    decreases |prefix|
  {
    if |prefix| == 1 {
      StartsIffFirstSegment(path, prefix[0]);
      assert path[0..0] == prefix[..0] == [];
    } else if |path| == 1 {
      var p := Join(prefix);
      NoColonUnlessJoined(path);
      assert p[|prefix[0]|] == ':';
      assert |p| <= |path[0]| ==> path[0][..|p|][|prefix[0]|] == path[0][|prefix[0]|];
    } else {
      StartsIffSegmentsStart(path[1..], prefix[1..]);
      SegmentsStartStep(path, prefix);
      FirstSegment(prefix[0], Join(prefix[1..]), path[0], Join(path[1..]));
    }
  }

  /** Somewhere after its first segment the path goes on like the prefix. */
  predicate LaterSegmentsStart(path: seq<string>, prefix: seq<string>)
    requires |prefix| > 0
  {
    exists i | 1 <= i < |path| :: SegmentsStart(path, i, prefix)
  }

  lemma LaterOfRest(path: seq<string>, prefix: seq<string>)
    requires |path| > 1 && |prefix| > 0
    ensures LaterSegmentsStart(path, prefix)
       <==> SegmentsStart(path[1..], 0, prefix) || LaterSegmentsStart(path[1..], prefix)
  {
    SegmentsStartLater(path, 0, prefix);
    if i :| 1 <= i < |path| && SegmentsStart(path, i, prefix) {
      SegmentsStartLater(path, i - 1, prefix);
    }
    if i :| 1 <= i < |path[1..]| && SegmentsStart(path[1..], i, prefix) {
      SegmentsStartLater(path, i, prefix);
    }
  }

  lemma {:induction false} ContainsIffLaterSegments(path: seq<string>, t: string, prefix: seq<string>)
    requires IsPath(path) && IsPrefixPath(prefix) && Separated(t, Join(prefix))
    ensures Contains(Join(path), t) <==> LaterSegmentsStart(path, prefix)
    decreases |path|
  {
    if |path| == 1 {
      NoColonUnlessJoined(path);
      forall i | 0 <= i <= |path[0]|
        ensures !OccursAt(path[0], t, i)
      {
        assert i + |t| <= |path[0]| ==> path[0][i..i + |t|][0] == path[0][i];
      }
    } else {
      JoinIsHeaded(path);
      ContainedAfterFirst(Join(path), path[0], Join(path[1..]), t, Join(prefix));
      StartsIffSegmentsStart(path[1..], prefix);
      ContainsIffLaterSegments(path[1..], t, prefix);
      LaterOfRest(path, prefix);
    }
  }

  lemma LastStartsOnlyAlone(last: string, prefix: seq<string>)
    requires IsSegment(last) && IsPrefixPath(prefix)
    ensures StartsWith(last, Join(prefix)) <==> |prefix| == 1 && StartsWith(last, prefix[0])
  {
    if |prefix| > 1 {
      var p := Join(prefix);
      assert p[|prefix[0]|] == ':';
      assert |p| <= |last| ==> last[..|p|][|prefix[0]|] == last[|prefix[0]|];
    }
  }

  /**
   A prefix pattern, qualified or not, matches the names that go on like it somewhere after their first
   segment; and, if it is one segment, those of which the last segment starts with it.
   */
  lemma PrefixPatternIffSegmentsStart(f: DriverMatch.FunctionMetadata, prefix: seq<string>, path: seq<string>)
    requires IsPath(path) && f.name == Join(path) && IsPrefixPath(prefix)
    ensures f.MatchesNamePattern(Join(prefix) + "*")
       <==> (|prefix| == 1 && StartsWith(path[|path| - 1], prefix[0])) || LaterSegmentsStart(path, prefix)
  {
    var (p, t) := (Join(prefix), Join(prefix) + "*");
    SimpleNameIsLastSegment(path);
    ContainsIffLaterSegments(path, "::" + p, prefix);
    LastStartsOnlyAlone(path[|path| - 1], prefix);
    assert t[|t| - 1..] == "*" && t[..|t| - 1] == p;
    if t == "*" {
      assert |prefix| == 1 && prefix[0] == "";
    }
  }

  /** Some segment other than the first starts with p. */
  predicate LaterSegmentStarts(path: seq<string>, p: string) {
    exists i | 1 <= i < |path| :: StartsWith(path[i], p)
  }

  lemma LaterSegmentAlone(path: seq<string>, p: string)
    ensures LaterSegmentsStart(path, [p]) <==> LaterSegmentStarts(path, p)
  {
    assert forall i | 1 <= i < |path| :: SegmentsStart(path, i, [p]) <==> StartsWith(path[i], p);
  }

  /**
   A pattern `p*` without separators matches the names of which the last segment starts with p, or any
   segment but the first: the names of modules on the way count too.
   */
  lemma PrefixPatternIffSegmentStarts(f: DriverMatch.FunctionMetadata, p: string, path: seq<string>)
    requires IsPath(path) && f.name == Join(path) && ':' !in p
    ensures f.MatchesNamePattern(p + "*") <==> StartsWith(path[|path| - 1], p) || LaterSegmentStarts(path, p)
  {
    PrefixPatternIffSegmentsStart(f, [p], path);
    LaterSegmentAlone(path, p);
  }
}
