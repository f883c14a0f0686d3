/** Module matching as segment prefixes (pattern.rs `matches_path`; the driver's `is_in_module` is the same test). */
module ModulePaths {
  import opened Strings
  import opened Pointcuts

  /** A path segment: not empty, no colon. */
  predicate IsSegment(s: string) { |s| > 0 && ':' !in s }

  predicate IsPath(segments: seq<string>) {
    |segments| > 0 && forall i | 0 <= i < |segments| :: IsSegment(segments[i])
  }

  function Join(segments: seq<string>): string
    requires |segments| > 0
  {
    if |segments| == 1 then segments[0] else segments[0] + "::" + Join(segments[1..])
  }

  /** Two paths agree on a first segment exactly when their texts agree up to its separator. */
  lemma FirstSegment(a: string, x: string, b: string, y: string)
    requires IsSegment(a) && IsSegment(b)
    ensures StartsWith(b + "::" + y, a + "::" + x) <==> a == b && StartsWith(y, x)
  {
    var p, s := a + "::" + x, b + "::" + y;
    if a == b {
      assert |p| <= |s| ==> s[..|p|] == a + "::" + y[..|x|];
      if StartsWith(s, p) {
        assert s[..|p|][|a| + 2..] == p[|a| + 2..] == x;
      }
    } else if |p| <= |s| {
      var k := if |a| <= |b| then |a| else |b|;
      assert s[..|p|][k] == s[k];
      assert s[..|p|][..k] == s[..k] == b[..k];
      assert p[..k] == a[..k];
      assert a[..|a|] == a && b[..|b|] == b;
    }
  }

  lemma NoColonUnlessJoined(segments: seq<string>)
    requires IsPath(segments)
    ensures |segments| > 1 <==> ':' in Join(segments)
  {
    if |segments| > 1 {
      assert Join(segments)[|segments[0]|] == ':';
    }
  }

  /** A module pattern matches a path exactly when its segments are a prefix of the path's segments. */
  lemma {:induction false} MatchesIffSegmentPrefix(pattern: seq<string>, path: seq<string>)
    requires IsPath(pattern) && IsPath(path)
    ensures ModulePattern(Join(pattern)).MatchesPath(Join(path)) <==> pattern <= path
    decreases |pattern|
  {
    var p, m := Join(pattern), Join(path);
    NoColonUnlessJoined(pattern);
    NoColonUnlessJoined(path);
    if |path| == 1 {
      assert |p| + 2 <= |m| ==> m[..|p| + 2][|p|] == m[|p|];
      assert pattern <= path <==> pattern == path;
    } else if |pattern| == 1 {
      assert p + "::" == p + "::" + "";
      FirstSegment(p, "", path[0], Join(path[1..]));
      assert StartsWith(Join(path[1..]), "");
    } else {
      var p', m' := Join(pattern[1..]), Join(path[1..]);
      MatchesIffSegmentPrefix(pattern[1..], path[1..]);
      FirstSegment(pattern[0], p' + "::", path[0], m');
      assert p + "::" == pattern[0] + "::" + (p' + "::");
      FirstSegment(pattern[0], p', path[0], m');
      assert m == p <==> pattern[0] == path[0] && m' == p' by {
        if m == p {
          assert StartsWith(m, p);
          assert m' == p';
        }
      }
      assert pattern <= path <==> pattern[0] == path[0] && pattern[1..] <= path[1..];
    }
  }

  predicate Covers(pattern: string, path: string) { ModulePattern(pattern).MatchesPath(path) }

  /** Matching orders module paths partially: every module is in itself, and nesting composes. */
  lemma MatchingIsPartialOrder(a: string, b: string, c: string)
    ensures Covers(a, a)
    ensures Covers(a, b) && Covers(b, a) ==> a == b
    ensures Covers(a, b) && Covers(b, c) ==> Covers(a, c)
  {
    if Covers(a, b) && Covers(b, c) && a != b && b != c {
      assert c[..|a| + 2] == c[..|b| + 2][..|a| + 2];
      assert (b + "::")[..|a| + 2] == b[..|a| + 2];
    }
  }
}
