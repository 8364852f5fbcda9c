/**
  Exactly which path patterns admit an admin path, read off the pattern alone. A pattern without a star, with
  stars at its ends, and with a star inside are three cases, as in the matcher.
 */
module AdminPatterns {
  import opened Texts
  import opened PathMatcher
  import opened EdgeTable

  const ADMIN_ROOTS := {"/admin", "/realms/master"}

  /** Some beginning of the pattern matches the text in full, so the pattern can go on from there. */
  predicate CanEnter(pattern: string, text: string) {
    exists i :: 0 <= i <= |pattern| && Wildcard(false, pattern[..i], text)
  }

  /** The pattern, lower-cased, matches the root or something below it. */
  predicate Reaches(pattern: string, root: string) {
    if '*' !in pattern then pattern == root || root + "/" <= pattern
    else if HasInnerStar(pattern) then Wildcard(false, pattern, root) || CanEnter(pattern, root + "/")
    else if StartsWithStar(pattern) then true
    else Core(pattern) <= root || root + "/" <= Core(pattern)
  }

  predicate ApartFromAdmin(pattern: string) {
    forall root :: root in ADMIN_ROOTS ==> !Reaches(Lower(pattern), root)
  }

  // ----- The wildcard match of a concatenation -----

  lemma {:induction false} MatchesTogether(a: string, b: string, x: string, y: string)
    requires Wildcard(false, a, x) && Wildcard(false, b, y)
    ensures Wildcard(false, a + b, x + y)
    decreases |a| + |x|
  {
    if a == "" {
      assert a + b == b && x + y == y;
    } else {
      assert (a + b)[1..] == a[1..] + b;
      if a[0] == '*' && Wildcard(false, a[1..], x) {
        MatchesTogether(a[1..], b, x, y);
      } else {
        assert (x + y)[1..] == x[1..] + y;
        MatchesTogether(if a[0] == '*' then a else a[1..], b, x[1..], y);
      }
    }
  }

  /** A match of a text that has a slash splits after that slash, since no star crosses it. */
  lemma {:induction false} SplitsAfterSlash(pattern: string, x: string, y: string) returns (i: nat)
    requires x != "" && x[|x| - 1] == '/' && Wildcard(false, pattern, x + y)
    ensures i <= |pattern| && Wildcard(false, pattern[..i], x)
    decreases |pattern| + |x|
  {
    assert (x + y)[1..] == x[1..] + y;
    if pattern[0] == '*' && Wildcard(false, pattern[1..], x + y) {
      var j := SplitsAfterSlash(pattern[1..], x, y);
      i := j + 1;
      assert pattern[..i][1..] == pattern[1..][..j];
    } else if pattern[0] == '*' {
      i := SplitsAfterSlash(pattern, x[1..], y);
      assert pattern[..i] != "";
    } else if |x| == 1 {
      i := 1;
      assert pattern[..1][1..] == "" && x[1..] == "";
    } else {
      var j := SplitsAfterSlash(pattern[1..], x[1..], y);
      i := j + 1;
      assert pattern[..i][1..] == pattern[1..][..j];
    }
  }

  /** What a pattern matches when every star stands for nothing. */
  function Unstarred(pattern: string): (text: string) {
    if pattern == "" then ""
    else (if pattern[0] == '*' then "" else [pattern[0]]) + Unstarred(pattern[1..])
  }

  lemma {:induction false} UnstarredMatches(pattern: string)
    ensures Wildcard(false, pattern, Unstarred(pattern))
    ensures forall c :: c in Unstarred(pattern) ==> c in pattern
  {
    if pattern != "" {
      UnstarredMatches(pattern[1..]);
      assert pattern[0] == '*' ==> Unstarred(pattern) == Unstarred(pattern[1..]);
      assert pattern[0] != '*' ==> Unstarred(pattern)[1..] == Unstarred(pattern[1..]);
    }
  }

  // ----- Lower case -----

  predicate IsLowered(s: string) {
    forall i :: 0 <= i < |s| ==> ToLower(s[i]) == s[i]
  }

  lemma LoweredIsLower(s: string)
    ensures IsLowered(Lower(s)) && (IsLowered(s) ==> Lower(s) == s)
  {
  }

  // ----- One root -----

  /** A path, in lower case, at the root or below it. */
  predicate AtOrBelow(root: string, path: string) {
    path == root || root + "/" <= path
  }

  lemma MatchedMeansReached(pattern: string, root: string, path: string)
    requires Wildcard(!HasInnerStar(pattern), pattern, path) && AtOrBelow(root, path)
    ensures Reaches(pattern, root)
  {
    if '*' !in pattern {
      LiteralIsExact(!HasInnerStar(pattern), pattern, path);
    } else if HasInnerStar(pattern) {
      if path != root {
        var start := root + "/";
        assert path == start + path[|start|..];
        var i := SplitsAfterSlash(pattern, start, path[|start|..]);
      }
    } else if !StartsWithStar(pattern) {
      TrailingStarOnly(pattern);
      TrailingStarIsPrefix(Core(pattern), path);
      if path != root && |Core(pattern)| <= |root| {
        assert root == path[..|root|];
      }
    }
  }

  lemma TrailingStarOnly(pattern: string)
    requires '*' in pattern && !HasInnerStar(pattern) && !StartsWithStar(pattern)
    ensures '*' !in Core(pattern) && pattern == Core(pattern) + "*"
  {
    CoreHasNoStar(pattern);
    CoreWithStars(pattern);
    assert "" + Core(pattern) == Core(pattern);
  }

  /** A pattern that reaches a root matches some path there. */
  lemma ReachedIsMatched(pattern: string, root: string) returns (path: string)
    requires IsLowered(pattern) && IsLowered(root) && Reaches(pattern, root)
    ensures IsLowered(path) && AtOrBelow(root, path) && Wildcard(!HasInnerStar(pattern), pattern, path)
  {
    if '*' !in pattern {
      path := pattern;
      LiteralIsExact(!HasInnerStar(pattern), pattern, path);
    } else if HasInnerStar(pattern) {
      path := GlobReaches(pattern, root);
    } else if StartsWithStar(pattern) {
      path := LeadingStarReaches(pattern, root);
    } else {
      TrailingStarOnly(pattern);
      path := if Core(pattern) <= root then root else Core(pattern);
      TrailingStarIsPrefix(Core(pattern), path);
    }
  }

  lemma GlobReaches(pattern: string, root: string) returns (path: string)
    requires IsLowered(pattern) && IsLowered(root)
    requires Wildcard(false, pattern, root) || CanEnter(pattern, root + "/")
    ensures IsLowered(path) && AtOrBelow(root, path) && Wildcard(false, pattern, path)
  {
    if Wildcard(false, pattern, root) {
      return root;
    }
    var i :| 0 <= i <= |pattern| && Wildcard(false, pattern[..i], root + "/");
    var rest := Unstarred(pattern[i..]);
    UnstarredMatches(pattern[i..]);
    MatchesTogether(pattern[..i], pattern[i..], root + "/", rest);
    assert pattern[..i] + pattern[i..] == pattern;
    path := root + "/" + rest;
    forall k | 0 <= k < |rest| ensures ToLower(rest[k]) == rest[k] {
      assert rest[k] in rest && rest[k] in pattern[i..];
    }
  }

  lemma LeadingStarReaches(pattern: string, root: string) returns (path: string)
    requires IsLowered(pattern) && IsLowered(root) && StartsWithStar(pattern) && !HasInnerStar(pattern)
    ensures IsLowered(path) && AtOrBelow(root, path) && Wildcard(true, pattern, path)
  {
    var core := Core(pattern);
    path := root + "/" + core;
    CoreHasNoStar(pattern);
    if pattern == "*" {
      StarIsAnything(path);
    } else {
      CoreWithStars(pattern);
      assert path[|root + "/"|..] == core;
      if EndsWithStar(pattern) {
        BothStarsAreContains(core, path);
      } else {
        assert "*" + core + "" == "*" + core;
        LeadingStarIsSuffix(core, path);
      }
    }
  }

  // ----- Both roots, any spelling -----

  lemma AdminIsAtOrBelow(path: string)
    ensures IsAdmin(path) <==> exists root :: root in ADMIN_ROOTS && AtOrBelow(root, Lower(path))
  {
    assert "/admin" in ADMIN_ROOTS && "/realms/master" in ADMIN_ROOTS;
    if IsAdmin(path) {
      assert AtOrBelow("/admin", Lower(path)) || AtOrBelow("/realms/master", Lower(path));
    }
  }

  lemma RootsAreLowered(root: string)
    requires root in ADMIN_ROOTS
    ensures IsLowered(root)
  {
  }

  /** No path that a pattern matches is an admin path, if and only if the pattern is apart: for every pattern. */
  lemma AdmitsNoAdminPathIff(pattern: string)
    ensures (forall path :: CaddyPathMatches(pattern, path) ==> !IsAdmin(path)) <==> ApartFromAdmin(pattern)
  {
    var p := Lower(pattern);
    LoweredIsLower(pattern);
    if ApartFromAdmin(pattern) {
      forall path | CaddyPathMatches(pattern, path) ensures !IsAdmin(path) {
        ApartAdmitsNone(pattern, path);
      }
    } else {
      var root :| root in ADMIN_ROOTS && Reaches(p, root);
      RootsAreLowered(root);
      var path := ReachedIsMatched(p, root);
      LoweredIsLower(path);
      MatcherIsWildcard(pattern, path);
      AdminIsAtOrBelow(path);
      assert CaddyPathMatches(pattern, path) && IsAdmin(path);
    }
  }

  lemma ApartAdmitsNone(pattern: string, path: string)
    requires ApartFromAdmin(pattern) && CaddyPathMatches(pattern, path)
    ensures !IsAdmin(path)
  {
    MatcherIsWildcard(pattern, path);
    AdminIsAtOrBelow(path);
    if root :| root in ADMIN_ROOTS && AtOrBelow(root, Lower(path)) {
      MatchedMeansReached(Lower(pattern), root, Lower(path));
    }
  }

  /** The same for a set of patterns, as a route holds it. */
  lemma SetAdmitsNoAdminPathIff(patterns: set<string>)
    ensures (forall path :: MatchesAny(patterns, path) ==> !IsAdmin(path))
       <==> forall p :: p in patterns ==> ApartFromAdmin(p)
  {
    if forall path :: MatchesAny(patterns, path) ==> !IsAdmin(path) {
      forall p | p in patterns ensures ApartFromAdmin(p) {
        forall path | CaddyPathMatches(p, path) ensures !IsAdmin(path) {
          assert MatchesAny(patterns, path);
        }
        AdmitsNoAdminPathIff(p);
      }
    }
    if forall p :: p in patterns ==> ApartFromAdmin(p) {
      forall path | MatchesAny(patterns, path) ensures !IsAdmin(path) {
        var p :| p in patterns && CaddyPathMatches(p, path);
        ApartAdmitsNone(p, path);
      }
    }
  }
}
