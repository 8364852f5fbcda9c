/**
  The edge guard's model of a path matcher: exact, prefix, suffix and contains patterns, and a glob that
  does not cross a slash when a star stands inside. Each form is related to one recursive wildcard match.
 */
module PathMatcher {
  import opened Texts

  function StripStart(s: string): (t: string) {
    if s != [] && s[0] == '*' then StripStart(s[1..]) else s
  }

  function StripEnd(s: string): (t: string) {
    if s != [] && s[|s| - 1] == '*' then StripEnd(s[..|s| - 1]) else s
  }

  function Strip(s: string): (t: string) {
    StripEnd(StripStart(s))
  }

  predicate HasInnerStar(pattern: string) {
    |pattern| > 2 && '*' in pattern[1..|pattern| - 1]
  }

  predicate StartsWithStar(pattern: string) {
    pattern != [] && pattern[0] == '*'
  }

  predicate EndsWithStar(pattern: string) {
    pattern != [] && pattern[|pattern| - 1] == '*'
  }

  predicate EndsWith(text: string, end: string) {
    |end| <= |text| && text[|text| - |end|..] == end
  }

  function Concat(parts: seq<string>): (text: string) {
    if parts == [] then "" else parts[0] + Concat(parts[1..])
  }

  /** What a regular expression of stars and literals matches in full: a cut of the path, one part a character. */
  ghost predicate FullMatch(pattern: string, path: string) {
    exists parts: seq<string> :: IsCut(pattern, parts, path)
  }

  ghost predicate IsCut(pattern: string, parts: seq<string>, path: string) {
    && |parts| == |pattern| && Concat(parts) == path
    && forall i :: 0 <= i < |parts| ==> if pattern[i] == '*' then '/' !in parts[i] else parts[i] == [pattern[i]]
  }

  ghost predicate CaddyPathMatches(givenPattern: string, givenPath: string) {
    var pattern, path := Lower(givenPattern), Lower(givenPath);
    if pattern == "*" then true
    else if '*' !in pattern then path == pattern
    else if HasInnerStar(pattern) then FullMatch(pattern, path)
    else
      var core := Strip(pattern);
      if StartsWithStar(pattern) && EndsWithStar(pattern) then Contains(path, core)
      else if StartsWithStar(pattern) then EndsWith(path, core)
      else core <= path
  }

  // ----- The reference: one recursive wildcard match -----

  /** A star stands for any text, or for any text without a slash when stars do not cross slashes. */
  predicate Wildcard(crossing: bool, pattern: string, path: string)
    decreases |pattern| + |path|
  {
    if pattern == "" then path == ""
    else if pattern[0] == '*' then
      || Wildcard(crossing, pattern[1..], path)
      || (path != "" && (crossing || path[0] != '/') && Wildcard(crossing, pattern, path[1..]))
    else path != "" && path[0] == pattern[0] && Wildcard(crossing, pattern[1..], path[1..])
  }

  lemma {:induction false} LiteralIsExact(crossing: bool, pattern: string, path: string)
    requires '*' !in pattern
    ensures Wildcard(crossing, pattern, path) <==> path == pattern
  {
    if pattern != "" {
      assert pattern[0] in pattern;
      if path != "" {
        LiteralIsExact(crossing, pattern[1..], path[1..]);
        assert pattern == [pattern[0]] + pattern[1..] && path == [path[0]] + path[1..];
      }
    }
  }

  lemma {:induction false} StarIsAnything(path: string)
    ensures Wildcard(true, "*", path)
    decreases |path|
  {
    if path != "" {
      StarIsAnything(path[1..]);
    }
  }

  lemma {:induction false} TrailingStarIsPrefix(core: string, path: string)
    requires '*' !in core
    ensures Wildcard(true, core + "*", path) <==> core <= path
  {
    if core == "" {
      assert core + "*" == "*";
      StarIsAnything(path);
    } else {
      assert core[0] in core && (core + "*")[1..] == core[1..] + "*";
      if path != "" {
        TrailingStarIsPrefix(core[1..], path[1..]);
        assert core == [core[0]] + core[1..] && path == [path[0]] + path[1..];
      }
    }
  }

  lemma {:induction false} LeadingStarIsSuffix(core: string, path: string)
    requires '*' !in core
    ensures Wildcard(true, "*" + core, path) <==> EndsWith(path, core)
    decreases |path|
  {
    assert ("*" + core)[1..] == core;
    LiteralIsExact(true, core, path);
    if path != "" {
      LeadingStarIsSuffix(core, path[1..]);
      if |core| < |path| {
        assert path[1..][|path| - 1 - |core|..] == path[|path| - |core|..];
      }
    }
  }

  lemma {:induction false} BothStarsAreContains(core: string, path: string)
    requires '*' !in core
    ensures Wildcard(true, "*" + core + "*", path) <==> Contains(path, core)
    decreases |path|
  {
    assert ("*" + core + "*")[1..] == core + "*";
    TrailingStarIsPrefix(core, path);
    assert path[0..] == path;
    if path != "" {
      BothStarsAreContains(core, path[1..]);
      ContainsLater(path, core);
    }
  }

  lemma ContainsLater(path: string, core: string)
    requires path != ""
    ensures Contains(path, core) <==> core <= path || Contains(path[1..], core)
  {
    assert path[0..] == path;
    forall i | 0 <= i < |path| ensures path[1..][i..] == path[i + 1..] {
    }
    if Contains(path, core) && !(core <= path) {
      var i :| 0 <= i <= |path| && core <= path[i..];
      assert core <= path[1..][i - 1..];
    }
    if Contains(path[1..], core) {
      var i :| 0 <= i <= |path[1..]| && core <= path[1..][i..];
      assert core <= path[i + 1..];
    }
  }

  // ----- The glob branch -----

  lemma CutTail(pattern: string, parts: seq<string>, path: string)
    requires IsCut(pattern, parts, path) && pattern != ""
    ensures IsCut(pattern[1..], parts[1..], Concat(parts[1..])) && path == parts[0] + Concat(parts[1..])
  {
  }

  lemma {:induction false} CutIsWildcard(pattern: string, parts: seq<string>, path: string)
    requires IsCut(pattern, parts, path)
    ensures Wildcard(false, pattern, path)
    decreases |pattern| + |path|
  {
    if pattern != "" {
      CutTail(pattern, parts, path);
      if pattern[0] != '*' || parts[0] == "" {
        assert parts[0] == "" ==> path == Concat(parts[1..]);
        assert pattern[0] != '*' ==> path[1..] == Concat(parts[1..]);
        CutIsWildcard(pattern[1..], parts[1..], Concat(parts[1..]));
      } else {
        var shorter := [parts[0][1..]] + parts[1..];
        assert path[1..] == parts[0][1..] + Concat(parts[1..]);
        assert path[0] == parts[0][0] && parts[0][0] in parts[0];
        CutIsWildcard(pattern, shorter, path[1..]);
      }
    }
  }

  lemma {:induction false} WildcardIsCut(pattern: string, path: string) returns (parts: seq<string>)
    requires Wildcard(false, pattern, path)
    ensures IsCut(pattern, parts, path)
    decreases |pattern| + |path|
  {
    if pattern == "" {
      parts := [];
    } else if pattern[0] == '*' && Wildcard(false, pattern[1..], path) {
      var rest := WildcardIsCut(pattern[1..], path);
      parts := [""] + rest;
      assert "" + Concat(rest) == path;
    } else if pattern[0] == '*' {
      var rest := WildcardIsCut(pattern, path[1..]);
      parts := [[path[0]] + rest[0]] + rest[1..];
      assert Concat(parts) == ([path[0]] + rest[0]) + Concat(rest[1..]);
      assert Concat(rest) == rest[0] + Concat(rest[1..]);
      assert path == [path[0]] + path[1..];
    } else {
      var rest := WildcardIsCut(pattern[1..], path[1..]);
      parts := [[path[0]]] + rest;
      assert path == [path[0]] + path[1..];
    }
  }

  /** With a star inside, the matcher is the wildcard match whose stars do not cross a slash. */
  lemma GlobIsWildcard(pattern: string, path: string)
    ensures FullMatch(pattern, path) <==> Wildcard(false, pattern, path)
  {
    if FullMatch(pattern, path) {
      var parts :| IsCut(pattern, parts, path);
      CutIsWildcard(pattern, parts, path);
    }
    if Wildcard(false, pattern, path) {
      var parts := WildcardIsCut(pattern, path);
    }
  }

  // ----- The fast forms -----

  function Core(pattern: string): (core: string) {
    var start := if StartsWithStar(pattern) then 1 else 0;
    var end := if EndsWithStar(pattern) && |pattern| > start then |pattern| - 1 else |pattern|;
    pattern[start..end]
  }

  lemma InnerStar(pattern: string, i: nat)
    requires 0 < i < |pattern| - 1 && pattern[i] == '*'
    ensures HasInnerStar(pattern)
  {
    assert pattern[1..|pattern| - 1][i - 1] == '*';
  }

  lemma CoreHasNoStar(pattern: string)
    requires !HasInnerStar(pattern)
    ensures '*' !in Core(pattern)
  {
    var core := Core(pattern);
    forall i | 0 <= i < |core| ensures core[i] != '*' {
      if core[i] == '*' {
        var at := if StartsWithStar(pattern) then i + 1 else i;
        if 0 < at < |pattern| - 1 {
          InnerStar(pattern, at);
        }
      }
    }
  }

  lemma NoStarToStrip(core: string)
    requires '*' !in core
    ensures StripStart(core) == core == StripEnd(core)
  {
    if core != "" {
      assert core[0] in core && core[|core| - 1] in core;
    }
  }

  lemma StripIsCore(pattern: string)
    requires !HasInnerStar(pattern)
    ensures Strip(pattern) == Core(pattern)
  {
    var core := Core(pattern);
    CoreHasNoStar(pattern);
    NoStarToStrip(core);
    var rest := if StartsWithStar(pattern) then pattern[1..] else pattern;
    if core != "" {
      assert rest[0] == core[0] && core[0] in core;
      assert StripStart(pattern) == rest;
      if EndsWithStar(pattern) {
        assert rest[..|rest| - 1] == core;
      } else {
        assert rest == core;
      }
    } else if StartsWithStar(pattern) && rest != "" {
      assert rest == "*" && rest[1..] == "" && StripStart(rest) == StripStart(rest[1..]);
    }
  }

  lemma CoreWithStars(pattern: string)
    requires '*' in pattern && pattern != "*" && !HasInnerStar(pattern)
    ensures StartsWithStar(pattern) || EndsWithStar(pattern)
    ensures pattern == (if StartsWithStar(pattern) then "*" else "") + Core(pattern) + if EndsWithStar(pattern) then "*" else ""
  {
    var i :| 0 <= i < |pattern| && pattern[i] == '*';
    if 0 < i < |pattern| - 1 {
      InnerStar(pattern, i);
    }
  }

  /**
    The matcher is the wildcard match of the lower-cased pattern and path: stars at the ends stand for any
    text, and a star inside, or beside one inside, for any text without a slash.
   */
  lemma MatcherIsWildcard(pattern: string, path: string)
    ensures CaddyPathMatches(pattern, path) <==> Wildcard(!HasInnerStar(Lower(pattern)), Lower(pattern), Lower(path))
  {
    var p, s := Lower(pattern), Lower(path);
    if p == "*" {
      StarIsAnything(s);
    } else if '*' !in p {
      LiteralIsExact(true, p, s);
    } else if HasInnerStar(p) {
      GlobIsWildcard(p, s);
    } else {
      var core := Core(p);
      StripIsCore(p);
      CoreHasNoStar(p);
      CoreWithStars(p);
      if StartsWithStar(p) && EndsWithStar(p) {
        BothStarsAreContains(core, s);
      } else if StartsWithStar(p) {
        assert core + "" == core && "*" + core + "" == "*" + core;
        LeadingStarIsSuffix(core, s);
      } else {
        assert "" + core == core;
        TrailingStarIsPrefix(core, s);
      }
    }
  }

  /** Letter case never matters, in the pattern or in the path. */
  lemma CaseNeverMatters(pattern: string, path: string, otherPattern: string, otherPath: string)
    requires Lower(pattern) == Lower(otherPattern) && Lower(path) == Lower(otherPath)
    ensures CaddyPathMatches(pattern, path) <==> CaddyPathMatches(otherPattern, otherPath)
  {
    MatcherIsWildcard(pattern, path);
    MatcherIsWildcard(otherPattern, otherPath);
  }

  // ----- The matcher as it runs -----

  method Matches(givenPattern: string, givenPath: string) returns (matches: bool)
    ensures matches == CaddyPathMatches(givenPattern, givenPath)
  {
    var pattern, path := Lower(givenPattern), Lower(givenPath);
    if pattern == "*" {
      return true;
    }
    if '*' !in pattern {
      return path == pattern;
    }
    if HasInnerStar(pattern) {
      GlobIsWildcard(pattern, path);
      return Wildcard(false, pattern, path);
    }
    var starts, ends, core := StartsWithStar(pattern), EndsWithStar(pattern), Strip(pattern);
    if starts && ends {
      return Contains(path, core);
    }
    matches := if starts then EndsWith(path, core) else core <= path;
  }
}
