/** The text rules of the masking core: the key deny-list and the rendering of a URI. */
module MaskedText {
  import opened Texts

  const MASK := "***"

  const DENIED_FRAGMENTS: seq<string> := [
    "password", "passwd", "pwd", "secret", "token", "apikey", "authorization", "cookie",
    "connectionstring", "querystring", "credential", "privatekey", "signingkey", "hashkey",
    "bearer", "jwt", "session"]

  predicate IsSeparator(c: char) {
    c == '_' || c == '-' || c == '.'
  }

  /** The key as it is compared: separators dropped, the rest in lower case. */
  function Normalize(lower: char -> char, key: string): (n: string) {
    if key == "" then ""
    else (if IsSeparator(key[0]) then "" else [lower(key[0])]) + Normalize(lower, key[1..])
  }

  predicate IsDeniedKey(lower: char -> char, key: string) {
    exists f :: 0 <= f < |DENIED_FRAGMENTS| && Contains(Normalize(lower, key), DENIED_FRAGMENTS[f])
  }

  lemma {:induction false} NormalizeConcat(lower: char -> char, a: string, b: string)
    ensures Normalize(lower, a + b) == Normalize(lower, a) + Normalize(lower, b)
  {
    if a == "" {
      assert a + b == b;
    } else {
      assert (a + b)[1..] == a[1..] + b;
      NormalizeConcat(lower, a[1..], b);
    }
  }

  /** A denied key stays denied inside any longer key: the deny-list looks for fragments. */
  lemma DeniedInside(lower: char -> char, a: string, key: string, b: string)
    requires IsDeniedKey(lower, key)
    ensures IsDeniedKey(lower, a + key + b)
  {
    var f :| 0 <= f < |DENIED_FRAGMENTS| && Contains(Normalize(lower, key), DENIED_FRAGMENTS[f]);
    NormalizeConcat(lower, a + key, b);
    NormalizeConcat(lower, a, key);
    ContainsInside(Normalize(lower, a), Normalize(lower, key), Normalize(lower, b), DENIED_FRAGMENTS[f]);
  }

  /** Three characters are dropped, every other one is compared in lower case. */
  lemma SeparatorsAreThree(lower: char -> char, c: char)
    ensures Normalize(lower, [c]) == if c == '_' || c == '-' || c == '.' then "" else [lower(c)]
  {
    assert [c][1..] == "";
    assert Normalize(lower, [c]) == (if IsSeparator(c) then "" else [lower(c)]) + Normalize(lower, "");
  }

  /** Where separators stand makes no difference. */
  lemma SeparatorsDoNotMatter(lower: char -> char, a: string, separator: char, b: string)
    requires separator == '_' || separator == '-' || separator == '.'
    ensures IsDeniedKey(lower, a + [separator] + b) <==> IsDeniedKey(lower, a + b)
  {
    NormalizeConcat(lower, a + [separator], b);
    NormalizeConcat(lower, a, [separator]);
    NormalizeConcat(lower, a, b);
    SeparatorsAreThree(lower, separator);
    assert Normalize(lower, a + [separator] + b) == Normalize(lower, a + b);
  }

  /** Letter case makes no difference: two keys with the same lower-case text get the same answer. */
  lemma {:induction false} CaseDoesNotMatter(lower: char -> char, a: string, b: string)
    requires |a| == |b|
    requires forall i :: 0 <= i < |a| ==> IsSeparator(a[i]) == IsSeparator(b[i]) && lower(a[i]) == lower(b[i])
    ensures Normalize(lower, a) == Normalize(lower, b)
    ensures IsDeniedKey(lower, a) <==> IsDeniedKey(lower, b)
    decreases |a|
  {
    if a != "" {
      assert lower(a[0]) == lower(b[0]);
      CaseDoesNotMatter(lower, a[1..], b[1..]);
    }
  }

  /** The words a key must not hold, one by one. */
  const DENIED_WORDS: set<string> := {
    "password", "passwd", "pwd", "secret", "token", "apikey", "authorization", "cookie", "connectionstring",
    "querystring", "credential", "privatekey", "signingkey", "hashkey", "bearer", "jwt", "session"}

  /** A key is denied exactly when one of the words stands somewhere in its compared text. */
  lemma DeniedIff(lower: char -> char, key: string)
    ensures IsDeniedKey(lower, key) <==>
      exists word, before, after :: word in DENIED_WORDS && Normalize(lower, key) == before + word + after
  {
    var n := Normalize(lower, key);
    forall word ensures word in DENIED_WORDS <==> exists f :: 0 <= f < |DENIED_FRAGMENTS| && DENIED_FRAGMENTS[f] == word {
      if word in DENIED_WORDS {
        WordIsListed(word);
      }
    }
    if IsDeniedKey(lower, key) {
      var f :| 0 <= f < |DENIED_FRAGMENTS| && Contains(n, DENIED_FRAGMENTS[f]);
      ContainsSplits(n, DENIED_FRAGMENTS[f]);
    }
    if word, before, after :| word in DENIED_WORDS && n == before + word + after {
      var f :| 0 <= f < |DENIED_FRAGMENTS| && DENIED_FRAGMENTS[f] == word;
      ContainsSplits(n, word);
    }
  }

  lemma WordIsListed(word: string)
    requires word in DENIED_WORDS
    ensures exists f :: 0 <= f < |DENIED_FRAGMENTS| && DENIED_FRAGMENTS[f] == word
  {
    var fs := DENIED_FRAGMENTS;
    assert word in {fs[0], fs[1], fs[2], fs[3], fs[4], fs[5], fs[6], fs[7], fs[8], fs[9], fs[10], fs[11], fs[12], fs[13],
                    fs[14], fs[15], fs[16]};
  }

  lemma FragmentsAreNotEmpty()
    ensures forall f :: 0 <= f < |DENIED_FRAGMENTS| ==> DENIED_FRAGMENTS[f] != ""
  {
  }

  lemma EmptyHoldsNothing(fragment: string)
    requires fragment != ""
    ensures !Contains("", fragment)
  {
  }

  /** The code answers the empty key first; the fragments give the same answer. */
  lemma EmptyKeyIsNotDenied(lower: char -> char)
    ensures !IsDeniedKey(lower, "")
  {
    FragmentsAreNotEmpty();
    var fragments := DENIED_FRAGMENTS;
    forall f | 0 <= f < |fragments| ensures !Contains("", fragments[f]) {
      EmptyHoldsNothing(fragments[f]);
    }
  }

  /** The check as it runs: one pass into a buffer, then the fragments one by one. */
  method IsDenied(lower: char -> char, key: string) returns (denied: bool)
    ensures denied == IsDeniedKey(lower, key)
  {
    if |key| == 0 {
      EmptyKeyIsNotDenied(lower);
      return false;
    }
    var buffer := new char[|key|];
    var length := 0;
    for n := 0 to |key|
      invariant 0 <= length <= n
      invariant buffer[..length] == Normalize(lower, key[..n])
    {
      assert key[..n + 1] == key[..n] + [key[n]];
      NormalizeConcat(lower, key[..n], [key[n]]);
      assert Normalize(lower, [key[n]]) == (if IsSeparator(key[n]) then "" else [lower(key[n])]) + Normalize(lower, []);
      if !IsSeparator(key[n]) {
        buffer[length] := lower(key[n]);
        length := length + 1;
      }
    }
    assert key[..|key|] == key;
    var normalized := buffer[..length];
    for f := 0 to |DENIED_FRAGMENTS|
      invariant forall g :: 0 <= g < f ==> !Contains(normalized, DENIED_FRAGMENTS[g])
    {
      if Contains(normalized, DENIED_FRAGMENTS[f]) {
        return true;
      }
    }
    return false;
  }

  // ----- URIs -----

  /** A relative URI keeps its text; its three parts are how that text reads. */
  datatype Uri =
    | Relative(before: string, search: string, hash: string)
    | Absolute(scheme: string, userInfo: string, host: string, port: string, defaultPort: bool,
               path: string, query: string, fragment: string)
  {
    predicate Valid() {
      Relative? ==>
        && '?' !in before && '#' !in before && '#' !in search
        && (search == "" || search[0] == '?') && (hash == "" || hash[0] == '#')
    }

    function OriginalString(): (s: string)
      requires Relative?
    {
      before + search + hash
    }
  }

  function RenderUri(uri: Uri): (s: string) {
    match uri
    case Relative(_, _, _) =>
      var original := UpTo(uri.OriginalString(), '#');
      if '?' in original then UpTo(original, '?') + "?" + MASK else original
    case Absolute(scheme, _, host, port, defaultPort, path, query, _) =>
      scheme + "://" + host + (if defaultPort then "" else ":" + port) + path + (if query == "" then "" else "?" + MASK)
  }

  /** Equal but for userinfo, the text of a query, and the fragment. */
  predicate SamePublicParts(a: Uri, b: Uri) {
    if a.Relative? then
      b.Relative? && a.before == b.before && (a.search == "" <==> b.search == "")
    else
      && b.Absolute? && a.scheme == b.scheme && a.host == b.host && a.port == b.port
      && a.defaultPort == b.defaultPort && a.path == b.path && (a.query == "" <==> b.query == "")
  }

  lemma RelativeRendering(uri: Uri)
    requires uri.Relative? && uri.Valid()
    ensures RenderUri(uri) == uri.before + (if uri.search == "" then "" else "?" + MASK)
  {
    assert uri.OriginalString() == (uri.before + uri.search) + uri.hash;
    UpToStops(uri.before + uri.search, uri.hash, '#');
    if uri.search == "" {
      assert uri.before + uri.search == uri.before;
    } else {
      assert uri.search[0] in uri.before + uri.search;
      UpToStops(uri.before, uri.search, '?');
    }
  }

  /** The rendering shows the public parts and nothing else. */
  lemma RenderUriHidesSecretParts(a: Uri, b: Uri)
    requires a.Valid() && b.Valid() && SamePublicParts(a, b)
    ensures RenderUri(a) == RenderUri(b)
  {
    if a.Relative? {
      RelativeRendering(a);
      RelativeRendering(b);
    }
  }

  /** What is shown of an absolute URI: scheme, host, a port other than the scheme's own, path, and whether it has a query. */
  lemma AbsoluteRendering(uri: Uri)
    requires uri.Absolute?
    ensures var shown, mark := RenderUri(uri), if uri.query == "" then "" else "?***";
      && uri.scheme + "://" + uri.host <= shown
      && uri.path + mark == shown[|shown| - |uri.path + mark|..]
      && shown[|uri.scheme| + 3 + |uri.host|..|shown| - |uri.path + mark|] == (if uri.defaultPort then "" else ":" + uri.port)
  {
    var shown, mark := RenderUri(uri), if uri.query == "" then "" else "?***";
    var front, port := uri.scheme + "://" + uri.host, if uri.defaultPort then "" else ":" + uri.port;
    assert shown == front + port + (uri.path + mark);
  }
}
