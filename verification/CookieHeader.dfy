/** The callback guard's rewriting of the Cookie header: the session cookie goes, every other cookie stays. */
module CookieHeader {
  import opened Options
  import opened Texts

  function NonBlank(parts: seq<string>): (pairs: seq<string>) {
    if parts == [] then []
    else
      var n := |parts| - 1;
      var trimmed := Trim(IsWhiteSpace, parts[n]);
      NonBlank(parts[..n]) + if trimmed == "" then [] else [trimmed]
  }

  /** The cookie pairs of one header value. */
  function PairsOf(header: string): (pairs: seq<string>) {
    NonBlank(Split(';', header))
  }

  function AllPairs(headers: seq<Option<string>>): (pairs: seq<string>) {
    if headers == [] then []
    else
      var n := |headers| - 1;
      AllPairs(headers[..n]) + if headers[n].Some? then PairsOf(headers[n].value) else []
  }

  function NameOf(pair: string): (name: string) {
    UpTo(pair, '=')
  }

  function Without(pairs: seq<string>, name: string): (rest: seq<string>) {
    if pairs == [] then []
    else Without(pairs[..|pairs| - 1], name) + Kept(pairs[|pairs| - 1], name)
  }

  function Kept(pair: string, name: string): (kept: seq<string>) {
    if NameOf(pair) != name then [pair] else []
  }

  function JoinPairs(pairs: seq<string>): (header: string)
    requires pairs != []
  {
    if |pairs| == 1 then pairs[0] else JoinPairs(pairs[..|pairs| - 1]) + "; " + pairs[|pairs| - 1]
  }

  /** The header after the rewriting, or none when no pair is left. */
  function Rewritten(headers: seq<Option<string>>, name: string): (header: Option<string>) {
    var rest := Without(AllPairs(headers), name);
    if rest == [] then None else Some(JoinPairs(rest))
  }

  // ----- The rewritten header reads back as the pairs that were to stay -----

  predicate IsTrimmed(s: string) {
    s != "" && !IsWhiteSpace(s[0]) && !IsWhiteSpace(s[|s| - 1])
  }

  ghost predicate IsPair(p: string) {
    IsTrimmed(p) && ';' !in p
  }

  lemma {:induction false} TrimStartEnds(s: string)
    ensures var t := TrimStart(IsWhiteSpace, s); (t == "" || !IsWhiteSpace(t[0])) && forall c :: c in t ==> c in s
    decreases |s|
  {
    if s != "" && IsWhiteSpace(s[0]) {
      TrimStartEnds(s[1..]);
    }
  }

  lemma {:induction false} TrimEndEnds(s: string)
    ensures var t := TrimEnd(IsWhiteSpace, s); (t == "" || !IsWhiteSpace(t[|t| - 1])) && t <= s
    decreases |s|
  {
    if s != "" && IsWhiteSpace(s[|s| - 1]) {
      TrimEndEnds(s[..|s| - 1]);
    }
  }

  lemma TrimTrims(s: string)
    ensures var t := Trim(IsWhiteSpace, s); (t == "" || IsTrimmed(t)) && forall c :: c in t ==> c in s
  {
    TrimStartEnds(s);
    TrimEndEnds(TrimStart(IsWhiteSpace, s));
  }

  lemma TrimOfTrimmed(p: string)
    requires IsTrimmed(p)
    ensures Trim(IsWhiteSpace, p) == p && Trim(IsWhiteSpace, " " + p) == p
  {
    assert (" " + p)[1..] == p;
  }

  lemma {:induction false} SplitLeavesNone(separator: char, text: string)
    ensures forall part :: part in Split(separator, text) ==> separator !in part
  {
    if text != "" {
      SplitLeavesNone(separator, text[..|text| - 1]);
    }
  }

  lemma {:induction false} NonBlankArePairs(parts: seq<string>)
    requires forall part :: part in parts ==> ';' !in part
    ensures forall p :: p in NonBlank(parts) ==> IsPair(p)
  {
    if parts != [] {
      NonBlankArePairs(parts[..|parts| - 1]);
      TrimTrims(parts[|parts| - 1]);
    }
  }

  lemma {:induction false} AllPairsArePairs(headers: seq<Option<string>>)
    ensures forall p :: p in AllPairs(headers) ==> IsPair(p)
  {
    if headers != [] {
      var last := headers[|headers| - 1];
      AllPairsArePairs(headers[..|headers| - 1]);
      if last.Some? {
        SplitLeavesNone(';', last.value);
        NonBlankArePairs(Split(';', last.value));
      }
    }
  }

  function Spaced(pairs: seq<string>): (parts: seq<string>)
    requires pairs != []
    ensures |parts| == |pairs|
  {
    seq(|pairs|, i requires 0 <= i < |pairs| => if i == 0 then pairs[0] else " " + pairs[i])
  }

  lemma {:induction false} JoinPairsIsJoin(pairs: seq<string>)
    requires pairs != []
    ensures JoinPairs(pairs) == Join(';', Spaced(pairs))
  {
    if |pairs| > 1 {
      var n := |pairs| - 1;
      JoinPairsIsJoin(pairs[..n]);
      assert Spaced(pairs)[..n] == Spaced(pairs[..n]);
      assert JoinPairs(pairs[..n]) + "; " + pairs[n] == JoinPairs(pairs[..n]) + [';'] + (" " + pairs[n]);
    }
  }

  lemma NonBlankMore(parts: seq<string>, part: string)
    ensures NonBlank(parts + [part])
         == NonBlank(parts) + if Trim(IsWhiteSpace, part) == "" then [] else [Trim(IsWhiteSpace, part)]
  {
    assert (parts + [part])[..|parts|] == parts;
  }

  lemma SpacedMore(pairs: seq<string>, last: string)
    ensures Spaced(pairs + [last]) == if pairs == [] then [] + [last] else Spaced(pairs) + [" " + last]
  {
  }

  lemma {:induction false} NonBlankOfSpaced(pairs: seq<string>)
    requires pairs != [] && forall p :: p in pairs ==> IsPair(p)
    ensures NonBlank(Spaced(pairs)) == pairs
  {
    var first, last := pairs[..|pairs| - 1], pairs[|pairs| - 1];
    assert last in pairs && pairs == first + [last];
    TrimOfTrimmed(last);
    SpacedMore(first, last);
    if first == [] {
      NonBlankMore([], last);
    } else {
      NonBlankOfSpaced(first);
      NonBlankMore(Spaced(first), " " + last);
    }
  }

  /** Reading what was joined gives the pairs back. */
  lemma PairsOfJoined(pairs: seq<string>)
    requires pairs != [] && forall p :: p in pairs ==> IsPair(p)
    ensures PairsOf(JoinPairs(pairs)) == pairs
  {
    JoinPairsIsJoin(pairs);
    forall i | 0 <= i < |pairs| ensures ';' !in Spaced(pairs)[i] {
      assert IsPair(pairs[i]);
    }
    SplitOfJoin(';', Spaced(pairs));
    NonBlankOfSpaced(pairs);
  }

  lemma {:induction false} WithoutMembers(pairs: seq<string>, name: string, p: string)
    ensures p in Without(pairs, name) <==> p in pairs && NameOf(p) != name
  {
    if pairs != [] {
      var n := |pairs| - 1;
      WithoutMembers(pairs[..n], name, p);
      assert pairs == pairs[..n] + [pairs[n]];
    }
  }

  /** No pair of the named cookie is left, and every other pair is, in its place. */
  lemma RewritingRemovesExactlyTheNamed(headers: seq<Option<string>>, name: string)
    ensures AllPairs([Rewritten(headers, name)]) == Without(AllPairs(headers), name)
    ensures forall p :: p in AllPairs([Rewritten(headers, name)]) <==> p in AllPairs(headers) && NameOf(p) != name
  {
    var rest := Without(AllPairs(headers), name);
    AllPairsArePairs(headers);
    forall p ensures p in rest <==> p in AllPairs(headers) && NameOf(p) != name {
      WithoutMembers(AllPairs(headers), name, p);
    }
    assert [Rewritten(headers, name)][..0] == [];
    if rest != [] {
      PairsOfJoined(rest);
    }
  }

  /** Rewriting twice is rewriting once. */
  lemma RewritingIsIdempotent(headers: seq<Option<string>>, name: string)
    ensures Rewritten([Rewritten(headers, name)], name) == Rewritten(headers, name)
  {
    RewritingRemovesExactlyTheNamed(headers, name);
    WithoutTwice(AllPairs(headers), name);
  }

  lemma {:induction false} WithoutTwice(pairs: seq<string>, name: string)
    ensures Without(Without(pairs, name), name) == Without(pairs, name)
  {
    if pairs != [] {
      var n := |pairs| - 1;
      WithoutTwice(pairs[..n], name);
      WithoutGrows(Without(pairs[..n], name), Kept(pairs[n], name), name);
      OnePair(pairs[n], name);
    }
  }

  lemma OnePair(pair: string, name: string)
    ensures Without([pair], name) == Kept(pair, name) == Without(Kept(pair, name), name)
  {
    assert [pair][..0] == [] && Without([], name) == [];
  }

  // ----- The rewriting as it runs -----

  lemma Associates<T>(a: seq<T>, b: seq<T>, c: seq<T>)
    ensures (a + b) + c == a + (b + c)
  {
  }

  lemma {:induction false} WithoutGrows(pairs: seq<string>, more: seq<string>, name: string)
    ensures Without(pairs + more, name) == Without(pairs, name) + Without(more, name)
    decreases |more|
  {
    if more == [] {
      GrowsByNone(pairs, name);
    } else {
      var first, last := more[..|more| - 1], more[|more| - 1];
      assert more == first + [last];
      WithoutGrows(pairs, first, name);
      GrowsByOne(pairs, first, last, name);
    }
  }

  lemma GrowsByNone(pairs: seq<string>, name: string)
    ensures Without(pairs + [], name) == Without(pairs, name) + Without([], name)
  {
    assert pairs + [] == pairs;
  }

  lemma GrowsByOne(pairs: seq<string>, more: seq<string>, last: string, name: string)
    requires Without(pairs + more, name) == Without(pairs, name) + Without(more, name)
    ensures Without(pairs + (more + [last]), name) == Without(pairs, name) + Without(more + [last], name)
  {
    WithoutStep(pairs + more, last, name);
    WithoutStep(more, last, name);
    Associates(pairs, more, [last]);
    Associates(Without(pairs, name), Without(more, name), Kept(last, name));
  }

  lemma WithoutStep(pairs: seq<string>, pair: string, name: string)
    ensures Without(pairs + [pair], name) == Without(pairs, name) + Kept(pair, name)
  {
    assert (pairs + [pair])[..|pairs|] == pairs;
  }

  lemma NonBlankStep(parts: seq<string>, i: nat)
    requires i < |parts|
    ensures var trimmed := Trim(IsWhiteSpace, parts[i]);
      NonBlank(parts[..i + 1]) == NonBlank(parts[..i]) + if trimmed == "" then [] else [trimmed]
  {
    assert parts[..i + 1][..i] == parts[..i];
  }

  lemma AllPairsStep(headers: seq<Option<string>>, i: nat)
    requires i < |headers|
    ensures AllPairs(headers[..i + 1])
         == AllPairs(headers[..i]) + if headers[i].Some? then PairsOf(headers[i].value) else []
  {
    assert headers[..i + 1][..i] == headers[..i];
  }

  method RemoveFromValue(header: string, name: string, given: seq<string>) returns (remaining: seq<string>)
    ensures remaining == given + Without(PairsOf(header), name)
  {
    remaining := given;
    var parts := Split(';', header);
    for i := 0 to |parts|
      invariant remaining == given + Without(NonBlank(parts[..i]), name)
    {
      NonBlankStep(parts, i);
      ghost var before := NonBlank(parts[..i]);
      var trimmed := Trim(IsWhiteSpace, parts[i]);
      if trimmed == "" {
        assert before + [] == before;
      } else {
        WithoutStep(before, trimmed, name);
        Associates(given, Without(before, name), Kept(trimmed, name));
        if UpTo(trimmed, '=') != name {
          remaining := remaining + [trimmed];
        } else {
          assert Without(before, name) + [] == Without(before, name);
        }
      }
    }
    assert parts[..|parts|] == parts;
  }

  method RemoveCookieFromRequestHeader(headers: seq<Option<string>>, name: string) returns (header: Option<string>)
    ensures header == Rewritten(headers, name)
  {
    var remaining: seq<string> := [];
    for i := 0 to |headers|
      invariant remaining == Without(AllPairs(headers[..i]), name)
    {
      AllPairsStep(headers, i);
      if headers[i].Some? {
        WithoutGrows(AllPairs(headers[..i]), PairsOf(headers[i].value), name);
        remaining := RemoveFromValue(headers[i].value, name, remaining);
      } else {
        assert AllPairs(headers[..i]) + [] == AllPairs(headers[..i]);
      }
    }
    assert headers[..|headers|] == headers;
    header := if remaining == [] then None else Some(JoinPairs(remaining));
  }
}
