/** Texts as sequences of characters: containment, lower case, white space, trimming, joining and splitting. */
module Texts {

  predicate Contains(text: string, fragment: string) {
    exists i :: 0 <= i <= |text| && fragment <= text[i..]
  }

  lemma ContainsInside(a: string, text: string, b: string, fragment: string)
    requires Contains(text, fragment)
    ensures Contains(a + text + b, fragment)
  {
    var i :| 0 <= i <= |text| && fragment <= text[i..];
    var whole := a + text + b;
    assert whole[|a| + i..] == text[i..] + b;
  }

  lemma ContainsSplits(text: string, fragment: string)
    ensures Contains(text, fragment) <==> exists before, after :: text == before + fragment + after
  {
    if Contains(text, fragment) {
      var i :| 0 <= i <= |text| && fragment <= text[i..];
      assert text == text[..i] + fragment + text[i + |fragment|..];
    }
    if before, after :| text == before + fragment + after {
      assert text[|before|..] == fragment + after;
    }
  }

  function ToLower(c: char): (l: char) {
    if 'A' <= c <= 'Z' then (c as int + 32) as char else c
  }

  /** The 26 letters change to their lower-case forms and nothing else does. */
  lemma LettersInLowerCase(c: char, i: nat)
    ensures i < 26 ==> ToLower("ABCDEFGHIJKLMNOPQRSTUVWXYZ"[i]) == "abcdefghijklmnopqrstuvwxyz"[i]
    ensures c !in "ABCDEFGHIJKLMNOPQRSTUVWXYZ" ==> ToLower(c) == c
  {
    if 'A' <= c <= 'Z' {
      assert "ABCDEFGHIJKLMNOPQRSTUVWXYZ"[c as int - 65] == c;
    }
  }

  function Lower(s: string): (l: string)
    ensures |l| == |s|
  {
    seq(|s|, i requires 0 <= i < |s| => ToLower(s[i]))
  }

  /** `char.IsWhiteSpace`: ASCII, the Latin-1 additions, and the Unicode separators. */
  predicate IsWhiteSpace(c: char) {
    var n := c as int;
    || 9 <= n <= 13 || n == 32 || n == 0x85 || n == 0xa0 || n == 0x1680 || 0x2000 <= n <= 0x200a
    || n == 0x2028 || n == 0x2029 || n == 0x202f || n == 0x205f || n == 0x3000
  }

  /** The 25 characters that count as white space. */
  lemma WhiteSpaceIff(c: char)
    ensures IsWhiteSpace(c) <==> c in {
      '\U{09}', '\U{0a}', '\U{0b}', '\U{0c}', '\U{0d}', ' ', '\U{85}', '\U{a0}', '\U{1680}', '\U{2000}', '\U{2001}',
      '\U{2002}', '\U{2003}', '\U{2004}', '\U{2005}', '\U{2006}', '\U{2007}', '\U{2008}', '\U{2009}', '\U{200a}',
      '\U{2028}', '\U{2029}', '\U{202f}', '\U{205f}', '\U{3000}'}
  {
  }

  // ----- Trimming -----

  function TrimStart(space: char -> bool, s: string): (t: string) {
    if s != [] && space(s[0]) then TrimStart(space, s[1..]) else s
  }

  function TrimEnd(space: char -> bool, s: string): (t: string) {
    if s != [] && space(s[|s| - 1]) then TrimEnd(space, s[..|s| - 1]) else s
  }

  function Trim(space: char -> bool, s: string): (t: string) {
    TrimEnd(space, TrimStart(space, s))
  }

  lemma {:induction false} TrimEndTakes(space: char -> bool, s: string, end: nat)
    requires end <= |s| && forall i :: end <= i < |s| ==> space(s[i])
    ensures TrimEnd(space, s) == TrimEnd(space, s[..end])
    decreases |s|
  {
    if end < |s| {
      TrimEndTakes(space, s[..|s| - 1], end);
      assert s[..|s| - 1][..end] == s[..end];
    } else {
      assert s[..end] == s;
    }
  }

  lemma {:induction false} TrimStartDrops(space: char -> bool, s: string, start: nat)
    requires start <= |s| && forall i :: 0 <= i < start ==> space(s[i])
    ensures TrimStart(space, s) == TrimStart(space, s[start..])
  {
    if start > 0 {
      TrimStartDrops(space, s[1..], start - 1);
      assert s[1..][start - 1..] == s[start..];
    } else {
      assert s[start..] == s;
    }
  }

  // ----- Up to a character -----

  /** The text up to the first occurrence of a character, or all of it. */
  function UpTo(s: string, c: char): (r: string)
    ensures |r| <= |s| && c !in r
  {
    if s == "" || s[0] == c then "" else [s[0]] + UpTo(s[1..], c)
  }

  lemma {:induction false} UpToStops(a: string, b: string, c: char)
    requires c !in a && (b == "" || b[0] == c)
    ensures UpTo(a + b, c) == a
  {
    if a == "" {
      assert a + b == b;
    } else {
      assert (a + b)[1..] == a[1..] + b;
      UpToStops(a[1..], b, c);
    }
  }

  // ----- Joining and splitting -----

  function Join(separator: char, parts: seq<string>): (text: string) {
    if parts == [] then ""
    else if |parts| == 1 then parts[0]
    else Join(separator, parts[..|parts| - 1]) + [separator] + parts[|parts| - 1]
  }

  /** Splits at every separator; the inverse that the properties below are stated with. */
  function Split(separator: char, text: string): (parts: seq<string>)
    ensures |parts| > 0
  {
    if text == "" then [""]
    else
      var n := |text| - 1;
      if text[n] == separator then Split(separator, text[..n]) + [""]
      else Extended(Split(separator, text[..n]), [text[n]])
  }

  function Extended(parts: seq<string>, more: string): (longer: seq<string>)
    requires |parts| > 0
    ensures |longer| == |parts|
  {
    parts[|parts| - 1 := parts[|parts| - 1] + more]
  }

  lemma ExtendedTwice(parts: seq<string>, more: string, c: char)
    requires |parts| > 0
    ensures Extended(Extended(parts, more), [c]) == Extended(parts, more + [c])
  {
    var m := |parts| - 1;
    assert (parts[m] + more) + [c] == parts[m] + (more + [c]);
  }

  lemma SplitStep(separator: char, text: string, c: char)
    ensures Split(separator, text + [c])
         == if c == separator then Split(separator, text) + [""] else Extended(Split(separator, text), [c])
  {
    assert (text + [c])[..|text|] == text;
  }

  lemma {:induction false} SplitGrowsLast(separator: char, text: string, part: string)
    requires separator !in part
    ensures Split(separator, text + part) == Extended(Split(separator, text), part)
  {
    if part == "" {
      assert text + part == text;
      var parts := Split(separator, text);
      assert parts[|parts| - 1] + "" == parts[|parts| - 1];
    } else {
      var n := |part| - 1;
      assert part[n] in part && part == part[..n] + [part[n]];
      SplitGrowsLast(separator, text, part[..n]);
      SplitStep(separator, text + part[..n], part[n]);
      assert text + part == (text + part[..n]) + [part[n]];
      ExtendedTwice(Split(separator, text), part[..n], part[n]);
    }
  }

  lemma SplitAddsPart(separator: char, text: string, part: string)
    requires separator !in part
    ensures Split(separator, text + [separator] + part) == Split(separator, text) + [part]
  {
    SplitStep(separator, text, separator);
    SplitGrowsLast(separator, text + [separator], part);
    assert "" + part == part;
  }

  lemma JoinStep(separator: char, parts: seq<string>, last: string)
    requires parts != []
    ensures Join(separator, parts + [last]) == Join(separator, parts) + [separator] + last
  {
    assert (parts + [last])[..|parts|] == parts;
  }

  /** Splitting what was joined gives the parts back. */
  lemma {:induction false} SplitOfJoin(separator: char, parts: seq<string>)
    requires parts != [] && forall i :: 0 <= i < |parts| ==> separator !in parts[i]
    ensures Split(separator, Join(separator, parts)) == parts
  {
    var first, last := parts[..|parts| - 1], parts[|parts| - 1];
    assert parts == first + [last];
    if first == [] {
      SplitGrowsLast(separator, "", last);
      assert "" + last == last;
    } else {
      SplitOfJoin(separator, first);
      JoinStep(separator, first, last);
      SplitAddsPart(separator, Join(separator, first), last);
    }
  }

  lemma {:induction false} JoinFront(separator: char, first: string, parts: seq<string>)
    requires parts != []
    ensures Join(separator, [first] + parts) == first + [separator] + Join(separator, parts)
  {
    var all, n := [first] + parts, |parts| - 1;
    assert all[..|all| - 1] == [first] + parts[..n];
    if n > 0 {
      JoinFront(separator, first, parts[..n]);
    }
  }
}
