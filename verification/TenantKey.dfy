/** The builder of every cache and object-storage key that holds a tenant. */
module TenantKeys {
  import opened Options
  import opened TenantText
  import opened Texts

  const MAX_SEGMENT_LENGTH := 128
  const MAX_KEY_LENGTH := 512
  const TENANT_TEXT_LENGTH := 36

  datatype TenantKey = TenantKey(tenant: TenantId, segments: seq<string>, cacheKey: string, objectKey: string)

  datatype KeyError =
    | UninitializedTenant | NoSegments | NullSegment | BadSegmentLength | DotSegment | BadCharacter | KeyTooLong

  predicate IsKeyCharacter(c: char) {
    'a' <= c <= 'z' || '0' <= c <= '9' || c == '.' || c == '_' || c == '-'
  }

  predicate IsSegment(s: string) {
    1 <= |s| <= MAX_SEGMENT_LENGTH && s != "." && s != ".." && forall i :: 0 <= i < |s| ==> IsKeyCharacter(s[i])
  }

  function SegmentFault(s: Option<string>): (f: Option<KeyError>)
    ensures f == None <==> s.Some? && IsSegment(s.value)
  {
    if s.None? then Some(NullSegment)
    else if |s.value| == 0 || |s.value| > MAX_SEGMENT_LENGTH then Some(BadSegmentLength)
    else if s.value == "." || s.value == ".." then Some(DotSegment)
    else if exists i :: 0 <= i < |s.value| && !IsKeyCharacter(s.value[i]) then Some(BadCharacter)
    else None
  }

  /** The first segment that breaks a rule decides the error. */
  function FirstFault(segments: seq<Option<string>>): (f: Option<KeyError>)
    ensures f == None <==> forall i :: 0 <= i < |segments| ==> segments[i].Some? && IsSegment(segments[i].value)
  {
    if segments == [] then None
    else if SegmentFault(segments[0]).Some? then SegmentFault(segments[0])
    else FirstFault(segments[1..])
  }

  function Values(segments: seq<Option<string>>): (vs: seq<string>)
    requires forall i :: 0 <= i < |segments| ==> segments[i].Some?
    ensures |vs| == |segments|
  {
    seq(|segments|, i requires 0 <= i < |segments| => segments[i].value)
  }

  // ----- The text of a key -----

  function KeyText(tenant: TenantId, separator: char, segments: seq<string>): (text: string) {
    ToString(tenant) + [separator] + Join(separator, segments)
  }

  /** A lower-case ASCII letter, a digit, or one of three marks, by code point. */
  predicate MayStandInAKey(c: char) {
    var n := c as int;
    97 <= n <= 122 || 48 <= n <= 57 || n == 46 || n == 95 || n == 45
  }

  /** 1 to 128 such characters, and not a path that stays or climbs. */
  ghost predicate ObeysTheRules(s: string) {
    s != "" && |s| <= 128 && s !in {".", ".."} && forall c :: c in s ==> MayStandInAKey(c)
  }

  lemma SegmentIff(s: string)
    ensures IsSegment(s) <==> ObeysTheRules(s)
  {
    forall i | 0 <= i < |s| ensures s[i] in s {
    }
    forall c | c in s ensures exists i :: 0 <= i < |s| && s[i] == c {
    }
  }

  ghost predicate AreSegments(segments: seq<string>) {
    segments != [] && forall i :: 0 <= i < |segments| ==> ObeysTheRules(segments[i])
  }

  lemma PrintedHolds(t: TenantId, c: char)
    requires IsInitialized(t) && c in ToString(t)
    ensures c == '-' || IsAsciiHexDigit(c)
  {
    PrintedIsCanonical(t.value);
    var i: nat :| i < |ToString(t)| && ToString(t)[i] == c;
    assert IsDigitOrHyphen(ToString(t)[i], i);
  }

  /** Splitting a built key gives the tenant's text and then the segments. */
  lemma SplitOfKey(tenant: TenantId, separator: char, segments: seq<string>)
    requires IsInitialized(tenant) && AreSegments(segments) && (separator == ':' || separator == '/')
    ensures Split(separator, KeyText(tenant, separator, segments)) == [ToString(tenant)] + segments
  {
    var parts := [ToString(tenant)] + segments;
    forall i | 0 <= i < |parts| ensures separator !in parts[i] {
      if i > 0 {
        assert ObeysTheRules(segments[i - 1]);
      } else if separator in ToString(tenant) {
        PrintedHolds(tenant, separator);
      }
    }
    JoinFront(separator, ToString(tenant), segments);
    SplitOfJoin(separator, parts);
  }

  /** Keys are equal exactly when their tenants and all their segments are. */
  lemma KeysAreInjective(a: TenantId, b: TenantId, separator: char, s: seq<string>, t: seq<string>)
    requires IsInitialized(a) && IsInitialized(b) && AreSegments(s) && AreSegments(t)
    requires separator == ':' || separator == '/'
    ensures KeyText(a, separator, s) == KeyText(b, separator, t) <==> a == b && s == t
  {
    SplitOfKey(a, separator, s);
    SplitOfKey(b, separator, t);
    if KeyText(a, separator, s) == KeyText(b, separator, t) {
      var one, other := [ToString(a)] + s, [ToString(b)] + t;
      assert one[0] == other[0] && one[1..] == s && other[1..] == t;
      TextsAreDistinct(a, b);
    }
  }

  /** No key of one tenant starts with another tenant's text, so no prefix scan crosses tenants. */
  lemma NoKeyStartsWithAnotherTenant(a: TenantId, b: TenantId, separator: char, segments: seq<string>)
    requires IsInitialized(a) && IsInitialized(b) && a != b
    ensures !(ToString(b) <= KeyText(a, separator, segments))
    ensures ToString(a) + [separator] <= KeyText(a, separator, segments)
  {
    assert KeyText(a, separator, segments)[..TENANT_TEXT_LENGTH] == ToString(a);
    if ToString(b) <= KeyText(a, separator, segments) {
      assert ToString(b) == KeyText(a, separator, segments)[..TENANT_TEXT_LENGTH];
      TextsAreDistinct(a, b);
    }
  }

  // ----- Its length -----

  function KeyLength(segments: seq<string>): (length: nat) {
    if segments == [] then TENANT_TEXT_LENGTH
    else KeyLength(segments[..|segments| - 1]) + 1 + |segments[|segments| - 1]|
  }

  /** The length that is added up while the segments are checked is the length of either key. */
  lemma {:induction false} LengthIsReal(tenant: TenantId, separator: char, segments: seq<string>)
    requires IsInitialized(tenant) && segments != []
    ensures |KeyText(tenant, separator, segments)| == KeyLength(segments)
  {
    if |segments| > 1 {
      LengthIsReal(tenant, separator, segments[..|segments| - 1]);
    }
  }

  // ----- Building -----

  function Built(tenant: TenantId, segments: seq<string>): (key: TenantKey) {
    TenantKey(tenant, segments, KeyText(tenant, ':', segments), KeyText(tenant, '/', segments))
  }

  function Build(tenant: TenantId, segments: seq<Option<string>>): (r: Result<TenantKey, KeyError>) {
    if !IsInitialized(tenant) then Err(UninitializedTenant)
    else if segments == [] then Err(NoSegments)
    else match FirstFault(segments)
      case Some(fault) => Err(fault)
      case None =>
        if KeyLength(Values(segments)) > MAX_KEY_LENGTH then Err(KeyTooLong) else Ok(Built(tenant, Values(segments)))
  }

  /** What a built key guarantees. */
  lemma BuiltKeys(tenant: TenantId, segments: seq<Option<string>>)
    requires Build(tenant, segments).Ok?
    ensures var key := Build(tenant, segments).value;
      && IsInitialized(key.tenant) && AreSegments(key.segments)
      && |key.cacheKey| == |key.objectKey| <= 512
  {
    forall i | 0 <= i < |segments| ensures ObeysTheRules(segments[i].value) {
      SegmentIff(segments[i].value);
    }
    LengthIsReal(tenant, ':', Values(segments));
    LengthIsReal(tenant, '/', Values(segments));
  }

  /** No part of an object key is empty or climbs: neither `.` nor `..`. */
  lemma ObjectKeysNeverClimb(tenant: TenantId, segments: seq<Option<string>>, part: string)
    requires Build(tenant, segments).Ok? && part in Split('/', Build(tenant, segments).value.objectKey)
    ensures part != "" && part != "." && part != ".."
  {
    BuiltKeys(tenant, segments);
    var key := Build(tenant, segments).value;
    SplitOfKey(tenant, '/', key.segments);
    if part != ToString(tenant) {
      var i :| 0 <= i < |key.segments| && key.segments[i] == part;
      assert ObeysTheRules(key.segments[i]);
    }
  }

  /** A key is built exactly for an initialized tenant and segments that all obey the rules, if it is short enough. */
  lemma BuildsIff(tenant: TenantId, segments: seq<string>)
    ensures Build(tenant, Given(segments)).Ok?
       <==> IsInitialized(tenant) && AreSegments(segments) && |KeyText(tenant, ':', segments)| <= 512
    ensures Build(tenant, Given(segments)).Ok? ==> Build(tenant, Given(segments)).value == Built(tenant, segments)
  {
    assert forall i :: 0 <= i < |segments| ==> Given(segments)[i].value == segments[i];
    assert Values(Given(segments)) == segments;
    forall i | 0 <= i < |segments| ensures IsSegment(segments[i]) <==> ObeysTheRules(segments[i]) {
      SegmentIff(segments[i]);
    }
    if IsInitialized(tenant) && segments != [] {
      LengthIsReal(tenant, ':', segments);
    }
  }

  function Given(segments: seq<string>): (given: seq<Option<string>>)
    ensures |given| == |segments| && forall i :: 0 <= i < |given| ==> given[i] == Some(segments[i])
  {
    seq(|segments|, i requires 0 <= i < |segments| => Some(segments[i]))
  }

  /** Value equality compares the cache keys alone. */
  predicate Equals(a: TenantKey, b: TenantKey) {
    a.cacheKey == b.cacheKey
  }

  lemma EqualKeysAreTheSameKey(a: TenantId, s: seq<Option<string>>, b: TenantId, t: seq<Option<string>>)
    requires Build(a, s).Ok? && Build(b, t).Ok?
    ensures Equals(Build(a, s).value, Build(b, t).value) <==> Build(a, s).value == Build(b, t).value
  {
    BuiltKeys(a, s);
    BuiltKeys(b, t);
    KeysAreInjective(a, b, ':', Values(s), Values(t));
  }

  // ----- The builder as it runs -----

  method ValidateSegment(segment: string) returns (fault: Option<KeyError>)
    ensures fault == SegmentFault(Some(segment))
  {
    if |segment| == 0 || |segment| > MAX_SEGMENT_LENGTH {
      return Some(BadSegmentLength);
    }
    if segment == "." || segment == ".." {
      return Some(DotSegment);
    }
    for i := 0 to |segment|
      invariant forall j :: 0 <= j < i ==> IsKeyCharacter(segment[j])
    {
      if !IsKeyCharacter(segment[i]) {
        return Some(BadCharacter);
      }
    }
    fault := None;
  }

  lemma {:induction false} FaultAt(segments: seq<Option<string>>, i: nat)
    requires i < |segments| && SegmentFault(segments[i]).Some?
    requires forall j :: 0 <= j < i ==> segments[j].Some? && IsSegment(segments[j].value)
    ensures FirstFault(segments) == SegmentFault(segments[i])
  {
    if i > 0 {
      FaultAt(segments[1..], i - 1);
    }
  }

  /** The first segment that breaks a rule decides the error, by the rule it breaks. */
  lemma FirstBadSegmentDecides(tenant: TenantId, segments: seq<Option<string>>, i: nat)
    requires IsInitialized(tenant) && i < |segments| && !(segments[i].Some? && ObeysTheRules(segments[i].value))
    requires forall j :: 0 <= j < i ==> segments[j].Some? && ObeysTheRules(segments[j].value)
    ensures var r, s := Build(tenant, segments), segments[i];
      && (r == Err(NullSegment) <==> s.None?)
      && (r == Err(BadSegmentLength) <==> s.Some? && (s.value == "" || |s.value| > 128))
      && (r == Err(DotSegment) <==> s == Some(".") || s == Some(".."))
      && r in {Err(NullSegment), Err(BadSegmentLength), Err(DotSegment), Err(BadCharacter)}
  {
    forall j | 0 <= j < |segments| && segments[j].Some?
      ensures IsSegment(segments[j].value) <==> ObeysTheRules(segments[j].value)
    {
      SegmentIff(segments[j].value);
    }
    FaultAt(segments, i);
  }

  /** The other reasons: the tenant, an empty list, or good segments whose key is too long. */
  lemma NotBuiltBecause(tenant: TenantId, segments: seq<Option<string>>)
    ensures Build(tenant, segments) == Err(UninitializedTenant) <==> !IsInitialized(tenant)
    ensures Build(tenant, segments) == Err(NoSegments) <==> IsInitialized(tenant) && segments == []
    ensures Build(tenant, segments) == Err(KeyTooLong) <==>
      && IsInitialized(tenant) && segments != []
      && (forall j :: 0 <= j < |segments| ==> segments[j].Some? && ObeysTheRules(segments[j].value))
      && |KeyText(tenant, ':', Values(segments))| > 512
  {
    forall j | 0 <= j < |segments| && segments[j].Some?
      ensures IsSegment(segments[j].value) <==> ObeysTheRules(segments[j].value)
    {
      SegmentIff(segments[j].value);
    }
    FaultsAreOfSegments(segments);
    if IsInitialized(tenant) && segments != [] && FirstFault(segments) == None {
      LengthIsReal(tenant, ':', Values(segments));
    }
  }

  lemma {:induction false} FaultsAreOfSegments(segments: seq<Option<string>>)
    ensures FirstFault(segments) in
      {None, Some(NullSegment), Some(BadSegmentLength), Some(DotSegment), Some(BadCharacter)}
  {
    if segments != [] {
      FaultsAreOfSegments(segments[1..]);
    }
  }

  method For(tenant: TenantId, segments: seq<Option<string>>) returns (r: Result<TenantKey, KeyError>)
    ensures r == Build(tenant, segments)
  {
    if !IsInitialized(tenant) {
      return Err(UninitializedTenant);
    }
    if segments == [] {
      return Err(NoSegments);
    }
    var copy := new string[|segments|];
    var length := TENANT_TEXT_LENGTH;
    for i := 0 to |segments|
      invariant forall j :: 0 <= j < i ==> segments[j] == Some(copy[j]) && IsSegment(copy[j])
      invariant length == KeyLength(copy[..i])
    {
      var fault := Some(NullSegment);
      if segments[i].Some? {
        fault := ValidateSegment(segments[i].value);
      }
      if fault.Some? {
        FaultAt(segments, i);
        return Err(fault.value);
      }
      var segment := segments[i].value;
      length := length + 1 + |segment|;
      copy[i] := segment;
      assert copy[..i + 1][..i] == copy[..i];
    }
    assert copy[..] == Values(segments) && copy[..|segments|] == copy[..];
    if length > MAX_KEY_LENGTH {
      return Err(KeyTooLong);
    }
    r := Ok(TenantKey(tenant, copy[..], KeyText(tenant, ':', copy[..]), KeyText(tenant, '/', copy[..])));
  }
}
