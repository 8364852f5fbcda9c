/**
  Tenant identifiers and their one text form, the hyphenated text of a UUID (section 4 of RFC 9562):
  reading, printing, and what a raw claim or an envelope's tenant text resolves to.
 */
module TenantText {
  import opened Options
  import opened Texts

  const MAX_TEXT_LENGTH := 64
  const CANONICAL_LENGTH := 36

  type Nibble = n: nat | n < 16

  /** The 32 hexadecimal digits of a UUID, in the order its text shows them. */
  type Guid = g: seq<Nibble> | |g| == 32 witness Zeros(32)

  datatype TenantId = TenantId(value: Guid)

  function Zeros(n: nat): (g: seq<Nibble>)
    ensures |g| == n
  {
    seq(n, _ => 0)
  }

  /** The all-zero UUID marks an identifier that was never initialized. */
  predicate IsInitialized(t: TenantId) {
    t.value != Zeros(32)
  }

  // ----- Printing -----

  function HexDigit(n: Nibble): (c: char) {
    if n < 10 then (n + 48) as char else (n + 87) as char
  }

  predicate IsHyphenAt(i: nat) {
    i == 8 || i == 13 || i == 18 || i == 23
  }

  /** Which digit stands at a place of the text that is not a hyphen, and where a digit stands. */
  function DigitOf(i: nat): (k: nat)
    requires i < CANONICAL_LENGTH && !IsHyphenAt(i)
    ensures k < 32 && PlaceOf(k) == i
  {
    if i < 8 then i else if i < 13 then i - 1 else if i < 18 then i - 2 else if i < 23 then i - 3 else i - 4
  }

  function PlaceOf(k: nat): (i: nat)
    requires k < 32
    ensures i < CANONICAL_LENGTH && !IsHyphenAt(i)
  {
    if k < 8 then k else if k < 12 then k + 1 else if k < 16 then k + 2 else if k < 20 then k + 3 else k + 4
  }

  function PrintGuid(g: Guid): (text: string)
    ensures |text| == CANONICAL_LENGTH
  {
    seq(CANONICAL_LENGTH, i requires 0 <= i < CANONICAL_LENGTH => if IsHyphenAt(i) then '-' else HexDigit(g[DigitOf(i)]))
  }

  function ToString(t: TenantId): (text: string) {
    if IsInitialized(t) then PrintGuid(t.value) else ""
  }

  // ----- Reading -----

  predicate IsAsciiWhitespace(c: char) {
    c == ' ' || 9 <= c as int <= 13
  }

  predicate IsAsciiHexDigit(c: char) {
    '0' <= c <= '9' || 'a' <= c <= 'f' || 'A' <= c <= 'F'
  }

  function HexValue(c: char): (n: Nibble)
    requires IsAsciiHexDigit(c)
  {
    if c <= '9' then c as int - 48 else if c <= 'F' then c as int - 55 else c as int - 87
  }

  predicate IsDigitOrHyphen(c: char, i: nat) {
    if IsHyphenAt(i) then c == '-' else IsAsciiHexDigit(c)
  }

  ghost predicate IsCanonical(s: string) {
    |s| == CANONICAL_LENGTH && forall i: nat :: i < |s| ==> IsDigitOrHyphen(s[i], i)
  }

  function Digits(s: string): (g: Guid)
    requires IsCanonical(s)
  {
    seq(32, k requires 0 <= k < 32 => HexValue(s[PlaceOf(k)]))
  }

  ghost function Parse(s: string): (r: Option<TenantId>) {
    var trimmed := Trim(IsAsciiWhitespace, s);
    if |s| > MAX_TEXT_LENGTH || !IsCanonical(trimmed) then None
    else if Digits(trimmed) == Zeros(32) then None
    else Some(TenantId(Digits(trimmed)))
  }

  // ----- Reading and printing are inverse -----

  lemma DigitIsRead(n: Nibble)
    ensures IsAsciiHexDigit(HexDigit(n)) && HexValue(HexDigit(n)) == n && ToLower(HexDigit(n)) == HexDigit(n)
  {
  }

  lemma DigitIsLowered(c: char)
    requires IsAsciiHexDigit(c)
    ensures HexDigit(HexValue(c)) == ToLower(c)
  {
  }

  lemma PrintedIsCanonical(g: Guid)
    ensures IsCanonical(PrintGuid(g)) && Digits(PrintGuid(g)) == g
  {
    var text := PrintGuid(g);
    forall i: nat | i < |text| ensures IsDigitOrHyphen(text[i], i) {
      if !IsHyphenAt(i) {
        DigitIsRead(g[DigitOf(i)]);
      }
    }
    forall k: nat | k < 32 ensures Digits(text)[k] == g[k] {
      assert DigitOf(PlaceOf(k)) == k;
      DigitIsRead(g[k]);
    }
  }

  lemma CanonicalIsPrinted(s: string)
    requires IsCanonical(s)
    ensures PrintGuid(Digits(s)) == Lower(s)
  {
    forall i: nat | i < |s| ensures PrintGuid(Digits(s))[i] == Lower(s)[i] {
      assert IsDigitOrHyphen(s[i], i);
      if !IsHyphenAt(i) {
        DigitIsLowered(s[i]);
      }
    }
  }

  lemma PrintedIsTrimmed(g: Guid)
    ensures Trim(IsAsciiWhitespace, PrintGuid(g)) == PrintGuid(g)
  {
    assert DigitOf(0) == 0 && DigitOf(35) == 31;
    DigitIsRead(g[0]);
    DigitIsRead(g[31]);
  }

  /** Reading what was printed gives the same identifier. */
  lemma ParseOfPrinted(t: TenantId)
    requires IsInitialized(t)
    ensures Parse(ToString(t)) == Some(t)
  {
    PrintedIsTrimmed(t.value);
    PrintedIsCanonical(t.value);
  }

  /** Printing what was read gives the text without its surrounding whitespace, in lower case. */
  lemma PrintOfParsed(s: string)
    requires Parse(s).Some?
    ensures IsInitialized(Parse(s).value) && ToString(Parse(s).value) == Lower(Trim(IsAsciiWhitespace, s))
  {
    CanonicalIsPrinted(Trim(IsAsciiWhitespace, s));
  }

  lemma LowerDigit(c: char)
    ensures IsAsciiHexDigit(ToLower(c)) <==> IsAsciiHexDigit(c)
    ensures ToLower(c) == '-' <==> c == '-'
  {
  }

  /** The six characters that may surround a text. */
  lemma AsciiWhitespaceIff(c: char)
    ensures IsAsciiWhitespace(c) <==> c in {' ', '\t', '\n', '\U{0b}', '\U{0c}', '\r'}
  {
  }

  /** An identifier is initialized unless all its digits are zero, prints as 36 characters, and prints nothing before that. */
  lemma PrintedForm(t: TenantId, i: nat)
    ensures IsInitialized(t) <==> exists k :: 0 <= k < 32 && t.value[k] != 0
    ensures !IsInitialized(t) ==> ToString(t) == ""
    ensures IsInitialized(t) ==> |ToString(t)| == 36
    ensures IsInitialized(t) && i < 36 ==>
      if i in {8, 13, 18, 23} then ToString(t)[i] == '-' else ToString(t)[i] in "0123456789abcdef"
  {
    if forall k :: 0 <= k < 32 ==> t.value[k] == 0 {
      assert t.value == Zeros(32);
    }
    if IsInitialized(t) && i < 36 && !IsHyphenAt(i) {
      var n := t.value[DigitOf(i)];
      assert "0123456789abcdef"[n] == HexDigit(n);
    }
  }

  /** A text is read exactly when it is short enough and is some identifier's text, but for case and whitespace. */
  lemma ParsesIff(s: string, t: TenantId)
    ensures Parse(s) == Some(t)
       <==> |s| <= 64 && IsInitialized(t) && Lower(Trim(IsAsciiWhitespace, s)) == ToString(t)
  {
    if Parse(s) == Some(t) {
      PrintOfParsed(s);
    }
    if |s| <= MAX_TEXT_LENGTH && IsInitialized(t) && Lower(Trim(IsAsciiWhitespace, s)) == ToString(t) {
      var trimmed := Trim(IsAsciiWhitespace, s);
      PrintedIsCanonical(t.value);
      forall i: nat | i < |trimmed| ensures IsDigitOrHyphen(trimmed[i], i) {
        assert IsDigitOrHyphen(Lower(trimmed)[i], i);
        LowerDigit(trimmed[i]);
      }
      CanonicalIsPrinted(trimmed);
      PrintedIsCanonical(Digits(trimmed));
    }
  }

  /** Two identifiers never share a text. */
  lemma TextsAreDistinct(a: TenantId, b: TenantId)
    requires IsInitialized(a) && IsInitialized(b) && ToString(a) == ToString(b)
    ensures a == b
  {
    PrintedIsCanonical(a.value);
    PrintedIsCanonical(b.value);
  }

  // ----- The reader as it runs -----

  method TrimAsciiWhitespace(value: string) returns (trimmed: string)
    ensures trimmed == Trim(IsAsciiWhitespace, value)
  {
    var start := 0;
    while start < |value| && IsAsciiWhitespace(value[start])
      invariant start <= |value| && forall i :: 0 <= i < start ==> IsAsciiWhitespace(value[i])
    {
      start := start + 1;
    }
    var end := |value|;
    while end > start && IsAsciiWhitespace(value[end - 1])
      invariant start <= end <= |value| && forall i :: end <= i < |value| ==> IsAsciiWhitespace(value[i])
    {
      end := end - 1;
    }
    TrimStartDrops(IsAsciiWhitespace, value, start);
    TrimEndTakes(IsAsciiWhitespace, value[start..], end - start);
    assert value[start..][..end - start] == value[start..end];
    trimmed := value[start..end];
  }

  method HasCanonicalShape(value: string) returns (canonical: bool)
    ensures canonical <==> forall i: nat :: i < |value| ==> IsDigitOrHyphen(value[i], i)
  {
    for i := 0 to |value|
      invariant forall j: nat :: j < i ==> IsDigitOrHyphen(value[j], j)
    {
      if i == 8 || i == 13 || i == 18 || i == 23 {
        if value[i] != '-' {
          assert !IsDigitOrHyphen(value[i], i);
          return false;
        }
      } else if !IsAsciiHexDigit(value[i]) {
        assert !IsDigitOrHyphen(value[i], i);
        return false;
      }
    }
    canonical := true;
  }

  method TryParse(value: string) returns (r: Option<TenantId>)
    ensures r == Parse(value)
  {
    if |value| > MAX_TEXT_LENGTH {
      return None;
    }
    var trimmed := TrimAsciiWhitespace(value);
    var canonical := HasCanonicalShape(trimmed);
    if |trimmed| != CANONICAL_LENGTH || !canonical {
      return None;
    }
    var digits := Digits(trimmed);
    if digits == Zeros(32) {
      return None;
    }
    r := Some(TenantId(digits));
  }

  // ----- What a claim resolves to -----

  datatype TenantResolution = Invalid | NoTenant | Tenant(tenantId: TenantId)

  ghost function FromClaim(claim: Option<string>): (r: TenantResolution) {
    match claim
    case None => NoTenant
    case Some(text) => if Parse(text).Some? then Tenant(Parse(text).value) else Invalid
  }

  /** Only a missing claim means no tenant, and only a tenant's own text means that tenant. */
  lemma ClaimsAreNeverConfused(claim: Option<string>, t: TenantId)
    ensures FromClaim(claim) == NoTenant <==> claim == None
    ensures FromClaim(claim) == Tenant(t) <==>
      && claim.Some? && |claim.value| <= MAX_TEXT_LENGTH && IsInitialized(t)
      && Lower(Trim(IsAsciiWhitespace, claim.value)) == ToString(t)
  {
    if claim.Some? {
      ParsesIff(claim.value, t);
    }
  }
}
