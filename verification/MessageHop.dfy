/**
  A message carries its tenant and its originating caller from one scope to the next: the stamp that
  writes them, the middleware that reads them, and any number of such hops.
 */
module MessageHop {
  import opened Options
  import opened TenantText
  import opened Texts
  import opened RequestCallers

  const CALLER_ID_HEADER := "decisya-caller-id"
  const MAX_CALLER_ID_LENGTH := 128

  datatype Envelope = Envelope(tenantId: Option<string>, headers: map<string, Option<string>>)

  datatype Refusal = Missing | Malformed | NoCaller

  // ----- The two facts of an envelope -----

  ghost function ReadTenant(text: Option<string>): (r: Result<TenantId, Refusal>) {
    if text == None || text == Some("") then Err(Missing)
    else match Parse(text.value)
      case None => Err(Malformed)
      case Some(t) => if ToString(t) == text.value then Ok(t) else Err(Malformed)
  }

  /** The receive side accepts exactly what the send side prints for an initialized tenant. */
  lemma ReadsExactlyThePrintedForms(text: Option<string>, t: TenantId)
    ensures ReadTenant(text) == Ok(t) <==> IsInitialized(t) && text == Some(ToString(t))
    ensures ReadTenant(text) == Err(Missing) <==> text == None || text == Some("")
    ensures ReadTenant(text).Err? ==> ReadTenant(text).error in {Missing, Malformed}
  {
    if text.Some? {
      ParsesIff(text.value, t);
    }
    if IsInitialized(t) {
      ParseOfPrinted(t);
    }
  }

  method TryReadTenant(text: Option<string>) returns (r: Result<TenantId, Refusal>)
    ensures r == ReadTenant(text)
  {
    if text == None || text == Some("") {
      return Err(Missing);
    }
    var parsed := TryParse(text.value);
    if parsed.None? || ToString(parsed.value) != text.value {
      return Err(Malformed);
    }
    r := Ok(parsed.value);
  }

  predicate IsControl(c: char) {
    c as int < 32 || 127 <= c as int < 160
  }

  predicate IsCallerId(s: string) {
    && 1 <= |s| <= MAX_CALLER_ID_LENGTH
    && !IsWhiteSpace(s[0]) && !IsWhiteSpace(s[|s| - 1])
    && forall i :: 0 <= i < |s| ==> !IsControl(s[i])
  }

  /**
    What makes a caller id acceptable: it is not empty and has at most 128 characters, trimming leaves it alone, and it
    holds none of the C0 and C1 control characters or DEL.
   */
  ghost predicate Acceptable(id: string) {
    && id != "" && |id| <= 128 && Trim(IsWhiteSpace, id) == id
    && forall c :: c in id ==> ' ' <= c <= '~' || '\U{a0}' <= c
  }

  lemma CallerIdIff(s: string)
    ensures IsCallerId(s) <==> Acceptable(s)
  {
    if s != "" {
      var start := TrimStart(IsWhiteSpace, s);
      if IsWhiteSpace(s[0]) {
        TrimShrinks(s);
      } else if IsWhiteSpace(s[|s| - 1]) {
        TrimShrinks(s);
      }
    }
    forall i | 0 <= i < |s| ensures s[i] in s {
    }
    forall c | c in s ensures exists i :: 0 <= i < |s| && s[i] == c {
    }
  }

  /** Trimming takes off white space at either end. */
  lemma TrimShrinks(s: string)
    requires s != "" && (IsWhiteSpace(s[0]) || IsWhiteSpace(s[|s| - 1]))
    ensures |Trim(IsWhiteSpace, s)| < |s|
  {
    TrimStartAtMost(s);
    var rest := TrimStart(IsWhiteSpace, s);
    TrimEndAtMost(rest);
    if IsWhiteSpace(s[0]) {
      TrimStartAtMost(s[1..]);
    } else {
      TrimEndAtMost(s[..|s| - 1]);
    }
  }

  lemma {:induction false} TrimStartAtMost(s: string)
    ensures |TrimStart(IsWhiteSpace, s)| <= |s|
  {
    if s != "" && IsWhiteSpace(s[0]) {
      TrimStartAtMost(s[1..]);
    }
  }

  lemma {:induction false} TrimEndAtMost(s: string)
    ensures |TrimEnd(IsWhiteSpace, s)| <= |s|
  {
    if s != "" && IsWhiteSpace(s[|s| - 1]) {
      TrimEndAtMost(s[..|s| - 1]);
    }
  }

  method IsAcceptableCallerId(callerId: Option<string>) returns (acceptable: bool)
    ensures acceptable <==> callerId.Some? && IsCallerId(callerId.value)
  {
    if callerId == None || callerId.value == "" || |callerId.value| > MAX_CALLER_ID_LENGTH {
      return false;
    }
    var text := callerId.value;
    if IsWhiteSpace(text[0]) || IsWhiteSpace(text[|text| - 1]) {
      return false;
    }
    for i := 0 to |text|
      invariant forall j :: 0 <= j < i ==> !IsControl(text[j])
    {
      if IsControl(text[i]) {
        return false;
      }
    }
    acceptable := true;
  }

  function ReadCaller(e: Envelope): (callerId: Option<string>) {
    if CALLER_ID_HEADER in e.headers && e.headers[CALLER_ID_HEADER].Some?
       && IsCallerId(e.headers[CALLER_ID_HEADER].value) then e.headers[CALLER_ID_HEADER]
    else None
  }

  // ----- Sending: the stamp -----

  /** What a stamp leaves of delivery options: the scope's tenant and caller, whatever they held before. */
  function Stamped(sender: Caller, options: Envelope): (stamped: Envelope)
    requires sender.resolution.Tenant?
  {
    Envelope(Some(ToString(sender.resolution.tenantId)), options.headers[CALLER_ID_HEADER := sender.userId])
  }

  class DeliveryOptions {
    var tenantId: Option<string>
    var headers: map<string, Option<string>>

    ghost function Contents(): (e: Envelope)
      reads this
    {
      Envelope(tenantId, headers)
    }

    constructor ()
      ensures Contents() == Envelope(None, map[])
    {
      tenantId, headers := None, map[];
    }
  }

  class EnvelopeTenantStamp {
    const caller: RequestCaller

    constructor (caller: RequestCaller)
      ensures this.caller == caller
    {
      this.caller := caller;
    }

    /** Without an ambient tenant nothing is sent. The caller's options are overwritten in place. */
    method Stamp(given: DeliveryOptions?) returns (stamped: Option<DeliveryOptions>)
      requires caller.Valid()
      modifies given
      ensures stamped.Some? <==> caller.resolution.Tenant?
      ensures stamped.Some? ==> if given == null then fresh(stamped.value) else stamped.value == given
      ensures stamped.Some? && given == null ==>
        stamped.value.Contents() == Stamped(caller.Facts(), Envelope(None, map[]))
      ensures stamped.Some? && given != null ==>
        stamped.value.Contents() == Stamped(caller.Facts(), old(given.Contents()))
      ensures stamped.None? && given != null ==> given.Contents() == old(given.Contents())
    {
      if !caller.resolution.Tenant? {
        return None;
      }
      var options: DeliveryOptions;
      if given == null {
        options := new DeliveryOptions();
      } else {
        options := given;
      }
      options.tenantId := Some(ToString(caller.resolution.tenantId));
      options.headers := options.headers[CALLER_ID_HEADER := caller.userId];
      stamped := Some(options);
    }
  }

  // ----- Receiving: the middleware -----

  datatype Continuation = Continue | Stop(reason: Refusal) | Threw

  datatype Scope = Scope(isSet: bool, facts: Caller)

  const FRESH := Scope(false, NOBODY)

  ghost predicate IsScope(s: Scope) {
    && (!s.isSet ==> s.facts == NOBODY)
    && (s.isSet ==> s.facts.userId.Some?)
    && (s.facts.isPlatformAdmin ==> s.facts.resolution == NoTenant)
  }

  function MessageCaller(t: TenantId, callerId: string): (c: Caller) {
    Caller(Tenant(t), Some(callerId), false, false)
  }

  ghost function Received(s: Scope, e: Envelope): (r: (Continuation, Scope)) {
    match ReadTenant(e.tenantId)
    case Err(reason) => (Stop(reason), s)
    case Ok(tenant) =>
      if ReadCaller(e).None? then (Stop(NoCaller), s)
      else
        var facts := MessageCaller(tenant, ReadCaller(e).value);
        if s.facts.resolution.Invalid? then if s.isSet then (Threw, s) else (Continue, Scope(true, facts))
        else if s.facts == facts then (Continue, s)
        else (Stop(Malformed), s)
  }

  class EnvelopeTenantMiddleware {
    const currentTenant: RequestCaller
    var enrichmentScope: Option<(string, string)>

    constructor (currentTenant: RequestCaller)
      ensures this.currentTenant == currentTenant && enrichmentScope == None
    {
      this.currentTenant, enrichmentScope := currentTenant, None;
    }

    method Before(e: Envelope) returns (c: Continuation)
      requires currentTenant.Valid()
      modifies this`enrichmentScope, currentTenant
      ensures currentTenant.Valid()
      ensures (c, Scope(currentTenant.isSet, currentTenant.Facts()))
           == Received(Scope(old(currentTenant.isSet), old(currentTenant.Facts())), e)
      ensures enrichmentScope == if c == Continue then Some((e.tenantId.value, ReadCaller(e).value)) else old(enrichmentScope)
    {
      var read := TryReadTenant(e.tenantId);
      if read.Err? {
        return Stop(read.error);
      }
      var tenant := read.value;
      var callerId := ReadCaller(e);
      if callerId.None? {
        return Stop(NoCaller);
      }
      var resolution := Tenant(tenant);
      if currentTenant.resolution.Invalid? {
        var outcome := currentTenant.Set(resolution, callerId.value, false, false);
        if outcome != Done {
          return Threw;
        }
      } else if currentTenant.resolution != resolution || currentTenant.userId != callerId
          || currentTenant.isPlatformAdmin || currentTenant.hasMfaLevel {
        return Stop(Malformed);
      }
      enrichmentScope := Some((ToString(tenant), callerId.value));
      c := Continue;
    }

    method Finally()
      modifies this`enrichmentScope
      ensures enrichmentScope == None
    {
      enrichmentScope := None;
    }
  }

  /** A handler runs only for an exact tenant text and an acceptable caller id, without admin or MFA facts. */
  lemma ContinuesIff(s: Scope, e: Envelope)
    requires IsScope(s)
    ensures Received(s, e).0 == Continue <==>
      (exists t, id :: Carries(e, t, id) && (s == FRESH || s == Scope(true, MessageCaller(t, id))))
    ensures Received(s, e).0 == Continue ==>
      (exists t, id :: Carries(e, t, id) && Received(s, e).1 == Scope(true, MessageCaller(t, id)))
    ensures Received(s, e).0 != Continue ==> Received(s, e).1 == s
  {
    forall id ensures IsCallerId(id) <==> Acceptable(id) {
      CallerIdIff(id);
    }
    forall t | ReadTenant(e.tenantId) == Ok(t) || Some(ToString(t)) == e.tenantId
      ensures ReadTenant(e.tenantId) == Ok(t) <==> IsInitialized(t) && e.tenantId == Some(ToString(t))
    {
      ReadsExactlyThePrintedForms(e.tenantId, t);
    }
    if ReadTenant(e.tenantId).Ok? && ReadCaller(e).Some? {
      assert Carries(e, ReadTenant(e.tenantId).value, ReadCaller(e).value);
    }
  }

  ghost predicate Carries(e: Envelope, t: TenantId, callerId: string) {
    && IsInitialized(t) && e.tenantId == Some(ToString(t))
    && "decisya-caller-id" in e.headers && e.headers["decisya-caller-id"] == Some(callerId) && Acceptable(callerId)
  }

  /** Why a message is refused: no tenant text, no acceptable caller id, or else a text or a scope that does not agree. */
  lemma RefusedBecause(s: Scope, e: Envelope)
    requires IsScope(s)
    ensures var c := Received(s, e).0;
      var named := exists t :: IsInitialized(t) && e.tenantId == Some(ToString(t));
      var id := if "decisya-caller-id" in e.headers then e.headers["decisya-caller-id"] else None;
      && (c == Stop(Missing) <==> e.tenantId == None || e.tenantId == Some(""))
      && (c == Stop(NoCaller) <==> named && !(id.Some? && Acceptable(id.value)))
      && (c == Threw <==> s.isSet && s.facts.resolution.Invalid? && named && id.Some? && Acceptable(id.value))
  {
    forall id ensures IsCallerId(id) <==> Acceptable(id) {
      CallerIdIff(id);
    }
    var text := e.tenantId;
    forall t ensures ReadTenant(text) == Ok(t) <==> IsInitialized(t) && text == Some(ToString(t)) {
      ReadsExactlyThePrintedForms(text, t);
    }
    ReadsExactlyThePrintedForms(text, TenantId(Zeros(32)));
    if ReadTenant(text).Ok? {
      assert IsInitialized(ReadTenant(text).value) && text == Some(ToString(ReadTenant(text).value));
    }
  }

  // ----- Hops -----

  /** A stamp sets the tenant and one header and leaves every other header as it was. */
  lemma StampLeavesTheRest(sender: Caller, options: Envelope, header: string)
    requires sender.resolution.Tenant? && header != "decisya-caller-id"
    ensures header in Stamped(sender, options).headers <==> header in options.headers
    ensures header in options.headers ==> Stamped(sender, options).headers[header] == options.headers[header]
  {
  }

  /** One hop: the sender stamps whatever options it was given, and a fresh scope receives the envelope. */
  ghost function Hop(sender: Caller, options: Envelope): (r: Option<Caller>) {
    if !sender.resolution.Tenant? then None
    else
      var received := Received(FRESH, Stamped(sender, options));
      if received.0 == Continue then Some(received.1.facts) else None
  }

  ghost function Hops(sender: Caller, options: seq<Envelope>): (r: Option<Caller>) {
    if options == [] then Some(sender)
    else match Hops(sender, options[..|options| - 1])
      case None => None
      case Some(last) => Hop(last, options[|options| - 1])
  }

  lemma HopKeepsTheOrigin(sender: Caller, options: Envelope, t: TenantId, callerId: string)
    requires sender.resolution == Tenant(t) && IsInitialized(t) && sender.userId == Some(callerId)
    ensures Hop(sender, options) == if Acceptable(callerId) then Some(MessageCaller(t, callerId)) else None
  {
    ReadsExactlyThePrintedForms(Some(ToString(t)), t);
    CallerIdIff(callerId);
  }

  /**
    However many hops a message takes and whatever its senders' options held, it is refused at the first
    hop or every scope sees the origin's tenant and caller, with the admin and MFA facts false.
   */
  lemma {:induction false} HopsKeepTheOrigin(origin: Caller, options: seq<Envelope>, t: TenantId, callerId: string)
    requires origin.resolution == Tenant(t) && IsInitialized(t) && origin.userId == Some(callerId) && options != []
    ensures Hops(origin, options) == if Acceptable(callerId) then Some(MessageCaller(t, callerId)) else None
  {
    var n := |options| - 1;
    if n == 0 {
      HopKeepsTheOrigin(origin, options[0], t, callerId);
      assert options[..0] == [];
    } else {
      HopsKeepTheOrigin(origin, options[..n], t, callerId);
      if Acceptable(callerId) {
        HopKeepsTheOrigin(MessageCaller(t, callerId), options[n], t, callerId);
      }
    }
  }

  /** Without a tenant nothing leaves the scope, so no later hop can gain one. */
  lemma {:induction false} NothingLeavesWithoutATenant(origin: Caller, options: seq<Envelope>)
    requires !origin.resolution.Tenant? && options != []
    ensures Hops(origin, options) == None
  {
    var n := |options| - 1;
    if n == 0 {
      assert options[..0] == [];
    } else {
      NothingLeavesWithoutATenant(origin, options[..n]);
    }
  }

  // ----- One scope, any number of envelopes -----

  ghost function ReceivedAll(s: Scope, es: seq<Envelope>): (last: Scope) {
    if es == [] then s else Received(ReceivedAll(s, es[..|es| - 1]), es[|es| - 1]).1
  }

  /** A scope is resolved once: once set it never changes, whatever envelopes arrive. */
  lemma {:induction false} ScopesAreSetOnce(s: Scope, es: seq<Envelope>)
    requires IsScope(s) && s.isSet
    ensures ReceivedAll(s, es) == s
  {
    if es != [] {
      ScopesAreSetOnce(s, es[..|es| - 1]);
    }
  }

  /** An envelope that a fresh scope takes. */
  ghost predicate IsTaken(e: Envelope) {
    exists t, id :: Carries(e, t, id)
  }

  /** A fresh scope takes the facts of the first envelope it can, and stays fresh while there is none. */
  lemma {:induction false} FirstTakenCounts(es: seq<Envelope>, n: nat, t: TenantId, callerId: string)
    requires n <= |es| && forall i :: 0 <= i < n ==> !IsTaken(es[i])
    requires n < |es| ==> Carries(es[n], t, callerId)
    ensures ReceivedAll(FRESH, es) == if n < |es| then Scope(true, MessageCaller(t, callerId)) else FRESH
  {
    if es != [] {
      var m := |es| - 1;
      var before := ReceivedAll(FRESH, es[..m]);
      FirstTakenCounts(es[..m], if n <= m then n else m, t, callerId);
      ContinuesIff(before, es[m]);
      if n < m {
        ScopesAreSetOnce(before, [es[m]]);
        assert [es[m]][..0] == [] && ReceivedAll(before, [es[m]]) == Received(before, es[m]).1;
      } else if n == m {
        TakenFresh(es[m], t, callerId);
      }
    }
  }

  lemma TakenFresh(e: Envelope, t: TenantId, callerId: string)
    requires Carries(e, t, callerId)
    ensures Received(FRESH, e) == (Continue, Scope(true, MessageCaller(t, callerId)))
  {
    ReadsExactlyThePrintedForms(e.tenantId, t);
    CallerIdIff(callerId);
  }
}
