/**
  The edge table: which requests each published site passes on, under first-match evaluation, and the
  guard that accepts a configuration only when every site's routes summarize to the table.
 */
module EdgeTable {
  import opened Options
  import opened Texts
  import opened PathMatcher

  // ----- Requests, routes and their summaries -----

  /** The path is the decoded, cleaned one. */
  datatype Request = Request(verb: string, path: string, source: string)

  /** Source ranges, other regular expressions and other matcher kinds, as the edge evaluates them. */
  datatype Env = Env(inRange: (string, string) -> bool, regexp: (string, string) -> bool, other: (string, Request) -> bool)

  datatype Exclusion = NotRemoteIp(ranges: set<string>) | NotOther(kind: string)

  datatype Match = Match(remoteIp: Option<set<string>>, exclusions: Option<seq<Exclusion>>, path: set<string>,
                         methods: set<string>, pathRegexp: Option<string>, others: set<string>)

  datatype Handler = ReverseProxy(upstreams: seq<string>) | StaticResponse(status: string) | OtherHandler(kind: string)

  datatype Route = Route(matches: seq<Match>, handlers: seq<Handler>)

  datatype Target = Proxy(upstreams: seq<string>) | Respond(status: string)

  datatype Summary =
    | Summary(ranges: Option<set<string>>, negated: Option<set<string>>, paths: Option<set<string>>,
              methods: Option<set<string>>, regexp: Option<string>, target: Target, extra: set<string>)
    | MultiMatch
    | OtherKinds(handlers: seq<Handler>)

  const NO_MATCH := Match(None, None, {}, {}, None, {})
  const UNKNOWN_EXCLUSION := "(a `not` over something other than remote_ip)"

  function Given(s: set<string>): (given: Option<set<string>>) {
    if s == {} then None else Some(s)
  }

  function UnionOf(exclusions: seq<Exclusion>): (ranges: set<string>) {
    if exclusions == [] then {}
    else if exclusions[0].NotOther? then {UNKNOWN_EXCLUSION}
    else if UNKNOWN_EXCLUSION in UnionOf(exclusions[1..]) then {UNKNOWN_EXCLUSION}
    else exclusions[0].ranges + UnionOf(exclusions[1..])
  }

  function FirstProxy(handlers: seq<Handler>): (h: Option<Handler>)
    ensures h.Some? ==> h.value.ReverseProxy?
  {
    if handlers == [] then None
    else if handlers[0].ReverseProxy? then Some(handlers[0])
    else FirstProxy(handlers[1..])
  }

  function FirstStatic(handlers: seq<Handler>): (h: Option<Handler>)
    ensures h.Some? ==> h.value.StaticResponse?
  {
    if handlers == [] then None
    else if handlers[0].StaticResponse? then Some(handlers[0])
    else FirstStatic(handlers[1..])
  }

  /** What a route does with a request it matches, as far as the summary reads it. */
  function TargetOf(handlers: seq<Handler>): (t: Option<Target>) {
    if FirstProxy(handlers).Some? then Some(Proxy(FirstProxy(handlers).value.upstreams))
    else if FirstStatic(handlers).Some? then Some(Respond(FirstStatic(handlers).value.status))
    else None
  }

  function RouteSummary(r: Route): (s: Summary) {
    if |r.matches| > 1 then MultiMatch
    else
      var m := if r.matches == [] then NO_MATCH else r.matches[0];
      match TargetOf(r.handlers)
      case None => OtherKinds(r.handlers)
      case Some(target) =>
        Summary(m.remoteIp, if m.exclusions.None? then None else Some(UnionOf(m.exclusions.value)),
                Given(m.path), Given(m.methods), m.pathRegexp, target, m.others)
  }

  // ----- What a request matches -----

  const DOTDOT_PATTERN := "\\.\\."
  const ENCODED_PATH_PATTERN := "(?i)%(2e|2f|5c)"

  predicate HasEncodedPart(path: string) {
    Contains(Lower(path), "%2e") || Contains(Lower(path), "%2f") || Contains(Lower(path), "%5c")
  }

  predicate RegexpMatches(env: Env, pattern: string, path: string) {
    if pattern == DOTDOT_PATTERN then Contains(path, "..")
    else if pattern == ENCODED_PATH_PATTERN then HasEncodedPart(path)
    else env.regexp(pattern, path)
  }

  predicate From(env: Env, ranges: set<string>, source: string) {
    exists r :: r in ranges && env.inRange(r, source)
  }

  ghost predicate MatchesAny(patterns: set<string>, path: string) {
    exists p :: p in patterns && CaddyPathMatches(p, path)
  }

  predicate Excludes(env: Env, e: Exclusion, req: Request) {
    match e
    case NotRemoteIp(ranges) => !From(env, ranges, req.source)
    case NotOther(kind) => !env.other(kind, req)
  }

  ghost predicate MatchHolds(env: Env, m: Match, req: Request) {
    && (m.remoteIp.Some? ==> From(env, m.remoteIp.value, req.source))
    && (m.exclusions.Some? ==> forall i :: 0 <= i < |m.exclusions.value| ==> Excludes(env, m.exclusions.value[i], req))
    && (m.path != {} ==> MatchesAny(m.path, req.path))
    && (m.methods != {} ==> req.verb in m.methods)
    && (m.pathRegexp.Some? ==> RegexpMatches(env, m.pathRegexp.value, req.path))
    && (forall kind :: kind in m.others ==> env.other(kind, req))
  }

  ghost predicate RouteMatches(env: Env, r: Route, req: Request) {
    r.matches == [] || exists i :: 0 <= i < |r.matches| && MatchHolds(env, r.matches[i], req)
  }

  /** What one row of the table admits. */
  ghost predicate RowMatches(env: Env, s: Summary, req: Request)
    requires s.Summary?
  {
    && (s.ranges.Some? ==> From(env, s.ranges.value, req.source))
    && (s.negated.Some? ==> !From(env, s.negated.value, req.source))
    && (s.paths.Some? ==> MatchesAny(s.paths.value, req.path))
    && (s.methods.Some? ==> req.verb in s.methods.value)
    && (s.regexp.Some? ==> RegexpMatches(env, s.regexp.value, req.path))
  }

  datatype Answer = Answered(target: Target) | OtherAnswer(handlers: seq<Handler>) | NoAnswer

  function RouteAnswer(r: Route): (a: Answer) {
    if TargetOf(r.handlers).Some? then Answered(TargetOf(r.handlers).value) else OtherAnswer(r.handlers)
  }

  /** Routes are tried in order; the first that matches decides. */
  ghost function Evaluate(env: Env, routes: seq<Route>, req: Request): (a: Answer) {
    if routes == [] then NoAnswer
    else if RouteMatches(env, routes[0], req) then RouteAnswer(routes[0])
    else Evaluate(env, routes[1..], req)
  }

  // ----- The table -----

  const BACKCHANNEL := "10.120.0.0/24"
  const IDP := "10.120.1.0/24"
  const COMMITTED := {BACKCHANNEL, IDP}

  const ADMIN_PATHS := {"/admin", "/admin/*", "/realms/master", "/realms/master/*"}
  const REALM_PATHS := {"/realms/decisya", "/realms/decisya/*"}
  const PUBLISHED_ID_PATHS := REALM_PATHS + {"/resources/*"}
  const ADMIN_LISTENER_PATHS := ADMIN_PATHS + {"/resources/*"}

  const DENY_STATUS := "403"
  const DENY := Summary(None, None, None, None, None, Respond(DENY_STATUS), {})
  const DENY_DOTDOT := DENY.(regexp := Some(DOTDOT_PATTERN))
  const DENY_ENCODED := DENY.(regexp := Some(ENCODED_PATH_PATTERN))

  datatype Site = Site(port: int, name: string)

  const HTTPS_PORT := 8443
  const ADMIN_PORT := 8444
  const APP := Site(HTTPS_PORT, "app")
  const ID := Site(HTTPS_PORT, "id")
  const API := Site(HTTPS_PORT, "api")
  const ADMIN_ID := Site(ADMIN_PORT, "id")
  const LAYOUT := [APP, ID, API, ADMIN_ID]

  function ProxyRow(ranges: set<string>, paths: set<string>, methods: set<string>, upstream: string, negated: set<string>)
    : (s: Summary)
    ensures s.Summary?
  {
    Summary(Given(ranges), Given(negated), Given(paths), Given(methods), None, Proxy([upstream]), {})
  }

  const BACKCHANNEL_LOGOUT := "/bff/backchannel-logout"

  function ExpectedRoutes(site: Site): (table: seq<Summary>) {
    if site == APP then
      [DENY_DOTDOT,
       ProxyRow({IDP}, {"/bff/backchannel-logout"}, {"POST"}, "bff:8080", {}),
       DENY.(paths := Some({"/bff/backchannel-logout*"})),
       ProxyRow({}, {}, {}, "bff:8080", COMMITTED),
       DENY]
    else if site == ID then
      [DENY_DOTDOT,
       DENY.(paths := Some(ADMIN_PATHS)),
       DENY_ENCODED,
       ProxyRow({}, PUBLISHED_ID_PATHS, {}, "keycloak:8080", COMMITTED),
       ProxyRow({BACKCHANNEL}, REALM_PATHS, {}, "keycloak:8080", {}),
       DENY]
    else if site == API then
      [DENY_DOTDOT, ProxyRow({BACKCHANNEL}, {"/api/*"}, {}, "api:8080", {}), DENY]
    else if site == ADMIN_ID then
      [DENY_DOTDOT, DENY_ENCODED, ProxyRow({}, ADMIN_LISTENER_PATHS, {}, "keycloak:8080", COMMITTED), DENY]
    else []
  }

  // ----- Routes with the table's summaries answer as the table -----

  ghost function TableAnswer(env: Env, table: seq<Summary>, req: Request): (a: Answer) {
    if table == [] then NoAnswer
    else if table[0].Summary? && RowMatches(env, table[0], req) then Answered(table[0].target)
    else TableAnswer(env, table[1..], req)
  }

  /** A row whose summary says all there is to say: nothing unknown is excluded or required. */
  predicate IsPlain(s: Summary) {
    s.Summary? && s.extra == {} && (s.negated.Some? ==> UNKNOWN_EXCLUSION !in s.negated.value)
  }

  lemma {:induction false} ExclusionsUnite(env: Env, exclusions: seq<Exclusion>, req: Request)
    requires UNKNOWN_EXCLUSION !in UnionOf(exclusions)
    ensures (forall i :: 0 <= i < |exclusions| ==> Excludes(env, exclusions[i], req))
       <==> !From(env, UnionOf(exclusions), req.source)
  {
    if exclusions != [] {
      ExclusionsUnite(env, exclusions[1..], req);
      var first, rest := exclusions[0], UnionOf(exclusions[1..]);
      assert From(env, first.ranges + rest, req.source) <==> From(env, first.ranges, req.source) || From(env, rest, req.source);
      assert (forall i :: 0 <= i < |exclusions| ==> Excludes(env, exclusions[i], req))
        <==> Excludes(env, first, req) && forall i :: 0 <= i < |exclusions[1..]| ==> Excludes(env, exclusions[1..][i], req);
    }
  }

  /** The summary keeps a route's meaning: routes that share a plain summary match and do the same. */
  lemma SummaryKeepsMeaning(env: Env, r: Route, req: Request)
    requires IsPlain(RouteSummary(r))
    ensures RouteMatches(env, r, req) <==> RowMatches(env, RouteSummary(r), req)
    ensures RouteAnswer(r) == Answered(RouteSummary(r).target)
  {
    if r.matches != [] {
      var m := r.matches[0];
      assert RouteMatches(env, r, req) <==> MatchHolds(env, m, req);
      if m.exclusions.Some? {
        ExclusionsUnite(env, m.exclusions.value, req);
      }
    }
  }

  ghost predicate SummarizesAs(routes: seq<Route>, table: seq<Summary>) {
    |routes| == |table| && forall i :: 0 <= i < |routes| ==> RouteSummary(routes[i]) == table[i]
  }

  lemma {:induction false} AnswersAsTheTable(env: Env, routes: seq<Route>, table: seq<Summary>, req: Request)
    requires SummarizesAs(routes, table) && forall i :: 0 <= i < |table| ==> IsPlain(table[i])
    ensures Evaluate(env, routes, req) == TableAnswer(env, table, req)
  {
    if routes != [] {
      SummaryKeepsMeaning(env, routes[0], req);
      AnswersAsTheTable(env, routes[1..], table[1..], req);
    }
  }

  lemma TablesArePlain(site: Site, i: nat)
    requires i < |ExpectedRoutes(site)|
    ensures IsPlain(ExpectedRoutes(site)[i])
  {
  }

  // ----- The path sets, in terms of the path alone -----

  predicate IsUnder(root: string, path: string) {
    Lower(path) == root || root + "/" <= Lower(path)
  }

  predicate IsLiteral(s: string) {
    forall i :: 0 <= i < |s| ==> ToLower(s[i]) == s[i] && s[i] != '*'
  }

  lemma ExactPattern(pattern: string, path: string)
    requires IsLiteral(pattern)
    ensures CaddyPathMatches(pattern, path) <==> Lower(path) == pattern
  {
    assert Lower(pattern) == pattern && '*' !in pattern;
    MatcherIsWildcard(pattern, path);
    LiteralIsExact(!HasInnerStar(pattern), pattern, Lower(path));
  }

  lemma PrefixPattern(core: string, path: string)
    requires IsLiteral(core)
    ensures CaddyPathMatches(core + "*", path) <==> core <= Lower(path)
  {
    var pattern := core + "*";
    assert Lower(pattern) == pattern && '*' !in core;
    assert |pattern| > 2 ==> pattern[1..|pattern| - 1] == core[1..];
    MatcherIsWildcard(pattern, path);
    TrailingStarIsPrefix(core, Lower(path));
  }

  lemma RootAndBelow(root: string, path: string)
    requires IsLiteral(root)
    ensures MatchesAny({root, root + "/*"}, path) <==> IsUnder(root, path)
  {
    ExactPattern(root, path);
    assert root + "/*" == (root + "/") + "*";
    PrefixPattern(root + "/", path);
    assert MatchesAny({root, root + "/*"}, path) <==> CaddyPathMatches(root, path) || CaddyPathMatches(root + "/*", path);
  }

  lemma MatchesEither(a: set<string>, b: set<string>, path: string)
    ensures MatchesAny(a + b, path) <==> MatchesAny(a, path) || MatchesAny(b, path)
  {
    if MatchesAny(a, path) {
      var p :| p in a && CaddyPathMatches(p, path);
      assert p in a + b;
    }
    if MatchesAny(b, path) {
      var p :| p in b && CaddyPathMatches(p, path);
      assert p in a + b;
    }
  }

  lemma OnePattern(pattern: string, path: string)
    ensures MatchesAny({pattern}, path) <==> CaddyPathMatches(pattern, path)
  {
    assert pattern in {pattern};
  }

  predicate IsAdmin(path: string) {
    IsUnder("/admin", path) || IsUnder("/realms/master", path)
  }

  predicate IsRealm(path: string) {
    IsUnder("/realms/decisya", path)
  }

  predicate IsResource(path: string) {
    "/resources/" <= Lower(path)
  }

  lemma AdminPaths(path: string)
    ensures MatchesAny(ADMIN_PATHS, path) <==> IsAdmin(path)
  {
    RootAndBelow("/admin", path);
    RootAndBelow("/realms/master", path);
    assert "/admin" + "/*" == "/admin/*" && "/realms/master" + "/*" == "/realms/master/*";
    MatchesEither({"/admin", "/admin/*"}, {"/realms/master", "/realms/master/*"}, path);
    assert ADMIN_PATHS == {"/admin", "/admin/*"} + {"/realms/master", "/realms/master/*"};
  }

  lemma RealmPaths(path: string)
    ensures MatchesAny(REALM_PATHS, path) <==> IsRealm(path)
  {
    RootAndBelow("/realms/decisya", path);
    assert "/realms/decisya" + "/*" == "/realms/decisya/*";
  }

  lemma ResourcePaths(path: string)
    ensures MatchesAny({"/resources/*"}, path) <==> IsResource(path)
  {
    assert "/resources/" + "*" == "/resources/*";
    PrefixPattern("/resources/", path);
    OnePattern("/resources/*", path);
  }

  lemma PublishedPaths(path: string)
    ensures MatchesAny(PUBLISHED_ID_PATHS, path) <==> IsRealm(path) || IsResource(path)
    ensures MatchesAny(ADMIN_LISTENER_PATHS, path) <==> IsAdmin(path) || IsResource(path)
  {
    AdminPaths(path);
    RealmPaths(path);
    ResourcePaths(path);
    MatchesEither(REALM_PATHS, {"/resources/*"}, path);
    MatchesEither(ADMIN_PATHS, {"/resources/*"}, path);
  }

  /** No path is both an admin path and a path of the published realm or its resources. */
  lemma AdminPathsStandApart(path: string)
    ensures !(IsAdmin(path) && (IsRealm(path) || IsResource(path)))
    ensures !(IsRealm(path) && IsResource(path))
  {
    var p := Lower(path);
    if IsAdmin(path) {
      assert p[1] == 'a' || p[8] == 'm';
      assert p[1] == 'a' || p[3] == 'a';
    }
    if IsRealm(path) {
      assert p[1] == 'r' && p[8] == 'd' && p[3] == 'a';
    }
    if IsResource(path) {
      assert p[1] == 'r' && p[3] == 's';
    }
  }

  // ----- What the table proxies, for every request -----

  ghost predicate Matching(env: Env, table: seq<Summary>, req: Request, rows: seq<bool>) {
    |table| == |rows| && forall i :: 0 <= i < |table| ==> table[i].Summary? && RowMatches(env, table[i], req) == rows[i]
  }

  /** The first row that matches answers. */
  lemma {:induction false} AnswerAt(env: Env, table: seq<Summary>, req: Request, rows: seq<bool>, n: nat)
    requires Matching(env, table, req, rows) && n < |rows| && rows[n] && forall i :: 0 <= i < n ==> !rows[i]
    ensures TableAnswer(env, table, req) == Answered(table[n].target)
  {
    if n > 0 {
      AnswerAt(env, table[1..], req, rows[1..], n - 1);
    }
  }

  const DENIED := Answered(Respond("403"))

  function Proxied(upstream: string): (a: Answer) {
    Answered(Proxy([upstream]))
  }

  ghost function SiteAnswer(env: Env, site: Site, req: Request): (a: Answer) {
    TableAnswer(env, ExpectedRoutes(site), req)
  }

  /** From one of the stack's own networks. */
  predicate FromCommitted(env: Env, req: Request) {
    FromRange(env, "10.120.0.0/24", req) || FromRange(env, "10.120.1.0/24", req)
  }

  predicate FromRange(env: Env, range: string, req: Request) {
    env.inRange(range, req.source)
  }

  lemma OneRange(env: Env, range: string, source: string)
    ensures From(env, {range}, source) <==> env.inRange(range, source)
  {
    assert range in {range};
  }

  predicate Climbs(path: string) {
    Contains(path, "..")
  }

  /** What the two refusals of every site are for: two dots in a row, and an encoded dot, slash or backslash. */
  lemma RefusedTexts(path: string)
    ensures Climbs(path) <==> exists before, after :: path == before + ".." + after
    ensures HasEncodedPart(path) <==>
      exists part, before, after :: part in {"%2e", "%2f", "%5c"} && Lower(path) == before + part + after
  {
    ContainsSplits(path, "..");
    ContainsSplits(Lower(path), "%2e");
    ContainsSplits(Lower(path), "%2f");
    ContainsSplits(Lower(path), "%5c");
    var parts := {"%2e", "%2f", "%5c"};
    assert "%2e" in parts && "%2f" in parts && "%5c" in parts;
  }

  lemma FixedRows(env: Env, req: Request)
    ensures RowMatches(env, DENY_DOTDOT, req) == RowMatches(env, DENY.(regexp := Some("\\.\\.")), req) == Climbs(req.path)
    ensures RowMatches(env, DENY_ENCODED, req) == RowMatches(env, DENY.(regexp := Some("(?i)%(2e|2f|5c)")), req)
         == HasEncodedPart(req.path)
    ensures RowMatches(env, DENY, req)
  {
  }

  lemma RefusedPaths(env: Env, paths: set<string>, req: Request)
    ensures RowMatches(env, DENY.(paths := Some(paths)), req) == MatchesAny(paths, req.path)
  {
  }

  lemma PublishedRow(env: Env, paths: set<string>, upstream: string, req: Request)
    ensures RowMatches(env, ProxyRow({}, paths, {}, upstream, COMMITTED), req)
         == ((paths != {} ==> MatchesAny(paths, req.path)) && !FromCommitted(env, req))
  {
    assert BACKCHANNEL in COMMITTED && IDP in COMMITTED;
  }

  lemma BackchannelRow(env: Env, range: string, paths: set<string>, methods: set<string>, upstream: string, req: Request)
    ensures RowMatches(env, ProxyRow({range}, paths, methods, upstream, {}), req)
         == (FromRange(env, range, req) && (paths != {} ==> MatchesAny(paths, req.path))
             && (methods != {} ==> req.verb in methods))
  {
    OneRange(env, range, req.source);
  }

  // Each site: which of its rows a request matches, and so what the site answers.

  function IdRows(env: Env, req: Request): (rows: seq<bool>) {
    [Climbs(req.path), IsAdmin(req.path), HasEncodedPart(req.path),
     (IsRealm(req.path) || IsResource(req.path)) && !FromCommitted(env, req),
     IsRealm(req.path) && FromRange(env, BACKCHANNEL, req), true]
  }

  lemma IdRowsMatch(env: Env, req: Request)
    ensures Matching(env, ExpectedRoutes(ID), req, IdRows(env, req))
  {
    FixedRows(env, req);
    RefusedPaths(env, ADMIN_PATHS, req);
    PublishedRow(env, PUBLISHED_ID_PATHS, "keycloak:8080", req);
    BackchannelRow(env, BACKCHANNEL, REALM_PATHS, {}, "keycloak:8080", req);
    AdminPaths(req.path);
    RealmPaths(req.path);
    PublishedPaths(req.path);
  }

  predicate IdAdmits(env: Env, req: Request) {
    && !Climbs(req.path) && !HasEncodedPart(req.path)
    && (((IsRealm(req.path) || IsResource(req.path)) && !FromCommitted(env, req))
        || (IsRealm(req.path) && FromRange(env, "10.120.0.0/24", req)))
  }

  /**
    The id site on 8443 passes a request on exactly when its path climbs nowhere, hides no encoded dot or
    slash, and is of the published realm or its resources from outside, or of the realm from the back channel.
   */
  lemma IdSiteProxiesIff(env: Env, req: Request)
    ensures SiteAnswer(env, Site(8443, "id"), req) == if IdAdmits(env, req) then Proxied("keycloak:8080") else DENIED
  {
    IdRowsMatch(env, req);
    AdminPathsStandApart(req.path);
    FirstOfSix(env, ExpectedRoutes(ID), req, IdRows(env, req));
  }

  lemma FirstOfSix(env: Env, table: seq<Summary>, req: Request, rows: seq<bool>)
    requires Matching(env, table, req, rows) && |rows| == 6 && rows[5]
    ensures TableAnswer(env, table, req)
         == Answered(table[if rows[0] then 0 else if rows[1] then 1 else if rows[2] then 2
                           else if rows[3] then 3 else if rows[4] then 4 else 5].target)
  {
    var n := if rows[0] then 0 else if rows[1] then 1 else if rows[2] then 2 else if rows[3] then 3 else if rows[4] then 4 else 5;
    AnswerAt(env, table, req, rows, n);
  }

  function AdminRows(env: Env, req: Request): (rows: seq<bool>) {
    [Climbs(req.path), HasEncodedPart(req.path), (IsAdmin(req.path) || IsResource(req.path)) && !FromCommitted(env, req), true]
  }

  lemma AdminRowsMatch(env: Env, req: Request)
    ensures Matching(env, ExpectedRoutes(ADMIN_ID), req, AdminRows(env, req))
  {
    FixedRows(env, req);
    PublishedRow(env, ADMIN_LISTENER_PATHS, "keycloak:8080", req);
    PublishedPaths(req.path);
  }

  predicate AdminAdmits(env: Env, req: Request) {
    && !Climbs(req.path) && !HasEncodedPart(req.path)
    && (IsAdmin(req.path) || IsResource(req.path)) && !FromCommitted(env, req)
  }

  /** The id site on 8444 passes on admin paths and resources from outside, and nothing else. */
  lemma AdminListenerProxiesIff(env: Env, req: Request)
    ensures SiteAnswer(env, Site(8444, "id"), req) == if AdminAdmits(env, req) then Proxied("keycloak:8080") else DENIED
  {
    var rows := AdminRows(env, req);
    AdminRowsMatch(env, req);
    var n := if rows[0] then 0 else if rows[1] then 1 else if rows[2] then 2 else 3;
    AnswerAt(env, ExpectedRoutes(ADMIN_ID), req, rows, n);
  }

  lemma LogoutPatterns(path: string)
    ensures MatchesAny({"/bff/backchannel-logout"}, path) <==> Lower(path) == BACKCHANNEL_LOGOUT
    ensures MatchesAny({"/bff/backchannel-logout*"}, path) <==> BACKCHANNEL_LOGOUT <= Lower(path)
  {
    ExactPattern("/bff/backchannel-logout", path);
    OnePattern("/bff/backchannel-logout", path);
    assert "/bff/backchannel-logout" + "*" == "/bff/backchannel-logout*";
    PrefixPattern("/bff/backchannel-logout", path);
    OnePattern("/bff/backchannel-logout*", path);
  }

  predicate IsLogout(path: string) {
    Lower(path) == "/bff/backchannel-logout"
  }

  predicate StartsAsLogout(path: string) {
    "/bff/backchannel-logout" <= Lower(path)
  }

  function AppRows(env: Env, req: Request): (rows: seq<bool>) {
    [Climbs(req.path), FromRange(env, IDP, req) && IsLogout(req.path) && req.verb == "POST", StartsAsLogout(req.path),
     !FromCommitted(env, req), true]
  }

  lemma AppRowsMatch(env: Env, req: Request)
    ensures Matching(env, ExpectedRoutes(APP), req, AppRows(env, req))
  {
    FixedRows(env, req);
    RefusedPaths(env, {"/bff/backchannel-logout*"}, req);
    BackchannelRow(env, IDP, {"/bff/backchannel-logout"}, {"POST"}, "bff:8080", req);
    PublishedRow(env, {}, "bff:8080", req);
    LogoutPatterns(req.path);
  }

  predicate AppAdmits(env: Env, req: Request) {
    && !Climbs(req.path)
    && if StartsAsLogout(req.path) then IsLogout(req.path) && req.verb == "POST" && FromRange(env, "10.120.1.0/24", req)
       else !FromCommitted(env, req)
  }

  /** The app site passes on everything from outside but the back-channel logout, which only the idp may post. */
  lemma AppSiteProxiesIff(env: Env, req: Request)
    ensures SiteAnswer(env, Site(8443, "app"), req) == if AppAdmits(env, req) then Proxied("bff:8080") else DENIED
  {
    var rows := AppRows(env, req);
    AppRowsMatch(env, req);
    var n := if rows[0] then 0 else if rows[1] then 1 else if rows[2] then 2 else if rows[3] then 3 else 4;
    AnswerAt(env, ExpectedRoutes(APP), req, rows, n);
  }

  predicate IsApi(path: string) {
    "/api/" <= Lower(path)
  }

  function ApiRows(env: Env, req: Request): (rows: seq<bool>) {
    [Climbs(req.path), FromRange(env, BACKCHANNEL, req) && IsApi(req.path), true]
  }

  lemma ApiRowsMatch(env: Env, req: Request)
    ensures Matching(env, ExpectedRoutes(API), req, ApiRows(env, req))
  {
    FixedRows(env, req);
    assert "/api/" + "*" == "/api/*";
    PrefixPattern("/api/", req.path);
    OnePattern("/api/*", req.path);
    BackchannelRow(env, BACKCHANNEL, {"/api/*"}, {}, "api:8080", req);
  }

  predicate ApiAdmits(env: Env, req: Request) {
    !Climbs(req.path) && IsApi(req.path) && FromRange(env, "10.120.0.0/24", req)
  }

  /** The api site serves the back channel, below `/api/`, and no one else. */
  lemma ApiSiteProxiesIff(env: Env, req: Request)
    ensures SiteAnswer(env, Site(8443, "api"), req) == if ApiAdmits(env, req) then Proxied("api:8080") else DENIED
  {
    var rows := ApiRows(env, req);
    ApiRowsMatch(env, req);
    AnswerAt(env, ExpectedRoutes(API), req, rows, if rows[0] then 0 else if rows[1] then 1 else 2);
  }

  // ----- Every configuration the guard accepts -----

  ghost predicate Accepted(sites: map<Site, seq<Route>>) {
    sites.Keys == {APP, ID, API, ADMIN_ID} && forall s :: s in LAYOUT ==> SummarizesAs(sites[s], ExpectedRoutes(s))
  }

  lemma AcceptedAnswersAsTheTable(env: Env, sites: map<Site, seq<Route>>, site: Site, req: Request)
    requires Accepted(sites) && site in sites
    ensures Evaluate(env, sites[site], req) == SiteAnswer(env, site, req)
  {
    assert site in LAYOUT;
    forall i | 0 <= i < |ExpectedRoutes(site)| ensures IsPlain(ExpectedRoutes(site)[i]) {
      TablesArePlain(site, i);
    }
    AnswersAsTheTable(env, sites[site], ExpectedRoutes(site), req);
  }

  /** The pattern lists admit a path under any spelling of its letters. */
  ghost predicate MatchesAdminPattern(path: string) {
    MatchesAny(ADMIN_PATHS, path)
  }

  /**
    In every accepted configuration, for every request from anywhere: no admin path reaches the identity
    provider through 8443, and on 8444 nothing is passed on but admin paths and resources, so no path of
    the published realm is.
   */
  lemma AdminPathsStayOnTheirListener(env: Env, sites: map<Site, seq<Route>>, req: Request)
    requires Accepted(sites)
    ensures MatchesAdminPattern(req.path) ==>
      Evaluate(env, sites[Site(8443, "id")], req) == DENIED && Evaluate(env, sites[Site(8443, "api")], req) == DENIED
    ensures Evaluate(env, sites[Site(8444, "id")], req) != DENIED ==> MatchesAny(ADMIN_LISTENER_PATHS, req.path)
    ensures MatchesAny(REALM_PATHS, req.path) ==> Evaluate(env, sites[Site(8444, "id")], req) == DENIED
    ensures Evaluate(env, sites[Site(8443, "app")], req) != Proxied("keycloak:8080")
  {
    AcceptedAnswersAsTheTable(env, sites, ID, req);
    AcceptedAnswersAsTheTable(env, sites, API, req);
    AcceptedAnswersAsTheTable(env, sites, ADMIN_ID, req);
    AcceptedAnswersAsTheTable(env, sites, APP, req);
    IdSiteProxiesIff(env, req);
    ApiSiteProxiesIff(env, req);
    AdminListenerProxiesIff(env, req);
    AppSiteProxiesIff(env, req);
    AdminPaths(req.path);
    RealmPaths(req.path);
    PublishedPaths(req.path);
    AdminPathsStandApart(req.path);
    AdminIsNotApi(req.path);
  }

  lemma AdminIsNotApi(path: string)
    ensures !(IsAdmin(path) && IsApi(path))
  {
    if IsApi(path) {
      assert Lower(path)[1] == 'a' && Lower(path)[2] == 'p';
    }
    if IsAdmin(path) {
      assert Lower(path)[1] == 'r' || Lower(path)[2] == 'd';
    }
  }

  /** In every accepted configuration a back-channel logout is passed on only as itself, posted from the idp subnet. */
  lemma LogoutOnlyFromTheIdp(env: Env, sites: map<Site, seq<Route>>, req: Request)
    requires Accepted(sites)
    ensures StartsAsLogout(req.path) && Evaluate(env, sites[APP], req) != DENIED ==>
      IsLogout(req.path) && req.verb == "POST" && FromRange(env, "10.120.1.0/24", req)
  {
    AcceptedAnswersAsTheTable(env, sites, APP, req);
    AppSiteProxiesIff(env, req);
  }

  /** In every accepted configuration every request is answered, and a climbing path is always refused. */
  lemma ClimbingPathsAreRefused(env: Env, sites: map<Site, seq<Route>>, site: Site, req: Request)
    requires Accepted(sites) && site in sites
    ensures Evaluate(env, sites[site], req).Answered?
    ensures Climbs(req.path) ==> Evaluate(env, sites[site], req) == DENIED
    ensures HasEncodedPart(req.path) && site.name == "id" ==> Evaluate(env, sites[site], req) == DENIED
  {
    AcceptedAnswersAsTheTable(env, sites, site, req);
    SitesRefuseClimbing(env, site, req);
  }

  lemma SitesRefuseClimbing(env: Env, site: Site, req: Request)
    requires site in LAYOUT
    ensures SiteAnswer(env, site, req).Answered?
    ensures Climbs(req.path) ==> SiteAnswer(env, site, req) == DENIED
    ensures HasEncodedPart(req.path) && site.name == "id" ==> SiteAnswer(env, site, req) == DENIED
  {
    if site == ID {
      IdSiteProxiesIff(env, req);
    } else if site == API {
      ApiSiteProxiesIff(env, req);
    } else if site == APP {
      AppSiteProxiesIff(env, req);
    } else {
      AdminListenerProxiesIff(env, req);
    }
  }
}
