/**
  The guard's own rules over the routes of each site, beside its comparison with the table. They never
  contradict the table, and they are weaker than it: they look at probes, not at every path.
 */
module EdgeRules {
  import opened Options
  import opened Texts
  import opened PathMatcher
  import opened EdgeTable
  import opened EdgeGuard
  import opened AdminPatterns

  const KEYCLOAK := Proxy(["keycloak:8080"])

  const ADMIN_PROBES: seq<string> := [
    "/admin", "/admin/", "/admin/master/console/", "/Admin/master/console/", "/ADMIN/", "/Admin",
    "/realms/master", "/realms/master/", "/realms/master/protocol/openid-connect/token",
    "/REALMS/MASTER/account", "/Realms/Master/", "/realms/Master"]

  const ADMIN_LISTENER_REFUSED: seq<string> := [
    "/realms/decisya/protocol/openid-connect/auth", "/bff/login", "/api/capabilities"]

  datatype Published = Published(site: Site, paths: Option<set<string>>, upstream: Option<string>)

  const PUBLISHED_ROUTES := {
    Published(APP, None, Some("bff:8080")),
    Published(ID, Some(PUBLISHED_ID_PATHS), Some("keycloak:8080")),
    Published(ADMIN_ID, Some(ADMIN_LISTENER_PATHS), Some("keycloak:8080"))}

  datatype RuleProblem =
    | UnknownRoute(site: Site, route: nat)
    | EscapedPattern(site: Site, route: nat)
    | DoubleSlashPattern(site: Site, route: nat)
    | InnerStarPattern(site: Site, route: nat)
    | SourceAllowList(site: Site, route: nat)
    | NotPublishedForm(site: Site, route: nat)
    | MatcherOnIdHost(site: Site, route: nat)
    | NotOnPathOnly(site: Site, route: nat)
    | AdmitsAdminPath(site: Site, route: nat, probe: string)
    | NotTheAdminPaths(site: Site, route: nat)
    | AdmitsRefusedPath(site: Site, route: nat)
    | SecondRouteNotAdminDenial
    | NoCatchAll
    | NotInPublishedRoutes(published: Published)
    | NoSuchPublishedRoute(published: Published)

  // ----- The rules -----

  predicate PatternAllowed(p: string) {
    '%' !in p && !Contains(p, "//") && !HasInnerStar(p)
  }

  predicate PatternsAllowed(patterns: set<string>) {
    forall p :: p in patterns ==> PatternAllowed(p)
  }

  ghost predicate AdmitsNone(patterns: set<string>, probes: seq<string>) {
    forall i :: 0 <= i < |probes| ==> !MatchesAny(patterns, probes[i])
  }

  ghost predicate AdmitsAll(patterns: set<string>, probes: seq<string>) {
    forall i :: 0 <= i < |probes| ==> MatchesAny(patterns, probes[i])
  }

  /** Back-channel routes name a source range; every other proxy route is published. */
  predicate HasRanges(s: Summary)
    requires s.Summary?
  {
    s.ranges.Some? && s.ranges.value != {}
  }

  predicate SourceAllowed(s: Summary)
    requires s.Summary?
  {
    if HasRanges(s) then s.ranges.value <= COMMITTED else s.negated == Some(COMMITTED)
  }

  ghost predicate ProxyAllowed(site: Site, s: Summary)
    requires s.Summary? && s.target.Proxy?
  {
    && SourceAllowed(s)
    && (site.name == "id" ==> s.regexp == None && s.extra == {})
    && (site.port == HTTPS_PORT && s.target == KEYCLOAK ==>
          && s.paths.Some? && s.regexp == None && s.methods == None && s.extra == {}
          && AdmitsNone(s.paths.value, ADMIN_PROBES))
    && (site.port == ADMIN_PORT ==>
          s.target == KEYCLOAK && s.paths == Some(ADMIN_LISTENER_PATHS) && AdmitsNone(s.paths.value, ADMIN_LISTENER_REFUSED))
  }

  ghost predicate RouteAllowed(site: Site, s: Summary) {
    && s.Summary?
    && (site.name == "id" && s.paths.Some? ==> PatternsAllowed(s.paths.value))
    && (s.target.Proxy? ==> ProxyAllowed(site, s))
  }

  ghost predicate DeniesAdminPaths(s: Summary) {
    && s.Summary? && s.target == Respond(DENY_STATUS) && s.paths.Some?
    && AdmitsAll(s.paths.value, ADMIN_PROBES)
  }

  ghost predicate SiteAllowed(site: Site, ss: seq<Summary>) {
    && (forall i :: 0 <= i < |ss| ==> RouteAllowed(site, ss[i]))
    && (site == ID ==> |ss| > 1 && DeniesAdminPaths(ss[1]))
    && (site.port == ADMIN_PORT ==> ss != [] && ss[|ss| - 1] == DENY)
  }

  // ----- What the rules keep out of one row -----

  /** On the id hosts a pattern holds no percent sign, no empty part, and a star only as its first or last character. */
  lemma AllowedPatternsAreSimple(site: Site, s: Summary, p: string)
    requires RouteAllowed(site, s) && site.name == "id" && s.paths.Some? && p in s.paths.value
    ensures '%' !in p && !(exists before, after :: p == before + "//" + after)
    ensures forall i :: 0 < i < |p| - 1 ==> p[i] != '*'
  {
    assert PatternAllowed(p);
    ContainsSplits(p, "//");
    forall i | 0 < i < |p| - 1 ensures p[i] != '*' {
      assert p[1..|p| - 1][i - 1] == p[i];
    }
  }

  /** No row to the identity provider on 8443 admits one of these twelve paths; on 8444 none of these three. */
  lemma ProbesAreKeptOut(site: Site, s: Summary, path: string)
    requires RouteAllowed(site, s) && s.target == Proxy(["keycloak:8080"])
    ensures site.port == 8443 && path in [
      "/admin", "/admin/", "/admin/master/console/", "/Admin/master/console/", "/ADMIN/", "/Admin",
      "/realms/master", "/realms/master/", "/realms/master/protocol/openid-connect/token",
      "/REALMS/MASTER/account", "/Realms/Master/", "/realms/Master"] ==>
        s.paths.Some? && !MatchesAny(s.paths.value, path)
    ensures site.port == 8444 && path in [
      "/realms/decisya/protocol/openid-connect/auth", "/bff/login", "/api/capabilities"] ==>
        s.paths.Some? && !MatchesAny(s.paths.value, path)
  {
    if site.port == 8443 && path in ADMIN_PROBES {
      var i :| 0 <= i < |ADMIN_PROBES| && ADMIN_PROBES[i] == path;
    }
    if site.port == 8444 && path in ADMIN_LISTENER_REFUSED {
      var i :| 0 <= i < |ADMIN_LISTENER_REFUSED| && ADMIN_LISTENER_REFUSED[i] == path;
    }
  }

  /**
    Every row that passes requests on takes them from the stack's own networks alone, or from everywhere but there; what
    it passes on through 8444 goes to the identity provider, for admin paths and resources.
   */
  lemma SourcesAreTold(env: Env, site: Site, s: Summary, req: Request)
    requires RouteAllowed(site, s) && s.target.Proxy? && RowMatches(env, s, req)
    ensures if s.ranges.Some? && s.ranges.value != {} then FromCommitted(env, req) else !FromCommitted(env, req)
    ensures site.port == 8444 ==>
      s.target == Proxy(["keycloak:8080"]) && (IsAdmin(req.path) || IsResource(req.path))
    ensures site.name == "id" || (site.port == 8443 && s.target == Proxy(["keycloak:8080"])) ==>
      s.regexp == None && s.extra == {}
    ensures site.port == 8443 && s.target == Proxy(["keycloak:8080"]) ==> s.paths.Some? && s.methods == None
  {
    assert BACKCHANNEL in COMMITTED && IDP in COMMITTED;
    PublishedPaths(req.path);
  }

  predicate IsPublished(s: Summary) {
    s.Summary? && s.target.Proxy? && !HasRanges(s) && s.negated == Some(COMMITTED)
  }

  function AsPublished(site: Site, s: Summary): (p: Published)
    requires IsPublished(s)
  {
    Published(site, s.paths, if s.target.upstreams == [] then None else Some(s.target.upstreams[0]))
  }

  function PublishedOf(site: Site, ss: seq<Summary>): (found: set<Published>) {
    if ss == [] then {}
    else
      var n := |ss| - 1;
      PublishedOf(site, ss[..n]) + if IsPublished(ss[n]) then {AsPublished(site, ss[n])} else {}
  }

  function RoutesOf(sites: map<Site, seq<Route>>, site: Site): (ss: seq<Summary>) {
    if site in sites then Summaries(sites[site]) else []
  }

  function AllPublished(sites: map<Site, seq<Route>>): (found: set<Published>) {
    PublishedOf(APP, RoutesOf(sites, APP)) + PublishedOf(ID, RoutesOf(sites, ID))
    + PublishedOf(API, RoutesOf(sites, API)) + PublishedOf(ADMIN_ID, RoutesOf(sites, ADMIN_ID))
  }

  ghost predicate AllowedAt(sites: map<Site, seq<Route>>, site: Site) {
    site in sites ==> SiteAllowed(site, Summaries(sites[site]))
  }

  ghost predicate RulesHold(sites: map<Site, seq<Route>>) {
    && (forall i :: 0 <= i < |LAYOUT| ==> AllowedAt(sites, LAYOUT[i]))
    && AllPublished(sites) == PUBLISHED_ROUTES
  }

  // ----- The table obeys the rules -----

  lemma UnderRoot(root: string, path: string)
    requires |root| <= |path| && forall k :: 0 <= k < |root| ==> ToLower(path[k]) == root[k]
    requires |path| == |root| || path[|root|] == '/'
    ensures IsUnder(root, path)
  {
    assert Lower(path)[..|root|] == root;
    if |path| > |root| {
      assert Lower(path)[..|root| + 1] == root + "/";
    } else {
      assert Lower(path) == root;
    }
  }

  lemma AdminProbesUnderAdmin(i: nat)
    requires i < 6
    ensures IsUnder("/admin", ADMIN_PROBES[i])
  {
    UnderRoot("/admin", ADMIN_PROBES[i]);
  }

  lemma AdminProbesUnderMaster(i: nat)
    requires 6 <= i < 12
    ensures IsUnder("/realms/master", ADMIN_PROBES[i])
  {
    UnderRoot("/realms/master", ADMIN_PROBES[i]);
  }

  lemma AdminProbesAreAdmin(i: nat)
    requires i < |ADMIN_PROBES|
    ensures IsAdmin(ADMIN_PROBES[i])
  {
    if i < 6 {
      AdminProbesUnderAdmin(i);
    } else {
      AdminProbesUnderMaster(i);
    }
  }

  lemma RefusedAreNotAdmin(i: nat)
    requires i < |ADMIN_LISTENER_REFUSED|
    ensures !IsAdmin(ADMIN_LISTENER_REFUSED[i]) && !IsResource(ADMIN_LISTENER_REFUSED[i])
  {
    var path := ADMIN_LISTENER_REFUSED[i];
    if i == 0 {
      UnderRoot("/realms/decisya", path);
      AdminPathsStandApart(path);
    } else {
      assert Lower(path)[1] == 'b' || Lower(path)[2] == 'p';
    }
  }

  /** The deny route of the table covers every path the admin patterns match, so every probe. */
  lemma TableDeniesProbes()
    ensures DeniesAdminPaths(ExpectedRoutes(ID)[1])
  {
    forall i: nat | i < |ADMIN_PROBES| ensures MatchesAny(ADMIN_PATHS, ADMIN_PROBES[i]) {
      AdminProbesAreAdmin(i);
      AdminPaths(ADMIN_PROBES[i]);
    }
  }

  lemma PublishedPathsAdmitNoProbe()
    ensures AdmitsNone(PUBLISHED_ID_PATHS, ADMIN_PROBES) && AdmitsNone(REALM_PATHS, ADMIN_PROBES)
    ensures AdmitsNone(ADMIN_LISTENER_PATHS, ADMIN_LISTENER_REFUSED)
  {
    forall i: nat | i < |ADMIN_PROBES|
      ensures !MatchesAny(PUBLISHED_ID_PATHS, ADMIN_PROBES[i]) && !MatchesAny(REALM_PATHS, ADMIN_PROBES[i])
    {
      AdminProbesAreAdmin(i);
      AdminPathsStandApart(ADMIN_PROBES[i]);
      PublishedPaths(ADMIN_PROBES[i]);
      RealmPaths(ADMIN_PROBES[i]);
    }
    forall i: nat | i < |ADMIN_LISTENER_REFUSED| ensures !MatchesAny(ADMIN_LISTENER_PATHS, ADMIN_LISTENER_REFUSED[i]) {
      RefusedAreNotAdmin(i);
      PublishedPaths(ADMIN_LISTENER_REFUSED[i]);
    }
  }

  lemma PlainPattern(p: string)
    requires '%' !in p && forall k :: 0 <= k < |p| - 1 ==> !(p[k] == '/' && p[k + 1] == '/') && (k > 0 ==> p[k] != '*')
    ensures PatternAllowed(p)
  {
    forall k | 0 <= k <= |p| ensures !("//" <= p[k..]) {
      if k + 1 < |p| {
        assert p[k..][0] == p[k] && p[k..][1] == p[k + 1];
      }
    }
    if |p| > 2 {
      var inner := p[1..|p| - 1];
      forall k | 0 <= k < |inner| ensures inner[k] != '*' {
        assert inner[k] == p[k + 1];
      }
    }
  }

  lemma AdminPatternsAreAllowed()
    ensures PatternsAllowed(ADMIN_PATHS)
  {
    PlainPattern("/admin");
    PlainPattern("/admin/*");
    PlainPattern("/realms/master");
    PlainPattern("/realms/master/*");
  }

  lemma RealmPatternsAreAllowed()
    ensures PatternsAllowed(REALM_PATHS) && PatternsAllowed({"/resources/*"})
  {
    PlainPattern("/realms/decisya");
    PlainPattern("/realms/decisya/*");
    PlainPattern("/resources/*");
  }

  lemma AllowedTogether(a: set<string>, b: set<string>)
    requires PatternsAllowed(a) && PatternsAllowed(b)
    ensures PatternsAllowed(a + b)
  {
  }

  lemma TablePatternsAreAllowed()
    ensures PatternsAllowed(ADMIN_PATHS) && PatternsAllowed(REALM_PATHS)
    ensures PatternsAllowed(PUBLISHED_ID_PATHS) && PatternsAllowed(ADMIN_LISTENER_PATHS)
  {
    AdminPatternsAreAllowed();
    RealmPatternsAreAllowed();
    AllowedTogether(REALM_PATHS, {"/resources/*"});
    AllowedTogether(ADMIN_PATHS, {"/resources/*"});
  }

  lemma DenyRowsAllowed(site: Site, paths: Option<set<string>>, regexp: Option<string>)
    requires paths.Some? ==> PatternsAllowed(paths.value) || site.name != "id"
    ensures RouteAllowed(site, DENY.(paths := paths, regexp := regexp))
  {
  }

  lemma KeycloakRowAllowed(site: Site, ranges: set<string>, paths: set<string>, negated: set<string>)
    requires site.name == "id" && site.port == HTTPS_PORT && paths != {} && ranges <= COMMITTED
    requires PatternsAllowed(paths) && AdmitsNone(paths, ADMIN_PROBES) && (ranges == {} ==> negated == COMMITTED)
    ensures RouteAllowed(site, ProxyRow(ranges, paths, {}, "keycloak:8080", negated))
  {
  }

  lemma AdminListenerRowAllowed()
    requires PatternsAllowed(ADMIN_LISTENER_PATHS) && AdmitsNone(ADMIN_LISTENER_PATHS, ADMIN_LISTENER_REFUSED)
    ensures RouteAllowed(ADMIN_ID, ProxyRow({}, ADMIN_LISTENER_PATHS, {}, "keycloak:8080", COMMITTED))
  {
  }

  lemma TableAllowsAtApp()
    ensures SiteAllowed(APP, ExpectedRoutes(APP))
    ensures PublishedOf(APP, ExpectedRoutes(APP)) == {Published(APP, None, Some("bff:8080"))}
  {
    var ss := ExpectedRoutes(APP);
    DenyRowsAllowed(APP, None, Some(DOTDOT_PATTERN));
    DenyRowsAllowed(APP, Some({"/bff/backchannel-logout*"}), None);
    DenyRowsAllowed(APP, None, None);
    assert RouteAllowed(APP, ss[1]) && RouteAllowed(APP, ss[3]);
    PublishedOnly(APP, ss, 3);
  }

  lemma TableAllowsAtId()
    ensures SiteAllowed(ID, ExpectedRoutes(ID))
    ensures PublishedOf(ID, ExpectedRoutes(ID)) == {Published(ID, Some(PUBLISHED_ID_PATHS), Some("keycloak:8080"))}
  {
    var ss := ExpectedRoutes(ID);
    TablePatternsAreAllowed();
    PublishedPathsAdmitNoProbe();
    TableDeniesProbes();
    DenyRowsAllowed(ID, None, Some(DOTDOT_PATTERN));
    DenyRowsAllowed(ID, Some(ADMIN_PATHS), None);
    DenyRowsAllowed(ID, None, Some(ENCODED_PATH_PATTERN));
    DenyRowsAllowed(ID, None, None);
    KeycloakRowAllowed(ID, {}, PUBLISHED_ID_PATHS, COMMITTED);
    KeycloakRowAllowed(ID, {BACKCHANNEL}, REALM_PATHS, {});
    PublishedOnly(ID, ss, 3);
  }

  lemma TableAllowsAtApi()
    ensures SiteAllowed(API, ExpectedRoutes(API)) && PublishedOf(API, ExpectedRoutes(API)) == {}
  {
    var ss := ExpectedRoutes(API);
    DenyRowsAllowed(API, None, Some(DOTDOT_PATTERN));
    DenyRowsAllowed(API, None, None);
    assert RouteAllowed(API, ss[1]);
    NonePublished(API, ss);
  }

  lemma TableAllowsAtAdminId()
    ensures SiteAllowed(ADMIN_ID, ExpectedRoutes(ADMIN_ID))
    ensures PublishedOf(ADMIN_ID, ExpectedRoutes(ADMIN_ID))
         == {Published(ADMIN_ID, Some(ADMIN_LISTENER_PATHS), Some("keycloak:8080"))}
  {
    var ss := ExpectedRoutes(ADMIN_ID);
    TablePatternsAreAllowed();
    PublishedPathsAdmitNoProbe();
    DenyRowsAllowed(ADMIN_ID, None, Some(DOTDOT_PATTERN));
    DenyRowsAllowed(ADMIN_ID, None, Some(ENCODED_PATH_PATTERN));
    DenyRowsAllowed(ADMIN_ID, None, None);
    AdminListenerRowAllowed();
    PublishedOnly(ADMIN_ID, ss, 2);
  }

  lemma {:induction false} NonePublished(site: Site, ss: seq<Summary>)
    requires forall i :: 0 <= i < |ss| ==> !IsPublished(ss[i])
    ensures PublishedOf(site, ss) == {}
  {
    if ss != [] {
      NonePublished(site, ss[..|ss| - 1]);
    }
  }

  lemma {:induction false} PublishedOnly(site: Site, ss: seq<Summary>, n: nat)
    requires n < |ss| && IsPublished(ss[n]) && forall i :: 0 <= i < |ss| && i != n ==> !IsPublished(ss[i])
    ensures PublishedOf(site, ss) == {AsPublished(site, ss[n])}
  {
    var last := |ss| - 1;
    if n == last {
      NonePublished(site, ss[..last]);
    } else {
      PublishedOnly(site, ss[..last], n);
    }
  }

  /** The rules find nothing in an accepted configuration: they never contradict the table. */
  lemma TheTableObeysTheRules(sites: map<Site, seq<Route>>)
    requires Accepted(sites)
    ensures RulesHold(sites)
  {
    forall i | 0 <= i < |LAYOUT| ensures AllowedAt(sites, LAYOUT[i]) {
      SameSummaries(sites[LAYOUT[i]], ExpectedRoutes(LAYOUT[i]));
      TableAllows(LAYOUT[i]);
    }
    AcceptedRoutes(sites);
    TablePublishes();
  }

  lemma TableAllows(site: Site)
    requires site in LAYOUT
    ensures SiteAllowed(site, ExpectedRoutes(site))
  {
    if site == APP {
      TableAllowsAtApp();
    } else if site == ID {
      TableAllowsAtId();
    } else if site == API {
      TableAllowsAtApi();
    } else {
      TableAllowsAtAdminId();
    }
  }

  lemma AcceptedRoutes(sites: map<Site, seq<Route>>)
    requires Accepted(sites)
    ensures RoutesOf(sites, APP) == ExpectedRoutes(APP) && RoutesOf(sites, ID) == ExpectedRoutes(ID)
    ensures RoutesOf(sites, API) == ExpectedRoutes(API) && RoutesOf(sites, ADMIN_ID) == ExpectedRoutes(ADMIN_ID)
  {
    forall site | site in LAYOUT ensures RoutesOf(sites, site) == ExpectedRoutes(site) {
      SameSummaries(sites[site], ExpectedRoutes(site));
    }
    assert LAYOUT[0] in LAYOUT && LAYOUT[1] in LAYOUT && LAYOUT[2] in LAYOUT && LAYOUT[3] in LAYOUT;
  }

  lemma TablePublishes()
    ensures PublishedOf(APP, ExpectedRoutes(APP)) + PublishedOf(ID, ExpectedRoutes(ID))
          + PublishedOf(API, ExpectedRoutes(API)) + PublishedOf(ADMIN_ID, ExpectedRoutes(ADMIN_ID)) == PUBLISHED_ROUTES
  {
    TableAllowsAtApp();
    TableAllowsAtId();
    TableAllowsAtApi();
    TableAllowsAtAdminId();
  }

  // ----- The rules without the table -----

  const LAX_DENIED := {"/admin", "/admin/", "/admin/m*", "/realms/master*"}

  const UNPROBED := "/admin/x"

  /** An id site that denies what the probes look at and passes another admin path on from the back channel. */
  const LAX_ID := [
    DENY_DOTDOT,
    DENY.(paths := Some(LAX_DENIED)),
    ProxyRow({BACKCHANNEL}, {"/admin/x"}, {}, "keycloak:8080", {}),
    ProxyRow({}, PUBLISHED_ID_PATHS, {}, "keycloak:8080", COMMITTED),
    DENY]

  lemma LaxPatterns()
    ensures PatternsAllowed(LAX_DENIED) && PatternsAllowed({UNPROBED})
  {
    PlainPattern("/admin");
    PlainPattern("/admin/");
    PlainPattern("/admin/m*");
    PlainPattern("/realms/master*");
    PlainPattern(UNPROBED);
  }

  predicate IsLaxDenied(path: string) {
    || Lower(path) == "/admin" || Lower(path) == "/admin/"
    || "/admin/m" <= Lower(path) || "/realms/master" <= Lower(path)
  }

  lemma LaxDeniedPaths(path: string)
    ensures MatchesAny(LAX_DENIED, path) <==> IsLaxDenied(path)
  {
    ExactPattern("/admin", path);
    ExactPattern("/admin/", path);
    assert "/admin/m" + "*" == "/admin/m*" && "/realms/master" + "*" == "/realms/master*";
    PrefixPattern("/admin/m", path);
    PrefixPattern("/realms/master", path);
    OnePattern("/admin", path);
    OnePattern("/admin/", path);
    OnePattern("/admin/m*", path);
    OnePattern("/realms/master*", path);
    MatchesEither({"/admin"}, {"/admin/"}, path);
    MatchesEither({"/admin/m*"}, {"/realms/master*"}, path);
    MatchesEither({"/admin"} + {"/admin/"}, {"/admin/m*"} + {"/realms/master*"}, path);
    assert LAX_DENIED == ({"/admin"} + {"/admin/"}) + ({"/admin/m*"} + {"/realms/master*"});
  }

  lemma StartsAs(root: string, path: string)
    requires |root| <= |path| && forall k :: 0 <= k < |root| ==> ToLower(path[k]) == root[k]
    ensures root <= Lower(path) && (|path| == |root| ==> Lower(path) == root)
  {
    assert Lower(path)[..|root|] == root;
  }

  lemma AdminProbesAreLaxDenied(i: nat)
    requires i < 6
    ensures IsLaxDenied(ADMIN_PROBES[i])
  {
    StartsAs(if i == 0 || i == 5 then "/admin" else if i == 1 || i == 4 then "/admin/" else "/admin/m", ADMIN_PROBES[i]);
  }

  lemma MasterProbesAreLaxDenied(i: nat)
    requires 6 <= i < 12
    ensures IsLaxDenied(ADMIN_PROBES[i])
  {
    StartsAs("/realms/master", ADMIN_PROBES[i]);
  }

  lemma UnprobedIsUnprobed(i: nat)
    requires i < |ADMIN_PROBES|
    ensures !MatchesAny({UNPROBED}, ADMIN_PROBES[i])
  {
    OnePattern(UNPROBED, ADMIN_PROBES[i]);
    ExactPattern(UNPROBED, ADMIN_PROBES[i]);
    ProbesAreLongerOrShorter(i);
  }

  lemma ProbesAreLongerOrShorter(i: nat)
    requires i < |ADMIN_PROBES|
    ensures |ADMIN_PROBES[i]| != |UNPROBED|
  {
  }

  lemma LaxDenialCoversTheProbes()
    ensures DeniesAdminPaths(LAX_ID[1]) && AdmitsNone({UNPROBED}, ADMIN_PROBES)
  {
    forall i: nat | i < |ADMIN_PROBES|
      ensures MatchesAny(LAX_DENIED, ADMIN_PROBES[i]) && !MatchesAny({UNPROBED}, ADMIN_PROBES[i])
    {
      UnprobedIsUnprobed(i);
      LaxDeniedPaths(ADMIN_PROBES[i]);
      if i < 6 {
        AdminProbesAreLaxDenied(i);
      } else {
        MasterProbesAreLaxDenied(i);
      }
    }
  }

  lemma LaxSiteObeysTheRules()
    ensures SiteAllowed(ID, LAX_ID)
    ensures PublishedOf(ID, LAX_ID) == {Published(ID, Some(PUBLISHED_ID_PATHS), Some("keycloak:8080"))}
  {
    LaxPatterns();
    TablePatternsAreAllowed();
    PublishedPathsAdmitNoProbe();
    LaxDenialCoversTheProbes();
    DenyRowsAllowed(ID, None, Some(DOTDOT_PATTERN));
    DenyRowsAllowed(ID, Some(LAX_DENIED), None);
    DenyRowsAllowed(ID, None, None);
    KeycloakRowAllowed(ID, {BACKCHANNEL}, {UNPROBED}, {});
    KeycloakRowAllowed(ID, {}, PUBLISHED_ID_PATHS, COMMITTED);
    PublishedOnly(ID, LAX_ID, 3);
  }

  lemma UnprobedPath()
    ensures Lower(UNPROBED) == UNPROBED && IsAdmin(UNPROBED) && !IsLaxDenied(UNPROBED) && !Climbs(UNPROBED)
  {
    UnderRoot("/admin", UNPROBED);
    assert Lower(UNPROBED) == UNPROBED;
    assert UNPROBED[7] == 'x' && "/admin/m"[7] == 'm' && |"/realms/master"| > |UNPROBED|;
    forall i | 0 <= i <= |UNPROBED| ensures !(".." <= UNPROBED[i..]) {
      if i < |UNPROBED| {
        assert UNPROBED[i..][0] == UNPROBED[i];
      }
    }
  }

  lemma LaxSitePassesItOn(env: Env, source: string)
    requires env.inRange(BACKCHANNEL, source)
    ensures TableAnswer(env, LAX_ID, Request("GET", UNPROBED, source)) == Proxied("keycloak:8080")
  {
    var req := Request("GET", UNPROBED, source);
    FirstRowsPass(env, req);
    UnprobedRow(env, req);
    ThirdRow(env, LAX_ID, req);
  }

  lemma FirstRowsPass(env: Env, req: Request)
    requires req.path == UNPROBED
    ensures !RowMatches(env, DENY_DOTDOT, req) && !RowMatches(env, DENY.(paths := Some(LAX_DENIED)), req)
  {
    UnprobedPath();
    FixedRows(env, req);
    RefusedPaths(env, LAX_DENIED, req);
    LaxDeniedPaths(UNPROBED);
  }

  lemma UnprobedRow(env: Env, req: Request)
    requires req.path == UNPROBED && env.inRange(BACKCHANNEL, req.source)
    ensures RowMatches(env, ProxyRow({BACKCHANNEL}, {UNPROBED}, {}, "keycloak:8080", {}), req)
  {
    UnprobedPath();
    BackchannelRow(env, BACKCHANNEL, {UNPROBED}, {}, "keycloak:8080", req);
    OnePattern(UNPROBED, UNPROBED);
    ExactPattern(UNPROBED, UNPROBED);
  }

  lemma ThirdRow(env: Env, table: seq<Summary>, req: Request)
    requires |table| > 2 && (forall i :: 0 <= i < |table| ==> table[i].Summary?) && RowMatches(env, table[2], req)
    requires !RowMatches(env, table[0], req) && !RowMatches(env, table[1], req)
    ensures TableAnswer(env, table, req) == Answered(table[2].target)
  {
    assert table[1..][1..] == table[2..];
    assert TableAnswer(env, table[1..], req) == TableAnswer(env, table[2..], req);
  }

  // A configuration of four sites whose routes summarize to given rows.

  function RouteOf(s: Summary): (r: Route)
    requires s.Summary?
  {
    var exclusions := if s.negated.None? then None else Some([NotRemoteIp(s.negated.value)]);
    var path, methods := if s.paths.None? then {} else s.paths.value, if s.methods.None? then {} else s.methods.value;
    var handler := match s.target case Proxy(upstreams) => ReverseProxy(upstreams) case Respond(status) => StaticResponse(status);
    Route([Match(s.ranges, exclusions, path, methods, s.regexp, s.extra)], [handler])
  }

  /** A row a route can have: sets that are given are not empty, and nothing unknown is excluded. */
  predicate IsRow(s: Summary) {
    IsPlain(s) && s.paths != Some({}) && s.methods != Some({})
  }

  lemma RouteOfSummarizes(s: Summary)
    requires IsRow(s)
    ensures RouteSummary(RouteOf(s)) == s
  {
    var handlers := RouteOf(s).handlers;
    assert handlers[1..] == [] && FirstProxy(handlers[1..]) == None;
    if s.negated.Some? {
      var exclusions := [NotRemoteIp(s.negated.value)];
      assert exclusions[1..] == [] && UnionOf(exclusions[1..]) == {};
      assert UnionOf(exclusions) == s.negated.value;
    }
  }

  function RoutesFor(table: seq<Summary>): (routes: seq<Route>)
    requires forall i :: 0 <= i < |table| ==> IsRow(table[i])
    ensures |routes| == |table|
  {
    seq(|table|, i requires 0 <= i < |table| => assert IsRow(table[i]); RouteOf(table[i]))
  }

  lemma RoutesForSummarize(table: seq<Summary>)
    requires forall i :: 0 <= i < |table| ==> IsRow(table[i])
    ensures SummarizesAs(RoutesFor(table), table) && Summaries(RoutesFor(table)) == table
  {
    forall i | 0 <= i < |table| ensures RouteSummary(RoutesFor(table)[i]) == table[i] {
      RouteOfSummarizes(table[i]);
    }
  }

  lemma TablesAreRows(site: Site)
    ensures forall i :: 0 <= i < |ExpectedRoutes(site)| ==> IsRow(ExpectedRoutes(site)[i])
    ensures forall i :: 0 <= i < |LAX_ID| ==> IsRow(LAX_ID[i])
  {
  }

  /** The table's routes on every site but the id site on 8443. */
  function LaxSites(): (sites: map<Site, seq<Route>>)
    ensures sites.Keys == {APP, ID, API, ADMIN_ID}
  {
    TablesAreRows(APP);
    TablesAreRows(API);
    TablesAreRows(ADMIN_ID);
    map[APP := RoutesFor(ExpectedRoutes(APP)), ID := RoutesFor(LAX_ID),
        API := RoutesFor(ExpectedRoutes(API)), ADMIN_ID := RoutesFor(ExpectedRoutes(ADMIN_ID))]
  }

  lemma LaxSitesSummarize()
    ensures RoutesOf(LaxSites(), APP) == ExpectedRoutes(APP) && RoutesOf(LaxSites(), ID) == LAX_ID
    ensures RoutesOf(LaxSites(), API) == ExpectedRoutes(API) && RoutesOf(LaxSites(), ADMIN_ID) == ExpectedRoutes(ADMIN_ID)
  {
    TablesAreRows(APP);
    TablesAreRows(API);
    TablesAreRows(ADMIN_ID);
    RoutesForSummarize(ExpectedRoutes(APP));
    RoutesForSummarize(LAX_ID);
    RoutesForSummarize(ExpectedRoutes(API));
    RoutesForSummarize(ExpectedRoutes(ADMIN_ID));
  }

  lemma LaxSitesObeyTheRules()
    ensures RulesHold(LaxSites())
  {
    var sites := LaxSites();
    LaxSitesSummarize();
    LaxSiteObeysTheRules();
    TableAllowsAtApp();
    TableAllowsAtId();
    TableAllowsAtApi();
    TableAllowsAtAdminId();
    forall i | 0 <= i < |LAYOUT| ensures AllowedAt(sites, LAYOUT[i]) {
      assert Summaries(sites[LAYOUT[i]]) == RoutesOf(sites, LAYOUT[i]);
    }
    TablePublishes();
  }

  /**
    The rules alone do not keep admin paths off 8443, because they look at probes: this configuration obeys all
    of them and passes an admin path on. Only the comparison with the table refuses it.
   */
  lemma RulesAloneAdmitAnAdminPath(env: Env, source: string)
    requires env.inRange(BACKCHANNEL, source)
    ensures RulesHold(LaxSites()) && !Accepted(LaxSites())
    ensures IsAdmin(UNPROBED) && MatchesAny(ADMIN_PATHS, UNPROBED)
    ensures Evaluate(env, LaxSites()[ID], Request("GET", UNPROBED, source)) == Proxied("keycloak:8080")
  {
    var req := Request("GET", UNPROBED, source);
    LaxSitesObeyTheRules();
    UnprobedPath();
    AdminPaths(UNPROBED);
    TablesAreRows(ID);
    RoutesForSummarize(LAX_ID);
    AnswersAsTheTable(env, LaxSites()[ID], LAX_ID, req);
    LaxSitePassesItOn(env, source);
    if Accepted(LaxSites()) {
      AdminPathsStayOnTheirListener(env, LaxSites(), req);
    }
  }

  // ----- Exactly when the rules keep admin paths off 8443 -----

  /** A route of a site on 8443 to the identity provider. */
  predicate IsKeycloakRoute(sites: map<Site, seq<Route>>, site: Site, i: nat) {
    && site in LAYOUT && site in sites && site.port == HTTPS_PORT && i < |sites[site]|
    && RouteSummary(sites[site][i]).Summary? && RouteSummary(sites[site][i]).target == KEYCLOAK
  }

  predicate PatternsApart(s: Summary)
    requires s.Summary?
  {
    s.paths.Some? && forall p :: p in s.paths.value ==> ApartFromAdmin(p)
  }

  ghost predicate AdmitsNoAdminPath(s: Summary)
    requires s.Summary?
  {
    forall path :: (s.paths.Some? ==> MatchesAny(s.paths.value, path)) ==> !IsAdmin(path)
  }

  lemma PublishedPatternsAreApart()
    ensures forall p :: p in PUBLISHED_ID_PATHS ==> ApartFromAdmin(p)
    ensures !ApartFromAdmin(UNPROBED)
  {
    PublishedAreApart();
    UnprobedIsNot();
  }

  lemma PublishedAreApart()
    ensures forall p :: p in PUBLISHED_ID_PATHS ==> ApartFromAdmin(p)
  {
    forall path | MatchesAny(PUBLISHED_ID_PATHS, path) ensures !IsAdmin(path) {
      PublishedPaths(path);
      AdminPathsStandApart(path);
    }
    SetAdmitsNoAdminPathIff(PUBLISHED_ID_PATHS);
  }

  lemma UnprobedIsNot()
    ensures !ApartFromAdmin(UNPROBED)
  {
    UnprobedPath();
    ExactPattern(UNPROBED, UNPROBED);
    AdmitsNoAdminPathIff(UNPROBED);
  }

  /** A route that the rules allow admits no admin path if and only if each of its patterns is apart from them. */
  lemma KeycloakRouteAdmitsNoAdminPathIff(site: Site, s: Summary)
    requires RouteAllowed(site, s) && site.port == HTTPS_PORT && s.target == KEYCLOAK
    ensures AdmitsNoAdminPath(s) <==> PatternsApart(s)
  {
    SetAdmitsNoAdminPathIff(s.paths.value);
    if AdmitsNoAdminPath(s) {
      forall path | MatchesAny(s.paths.value, path) ensures !IsAdmin(path) {
      }
    }
  }

  lemma KeycloakRoutesAreAllowed(sites: map<Site, seq<Route>>, site: Site, i: nat)
    requires RulesHold(sites) && IsKeycloakRoute(sites, site, i)
    ensures RouteAllowed(site, RouteSummary(sites[site][i]))
  {
    var n :| 0 <= n < |LAYOUT| && LAYOUT[n] == site;
    assert AllowedAt(sites, LAYOUT[n]);
    assert Summaries(sites[site])[i] == RouteSummary(sites[site][i]);
  }

  /** And so for a whole configuration that obeys the rules, over every route to the identity provider on 8443. */
  lemma RulesKeepAdminPathsOutIff(sites: map<Site, seq<Route>>)
    requires RulesHold(sites)
    ensures (forall site, i: nat :: IsKeycloakRoute(sites, site, i) ==> AdmitsNoAdminPath(RouteSummary(sites[site][i])))
       <==> (forall site, i: nat :: IsKeycloakRoute(sites, site, i) ==> PatternsApart(RouteSummary(sites[site][i])))
  {
    forall site, i: nat | IsKeycloakRoute(sites, site, i)
      ensures AdmitsNoAdminPath(RouteSummary(sites[site][i])) <==> PatternsApart(RouteSummary(sites[site][i]))
    {
      KeycloakRoutesAreAllowed(sites, site, i);
      KeycloakRouteAdmitsNoAdminPathIff(site, RouteSummary(sites[site][i]));
    }
  }

  /** Then no request for an admin path is passed on to the identity provider by any site on 8443. */
  lemma ApartRoutesKeepAdminPathsOut(env: Env, sites: map<Site, seq<Route>>, site: Site, req: Request)
    requires RulesHold(sites) && site in LAYOUT && site in sites && site.port == HTTPS_PORT
    requires forall i: nat :: IsKeycloakRoute(sites, site, i) ==> PatternsApart(RouteSummary(sites[site][i]))
    ensures IsAdmin(req.path) ==> Evaluate(env, sites[site], req) != Answered(KEYCLOAK)
  {
    var routes := sites[site];
    if IsAdmin(req.path) {
      forall i: nat | i < |routes| && RouteAnswer(routes[i]) == Answered(KEYCLOAK)
        ensures !RouteMatches(env, routes[i], req)
      {
        AnsweringRoutesSummarize(sites, site, i);
        SetAdmitsNoAdminPathIff(RouteSummary(routes[i]).paths.value);
      }
      NoMatchNoAnswer(env, routes, req, KEYCLOAK);
    }
  }

  /** Under the rules every route has a full summary, so what it does is what the summary says. */
  lemma AnsweringRoutesSummarize(sites: map<Site, seq<Route>>, site: Site, i: nat)
    requires RulesHold(sites) && site in LAYOUT && site in sites && site.port == HTTPS_PORT && i < |sites[site]|
    requires RouteAnswer(sites[site][i]) == Answered(KEYCLOAK)
    ensures IsKeycloakRoute(sites, site, i)
  {
    var n :| 0 <= n < |LAYOUT| && LAYOUT[n] == site;
    assert AllowedAt(sites, LAYOUT[n]);
    assert Summaries(sites[site])[i] == RouteSummary(sites[site][i]);
    assert RouteAllowed(site, Summaries(sites[site])[i]);
  }

  lemma {:induction false} NoMatchNoAnswer(env: Env, routes: seq<Route>, req: Request, target: Target)
    requires forall i: nat :: i < |routes| && RouteAnswer(routes[i]) == Answered(target) ==> !RouteMatches(env, routes[i], req)
    ensures Evaluate(env, routes, req) != Answered(target)
  {
    if routes != [] {
      forall i: nat | i < |routes[1..]| && RouteAnswer(routes[1..][i]) == Answered(target)
        ensures !RouteMatches(env, routes[1..][i], req)
      {
        assert routes[1..][i] == routes[i + 1];
      }
      NoMatchNoAnswer(env, routes[1..], req, target);
    }
  }

  // ----- The rules as they run -----

  method AnyMatches(patterns: set<string>, path: string) returns (any: bool)
    ensures any == MatchesAny(patterns, path)
  {
    var left := patterns;
    while left != {}
      invariant left <= patterns && forall p :: p in patterns && p !in left ==> !CaddyPathMatches(p, path)
      decreases left
    {
      var p :| p in left;
      var matches := Matches(p, path);
      if matches {
        return true;
      }
      left := left - {p};
    }
    any := false;
  }

  method PatternProblems(site: Site, route: nat, patterns: set<string>) returns (problems: seq<RuleProblem>)
    ensures problems == [] <==> PatternsAllowed(patterns)
  {
    problems := [];
    var left := patterns;
    while left != {}
      invariant left <= patterns
      invariant problems == [] <==> forall p :: p in patterns && p !in left ==> PatternAllowed(p)
      decreases left
    {
      var p :| p in left;
      if '%' in p {
        problems := problems + [EscapedPattern(site, route)];
      }
      if Contains(p, "//") {
        problems := problems + [DoubleSlashPattern(site, route)];
      }
      if HasInnerStar(p) {
        problems := problems + [InnerStarPattern(site, route)];
      }
      left := left - {p};
    }
  }

  method ProbeProblems(site: Site, route: nat, patterns: set<string>, probes: seq<string>)
    returns (problems: seq<RuleProblem>)
    ensures problems == [] <==> AdmitsNone(patterns, probes)
  {
    problems := [];
    for i := 0 to |probes|
      invariant problems == [] <==> forall k :: 0 <= k < i ==> !MatchesAny(patterns, probes[k])
    {
      var admits := AnyMatches(patterns, probes[i]);
      if admits {
        problems := problems + [AdmitsAdminPath(site, route, probes[i])];
      }
    }
  }

  method AdmitsOne(patterns: set<string>, probes: seq<string>) returns (admits: bool)
    ensures admits <==> !AdmitsNone(patterns, probes)
  {
    for i := 0 to |probes|
      invariant forall k :: 0 <= k < i ==> !MatchesAny(patterns, probes[k])
    {
      admits := AnyMatches(patterns, probes[i]);
      if admits {
        return;
      }
    }
    admits := false;
  }

  method AdmitsEvery(patterns: set<string>, probes: seq<string>) returns (admits: bool)
    ensures admits <==> AdmitsAll(patterns, probes)
  {
    for i := 0 to |probes|
      invariant forall k :: 0 <= k < i ==> MatchesAny(patterns, probes[k])
    {
      admits := AnyMatches(patterns, probes[i]);
      if !admits {
        return;
      }
    }
    admits := true;
  }

  method ProxyProblems(site: Site, route: nat, s: Summary) returns (problems: seq<RuleProblem>)
    requires s.Summary? && s.target.Proxy?
    ensures problems == [] <==> ProxyAllowed(site, s)
  {
    problems := [];
    if HasRanges(s) {
      if !(s.ranges.value <= COMMITTED) {
        problems := problems + [SourceAllowList(site, route)];
      }
    } else if s.negated != Some(COMMITTED) {
      problems := problems + [NotPublishedForm(site, route)];
    }
    if site.name == "id" && (s.regexp.Some? || s.extra != {}) {
      problems := problems + [MatcherOnIdHost(site, route)];
    }
    if site.port == HTTPS_PORT && s.target == KEYCLOAK {
      if s.paths.None? || s.regexp.Some? || s.methods.Some? || s.extra != {} {
        problems := problems + [NotOnPathOnly(site, route)];
      } else {
        var admitted := ProbeProblems(site, route, s.paths.value, ADMIN_PROBES);
        problems := problems + admitted;
      }
    }
    if site.port == ADMIN_PORT {
      if s.target != KEYCLOAK || s.paths != Some(ADMIN_LISTENER_PATHS) {
        problems := problems + [NotTheAdminPaths(site, route)];
      } else {
        var admits := AdmitsOne(s.paths.value, ADMIN_LISTENER_REFUSED);
        if admits {
          problems := problems + [AdmitsRefusedPath(site, route)];
        }
      }
    }
  }

  method RouteProblems(site: Site, route: nat, s: Summary) returns (problems: seq<RuleProblem>)
    ensures problems == [] <==> RouteAllowed(site, s)
  {
    if !s.Summary? {
      return [UnknownRoute(site, route)];
    }
    problems := [];
    if site.name == "id" && s.paths.Some? {
      problems := PatternProblems(site, route, s.paths.value);
    }
    if s.target.Proxy? {
      var more := ProxyProblems(site, route, s);
      problems := problems + more;
    }
  }

  method DeniesProbes(s: Summary) returns (denies: bool)
    ensures denies == DeniesAdminPaths(s)
  {
    if !s.Summary? || s.target != Respond(DENY_STATUS) || s.paths.None? {
      return false;
    }
    denies := AdmitsEvery(s.paths.value, ADMIN_PROBES);
  }

  method SiteRuleProblems(site: Site, ss: seq<Summary>) returns (problems: seq<RuleProblem>, found: set<Published>)
    ensures problems == [] <==> SiteAllowed(site, ss)
    ensures found == PublishedOf(site, ss)
  {
    problems, found := [], {};
    for n := 0 to |ss|
      invariant problems == [] <==> forall i :: 0 <= i < n ==> RouteAllowed(site, ss[i])
      invariant found == PublishedOf(site, ss[..n])
    {
      assert ss[..n + 1][..n] == ss[..n];
      var more := RouteProblems(site, n + 1, ss[n]);
      problems := problems + more;
      if IsPublished(ss[n]) {
        found := found + {AsPublished(site, ss[n])};
      }
    }
    assert ss[..|ss|] == ss;
    if site == ID {
      var denies := false;
      if |ss| > 1 {
        denies := DeniesProbes(ss[1]);
      }
      if !denies {
        problems := problems + [SecondRouteNotAdminDenial];
      }
    }
    if site.port == ADMIN_PORT && (ss == [] || ss[|ss| - 1] != DENY) {
      problems := problems + [NoCatchAll];
    }
  }

  /** The published routes of the first `n` sites of a layout. */
  function PublishedFirst(sites: map<Site, seq<Route>>, layout: seq<Site>, n: nat): (found: set<Published>)
    requires n <= |layout|
  {
    if n == 0 then {}
    else PublishedFirst(sites, layout, n - 1) + PublishedOf(layout[n - 1], RoutesOf(sites, layout[n - 1]))
  }

  lemma LayoutIsFourSites(sites: map<Site, seq<Route>>)
    ensures PublishedFirst(sites, LAYOUT, |LAYOUT|) == AllPublished(sites)
  {
    var layout := LAYOUT;
    assert PublishedFirst(sites, layout, 1) == PublishedOf(APP, RoutesOf(sites, APP));
    assert PublishedFirst(sites, layout, 2)
        == PublishedFirst(sites, layout, 1) + PublishedOf(ID, RoutesOf(sites, ID));
    assert PublishedFirst(sites, layout, 4)
        == PublishedFirst(sites, layout, 3) + PublishedOf(ADMIN_ID, RoutesOf(sites, ADMIN_ID));
  }

  method DifferenceProblems(found: set<Published>) returns (problems: seq<RuleProblem>)
    ensures problems == [] <==> found == PUBLISHED_ROUTES
  {
    problems := [];
    var extra, missing := found - PUBLISHED_ROUTES, PUBLISHED_ROUTES - found;
    while extra != {}
      invariant extra <= found - PUBLISHED_ROUTES
      invariant problems == [] <==> extra == found - PUBLISHED_ROUTES
      decreases extra
    {
      var p :| p in extra;
      problems, extra := problems + [NotInPublishedRoutes(p)], extra - {p};
    }
    ghost var before := problems;
    while missing != {}
      invariant missing <= PUBLISHED_ROUTES - found
      invariant problems == [] <==> before == [] && missing == PUBLISHED_ROUTES - found
      decreases missing
    {
      var p :| p in missing;
      problems, missing := problems + [NoSuchPublishedRoute(p)], missing - {p};
    }
  }

  ghost predicate AllowedFirst(sites: map<Site, seq<Route>>, layout: seq<Site>, n: nat)
    requires n <= |layout|
  {
    n == 0 || (AllowedFirst(sites, layout, n - 1) && AllowedAt(sites, layout[n - 1]))
  }

  lemma {:induction false} AllowedFirstIsAll(sites: map<Site, seq<Route>>, layout: seq<Site>, n: nat)
    requires n <= |layout|
    ensures AllowedFirst(sites, layout, n) <==> forall i :: 0 <= i < n ==> AllowedAt(sites, layout[i])
  {
    if n > 0 {
      AllowedFirstIsAll(sites, layout, n - 1);
    }
  }

  method LayoutRuleProblems(sites: map<Site, seq<Route>>, layout: seq<Site>)
    returns (problems: seq<RuleProblem>, found: set<Published>)
    ensures problems == [] <==> AllowedFirst(sites, layout, |layout|)
    ensures found == PublishedFirst(sites, layout, |layout|)
  {
    problems, found := [], {};
    for n := 0 to |layout|
      invariant problems == [] <==> AllowedFirst(sites, layout, n)
      invariant found == PublishedFirst(sites, layout, n)
    {
      var more, published := ProblemsAt(sites, layout[n]);
      problems, found := problems + more, found + published;
    }
  }

  /** A site that is missing has been named already and is passed over. */
  method ProblemsAt(sites: map<Site, seq<Route>>, site: Site) returns (problems: seq<RuleProblem>, found: set<Published>)
    ensures problems == [] <==> AllowedAt(sites, site)
    ensures found == PublishedOf(site, RoutesOf(sites, site))
  {
    if site !in sites {
      return [], {};
    }
    problems, found := SiteRuleProblems(site, Summaries(sites[site]));
  }

  /** The rules as a whole: silent exactly when every site obeys them and the published routes are the listed ones. */
  method EdgeRuleProblems(sites: map<Site, seq<Route>>) returns (problems: seq<RuleProblem>)
    ensures problems == [] <==> RulesHold(sites)
  {
    var found;
    problems, found := LayoutRuleProblems(sites, LAYOUT);
    AllowedFirstIsAll(sites, LAYOUT, |LAYOUT|);
    LayoutIsFourSites(sites);
    var differing := DifferenceProblems(found);
    problems := problems + differing;
  }
}
