/** The guard over a configuration: it lists every way in which the sites differ from the edge table. */
module EdgeGuard {
  import opened EdgeTable

  datatype Problem =
    | WrongListener
    | WrongSites(port: int)
    | WrongRouteCount(site: Site, found: nat, expected: nat)
    | RouteDiffers(site: Site, route: nat)

  function Summaries(routes: seq<Route>): (ss: seq<Summary>)
    ensures |ss| == |routes| && forall i :: 0 <= i < |ss| ==> ss[i] == RouteSummary(routes[i])
  {
    seq(|routes|, i requires 0 <= i < |routes| => RouteSummary(routes[i]))
  }

  /** One problem for each route, counted from one, that differs among the first `n`. */
  function Differences(site: Site, got: seq<Summary>, want: seq<Summary>, n: nat): (problems: seq<Problem>)
    requires n <= |got| == |want|
    ensures problems == [] <==> forall i :: 0 <= i < n ==> got[i] == want[i]
  {
    if n == 0 then []
    else Differences(site, got, want, n - 1) + if got[n - 1] != want[n - 1] then [RouteDiffers(site, n)] else []
  }

  function SiteProblems(site: Site, got: seq<Summary>, want: seq<Summary>): (problems: seq<Problem>)
    ensures problems == [] <==> got == want
  {
    if |got| != |want| then [WrongRouteCount(site, |got|, |want|)] else Differences(site, got, want, |got|)
  }

  method CompareSite(site: Site, routes: seq<Route>) returns (problems: seq<Problem>)
    ensures problems == SiteProblems(site, Summaries(routes), ExpectedRoutes(site))
  {
    var got, want := Summaries(routes), ExpectedRoutes(site);
    if |got| != |want| {
      return [WrongRouteCount(site, |got|, |want|)];
    }
    problems := [];
    for index := 0 to |got|
      invariant problems == Differences(site, got, want, index)
    {
      if got[index] != want[index] {
        problems := problems + [RouteDiffers(site, index + 1)];
      }
    }
  }

  function SitesOn(sites: map<Site, seq<Route>>, port: int): (found: set<Site>)
    ensures forall s :: s in found <==> s in sites && s.port == port
  {
    set s | s in sites && s.port == port
  }

  function SitesElsewhere(sites: map<Site, seq<Route>>): (found: set<Site>)
    ensures forall s :: s in found <==> s in sites && s.port != HTTPS_PORT && s.port != ADMIN_PORT
  {
    set s | s in sites && s.port != HTTPS_PORT && s.port != ADMIN_PORT
  }

  function SiteSetProblems(sites: map<Site, seq<Route>>): (problems: seq<Problem>) {
    (if SitesElsewhere(sites) != {} then [WrongListener] else [])
    + (if SitesOn(sites, HTTPS_PORT) != {APP, ID, API} then [WrongSites(HTTPS_PORT)] else [])
    + if SitesOn(sites, ADMIN_PORT) != {ADMIN_ID} then [WrongSites(ADMIN_PORT)] else []
  }

  /** The problems of the first `n` sites of the layout; a site that is missing has been named already. */
  function LayoutProblems(sites: map<Site, seq<Route>>, n: nat): (problems: seq<Problem>)
    requires n <= |LAYOUT|
  {
    if n == 0 then []
    else
      var site := LAYOUT[n - 1];
      LayoutProblems(sites, n - 1)
      + if site in sites then SiteProblems(site, Summaries(sites[site]), ExpectedRoutes(site)) else []
  }

  method CompareLayout(sites: map<Site, seq<Route>>) returns (problems: seq<Problem>)
    ensures problems == LayoutProblems(sites, |LAYOUT|)
  {
    problems := [];
    for n := 0 to |LAYOUT|
      invariant problems == LayoutProblems(sites, n)
    {
      var site := LAYOUT[n];
      if site in sites {
        var found := CompareSite(site, sites[site]);
        problems := problems + found;
      }
    }
  }

  method CaddyProblems(sites: map<Site, seq<Route>>) returns (problems: seq<Problem>)
    ensures problems == [] <==> Accepted(sites)
  {
    problems := [];
    if SitesElsewhere(sites) != {} {
      problems := problems + [WrongListener];
    }
    if SitesOn(sites, HTTPS_PORT) != {APP, ID, API} {
      problems := problems + [WrongSites(HTTPS_PORT)];
    }
    if SitesOn(sites, ADMIN_PORT) != {ADMIN_ID} {
      problems := problems + [WrongSites(ADMIN_PORT)];
    }
    assert problems == SiteSetProblems(sites);
    var differing := CompareLayout(sites);
    problems := problems + differing;
    AcceptedIffNoProblem(sites);
  }

  lemma {:induction false} NoLayoutProblem(sites: map<Site, seq<Route>>, n: nat)
    requires n <= |LAYOUT|
    ensures LayoutProblems(sites, n) == [] <==>
      forall i :: 0 <= i < n && LAYOUT[i] in sites ==> Summaries(sites[LAYOUT[i]]) == ExpectedRoutes(LAYOUT[i])
  {
    if n > 0 {
      NoLayoutProblem(sites, n - 1);
    }
  }

  lemma SitesAreTheLayout(sites: map<Site, seq<Route>>)
    ensures SiteSetProblems(sites) == [] <==> sites.Keys == {APP, ID, API, ADMIN_ID}
  {
    var https, admin := SitesOn(sites, HTTPS_PORT), SitesOn(sites, ADMIN_PORT);
    assert sites.Keys == https + admin + SitesElsewhere(sites);
    if sites.Keys == {APP, ID, API, ADMIN_ID} {
      assert https == {APP, ID, API} && admin == {ADMIN_ID} && SitesElsewhere(sites) == {};
    }
  }

  /** The guard is silent exactly on the configurations whose sites and routes are the table's. */
  lemma AcceptedIffNoProblem(sites: map<Site, seq<Route>>)
    ensures SiteSetProblems(sites) + LayoutProblems(sites, |LAYOUT|) == [] <==> Accepted(sites)
  {
    SitesAreTheLayout(sites);
    NoLayoutProblem(sites, |LAYOUT|);
    if sites.Keys == {APP, ID, API, ADMIN_ID} {
      forall i: nat | i < |LAYOUT|
        ensures Summaries(sites[LAYOUT[i]]) == ExpectedRoutes(LAYOUT[i])
           <==> SummarizesAs(sites[LAYOUT[i]], ExpectedRoutes(LAYOUT[i]))
      {
        SameSummaries(sites[LAYOUT[i]], ExpectedRoutes(LAYOUT[i]));
      }
    }
  }

  lemma SameSummaries(routes: seq<Route>, table: seq<Summary>)
    ensures Summaries(routes) == table <==> SummarizesAs(routes, table)
  {
  }
}
