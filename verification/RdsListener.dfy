/** Moving inline route configurations out of listeners and into RDS
    (pkg/ambex/transforms.go, V3ListenerToRdsListener). */
module RdsListener {
  import opened Wrappers
  import opened Names

  /** `body` stands for everything in a RouteConfiguration but its name. */
  datatype RouteConfig = RouteConfig(name: string, body: string)

  datatype RouteSpecifier =
    | Inline(rc: RouteConfig)
    | Rds(routeConfigName: string, source: string)
    | Scoped(scopes: string)
    | Unset

  datatype FilterConfig =
    | Hcm(route: RouteSpecifier, other: string)   // decodes as an HttpConnectionManager
    | Opaque(bytes: string)                       // does not

  datatype Filter = Filter(name: string, config: FilterConfig)
  datatype Chain = Chain(match_: string, filters: seq<Filter>)
  datatype Listener = Listener(name: string, chains: seq<Chain>, other: string)

  const HTTP_CONNECTION_MANAGER := "envoy.filters.network.http_connection_manager"
  const ADS_V3 := "ads/v3"

  predicate IsInline(f: Filter) {
    f.name == HTTP_CONNECTION_MANAGER && f.config.Hcm? && f.config.route.Inline?
  }

  function WithRds(f: Filter, name: string): Filter
    requires IsInline(f)
  {
    f.(config := f.config.(route := Rds(name, ADS_V3)))
  }

  // ---------------------------------------------------------------- a reference definition

  /** An inline route configuration and the hash of the chain match it sits under. */
  datatype Site = Site(key: string, rc: RouteConfig)

  function ChainSites(hash: string -> string, c: Chain, j: nat): seq<Site>
    requires j <= |c.filters|
  {
    if j == 0 then []
    else
      ChainSites(hash, c, j - 1) +
      if IsInline(c.filters[j - 1]) then [Site(hash(c.match_), c.filters[j - 1].config.route.rc)] else []
  }

  function SitesBefore(hash: string -> string, l: Listener, i: nat): seq<Site>
    requires i <= |l.chains|
  {
    if i == 0 then [] else SitesBefore(hash, l, i - 1) + ChainSites(hash, l.chains[i - 1], |l.chains[i - 1].filters|)
  }

  /** Every inline site ahead of filter `j` of chain `i`, in order. */
  function Ahead(hash: string -> string, l: Listener, i: nat, j: nat): seq<Site>
    requires i < |l.chains| && j <= |l.chains[i].filters|
  {
    SitesBefore(hash, l, i) + ChainSites(hash, l.chains[i], j)
  }

  function Sites(hash: string -> string, l: Listener): seq<Site> {
    SitesBefore(hash, l, |l.chains|)
  }

  /** How many of the sites are unnamed and have this hash. */
  function Unnamed(sites: seq<Site>, key: string): nat {
    if sites == [] then 0
    else
      var last := sites[|sites| - 1];
      Unnamed(sites[..|sites| - 1], key) + if last.key == key && last.rc.name == "" then 1 else 0
  }

  function GeneratedName(listener: string, key: string, n: nat): string {
    listener + "-routeconfig-" + key + "-" + Dec(n)
  }

  /** The route a site becomes, given the sites ahead of it. */
  function Named(listener: string, ahead: seq<Site>, site: Site): RouteConfig {
    if site.rc.name != "" then site.rc
    else site.rc.(name := GeneratedName(listener, site.key, Unnamed(ahead, site.key)))
  }

  function Route(listener: string, sites: seq<Site>, k: nat): RouteConfig
    requires k < |sites|
  {
    Named(listener, sites[..k], sites[k])
  }

  function Routes(listener: string, sites: seq<Site>): (rs: seq<RouteConfig>)
    ensures |rs| == |sites| && forall k :: 0 <= k < |rs| ==> rs[k] == Route(listener, sites, k)
  {
    seq(|sites|, k requires 0 <= k < |sites| => Route(listener, sites, k))
  }

  /** What filter `j` of chain `i` becomes. */
  function Rewritten(hash: string -> string, l: Listener, i: nat, j: nat): Filter
    requires i < |l.chains| && j < |l.chains[i].filters|
  {
    var f := l.chains[i].filters[j];
    if IsInline(f) then
      WithRds(f, Named(l.name, Ahead(hash, l, i, j), Site(hash(l.chains[i].match_), f.config.route.rc)).name)
    else f
  }

  predicate ChainRewritten(hash: string -> string, l: Listener, i: nat, c: Chain)
    requires i < |l.chains|
  {
    c.match_ == l.chains[i].match_ && |c.filters| == |l.chains[i].filters| &&
    forall j :: 0 <= j < |c.filters| ==> c.filters[j] == Rewritten(hash, l, i, j)
  }

  predicate ListenerRewritten(hash: string -> string, l: Listener, l': Listener) {
    l'.name == l.name && l'.other == l.other && |l'.chains| == |l.chains| &&
    forall i :: 0 <= i < |l.chains| ==> ChainRewritten(hash, l, i, l'.chains[i])
  }

  // ---------------------------------------------------------------- the transform

  lemma RoutesSnoc(listener: string, sites: seq<Site>, site: Site)
    ensures Routes(listener, sites + [site]) == Routes(listener, sites) + [Named(listener, sites, site)]
  {
    var all := sites + [site];
    assert all[..|sites|] == sites;
    forall k | 0 <= k < |sites| ensures Route(listener, all, k) == Route(listener, sites, k) {
      assert all[..k] == sites[..k];
    }
  }

  lemma UnnamedSnoc(sites: seq<Site>, site: Site, key: string)
    ensures Unnamed(sites + [site], key) == Unnamed(sites, key) + if site.key == key && site.rc.name == "" then 1 else 0
  {
    assert (sites + [site])[..|sites|] == sites;
  }

  /** The counter map holds, for each hash, the number of unnamed sites seen under it. */
  ghost predicate Counts(index: map<string, nat>, sites: seq<Site>) {
    forall key :: Unnamed(sites, key) == if key in index then index[key] else 0
  }

  /** One inline site: name it, remember the name, keep the counters right. */
  method NameSite(listener: string, index: map<string, nat>, site: Site, ghost ahead: seq<Site>)
    returns (rc: RouteConfig, index': map<string, nat>)
    requires Counts(index, ahead)
    ensures rc == Named(listener, ahead, site)
    ensures Counts(index', ahead + [site])
  {
    rc, index' := site.rc, index;
    forall key
      ensures Unnamed(ahead + [site], key) ==
        Unnamed(ahead, key) + if site.key == key && site.rc.name == "" then 1 else 0
    {
      UnnamedSnoc(ahead, site, key);
    }
    if rc.name == "" {
      var n := if site.key in index then index[site.key] else 0;
      rc := rc.(name := listener + "-routeconfig-" + site.key + "-" + Dec(n));
      index' := index[site.key := n + 1];
    }
  }

  /** The outer and inner loop of V3ListenerToRdsListener. */
  method ListenerToRds(lnr: Listener, hash: string -> string) returns (l: Listener, routes: seq<RouteConfig>)
    ensures ListenerRewritten(hash, lnr, l)
    ensures routes == Routes(lnr.name, Sites(hash, lnr))
  {
    var chains: seq<Chain> := [];
    var index: map<string, nat> := map[];
    routes := [];
    for i := 0 to |lnr.chains|
      invariant |chains| == i && forall k :: 0 <= k < i ==> ChainRewritten(hash, lnr, k, chains[k])
      invariant Counts(index, SitesBefore(hash, lnr, i))
      invariant routes == Routes(lnr.name, SitesBefore(hash, lnr, i))
    {
      var fc;
      fc, index, routes := RewriteChain(lnr, hash, i, index, routes);
      chains := chains + [fc];
    }
    l := lnr.(chains := chains);
  }

  method RewriteChain(
    lnr: Listener, hash: string -> string, i: nat, index0: map<string, nat>, routes0: seq<RouteConfig>)
    returns (fc: Chain, index: map<string, nat>, routes: seq<RouteConfig>)
    requires i < |lnr.chains|
    requires Counts(index0, SitesBefore(hash, lnr, i)) && routes0 == Routes(lnr.name, SitesBefore(hash, lnr, i))
    ensures ChainRewritten(hash, lnr, i, fc)
    ensures Counts(index, SitesBefore(hash, lnr, i + 1)) && routes == Routes(lnr.name, SitesBefore(hash, lnr, i + 1))
  {
    hide Counts, Unnamed;
    var c := lnr.chains[i];
    var filters: seq<Filter> := [];
    index, routes := index0, routes0;
    assert Ahead(hash, lnr, i, 0) == SitesBefore(hash, lnr, i);
    for j := 0 to |c.filters|
      invariant |filters| == j && forall k :: 0 <= k < j ==> filters[k] == Rewritten(hash, lnr, i, k)
      invariant Counts(index, Ahead(hash, lnr, i, j))
      invariant routes == Routes(lnr.name, Ahead(hash, lnr, i, j))
    {
      var f := c.filters[j];
      if IsInline(f) {
        var site := Site(hash(c.match_), f.config.route.rc);
        ghost var ahead := Ahead(hash, lnr, i, j);
        var rc;
        rc, index := NameSite(lnr.name, index, site, ahead);
        RoutesSnoc(lnr.name, ahead, site);
        assert Ahead(hash, lnr, i, j + 1) == ahead + [site];
        routes := routes + [rc];
        filters := filters + [WithRds(f, rc.name)];
      } else {
        assert Ahead(hash, lnr, i, j + 1) == Ahead(hash, lnr, i, j);
        filters := filters + [f];
      }
    }
    fc := c.(filters := filters);
  }

  // ---------------------------------------------------------------- names

  /** A generated name gives back the listener, the hash and the number it was made from. */
  lemma GeneratedNameInjective(l1: string, k1: string, n1: nat, l2: string, k2: string, n2: nat)
    requires |k1| == |k2| && GeneratedName(l1, k1, n1) == GeneratedName(l2, k2, n2)
    ensures l1 == l2 && k1 == k2 && n1 == n2
  {
    var mid := "-routeconfig-";
    var a, b := l1 + mid + k1, l2 + mid + k2;
    DecFree('-', n1);
    DecFree('-', n2);
    assert GeneratedName(l1, k1, n1) == a + ['-'] + Dec(n1);
    assert GeneratedName(l2, k2, n2) == b + ['-'] + Dec(n2);
    LastSeparator('-', a, Dec(n1), b, Dec(n2));
    DecInjective(n1, n2);
    SameSuffix(l1 + mid, k1, l2 + mid, k2);
    SameSuffix(l1, mid, l2, mid);
  }

  lemma SameSuffix(a: string, x: string, b: string, y: string)
    requires a + x == b + y && |x| == |y|
    ensures a == b && x == y
  {
    assert a == (a + x)[..|a|] && b == (b + y)[..|b|];
    assert x == (a + x)[|a|..] && y == (b + y)[|b|..];
  }

  lemma {:induction false} UnnamedGrows(sites: seq<Site>, j: nat, k: nat, key: string)
    requires j < k <= |sites| && sites[j].key == key && sites[j].rc.name == ""
    ensures Unnamed(sites[..j], key) < Unnamed(sites[..k], key)
    decreases k
  {
    assert sites[..k] == sites[..k - 1] + [sites[k - 1]];
    UnnamedSnoc(sites[..k - 1], sites[k - 1], key);
    if j < k - 1 {
      UnnamedGrows(sites, j, k - 1, key);
    }
  }

  ghost predicate Hashed(sites: seq<Site>) {
    forall k :: 0 <= k < |sites| ==> |sites[k].key| == 32
  }

  /** Generated names never clash with each other, even where hashes collide. */
  lemma GeneratedDistinct(listener: string, sites: seq<Site>, j: nat, k: nat)
    requires Hashed(sites) && j < k < |sites| && sites[j].rc.name == "" && sites[k].rc.name == ""
    ensures Route(listener, sites, j).name != Route(listener, sites, k).name
  {
    if Route(listener, sites, j).name == Route(listener, sites, k).name {
      GeneratedNameInjective(listener, sites[j].key, Unnamed(sites[..j], sites[j].key),
                             listener, sites[k].key, Unnamed(sites[..k], sites[k].key));
      UnnamedGrows(sites, j, k, sites[j].key);
      assert false;
    }
  }

  /** Nor across listeners with different names. */
  lemma GeneratedDistinctAcross(l1: string, sites1: seq<Site>, j: nat, l2: string, sites2: seq<Site>, k: nat)
    requires l1 != l2 && Hashed(sites1) && Hashed(sites2)
    requires j < |sites1| && k < |sites2| && sites1[j].rc.name == "" && sites2[k].rc.name == ""
    ensures Route(l1, sites1, j).name != Route(l2, sites2, k).name
  {
    if Route(l1, sites1, j).name == Route(l2, sites2, k).name {
      GeneratedNameInjective(l1, sites1[j].key, Unnamed(sites1[..j], sites1[j].key),
                             l2, sites2[k].key, Unnamed(sites2[..k], sites2[k].key));
      assert false;
    }
  }

  // ---------------------------------------------------------------- meaning

  /** Envoy's view: the RDS name stands for this route configuration and no other. */
  ghost predicate Resolves(routes: seq<RouteConfig>, name: string, rc: RouteConfig) {
    rc in routes && rc.name == name && forall r :: r in routes && r.name == name ==> r == rc
  }

  ghost predicate AllResolve(routes: seq<RouteConfig>) {
    forall k :: 0 <= k < |routes| ==> Resolves(routes, routes[k].name, routes[k])
  }

  /** The routes of all listeners of a bootstrap, one after the other. */
  function AllRoutes(hash: string -> string, ls: seq<Listener>): seq<RouteConfig> {
    if ls == [] then []
    else
      var l := ls[|ls| - 1];
      AllRoutes(hash, ls[..|ls| - 1]) + Routes(l.name, Sites(hash, l))
  }

  method AllToRds(lnrs: seq<Listener>, hash: string -> string) returns (ls: seq<Listener>, routes: seq<RouteConfig>)
    ensures |ls| == |lnrs| && forall i :: 0 <= i < |ls| ==> ListenerRewritten(hash, lnrs[i], ls[i])
    ensures routes == AllRoutes(hash, lnrs)
  {
    ls, routes := [], [];
    for i := 0 to |lnrs|
      invariant |ls| == i && forall k :: 0 <= k < i ==> ListenerRewritten(hash, lnrs[k], ls[k])
      invariant routes == AllRoutes(hash, lnrs[..i])
    {
      hide ListenerRewritten, Routes;
      var l, more := ListenerToRds(lnrs[i], hash);
      ls, routes := ls + [l], routes + more;
      assert lnrs[..i + 1][..i] == lnrs[..i];
    }
    assert lnrs[..|lnrs|] == lnrs;
  }

  ghost predicate HasSite(hash: string -> string, ls: seq<Listener>, i: nat, j: nat) {
    i < |ls| && j < |Sites(hash, ls[i])|
  }

  ghost function RouteAt(hash: string -> string, ls: seq<Listener>, i: nat, j: nat): RouteConfig
    requires HasSite(hash, ls, i, j)
  {
    Route(ls[i].name, Sites(hash, ls[i]), j)
  }

  ghost predicate IsRoute(hash: string -> string, ls: seq<Listener>, rc: RouteConfig) {
    exists i: nat, j: nat :: HasSite(hash, ls, i, j) && RouteAt(hash, ls, i, j) == rc
  }

  lemma {:induction false} AllRoutesAre(hash: string -> string, ls: seq<Listener>, rc: RouteConfig)
    ensures rc in AllRoutes(hash, ls) <==> IsRoute(hash, ls, rc)
  {
    if ls != [] {
      var less, l := ls[..|ls| - 1], ls[|ls| - 1];
      AllRoutesAre(hash, less, rc);
      OneListenerMore(hash, less, l, rc);
      assert less + [l] == ls;
      hide Sites, Routes, IsRoute;
    }
  }

  lemma OneListenerMore(hash: string -> string, less: seq<Listener>, l: Listener, rc: RouteConfig)
    ensures IsRoute(hash, less + [l], rc) <==> IsRoute(hash, less, rc) || rc in Routes(l.name, Sites(hash, l))
  {
    hide Sites, Route;
    var ls, n, routes := less + [l], |less|, Routes(l.name, Sites(hash, l));
    assert forall i: nat, j: nat :: i < n ==> (HasSite(hash, ls, i, j) <==> HasSite(hash, less, i, j));
    if i: nat, j: nat :| HasSite(hash, less, i, j) && RouteAt(hash, less, i, j) == rc {
      assert HasSite(hash, ls, i, j);
    }
    if j: nat :| j < |routes| && routes[j] == rc {
      assert HasSite(hash, ls, n, j);
    }
    if i: nat, j: nat :| HasSite(hash, ls, i, j) && RouteAt(hash, ls, i, j) == rc {
      assert i == n ==> routes[j] == rc;
    }
  }

  /** A name the user gave is not also the name, given or generated, of a different route. */
  ghost predicate ExplicitNamesApart(hash: string -> string, ls: seq<Listener>) {
    forall i: nat, j: nat, p: nat, q: nat :: HasSite(hash, ls, i, j) && HasSite(hash, ls, p, q) ==>
      NotStolen(Sites(hash, ls[i])[j].rc, RouteAt(hash, ls, p, q))
  }

  predicate NotStolen(given: RouteConfig, rc: RouteConfig) {
    given.name != "" && given.name == rc.name ==> given == rc
  }

  /** Listeners that share a name generate the same names only for the same routes. */
  ghost predicate TwinsAgree(hash: string -> string, ls: seq<Listener>) {
    forall i: nat, j: nat, p: nat, q: nat ::
      HasSite(hash, ls, i, j) && HasSite(hash, ls, p, q) && ls[i].name == ls[p].name ==>
      SitesAgree(Sites(hash, ls[i]), j, Sites(hash, ls[p]), q)
  }

  predicate SitesAgree(sites: seq<Site>, j: nat, sites': seq<Site>, q: nat)
    requires j < |sites| && q < |sites'|
  {
    var x, y := sites[j], sites'[q];
    x.rc.name == "" && y.rc.name == "" && x.key == y.key &&
      Unnamed(sites[..j], x.key) == Unnamed(sites'[..q], x.key) ==>
      x.rc == y.rc
  }

  lemma DistinctNamesHaveNoTwins(hash: string -> string, ls: seq<Listener>)
    requires forall i, p :: 0 <= i < p < |ls| ==> ls[i].name != ls[p].name
    ensures TwinsAgree(hash, ls)
  {
    forall i: nat, j: nat, p: nat, q: nat | HasSite(hash, ls, i, j) && HasSite(hash, ls, p, q) &&
      ls[i].name == ls[p].name
      ensures SitesAgree(Sites(hash, ls[i]), j, Sites(hash, ls[p]), q)
    {
      assert i == p;
      var sites := Sites(hash, ls[i]);
      var lo, hi := if j < q then j else q, if j < q then q else j;
      if lo != hi && sites[lo].rc.name == "" {
        UnnamedGrows(sites, lo, hi, sites[lo].key);
      }
    }
  }

  ghost predicate AllHashed(hash: string -> string, ls: seq<Listener>) {
    forall i: nat | i < |ls| :: Hashed(Sites(hash, ls[i]))
  }

  /** Two routes of one name are the same route, if names are apart. */
  lemma OneRouteOfAName(hash: string -> string, ls: seq<Listener>, i: nat, j: nat, p: nat, q: nat)
    requires AllHashed(hash, ls) && ExplicitNamesApart(hash, ls) && TwinsAgree(hash, ls)
    requires HasSite(hash, ls, i, j) && HasSite(hash, ls, p, q)
    requires RouteAt(hash, ls, i, j).name == RouteAt(hash, ls, p, q).name
    ensures RouteAt(hash, ls, i, j) == RouteAt(hash, ls, p, q)
  {
    var sites, sites' := Sites(hash, ls[i]), Sites(hash, ls[p]);
    assert NotStolen(sites[j].rc, RouteAt(hash, ls, p, q)) && NotStolen(sites'[q].rc, RouteAt(hash, ls, i, j));
    assert Hashed(sites) && Hashed(sites');
    hide Sites, ExplicitNamesApart, AllHashed, Unnamed, GeneratedName;
    if sites[j].rc.name == "" && sites'[q].rc.name == "" {
      GeneratedNameInjective(ls[i].name, sites[j].key, Unnamed(sites[..j], sites[j].key),
                             ls[p].name, sites'[q].key, Unnamed(sites'[..q], sites'[q].key));
      assert SitesAgree(sites, j, sites', q);
    }
  }

  lemma ResolvingKeepsApart(hash: string -> string, ls: seq<Listener>, i: nat, j: nat, p: nat, q: nat)
    requires AllResolve(AllRoutes(hash, ls)) && HasSite(hash, ls, i, j) && HasSite(hash, ls, p, q)
    ensures RouteAt(hash, ls, i, j).name == RouteAt(hash, ls, p, q).name ==>
      RouteAt(hash, ls, i, j) == RouteAt(hash, ls, p, q)
  {
    hide Sites, Route, AllRoutes;
    var a, b, all := RouteAt(hash, ls, i, j), RouteAt(hash, ls, p, q), AllRoutes(hash, ls);
    AllRoutesAre(hash, ls, a);
    AllRoutesAre(hash, ls, b);
    var k: nat :| k < |all| && all[k] == a;
    assert Resolves(all, all[k].name, all[k]);
  }

  /** Every name resolves to its own route exactly when the user's own names do not clash, with each
      other or with generated ones, in any of the listeners. */
  lemma ResolvesExactly(hash: string -> string, ls: seq<Listener>)
    requires AllHashed(hash, ls)
    ensures AllResolve(AllRoutes(hash, ls)) <==> ExplicitNamesApart(hash, ls) && TwinsAgree(hash, ls)
  {
    var all := AllRoutes(hash, ls);
    if AllResolve(all) {
      forall i: nat, j: nat, p: nat, q: nat | HasSite(hash, ls, i, j) && HasSite(hash, ls, p, q)
        ensures NotStolen(Sites(hash, ls[i])[j].rc, RouteAt(hash, ls, p, q))
        ensures ls[i].name == ls[p].name ==> SitesAgree(Sites(hash, ls[i]), j, Sites(hash, ls[p]), q)
      {
        ResolvingKeepsApart(hash, ls, i, j, p, q);
        hide Sites, AllRoutes, AllResolve, Unnamed, GeneratedName;
      }
    }
    if ExplicitNamesApart(hash, ls) && TwinsAgree(hash, ls) {
      forall k | 0 <= k < |all| ensures Resolves(all, all[k].name, all[k]) {
        AllRoutesAre(hash, ls, all[k]);
        OnlyOneResolves(hash, ls, all[k]);
      }
    }
  }

  lemma OnlyOneResolves(hash: string -> string, ls: seq<Listener>, rc: RouteConfig)
    requires AllHashed(hash, ls) && ExplicitNamesApart(hash, ls) && TwinsAgree(hash, ls) && IsRoute(hash, ls, rc)
    ensures Resolves(AllRoutes(hash, ls), rc.name, rc)
  {
    AllRoutesAre(hash, ls, rc);
    forall r | r in AllRoutes(hash, ls) && r.name == rc.name ensures r == rc {
      AllRoutesAre(hash, ls, r);
      hide Sites, Route, AllRoutes, AllHashed, ExplicitNamesApart, TwinsAgree;
      var i: nat, j: nat :| HasSite(hash, ls, i, j) && RouteAt(hash, ls, i, j) == rc;
      var p: nat, q: nat :| HasSite(hash, ls, p, q) && RouteAt(hash, ls, p, q) == r;
      OneRouteOfAName(hash, ls, i, j, p, q);
    }
  }

  lemma {:induction false} ChainSitesPrefix(hash: string -> string, c: Chain, j: nat, n: nat)
    requires j <= n <= |c.filters|
    ensures ChainSites(hash, c, j) <= ChainSites(hash, c, n)
    decreases n
  {
    if j < n {
      ChainSitesPrefix(hash, c, j, n - 1);
    }
  }

  lemma {:induction false} SitesBeforePrefix(hash: string -> string, l: Listener, i: nat, n: nat)
    requires i <= n <= |l.chains|
    ensures SitesBefore(hash, l, i) <= SitesBefore(hash, l, n)
    decreases n
  {
    if i < n {
      SitesBeforePrefix(hash, l, i, n - 1);
    }
  }

  /** An inline filter is one of the sites, at the position the sites ahead of it give. */
  lemma SiteOf(hash: string -> string, l: Listener, i: nat, j: nat)
    requires i < |l.chains| && j < |l.chains[i].filters| && IsInline(l.chains[i].filters[j])
    ensures var ahead, sites := Ahead(hash, l, i, j), Sites(hash, l);
      && |ahead| < |sites| && sites[..|ahead|] == ahead
      && sites[|ahead|] == Site(hash(l.chains[i].match_), l.chains[i].filters[j].config.route.rc)
  {
    var c := l.chains[i];
    ChainSitesPrefix(hash, c, j + 1, |c.filters|);
    SitesBeforePrefix(hash, l, i + 1, |l.chains|);
    var upto := SitesBefore(hash, l, i) + ChainSites(hash, c, j + 1);
    assert upto <= SitesBefore(hash, l, i + 1) <= Sites(hash, l);
    assert upto == Ahead(hash, l, i, j) + [Site(hash(c.match_), c.filters[j].config.route.rc)];
  }

  lemma {:induction false} SitesHashed(hash: string -> string, l: Listener, i: nat)
    requires i <= |l.chains| && forall k :: 0 <= k < |l.chains| ==> |hash(l.chains[k].match_)| == 32
    ensures Hashed(SitesBefore(hash, l, i))
  {
    if i > 0 {
      SitesHashed(hash, l, i - 1);
      ChainSitesHashed(hash, l.chains[i - 1], |l.chains[i - 1].filters|);
    }
  }

  lemma {:induction false} ChainSitesHashed(hash: string -> string, c: Chain, j: nat)
    requires j <= |c.filters| && |hash(c.match_)| == 32
    ensures Hashed(ChainSites(hash, c, j))
  {
    if j > 0 {
      ChainSitesHashed(hash, c, j - 1);
    }
  }

  /** MD5 sums are written in 32 digits. */
  lemma AllSitesHashed(hash: string -> string, ls: seq<Listener>)
    requires forall l, c :: l in ls && c in l.chains ==> |hash(c.match_)| == 32
    ensures AllHashed(hash, ls)
  {
    forall p: nat | p < |ls| ensures Hashed(Sites(hash, ls[p])) {
      SitesHashed(hash, ls[p], |ls[p].chains|);
    }
  }

  /** Main result: in each rewritten listener every filter that was not inline is untouched, and
      every inline one now points, through RDS over ADS, at its own route configuration (with a name
      added if it had none). Among the routes of all listeners that name stands for that route alone,
      provided names do not clash. */
  lemma MeaningPreserved(hash: string -> string, ls: seq<Listener>, p: nat, l': Listener, i: nat, j: nat)
    requires AllHashed(hash, ls)
    requires p < |ls| && ListenerRewritten(hash, ls[p], l')
    requires i < |ls[p].chains| && j < |ls[p].chains[i].filters|
    ensures |l'.chains| == |ls[p].chains| && |l'.chains[i].filters| == |ls[p].chains[i].filters|
    ensures var f, f' := ls[p].chains[i].filters[j], l'.chains[i].filters[j];
      var routes := AllRoutes(hash, ls);
      && (!IsInline(f) ==> f' == f)
      && (IsInline(f) ==>
            && f' == WithRds(f, f'.config.route.routeConfigName)
            && var original := f.config.route.rc;
               var rc := original.(name := f'.config.route.routeConfigName);
            && rc in routes
            && (original.name != "" ==> rc == original)
            && (ExplicitNamesApart(hash, ls) && TwinsAgree(hash, ls) ==> Resolves(routes, rc.name, rc)))
  {
    var l := ls[p];
    var f := l.chains[i].filters[j];
    assert ChainRewritten(hash, l, i, l'.chains[i]);
    assert l'.chains[i].filters[j] == Rewritten(hash, l, i, j);
    if IsInline(f) {
      SiteOf(hash, l, i, j);
      var k := |Ahead(hash, l, i, j)|;
      var rc := RouteAt(hash, ls, p, k);
      assert rc == f.config.route.rc.(name := l'.chains[i].filters[j].config.route.routeConfigName);
      assert HasSite(hash, ls, p, k);
      AllRoutesAre(hash, ls, rc);
      hide Sites, Route, AllRoutes, ExplicitNamesApart, TwinsAgree, Resolves;
      if ExplicitNamesApart(hash, ls) && TwinsAgree(hash, ls) {
        OnlyOneResolves(hash, ls, rc);
      }
    }
  }

  /** The assumption is needed: two inline configurations with the same explicit name both claim
      it, so one of the two filters no longer gets its own routes. */
  lemma ClashLosesRoutes(hash: string -> string, name: string, body1: string, body2: string)
    requires name != "" && body1 != body2
    ensures var rc1, rc2 := RouteConfig(name, body1), RouteConfig(name, body2);
      var hcm := (rc: RouteConfig) => Filter(HTTP_CONNECTION_MANAGER, Hcm(Inline(rc), ""));
      var routes := AllRoutes(hash, [Listener("l", [Chain("m", [hcm(rc1), hcm(rc2)])], "")]);
      && rc1 in routes && rc2 in routes
      && !Resolves(routes, name, rc1) && !Resolves(routes, name, rc2)
  {
    var rc1, rc2 := RouteConfig(name, body1), RouteConfig(name, body2);
    var hcm := (rc: RouteConfig) => Filter(HTTP_CONNECTION_MANAGER, Hcm(Inline(rc), ""));
    var l := Listener("l", [Chain("m", [hcm(rc1), hcm(rc2)])], "");
    var c := l.chains[0];
    assert ChainSites(hash, c, 1) == [Site(hash("m"), rc1)];
    assert ChainSites(hash, c, 2) == [Site(hash("m"), rc1), Site(hash("m"), rc2)];
    assert SitesBefore(hash, l, 1) == ChainSites(hash, c, 2);
    var routes := Routes("l", Sites(hash, l));
    assert routes[0] == rc1 && routes[1] == rc2;
    assert [l][..0] == [] && AllRoutes(hash, [l]) == [] + routes;
  }
}
