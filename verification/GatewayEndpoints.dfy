/** Where gateway traffic ends up: the HTTPRoutes in force (pkg/gateway) meet the endpoints that
    the watcher hands to ambex (cmd/entrypoint/endpoint_routing.go). */
module GatewayEndpoints {
  import opened Wrappers
  import opened Names
  import opened Gateway
  import opened GatewaySnapshot
  import opened Ranging
  import D = Dispatcher
  import E = EdsJoin

  /** The port name that endpoints are filed under for this forward. */
  function PortName(f: ForwardTo): string {
    if f.port.Some? then Formatted(f.port.value) else ""
  }

  function Tail(name: string, pn: string): string {
    name + (if pn == "" then "" else "/") + pn
  }

  lemma TailSlash(name: string, pn: string)
    requires Free('/', name)
    ensures Free('/', Tail(name, pn)) <==> pn == ""
  {
    if pn != "" {
      assert Tail(name, pn)[|name|] == '/';
    } else {
      assert Tail(name, pn) == name;
    }
  }

  lemma TailInjective(a: string, x: string, b: string, y: string)
    requires Free('/', a) && Free('/', b) && Tail(a, x) == Tail(b, y)
    ensures a == b && x == y
  {
    TailSlash(a, x);
    TailSlash(b, y);
    if x != "" {
      assert Tail(a, x) == a + ['/'] + x && Tail(b, y) == b + ['/'] + y;
      FirstSeparator('/', a, x, b, y);
    } else {
      assert Tail(a, x) == a && Tail(b, y) == b;
    }
  }

  lemma PathInjective(ns: string, a: string, x: string, ns': string, b: string, y: string)
    requires Free('/', ns) && Free('/', ns') && Free('/', a) && Free('/', b)
    requires "k8s/" + ns + "/" + Tail(a, x) == "k8s/" + ns' + "/" + Tail(b, y)
    ensures ns == ns' && a == b && x == y
  {
    var s, t := ns + ['/'] + Tail(a, x), ns' + ['/'] + Tail(b, y);
    assert "k8s/" + ns + "/" + Tail(a, x) == "k8s/" + s && "k8s/" + ns' + "/" + Tail(b, y) == "k8s/" + t;
    assert ("k8s/" + s)[4..] == s && ("k8s/" + t)[4..] == t;
    FirstSeparator('/', ns, Tail(a, x), ns', Tail(b, y));
    TailInjective(a, x, b, y);
  }

  /** The two programs spell the same name. */
  lemma SameSpelling(ns: string, f: ForwardTo, ep: E.K8sEndpoints, pn: string)
    ensures EndpointPath(ns, f) == "k8s/" + ns + "/" + Tail(f.serviceName, PortName(f))
    ensures E.ClusterName(ep, pn) == "k8s/" + ep.namespace + "/" + Tail(ep.name, pn)
    ensures EndpointPath(ns, f) != ""
  {
    if f.port.Some? {
      var p := Formatted(f.port.value);
      assert p != "" && PortName(f) == p;
      assert EndpointPath(ns, f) == "k8s/" + ns + "/" + f.serviceName + ("/" + p);
      assert Tail(f.serviceName, p) == f.serviceName + ("/" + p);
    }
  }

  lemma NamedExactly(ns: string, f: ForwardTo, ep: E.K8sEndpoints, pn: string)
    requires Free('/', ns) && Free('/', f.serviceName) && Free('/', ep.namespace) && Free('/', ep.name)
    ensures E.ClusterName(ep, pn) == EndpointPath(ns, f) <==>
      ep.namespace == ns && ep.name == f.serviceName && pn == PortName(f)
  {
    SameSpelling(ns, f, ep, pn);
    hide EndpointPath, E.ClusterName, Tail, PortName, Free;
    if E.ClusterName(ep, pn) == EndpointPath(ns, f) {
      PathInjective(ns, f.serviceName, PortName(f), ep.namespace, ep.name, pn);
    }
  }

  lemma RefHonoured(configs: Configs, s: Snapshot, c: string, ref: ClusterRef)
    requires IsBuildOf(configs, s) && PathsAgree(configs) && c in configs && HasRef(configs[c], ref)
    ensures ref.name in s.clusters && s.clusters[ref.name].serviceName == ref.endpointPath
  {
    HonouredExactly(configs);
    hide IsBuildOf, PathsAgree, HasRef;
    assert Honoured(configs, s);
    assert Get(s.clusters, ref.name) == Some(Cluster(ref.name, ref.endpointPath));
  }

  // ---------------------------------------------------------------- HTTPRoutes in force

  type Resources = map<D.Id, D.Resource>

  /** Some HTTPRoute in force in namespace `ns` forwards to `f`. */
  ghost predicate Routes(live: Resources, ns: string, f: ForwardTo) {
    exists id :: id in live && id.namespace == ns && live[id].spec.HTTPRouteSpec? && Forwards(live[id].spec.rules, f)
  }

  /** What the configuration of a resource refers to. */
  lemma CompiledRefs(r: D.Resource, c: CompiledConfig, ref: ClusterRef)
    requires D.CompileResource(r) == Some(c)
    ensures HasRef(c, ref) <==>
      r.spec.HTTPRouteSpec? && exists f :: Forwards(r.spec.rules, f) && ref == Ref(r.id.namespace, f)
    ensures forall route :: route in c.routes ==> route.namespace == r.id.namespace
  {
    hide AllRoutes, Forwards, Ref;
    if r.spec.HTTPRouteSpec? {
      AllRefsAre(r.id.namespace, r.spec.rules, ref);
      assert c.routes ==
        [CompiledRoute(r.id.namespace, AllRoutes(r.spec.rules), AllRefs(r.id.namespace, r.spec.rules))];
      hide AllRefs;
      assert HasRef(c, ref) <==> ref in c.routes[0].clusterRefs;
    }
  }

  /** Each configuration is that of a resource in force, and the other way round. */
  lemma ConfigOf(configs: Configs, live: Resources, c: string) returns (id: D.Id)
    requires D.Mirrors(D.REGISTERED, configs, live) && c in configs
    ensures id in live && live[id].id == id && D.Plain(id) && D.CompileResource(live[id]) == Some(configs[c])
  {
    hide D.CompileResource, D.Plain, D.ResourceKey;
    assert D.Keyed(live, c);
    id :| id in live && D.ResourceKey(id) == c;
    assert Get(configs, D.ResourceKey(id)) == D.Entry(D.REGISTERED, live, id);
  }

  lemma ConfigFor(configs: Configs, live: Resources, id: D.Id) returns (c: string)
    requires D.Mirrors(D.REGISTERED, configs, live) && id in live
    ensures c in configs && live[id].id == id && D.CompileResource(live[id]) == Some(configs[c])
  {
    hide D.CompileResource, D.Plain, D.ResourceKey;
    c := D.ResourceKey(id);
    assert Get(configs, c) == D.Entry(D.REGISTERED, live, id);
  }

  ghost predicate Referred(configs: Configs, ref: ClusterRef) {
    exists c :: c in configs && HasRef(configs[c], ref)
  }

  /** The references are exactly those of the forwards in force. */
  lemma RefsInForce(configs: Configs, live: Resources, ref: ClusterRef)
    requires D.Mirrors(D.REGISTERED, configs, live)
    ensures Referred(configs, ref) <==> exists ns, f :: Routes(live, ns, f) && ref == Ref(ns, f)
  {
    hide D.Mirrors, D.CompileResource, HasRef, Forwards, Ref, D.Plain;
    if c :| c in configs && HasRef(configs[c], ref) {
      var id := ConfigOf(configs, live, c);
      CompiledRefs(live[id], configs[c], ref);
      var f :| Forwards(live[id].spec.rules, f) && ref == Ref(id.namespace, f);
      assert Routes(live, id.namespace, f);
    }
    if ns, f :| Routes(live, ns, f) && ref == Ref(ns, f) {
      var id :| id in live && id.namespace == ns && live[id].spec.HTTPRouteSpec? && Forwards(live[id].spec.rules, f);
      var c := ConfigFor(configs, live, id);
      CompiledRefs(live[id], configs[c], ref);
    }
  }

  // ---------------------------------------------------------------- one cluster, one path

  /** Forwards with the same cluster name mean the same endpoints. */
  ghost predicate ForwardsAgree(live: Resources) {
    forall ns, f, ns', f' :: Routes(live, ns, f) && Routes(live, ns', f') && ClusterName(f) == ClusterName(f') ==>
      EndpointPath(ns, f) == EndpointPath(ns', f')
  }

  /** Whether references agree can be read off the HTTPRoutes in force. */
  lemma PathsAgreeInForce(configs: Configs, live: Resources)
    requires D.Mirrors(D.REGISTERED, configs, live)
    ensures PathsAgree(configs) <==> ForwardsAgree(live)
  {
    hide D.Mirrors, HasRef, Routes, ClusterName, EndpointPath;
    forall ref ensures Referred(configs, ref) <==> exists ns, f :: Routes(live, ns, f) && ref == Ref(ns, f) {
      RefsInForce(configs, live, ref);
    }
    if PathsAgree(configs) {
      forall ns, f, ns', f' | Routes(live, ns, f) && Routes(live, ns', f') && ClusterName(f) == ClusterName(f')
        ensures EndpointPath(ns, f) == EndpointPath(ns', f')
      {
        assert Referred(configs, Ref(ns, f)) && Referred(configs, Ref(ns', f'));
      }
    }
    if ForwardsAgree(live) {
      forall c, d, ref, ref' | c in configs && d in configs && HasRef(configs[c], ref) && HasRef(configs[d], ref') &&
        ref.name == ref'.name
        ensures ref.endpointPath == ref'.endpointPath
      {
        assert Referred(configs, ref) && Referred(configs, ref');
        var ns, f :| Routes(live, ns, f) && ref == Ref(ns, f);
        var ns', f' :| Routes(live, ns', f') && ref' == Ref(ns', f');
      }
    }
  }

  /** Main result: with HTTPRoutes in force whose forwards agree, an endpoint is filed under the name
      that a forward's cluster is looked up by exactly when it belongs to the service the forward
      names, in the route's own namespace, and is reached under the forward's port. */
  lemma ForwardReachesExactly(configs: Configs, live: Resources, s: Snapshot, ns: string, f: ForwardTo,
                              ep: E.K8sEndpoints, svc: E.Service, x: E.Site, e: E.Endpoint)
    requires D.Mirrors(D.REGISTERED, configs, live) && IsBuildOf(configs, s) && ForwardsAgree(live) &&
      Routes(live, ns, f)
    requires E.Emitted(ep, svc, x, e)
    requires Free('/', ns) && Free('/', f.serviceName) && Free('/', ep.namespace) && Free('/', ep.name)
    ensures ClusterName(f) in s.clusters
    ensures e.clusterName == EdsName(ClusterName(f), s.clusters[ClusterName(f)].serviceName) <==>
      ep.namespace == ns && ep.name == f.serviceName && x.pn == PortName(f)
  {
    hide D.Mirrors, IsBuildOf, PathsAgree, HasRef, ForwardsAgree, Routes, ClusterName, EndpointPath, E.ClusterName,
      Tail, PortName, Free, E.Emits;
    RefsInForce(configs, live, Ref(ns, f));
    var c :| c in configs && HasRef(configs[c], Ref(ns, f));
    PathsAgreeInForce(configs, live);
    RefHonoured(configs, s, c, Ref(ns, f));
    NamedExactly(ns, f, ep, x.pn);
    SameSpelling(ns, f, ep, x.pn);
  }

  lemma PathsDiffer(ns: string, ns': string, f: ForwardTo)
    requires ns != ns' && Free('/', ns) && Free('/', ns')
    ensures EndpointPath(ns, f) != EndpointPath(ns', f)
  {
    var tail := f.serviceName + if f.port.Some? then "/" + Formatted(f.port.value) else "";
    assert EndpointPath(ns, f) == "k8s/" + (ns + ['/'] + tail);
    assert EndpointPath(ns', f) == "k8s/" + (ns' + ['/'] + tail);
    if EndpointPath(ns, f) == EndpointPath(ns', f) {
      assert EndpointPath(ns, f)[4..] == EndpointPath(ns', f)[4..];
      FirstSeparator('/', ns, tail, ns', tail);
    }
  }

  /** Whenever two namespaces forward to a service of the same name on the same port, some order of
      ranging makes the one's cluster lead to the other's endpoints. */
  lemma NamespacesClash(configs: Configs, live: Resources, ns: string, ns': string, f: ForwardTo) returns (s: Snapshot)
    requires D.Mirrors(D.REGISTERED, configs, live) && Routes(live, ns, f) && Routes(live, ns', f)
    requires ns != ns' && Free('/', ns) && Free('/', ns')
    ensures !ForwardsAgree(live) && IsBuildOf(configs, s) && !Honoured(configs, s)
  {
    PathsDiffer(ns, ns', f);
    PathsAgreeInForce(configs, live);
    HonouredExactly(configs);
    hide PathsAgree, IsBuildOf, Honoured, D.Mirrors, Routes, EndpointPath, ClusterName;
    assert !ForwardsAgree(live);
    s :| IsBuildOf(configs, s) && !Honoured(configs, s);
  }

  /** An HTTPRoute with a single match and a single forward. */
  function OneForward(ns: string, name: string, m: RouteMatch, f: ForwardTo): D.Resource {
    D.Resource(D.Id("HTTPRoute", ns, name), D.HTTPRouteSpec([Rule([f], [m])]))
  }

  /** A Gateway with a single listener. */
  function OneListener(ns: string, name: string, l: GatewayListener): D.Resource {
    D.Resource(D.Id("Gateway", ns, name), D.GatewaySpec([l]))
  }

  /** A fresh dispatcher that was given these resources. */
  function Given(batch: seq<D.Resource>): Configs {
    D.ApplyAll(D.REGISTERED, map[], D.Upserts(batch))
  }

  lemma GivenInForce(batch: seq<D.Resource>, next: Resources)
    requires forall r :: r in batch <==> r.id in next && next[r.id] == r
    requires forall id :: id in next ==> next[id].id == id && D.Plain(id) && D.Compiled(D.REGISTERED, next[id]).Some?
    ensures D.Mirrors(D.REGISTERED, Given(batch), next)
  {
    assert D.Mirrors(D.REGISTERED, map[], map[]);
    assert D.AllPlain(D.Upserts(batch));
    hide D.Mirrors, D.Compiled, D.Plain;
    D.RunMirrors(D.REGISTERED, map[], map[], D.Upserts(batch));
    var live := D.InForce(D.REGISTERED, map[], D.Upserts(batch));
    forall id ensures Get(live, id) == Get(next, id) {
      D.UpsertsInForce(D.REGISTERED, map[], batch, next, id);
    }
    SameEntries(live, next);
  }

  lemma OneForwardCompiles(ns: string, name: string, m: RouteMatch, f: ForwardTo)
    requires CompileMatch(m).Some?
    ensures var r := OneForward(ns, name, m, f);
      && D.Compiled(D.REGISTERED, r) == D.CompileResource(r) && D.CompileResource(r).Some?
      && Forwards(r.spec.rules, f) && forall g :: Forwards(r.spec.rules, g) ==> g == f
    ensures Free(':', "HTTPRoute")
  {
    var rules := [Rule([f], [m])];
    assert RuleCompiles(rules[0]) && f in rules[0].forwardTo;
  }

  lemma OneForwardOffers(ns: string, name: string, m: RouteMatch, f: ForwardTo, c: CompiledConfig)
    requires CompileMatch(m).Some? && D.CompileResource(OneForward(ns, name, m, f)) == Some(c)
    ensures LastOf(RefEntries(c), ClusterName(f)) == Some(EndpointPath(ns, f))
    ensures |c.routes| == 1 && Route(CompileMatch(m).value, Weighted([f])) in c.routes[0].routes
  {
    var rules := [Rule([f], [m])];
    assert rules[..0] == [];
    assert AllRefs(ns, rules) == AllRefs(ns, []) + RuleRefs(ns, rules[0]) == [Ref(ns, f)];
    assert AllRoutes(rules) == AllRoutes([]) + RuleRoutes(rules[0]);
    assert RuleRoutes(rules[0])[0] == Route(CompileMatch(m).value, Weighted([f]));
    assert c.routes[..0] == [];
    assert RefEntries(c) == RoutesRefs([]) + Pairs(c.routes[0].clusterRefs) == [(ClusterName(f), EndpointPath(ns, f))];
  }

  lemma OneListenerOffers(ns: string, name: string, l: GatewayListener, c: CompiledConfig)
    requires D.CompileResource(OneListener(ns, name, l)) == Some(c)
    ensures |c.listeners| == 1 && LastOf(RdsEntries(c), ListenerName(ns, name, 0)) == Some(c.listeners[0])
  {
    assert c.listeners[..0] == [];
    assert RdsEntries(c) == RdsOf([]) + [(ListenerName(ns, name, 0), c.listeners[0])];
  }

  /** Two HTTPRoutes, in two namespaces and with different matches, and a Gateway to serve them. */
  function Clashing(
    name: string, l: GatewayListener, ns: string, m: RouteMatch, ns': string, m': RouteMatch,
    f: ForwardTo): seq<D.Resource>
  {
    [OneListener(ns, name, l), OneForward(ns, name, m, f), OneForward(ns', name, m', f)]
  }

  /** The clash at its smallest: the Gateway serves the route of `ns`, and the cluster that route names
      leads to the endpoints of `ns'`. */
  lemma TwoRoutesClash(
    name: string, l: GatewayListener, ns: string, m: RouteMatch, ns': string, m': RouteMatch, f: ForwardTo)
    returns (s: Snapshot)
    requires ns != ns' && Free('/', ns) && Free('/', ns') && Free(':', ns) && Free(':', ns')
    requires CompileMatch(m).Some? && CompileMatch(m').Some? && CompileMatch(m) != CompileMatch(m')
    ensures IsBuildOf(Given(Clashing(name, l, ns, m, ns', m', f)), s)
    ensures var k, route := ListenerName(ns, name, 0), Route(CompileMatch(m).value, Weighted([f]));
      && k in s.routes && route in s.routes[k].routes
      && var cluster := route.clusters[0].name;
      && cluster in s.clusters && s.clusters[cluster].serviceName == EndpointPath(ns', f) != EndpointPath(ns, f)
  {
    var batch := Clashing(name, l, ns, m, ns', m', f);
    var configs, g, c, c' := ClashingConfigs(name, l, ns, m, ns', m', f);
    OneListenerOffers(ns, name, l, configs[g]);
    OneForwardOffers(ns, name, m, f, configs[c]);
    OneForwardOffers(ns', name, m', f, configs[c']);
    assert Offers(configs, RefEntries, ClusterName(f), EndpointPath(ns', f));
    assert Offers(configs, RdsEntries, ListenerName(ns, name, 0), configs[g].listeners[0]);
    PathsDiffer(ns, ns', f);
    D.StayWellCompiled(map[], D.Upserts(batch));
    var k, route := ListenerName(ns, name, 0), Route(CompileMatch(m).value, Weighted([f]));
    assert route.clusters[0].name == ClusterName(f);
    hide *;
    s := BuiltWithPath(configs, ClusterName(f), EndpointPath(ns', f));
    OfferedIsServed(configs, s, k, configs[g].listeners[0]);
    EveryRouteServed(configs, s, k, c, configs[c].routes[0], route);
  }

  lemma ClashingConfigs(
    name: string, l: GatewayListener, ns: string, m: RouteMatch, ns': string, m': RouteMatch, f: ForwardTo)
    returns (configs: Configs, g: string, c: string, c': string)
    requires ns != ns' && Free(':', ns) && Free(':', ns') && CompileMatch(m).Some? && CompileMatch(m').Some?
    ensures configs == Given(Clashing(name, l, ns, m, ns', m', f)) && g in configs && c in configs && c' in configs
    ensures D.CompileResource(OneListener(ns, name, l)) == Some(configs[g])
    ensures D.CompileResource(OneForward(ns, name, m, f)) == Some(configs[c])
    ensures D.CompileResource(OneForward(ns', name, m', f)) == Some(configs[c'])
  {
    var gw, r, r' := OneListener(ns, name, l), OneForward(ns, name, m, f), OneForward(ns', name, m', f);
    var batch, next := [gw, r, r'], map[gw.id := gw, r.id := r, r'.id := r'];
    OneForwardCompiles(ns, name, m, f);
    OneForwardCompiles(ns', name, m', f);
    GivenInForce(batch, next);
    configs := Given(batch);
    g := ConfigFor(configs, next, gw.id);
    c := ConfigFor(configs, next, r.id);
    c' := ConfigFor(configs, next, r'.id);
  }

  // ---------------------------------------------------------------- which Endpoints are watched

  lemma RefersInForce(configs: Configs, live: Resources, c: string, id: D.Id, name: string)
    requires c in configs && id in live && live[id].id == id && D.CompileResource(live[id]) == Some(configs[c])
    ensures RefersFrom(configs[c], id.namespace, name) <==>
      live[id].spec.HTTPRouteSpec? && exists f :: Forwards(live[id].spec.rules, f) && ClusterName(f) == name
    ensures forall ns :: ns != id.namespace ==> !RefersFrom(configs[c], ns, name)
  {
    hide D.CompileResource, Forwards, ClusterName;
    var r, config := live[id], configs[c];
    CompiledRefs(r, config, ClusterRef(name, ""));
    if RefersFrom(config, id.namespace, name) {
      var route :| route in config.routes && route.namespace == id.namespace && Refers(route.clusterRefs, name);
      var i: nat :| i < |route.clusterRefs| && route.clusterRefs[i].name == name;
      CompiledRefs(r, config, route.clusterRefs[i]);
      assert HasRef(config, route.clusterRefs[i]);
    }
    if r.spec.HTTPRouteSpec? {
      if f :| Forwards(r.spec.rules, f) && ClusterName(f) == name {
        CompiledRefs(r, config, Ref(id.namespace, f));
        var route :| route in config.routes && Ref(id.namespace, f) in route.clusterRefs;
        var i: nat :| i < |route.clusterRefs| && route.clusterRefs[i] == Ref(id.namespace, f);
        assert Refers(route.clusterRefs, name);
      }
    }
  }

  /** A forward's cluster is named like the service's Endpoints exactly when it has no port. */
  lemma NamedLikeService(f: ForwardTo, svc: string)
    requires Free('_', svc)
    ensures ClusterName(f) == svc <==> f.port.None? && f.serviceName == svc
  {
    if f.port.Some? {
      assert ClusterName(f)[|f.serviceName|] == '_';
    }
  }

  /** Exactly which Endpoints are watched: those of services that some HTTPRoute in force, in the
      same namespace, forwards to without a port. */
  lemma WatchedInForce(configs: Configs, live: Resources, watches: map<string, bool>, ns: string, svc: string)
    requires D.Mirrors(D.REGISTERED, configs, live) && Picks(configs, WatchEntries, watches)
    requires ns != "" && Free(':', ns) && Free('_', svc)
    ensures Qualified(ns, svc) in watches <==> exists f :: Routes(live, ns, f) && f.port.None? && f.serviceName == svc
  {
    hide D.Mirrors, D.CompileResource, RefersFrom, Forwards, Picks;
    forall c, route | c in configs && route in configs[c].routes ensures Free(':', route.namespace) {
      var id := ConfigOf(configs, live, c);
      CompiledRefs(live[id], configs[c], ClusterRef("", ""));
    }
    WatchedExactly(configs, watches, ns, svc);
    forall f ensures ClusterName(f) == svc <==> f.port.None? && f.serviceName == svc {
      NamedLikeService(f, svc);
    }
    hide ClusterName, Qualified, Free, D.Plain;
    if c :| c in configs && RefersFrom(configs[c], ns, svc) {
      var id := ConfigOf(configs, live, c);
      RefersInForce(configs, live, c, id, svc);
      var f :| Forwards(live[id].spec.rules, f) && ClusterName(f) == svc;
      assert Routes(live, ns, f);
    }
    if f :| Routes(live, ns, f) && f.port.None? && f.serviceName == svc {
      var id :| id in live && id.namespace == ns && live[id].spec.HTTPRouteSpec? && Forwards(live[id].spec.rules, f);
      var c := ConfigFor(configs, live, id);
      RefersInForce(configs, live, c, id, svc);
    }
  }

  /** So a service that is only forwarded to with a port is not watched: one HTTPRoute shows it. */
  lemma PortedServiceNotWatched(ns: string, name: string, m: RouteMatch, f: ForwardTo, watches: map<string, bool>)
    requires ns != "" && Free(':', ns) && Free('_', f.serviceName) && f.port.Some?
    requires CompileMatch(m).Some? && Picks(Given([OneForward(ns, name, m, f)]), WatchEntries, watches)
    ensures Qualified(ns, f.serviceName) !in watches
  {
    var r := OneForward(ns, name, m, f);
    var batch, next := [r], map[r.id := r];
    OneForwardCompiles(ns, name, m, f);
    GivenInForce(batch, next);
    hide Picks, D.Mirrors, Forwards, Qualified;
    WatchedInForce(Given(batch), next, watches, ns, f.serviceName);
    assert forall g :: Routes(next, ns, g) ==> g == f;
  }
}
