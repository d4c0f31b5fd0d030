/** Compiling Gateway and HTTPRoute resources to Envoy configuration
    (pkg/gateway/gw_transforms.go).

    What an Envoy object holds beyond its references and names is left out. */
module Gateway {
  import opened Wrappers
  import opened Names

  // ---------------------------------------------------------------- compiled configuration

  datatype ClusterRef = ClusterRef(name: string, endpointPath: string)
  datatype ClusterWeight = ClusterWeight(name: string, weight: int)
  datatype PathSpecifier = Path(value: string) | Prefix(value: string) | SafeRegex(value: string)
  datatype Route = Route(path: PathSpecifier, clusters: seq<ClusterWeight>)

  /** `rds` is the route configuration a connection manager asks for, if it uses RDS. */
  datatype Filter = HttpConnectionManager(rds: Option<string>) | OtherFilter(name: string)
  datatype Listener = Listener(name: string, port: int, chains: seq<seq<Filter>>)
  datatype LoadAssignment = LoadAssignment(clusterName: string, endpoints: seq<string>)

  datatype CompiledRoute = CompiledRoute(namespace: string, routes: seq<Route>, clusterRefs: seq<ClusterRef>)
  datatype CompiledListener = CompiledListener(listener: Listener, accepts: CompiledRoute -> bool, domains: seq<string>)
  datatype CompiledConfig = CompiledConfig(
    listeners: seq<CompiledListener>, routes: seq<CompiledRoute>, loadAssignments: seq<LoadAssignment>)

  /** Every RDS name a listener asks for, in order. */
  function RdsNames(chains: seq<seq<Filter>>): seq<string> {
    if chains == [] then [] else RdsNames(chains[..|chains| - 1]) + ChainRds(chains[|chains| - 1])
  }

  function ChainRds(filters: seq<Filter>): seq<string> {
    if filters == [] then []
    else
      var f := filters[|filters| - 1];
      ChainRds(filters[..|filters| - 1]) + if f.HttpConnectionManager? && f.rds.Some? then [f.rds.value] else []
  }

  /** The listener asks for exactly one route configuration, of its own name. */
  predicate SelfNamed(l: CompiledListener) {
    RdsNames(l.listener.chains) == [l.listener.name]
  }

  /** The listener serves every route, to every domain. */
  ghost predicate Open(l: CompiledListener) {
    l.domains == ["*"] && forall r :: l.accepts(r)
  }

  /** Each cluster a route sends to has a reference saying where its endpoints are. */
  predicate Closed(r: CompiledRoute) {
    forall i: nat, j: nat | i < |r.routes| && j < |r.routes[i].clusters| ::
      Refers(r.clusterRefs, r.routes[i].clusters[j].name)
  }

  predicate Refers(refs: seq<ClusterRef>, name: string) {
    exists i: nat :: i < |refs| && refs[i].name == name
  }

  /** What the rest of the dispatcher may rely on. */
  ghost predicate WellCompiled(c: CompiledConfig) {
    (forall l :: l in c.listeners ==> SelfNamed(l) && Open(l)) && (forall r :: r in c.routes ==> Closed(r))
  }

  // ---------------------------------------------------------------- resources

  datatype GatewayListener = GatewayListener(hostname: string, port: int)
  datatype ForwardTo = ForwardTo(serviceName: string, port: Option<int>, weight: int)
  datatype RouteMatch = RouteMatch(pathType: string, pathValue: string)
  datatype Rule = Rule(forwardTo: seq<ForwardTo>, matches: seq<RouteMatch>)

  /** The %d form of an integer. */
  function Formatted(n: int): string {
    if n < 0 then "-" + Dec(-n) else Dec(n)
  }

  /** The conversion uint32(x). */
  function UInt32(n: int): (r: int)
    ensures 0 <= r < 0x1_0000_0000
  {
    n % 0x1_0000_0000
  }

  // ---------------------------------------------------------------- gateways

  function ListenerName(namespace: string, name: string, idx: nat): string {
    namespace + "-" + name + "-" + Dec(idx)
  }

  function CompileListener(l: GatewayListener, name: string): (c: CompiledListener)
    ensures SelfNamed(c) && Open(c) && c.listener.name == name && c.listener.port == UInt32(l.port)
  {
    var chains := [[HttpConnectionManager(Some(name))]];
    assert ChainRds(chains[0]) == ChainRds([]) + [name];
    assert RdsNames(chains) == RdsNames([]) + ChainRds(chains[0]);
    CompiledListener(Listener(name, UInt32(l.port), chains), _ => true, ["*"])
  }

  function GatewayConfig(namespace: string, name: string, listeners: seq<GatewayListener>): CompiledConfig {
    CompiledConfig(seq(|listeners|,
      i requires 0 <= i < |listeners| => CompileListener(listeners[i], ListenerName(namespace, name, i))), [], [])
  }

  method CompileGateway(namespace: string, name: string, listeners: seq<GatewayListener>) returns (c: CompiledConfig)
    ensures c == GatewayConfig(namespace, name, listeners) && WellCompiled(c)
  {
    var compiled := [];
    for i := 0 to |listeners|
      invariant compiled == GatewayConfig(namespace, name, listeners).listeners[..i]
    {
      compiled := compiled + [CompileListener(listeners[i], ListenerName(namespace, name, i))];
    }
    c := CompiledConfig(compiled, [], []);
    GatewayWellCompiled(namespace, name, listeners);
  }

  lemma GatewayWellCompiled(namespace: string, name: string, listeners: seq<GatewayListener>)
    ensures WellCompiled(GatewayConfig(namespace, name, listeners))
  {
    hide SelfNamed, Open;
  }

  /** One gateway never gives two listeners the same name. */
  lemma ListenerNamesDistinct(namespace: string, name: string, i: nat, j: nat)
    requires ListenerName(namespace, name, i) == ListenerName(namespace, name, j)
    ensures i == j
  {
    DecFree('-', i);
    DecFree('-', j);
    var base := namespace + "-" + name;
    assert ListenerName(namespace, name, i) == base + ['-'] + Dec(i);
    assert ListenerName(namespace, name, j) == base + ['-'] + Dec(j);
    LastSeparator('-', base, Dec(i), base, Dec(j));
    DecInjective(i, j);
  }

  // ---------------------------------------------------------------- HTTP routes

  function ClusterName(f: ForwardTo): string {
    if f.port.Some? then f.serviceName + "_" + Formatted(f.port.value) else f.serviceName
  }

  function EndpointPath(namespace: string, f: ForwardTo): string {
    "k8s/" + namespace + "/" + f.serviceName + if f.port.Some? then "/" + Formatted(f.port.value) else ""
  }

  function Ref(namespace: string, f: ForwardTo): ClusterRef {
    ClusterRef(ClusterName(f), EndpointPath(namespace, f))
  }

  function Weighted(forwardTo: seq<ForwardTo>): (ws: seq<ClusterWeight>)
    ensures |ws| == |forwardTo|
    ensures forall i :: 0 <= i < |ws| ==> ws[i] == ClusterWeight(ClusterName(forwardTo[i]), UInt32(forwardTo[i].weight))
  {
    seq(|forwardTo|,
      i requires 0 <= i < |forwardTo| => ClusterWeight(ClusterName(forwardTo[i]), UInt32(forwardTo[i].weight)))
  }

  /** None: the path type is unknown. */
  function CompileMatch(m: RouteMatch): Option<PathSpecifier> {
    if m.pathType == "Exact" then Some(Path(m.pathValue))
    else if m.pathType == "Prefix" then Some(Prefix(m.pathValue))
    else if m.pathType == "RegularExpression" then Some(SafeRegex(m.pathValue))
    else if m.pathType == "" then Some(Prefix(""))
    else None
  }

  predicate RuleCompiles(rule: Rule) {
    forall j: nat | j < |rule.matches| :: CompileMatch(rule.matches[j]).Some?
  }

  predicate Compiles(rules: seq<Rule>) {
    forall i: nat | i < |rules| :: RuleCompiles(rules[i])
  }

  function RuleRoutes(rule: Rule): (rs: seq<Route>)
    requires RuleCompiles(rule)
  {
    seq(|rule.matches|,
      j requires 0 <= j < |rule.matches| => Route(CompileMatch(rule.matches[j]).value, Weighted(rule.forwardTo)))
  }

  function RuleRefs(namespace: string, rule: Rule): seq<ClusterRef> {
    seq(|rule.forwardTo|, j requires 0 <= j < |rule.forwardTo| => Ref(namespace, rule.forwardTo[j]))
  }

  function AllRoutes(rules: seq<Rule>): seq<Route>
    requires Compiles(rules)
  {
    if rules == [] then [] else AllRoutes(rules[..|rules| - 1]) + RuleRoutes(rules[|rules| - 1])
  }

  function AllRefs(namespace: string, rules: seq<Rule>): seq<ClusterRef> {
    if rules == [] then [] else AllRefs(namespace, rules[..|rules| - 1]) + RuleRefs(namespace, rules[|rules| - 1])
  }

  /** None: some match does not compile. */
  function HTTPRouteConfig(namespace: string, rules: seq<Rule>): Option<CompiledConfig> {
    if Compiles(rules) then
      Some(CompiledConfig([], [CompiledRoute(namespace, AllRoutes(rules), AllRefs(namespace, rules))], []))
    else None
  }

  /** Appends the rule's references to `refs`, even when a match then fails to compile. */
  method CompileRule(rule: Rule, namespace: string, refs: seq<ClusterRef>)
    returns (routes: Option<seq<Route>>, refs': seq<ClusterRef>)
    ensures routes.Some? <==> RuleCompiles(rule)
    ensures routes.Some? ==> routes.value == RuleRoutes(rule)
    ensures refs' == refs + RuleRefs(namespace, rule)
  {
    var clusters := [];
    refs' := refs;
    for i := 0 to |rule.forwardTo|
      invariant clusters == Weighted(rule.forwardTo)[..i]
      invariant refs' == refs + RuleRefs(namespace, rule)[..i]
    {
      var f := rule.forwardTo[i];
      refs' := refs' + [Ref(namespace, f)];
      clusters := clusters + [ClusterWeight(ClusterName(f), UInt32(f.weight))];
    }
    assert clusters == Weighted(rule.forwardTo);
    assert RuleRefs(namespace, rule)[..|rule.forwardTo|] == RuleRefs(namespace, rule);
    var result := [];
    for j := 0 to |rule.matches|
      invariant forall i: nat | i < j :: CompileMatch(rule.matches[i]).Some?
      invariant |result| == j
      invariant forall i: nat | i < j :: result[i] == Route(CompileMatch(rule.matches[i]).value, clusters)
    {
      var path := CompileMatch(rule.matches[j]);
      if path.None? {
        return None, refs';
      }
      result := result + [Route(path.value, clusters)];
    }
    routes := Some(result);
  }

  method CompileHTTPRoute(namespace: string, rules: seq<Rule>) returns (c: Option<CompiledConfig>)
    ensures c == HTTPRouteConfig(namespace, rules)
    ensures c.Some? ==> WellCompiled(c.value)
  {
    var refs, routes := [], [];
    for i := 0 to |rules|
      invariant Compiles(rules[..i])
      invariant routes == AllRoutes(rules[..i]) && refs == AllRefs(namespace, rules[..i])
    {
      assert rules[..i + 1][..i] == rules[..i];
      var more;
      more, refs := CompileRule(rules[i], namespace, refs);
      if more.None? {
        assert !RuleCompiles(rules[i]);
        return None;
      }
      routes := routes + more.value;
    }
    assert rules[..|rules|] == rules;
    c := Some(CompiledConfig([], [CompiledRoute(namespace, routes, refs)], []));
    HTTPRouteWellCompiled(namespace, rules);
  }

  /** An HTTPRoute's configuration refers to every cluster its routes send to. */
  lemma HTTPRouteWellCompiled(namespace: string, rules: seq<Rule>)
    requires Compiles(rules)
    ensures WellCompiled(HTTPRouteConfig(namespace, rules).value)
  {
    RulesClosed(namespace, rules);
  }

  lemma {:induction false} RulesClosed(namespace: string, rules: seq<Rule>)
    requires Compiles(rules)
    ensures Closed(CompiledRoute(namespace, AllRoutes(rules), AllRefs(namespace, rules)))
  {
    if rules != [] {
      var n := |rules| - 1;
      var before, rule := rules[..n], rules[n];
      RulesClosed(namespace, before);
      var some, more := AllRefs(namespace, before), RuleRefs(namespace, rule);
      forall name | Refers(some, name) ensures Refers(some + more, name) {
        var i: nat :| i < |some| && some[i].name == name;
        assert (some + more)[i] == some[i];
      }
      forall j: nat | j < |rule.forwardTo| ensures Refers(some + more, ClusterName(rule.forwardTo[j])) {
        assert (some + more)[|some| + j] == more[j];
      }
    }
  }

  /** Some rule forwards to `f`. */
  predicate Forwards(rules: seq<Rule>, f: ForwardTo) {
    exists i: nat :: i < |rules| && f in rules[i].forwardTo
  }

  /** An HTTPRoute refers to exactly what its rules forward to. */
  lemma {:induction false} AllRefsAre(namespace: string, rules: seq<Rule>, ref: ClusterRef)
    ensures ref in AllRefs(namespace, rules) <==> exists f :: Forwards(rules, f) && ref == Ref(namespace, f)
  {
    if rules != [] {
      var n := |rules| - 1;
      var before, rule := rules[..n], rules[n];
      AllRefsAre(namespace, before, ref);
      RuleRefsAre(namespace, rule, ref);
      forall f ensures Forwards(rules, f) <==> Forwards(before, f) || f in rule.forwardTo {
        assert forall i: nat | i < n :: before[i] == rules[i];
      }
      hide Forwards, RuleRefs, Ref;
    }
  }

  lemma RuleRefsAre(namespace: string, rule: Rule, ref: ClusterRef)
    ensures ref in RuleRefs(namespace, rule) <==> exists f :: f in rule.forwardTo && ref == Ref(namespace, f)
  {
    if f :| f in rule.forwardTo && ref == Ref(namespace, f) {
      var j: nat :| j < |rule.forwardTo| && rule.forwardTo[j] == f;
      assert RuleRefs(namespace, rule)[j] == ref;
    }
  }
}
