/** Building a snapshot from compiled resources (pkg/gateway/dispatcher.go, buildSnapshot).

    Each loop of the original ranges over the configurations in an order of its own, so what is
    built is known up to those orders. */
module GatewaySnapshot {
  import opened Wrappers
  import opened Names
  import opened Gateway
  import opened Ranging

  type Configs = map<string, CompiledConfig>

  datatype Cluster = Cluster(name: string, serviceName: string)
  datatype RouteConfig = RouteConfig(name: string, domains: seq<string>, routes: seq<Route>)

  /** Resources by name, as the snapshot cache keeps them. */
  datatype Snapshot = Snapshot(
    clusters: map<string, Cluster>, endpoints: map<string, LoadAssignment>,
    listeners: map<string, Listener>, routes: map<string, RouteConfig>)

  // ---------------------------------------------------------------- what configurations offer

  /** Cluster name and endpoint path of every reference, route after route. */
  function RefEntries(c: CompiledConfig): seq<(string, string)> {
    RoutesRefs(c.routes)
  }

  function RoutesRefs(routes: seq<CompiledRoute>): seq<(string, string)> {
    if routes == [] then []
    else RoutesRefs(routes[..|routes| - 1]) + Pairs(routes[|routes| - 1].clusterRefs)
  }

  function Pairs(refs: seq<ClusterRef>): seq<(string, string)> {
    seq(|refs|, i requires 0 <= i < |refs| => (refs[i].name, refs[i].endpointPath))
  }

  function AssignmentEntries(c: CompiledConfig): seq<(string, LoadAssignment)> {
    seq(|c.loadAssignments|,
      i requires 0 <= i < |c.loadAssignments| => (c.loadAssignments[i].clusterName, c.loadAssignments[i]))
  }

  function ListenerEntries(c: CompiledConfig): seq<(string, Listener)> {
    seq(|c.listeners|, i requires 0 <= i < |c.listeners| => (c.listeners[i].listener.name, c.listeners[i].listener))
  }

  function FirstRds(l: Listener): Option<string> {
    if RdsNames(l.chains) == [] then None else Some(RdsNames(l.chains)[0])
  }

  /** The listeners that ask for a route configuration, under the name they ask for. */
  function RdsEntries(c: CompiledConfig): seq<(string, CompiledListener)> {
    RdsOf(c.listeners)
  }

  function RdsOf(listeners: seq<CompiledListener>): seq<(string, CompiledListener)> {
    if listeners == [] then []
    else
      var l := listeners[|listeners| - 1];
      RdsOf(listeners[..|listeners| - 1]) + if FirstRds(l.listener).Some? then [(FirstRds(l.listener).value, l)] else []
  }

  // ---------------------------------------------------------------- routes of a listener

  function Picked(routes: seq<CompiledRoute>, p: CompiledRoute -> bool): seq<Route> {
    if routes == [] then []
    else
      var r := routes[|routes| - 1];
      Picked(routes[..|routes| - 1], p) + if p(r) then r.routes else []
  }

  /** Every route the predicate accepts, from all configurations. */
  ghost function Matching(configs: Configs, p: CompiledRoute -> bool): multiset<Route>
    decreases |configs|
  {
    if configs == map[] then multiset{}
    else
      var c :| c in configs;
      multiset(Picked(configs[c].routes, p)) + Matching(configs - {c}, p)
  }

  /** Any configuration may be taken out first. */
  lemma {:induction false} MatchingOne(configs: Configs, p: CompiledRoute -> bool, c: string)
    requires c in configs
    ensures Matching(configs, p) == multiset(Picked(configs[c].routes, p)) + Matching(configs - {c}, p)
    decreases |configs|
  {
    hide Picked;
    var d :| d in configs &&
      Matching(configs, p) == multiset(Picked(configs[d].routes, p)) + Matching(configs - {d}, p);
    if d != c {
      MatchingOne(configs - {d}, p, c);
      MatchingOne(configs - {c}, p, d);
      assert configs - {c} - {d} == configs - {d} - {c};
    }
  }

  method PickRoutes(routes: seq<CompiledRoute>, p: CompiledRoute -> bool) returns (picked: seq<Route>)
    ensures picked == Picked(routes, p)
  {
    picked := [];
    for i := 0 to |routes|
      invariant picked == Picked(routes[..i], p)
    {
      assert routes[..i + 1][..i] == routes[..i];
      if p(routes[i]) {
        picked := picked + routes[i].routes;
      }
    }
    assert routes[..|routes|] == routes;
  }

  /** The accepted routes, ranging over the configurations in this order. */
  function Served(configs: Configs, order: seq<string>, p: CompiledRoute -> bool): seq<Route>
    requires forall c :: c in order ==> c in configs
  {
    if order == [] then []
    else Served(configs, order[..|order| - 1], p) + Picked(configs[order[|order| - 1]].routes, p)
  }

  /** In any order these are the same routes. */
  lemma {:induction false} ServedMatching(configs: Configs, order: seq<string>, p: CompiledRoute -> bool)
    requires IsOrder(configs, order)
    ensures multiset(Served(configs, order, p)) == Matching(configs, p)
    decreases |order|
  {
    if order == [] {
      assert forall c :: c !in configs;
    } else {
      var n := |order| - 1;
      var c, less := order[n], configs - {order[n]};
      OrderLess(configs, order);
      assert forall d :: d in order[..n] ==> d in less;
      hide IsOrder, Picked;
      ServedMatching(less, order[..n], p);
      ServedLess(configs, less, order[..n], p);
      MatchingOne(configs, p, c);
    }
  }

  lemma {:induction false} ServedLess(configs: Configs, less: Configs, order: seq<string>, p: CompiledRoute -> bool)
    requires forall c :: c in order ==> c in less && c in configs && less[c] == configs[c]
    ensures Served(less, order, p) == Served(configs, order, p)
  {
    hide Picked;
    if order != [] {
      ServedLess(configs, less, order[..|order| - 1], p);
    }
  }

  method BuildRouteConfiguration(configs: Configs, rdsName: string, l: CompiledListener) returns (rc: RouteConfig)
    ensures IsRouteConfig(configs, rdsName, l, rc)
  {
    hide Picked;
    var order := Order(configs);
    var routes := [];
    for i := 0 to |order|
      invariant routes == Served(configs, order[..i], l.accepts)
    {
      assert order[..i + 1][..i] == order[..i];
      var more := PickRoutes(configs[order[i]].routes, l.accepts);
      routes := routes + more;
    }
    assert order[..|order|] == order;
    rc := RouteConfig(rdsName, l.domains, routes);
  }

  ghost predicate IsRouteConfig(configs: Configs, rdsName: string, l: CompiledListener, rc: RouteConfig) {
    rc.name == rdsName && rc.domains == l.domains &&
      exists order :: IsOrder(configs, order) && rc.routes == Served(configs, order, l.accepts)
  }

  lemma RouteConfigServes(configs: Configs, rdsName: string, l: CompiledListener, rc: RouteConfig)
    requires IsRouteConfig(configs, rdsName, l, rc)
    ensures multiset(rc.routes) == Matching(configs, l.accepts)
  {
    hide Served, Matching;
    var order :| IsOrder(configs, order) && rc.routes == Served(configs, order, l.accepts);
    ServedMatching(configs, order, l.accepts);
  }

  /** getRdsName: the first connection manager that uses RDS. */
  method GetRdsName(l: Listener) returns (name: Option<string>)
    ensures name == FirstRds(l)
  {
    for i := 0 to |l.chains|
      invariant RdsNames(l.chains[..i]) == []
    {
      assert l.chains[..i + 1][..i] == l.chains[..i];
      for j := 0 to |l.chains[i]|
        invariant ChainRds(l.chains[i][..j]) == []
      {
        assert l.chains[i][..j + 1][..j] == l.chains[i][..j];
        var f := l.chains[i][j];
        if f.HttpConnectionManager? && f.rds.Some? {
          ChainRdsPrefix(l.chains[i], j + 1);
          RdsNamesPrefix(l.chains, i + 1);
          return f.rds;
        }
      }
      assert l.chains[i][..|l.chains[i]|] == l.chains[i];
    }
    assert l.chains[..|l.chains|] == l.chains;
    name := None;
  }

  lemma {:induction false} ChainRdsPrefix(filters: seq<Filter>, n: nat)
    requires n <= |filters|
    ensures ChainRds(filters[..n]) <= ChainRds(filters)
    decreases |filters|
  {
    if n < |filters| {
      ChainRdsPrefix(filters[..|filters| - 1], n);
      assert filters[..|filters| - 1][..n] == filters[..n];
    } else {
      assert filters[..n] == filters;
    }
  }

  lemma {:induction false} RdsNamesPrefix(chains: seq<seq<Filter>>, n: nat)
    requires n <= |chains|
    ensures RdsNames(chains[..n]) <= RdsNames(chains)
    decreases |chains|
  {
    if n < |chains| {
      RdsNamesPrefix(chains[..|chains| - 1], n);
      assert chains[..|chains| - 1][..n] == chains[..n];
    } else {
      assert chains[..n] == chains;
    }
  }

  // ---------------------------------------------------------------- snapshots of configurations

  /** The orders of the three loops that fill maps: buildEndpointMap, buildClusterMap and
      buildRouteConfigurations. */
  datatype Orders = Orders(assignments: seq<string>, refs: seq<string>, listeners: seq<string>)

  ghost predicate AreOrders(configs: Configs, o: Orders) {
    IsOrder(configs, o.assignments) && IsOrder(configs, o.refs) && IsOrder(configs, o.listeners)
  }

  /** What they filled. The last loop fills two: listeners, and who asks for which routes. */
  datatype Choice = Choice(
    paths: map<string, string>, assignments: map<string, LoadAssignment>,
    listeners: map<string, Listener>, byRds: map<string, CompiledListener>)

  function Chosen(configs: Configs, o: Orders): Choice
    requires forall c :: c in o.assignments || c in o.refs || c in o.listeners ==> c in configs
  {
    Choice(
      Ranged(configs, o.refs, RefEntries), Ranged(configs, o.assignments, AssignmentEntries),
      Ranged(configs, o.listeners, ListenerEntries), Ranged(configs, o.listeners, RdsEntries))
  }

  ghost predicate IsChoice(configs: Configs, ch: Choice) {
    exists o :: AreOrders(configs, o) && ch == Chosen(configs, o)
  }

  lemma ChoicePicks(configs: Configs, ch: Choice)
    requires IsChoice(configs, ch)
    ensures Picks(configs, RefEntries, ch.paths) && Picks(configs, AssignmentEntries, ch.assignments)
    ensures Picks(configs, ListenerEntries, ch.listeners) && Picks(configs, RdsEntries, ch.byRds)
  {
    hide Ranged, Picks;
    var o :| AreOrders(configs, o) && ch == Chosen(configs, o);
    RangedPicks(configs, o.refs, RefEntries);
    RangedPicks(configs, o.assignments, AssignmentEntries);
    RangedPicks(configs, o.listeners, ListenerEntries);
    RangedPicks(configs, o.listeners, RdsEntries);
  }

  function EdsKeys(paths: map<string, string>): set<string> {
    set n | n in paths :: EdsName(n, paths[n])
  }

  function AssignmentFor(assignments: map<string, LoadAssignment>, key: string): LoadAssignment {
    if key in assignments then assignments[key] else LoadAssignment(key, [])
  }

  ghost predicate Builds(configs: Configs, ch: Choice, s: Snapshot) {
    && s.clusters == (map n | n in ch.paths :: Cluster(n, ch.paths[n]))
    && s.endpoints == (map k | k in EdsKeys(ch.paths) :: AssignmentFor(ch.assignments, k))
    && s.listeners == ch.listeners
    && s.routes.Keys == ch.byRds.Keys
    && forall k :: k in s.routes ==> IsRouteConfig(configs, k, ch.byRds[k], s.routes[k])
  }

  /** A snapshot that a fresh dispatcher holding these configurations can build. */
  ghost predicate IsBuildOf(configs: Configs, s: Snapshot) {
    exists ch :: IsChoice(configs, ch) && Builds(configs, ch, s)
  }

  /** Equal up to the order of routes within a route configuration. */
  ghost predicate Same(s: Snapshot, t: Snapshot) {
    && s.clusters == t.clusters && s.endpoints == t.endpoints && s.listeners == t.listeners
    && s.routes.Keys == t.routes.Keys
    && forall k :: k in s.routes ==>
         s.routes[k].name == t.routes[k].name && s.routes[k].domains == t.routes[k].domains &&
         multiset(s.routes[k].routes) == multiset(t.routes[k].routes)
  }

  method BuildClusters(paths: map<string, string>, assignments: map<string, LoadAssignment>)
    returns (clusters: map<string, Cluster>, endpoints: map<string, LoadAssignment>)
    ensures clusters == map n | n in paths :: Cluster(n, paths[n])
    ensures endpoints == map k | k in EdsKeys(paths) :: AssignmentFor(assignments, k)
  {
    clusters, endpoints := map[], map[];
    var rest := paths.Keys;
    while rest != {}
      invariant rest <= paths.Keys
      invariant clusters == map n | n in paths && n !in rest :: Cluster(n, paths[n])
      invariant endpoints.Keys == set n | n in paths && n !in rest :: EdsName(n, paths[n])
      invariant forall k :: k in endpoints ==> endpoints[k] == AssignmentFor(assignments, k)
      decreases rest
    {
      var n :| n in rest;
      clusters := clusters[n := Cluster(n, paths[n])];
      var key := if paths[n] == "" then n else paths[n];
      endpoints := endpoints[key := if key in assignments then assignments[key] else LoadAssignment(key, [])];
      rest := rest - {n};
    }
  }

  method BuildRoutes(configs: Configs, byRds: map<string, CompiledListener>) returns (routes: map<string, RouteConfig>)
    ensures routes.Keys == byRds.Keys && forall k :: k in routes ==> IsRouteConfig(configs, k, byRds[k], routes[k])
  {
    hide IsRouteConfig;
    routes := map[];
    var rest := byRds.Keys;
    while rest != {}
      invariant rest <= byRds.Keys && routes.Keys == byRds.Keys - rest
      invariant forall k :: k in routes ==> IsRouteConfig(configs, k, byRds[k], routes[k])
      decreases rest
    {
      var k :| k in rest;
      var rc := BuildRouteConfiguration(configs, k, byRds[k]);
      routes := routes[k := rc];
      rest := rest - {k};
    }
  }

  /** buildRouteConfigurations: one range fills the listeners and notes who asks for which routes. */
  method BuildListeners(configs: Configs, order: seq<string>)
    returns (listeners: map<string, Listener>, byRds: map<string, CompiledListener>)
    requires IsOrder(configs, order)
    ensures listeners == Ranged(configs, order, ListenerEntries) && byRds == Ranged(configs, order, RdsEntries)
  {
    hide ListenerEntries, RdsEntries, Put;
    listeners, byRds := map[], map[];
    for i := 0 to |order|
      invariant listeners == Ranged(configs, order[..i], ListenerEntries) &&
        byRds == Ranged(configs, order[..i], RdsEntries)
    {
      assert order[..i + 1][..i] == order[..i];
      listeners, byRds := TakeListeners(configs[order[i]], listeners, byRds);
    }
    assert order[..|order|] == order;
  }

  method TakeListeners(c: CompiledConfig, before: map<string, Listener>, byRds0: map<string, CompiledListener>)
    returns (listeners: map<string, Listener>, byRds: map<string, CompiledListener>)
    ensures listeners == Put(before, ListenerEntries(c)) && byRds == Put(byRds0, RdsEntries(c))
  {
    listeners, byRds := before, byRds0;
    ghost var entries := ListenerEntries(c);
    assert entries[..0] == [] && c.listeners[..0] == [];
    for i := 0 to |c.listeners|
      invariant listeners == Put(before, entries[..i]) && byRds == Put(byRds0, RdsOf(c.listeners[..i]))
    {
      var l := c.listeners[i];
      assert entries[i] == (l.listener.name, l.listener);
      OneListenerMore(c, i);
      hide Put, RdsOf, FirstRds, ListenerEntries;
      PutOneMore(before, entries[..i], entries[i]);
      listeners := listeners[l.listener.name := l.listener];
      var rds := GetRdsName(l.listener);
      if rds.Some? {
        PutOneMore(byRds0, RdsOf(c.listeners[..i]), (rds.value, l));
        byRds := byRds[rds.value := l];
      }
    }
    assert entries[..|c.listeners|] == entries && c.listeners[..|c.listeners|] == c.listeners;
  }

  lemma OneListenerMore(c: CompiledConfig, i: nat)
    requires i < |c.listeners|
    ensures var entries, l := ListenerEntries(c), c.listeners[i];
      && entries[..i + 1] == entries[..i] + [entries[i]]
      && RdsOf(c.listeners[..i + 1]) ==
           RdsOf(c.listeners[..i]) + (if FirstRds(l.listener).Some? then [(FirstRds(l.listener).value, l)] else [])
      && RdsOf(c.listeners[..i]) + [] == RdsOf(c.listeners[..i])
  {
    assert c.listeners[..i + 1][..i] == c.listeners[..i];
  }

  /** buildSnapshot, up to the consistency check. */
  method Build(configs: Configs) returns (s: Snapshot, watches: map<string, bool>)
    ensures IsBuildOf(configs, s) && Picks(configs, WatchEntries, watches)
  {
    hide Ranged, Picks, IsRouteConfig, IsOrder;
    var order1 := Order(configs);
    var assignments := Index(configs, order1, AssignmentEntries);
    var order2 := Order(configs);
    var paths := Index(configs, order2, RefEntries);
    watches := Index(configs, order2, WatchEntries);
    RangedPicks(configs, order2, WatchEntries);
    var clusters, endpoints := BuildClusters(paths, assignments);
    var order3 := Order(configs);
    var listeners, byRds := BuildListeners(configs, order3);
    var routes := BuildRoutes(configs, byRds);
    s := Snapshot(clusters, endpoints, listeners, routes);
    ghost var o, ch := Orders(order1, order2, order3), Choice(paths, assignments, listeners, byRds);
    BuildsOf(configs, o, ch, s);
  }

  lemma BuildsOf(configs: Configs, o: Orders, ch: Choice, s: Snapshot)
    requires AreOrders(configs, o) && ch == Chosen(configs, o) && Builds(configs, ch, s)
    ensures IsBuildOf(configs, s)
  {
  }

  // ---------------------------------------------------------------- when the order does not matter

  ghost predicate Referenced(configs: Configs, key: string) {
    exists n, path :: Offers(configs, RefEntries, n, path) && EdsName(n, path) == key
  }

  /** No name is offered two things that show in a snapshot. */
  ghost predicate Unambiguous(configs: Configs) {
    && (forall n, p, q :: Offers(configs, RefEntries, n, p) && Offers(configs, RefEntries, n, q) ==> p == q)
    && (forall n, l, m :: Offers(configs, ListenerEntries, n, l) && Offers(configs, ListenerEntries, n, m) ==> l == m)
    && (forall n, l, m :: Offers(configs, RdsEntries, n, l) && Offers(configs, RdsEntries, n, m) ==>
          l.domains == m.domains && Matching(configs, l.accepts) == Matching(configs, m.accepts))
    && (forall k, a, b | Offers(configs, AssignmentEntries, k, a) && Offers(configs, AssignmentEntries, k, b) ::
          Referenced(configs, k) ==> a == b)
  }

  lemma SameEndpoints(
    configs: Configs, paths: map<string, string>, m1: map<string, LoadAssignment>, m2: map<string, LoadAssignment>)
    requires Unambiguous(configs) && Picks(configs, RefEntries, paths)
    requires Picks(configs, AssignmentEntries, m1) && Picks(configs, AssignmentEntries, m2)
    ensures forall k :: k in EdsKeys(paths) ==> AssignmentFor(m1, k) == AssignmentFor(m2, k)
  {
    hide Offers, Matching;
    SamePicks(configs, AssignmentEntries, m1, m2);
    forall k | k in EdsKeys(paths) ensures AssignmentFor(m1, k) == AssignmentFor(m2, k) {
      var n :| n in paths && EdsName(n, paths[n]) == k;
      assert Referenced(configs, k);
    }
  }

  lemma SameRoutes(configs: Configs, c1: Choice, c2: Choice, s: Snapshot, t: Snapshot)
    requires Unambiguous(configs) && IsChoice(configs, c1) && Builds(configs, c1, s) && IsChoice(configs, c2) &&
      Builds(configs, c2, t)
    ensures s.routes.Keys == t.routes.Keys
    ensures forall k :: k in s.routes ==>
      s.routes[k].name == t.routes[k].name && s.routes[k].domains == t.routes[k].domains &&
      multiset(s.routes[k].routes) == multiset(t.routes[k].routes)
  {
    ChoicePicks(configs, c1);
    ChoicePicks(configs, c2);
    hide Offers, Matching, EdsKeys, AssignmentFor, IsChoice, Served, IsOrder;
    SamePicks(configs, RdsEntries, c1.byRds, c2.byRds);
    forall k | k in s.routes
      ensures s.routes[k].name == t.routes[k].name && s.routes[k].domains == t.routes[k].domains &&
        multiset(s.routes[k].routes) == multiset(t.routes[k].routes)
    {
      assert Offers(configs, RdsEntries, k, c1.byRds[k]) && Offers(configs, RdsEntries, k, c2.byRds[k]);
      RouteConfigServes(configs, k, c1.byRds[k], s.routes[k]);
      RouteConfigServes(configs, k, c2.byRds[k], t.routes[k]);
    }
  }

  lemma SameChoices(configs: Configs, c1: Choice, c2: Choice)
    requires Unambiguous(configs) && IsChoice(configs, c1) && IsChoice(configs, c2)
    ensures c1.paths == c2.paths && c1.listeners == c2.listeners
    ensures forall k :: k in EdsKeys(c1.paths) ==> AssignmentFor(c1.assignments, k) == AssignmentFor(c2.assignments, k)
  {
    hide Offers, Matching, Picks, EdsKeys, AssignmentFor, IsChoice;
    ChoicePicks(configs, c1);
    ChoicePicks(configs, c2);
    SamePicks(configs, RefEntries, c1.paths, c2.paths);
    SamePicks(configs, ListenerEntries, c1.listeners, c2.listeners);
    SameEndpoints(configs, c1.paths, c1.assignments, c2.assignments);
  }

  lemma SameClusters(configs: Configs, c1: Choice, c2: Choice, s: Snapshot, t: Snapshot)
    requires Unambiguous(configs) && IsChoice(configs, c1) && Builds(configs, c1, s) && IsChoice(configs, c2) &&
      Builds(configs, c2, t)
    ensures s.clusters == t.clusters && s.listeners == t.listeners && s.endpoints == t.endpoints
  {
    hide Unambiguous, IsChoice, IsRouteConfig, EdsKeys, AssignmentFor;
    SameChoices(configs, c1, c2);
  }

  lemma OneBuild(configs: Configs, s: Snapshot, t: Snapshot)
    requires Unambiguous(configs) && IsBuildOf(configs, s) && IsBuildOf(configs, t)
    ensures Same(s, t)
  {
    hide Unambiguous, IsChoice, Builds;
    var c1 :| IsChoice(configs, c1) && Builds(configs, c1, s);
    var c2 :| IsChoice(configs, c2) && Builds(configs, c2, t);
    SameClusters(configs, c1, c2, s, t);
    SameRoutes(configs, c1, c2, s, t);
  }

  /** Every choice of orders builds something. */
  lemma Built(configs: Configs, o: Orders) returns (s: Snapshot)
    requires AreOrders(configs, o)
    ensures IsBuildOf(configs, s) && Builds(configs, Chosen(configs, o), s)
  {
    hide Ranged, Served, EdsKeys, AssignmentFor;
    var ch := Chosen(configs, o);
    var routes := map k | k in ch.byRds ::
      RouteConfig(k, ch.byRds[k].domains, Served(configs, o.listeners, ch.byRds[k].accepts));
    assert forall k :: k in routes ==> IsRouteConfig(configs, k, ch.byRds[k], routes[k]);
    hide IsRouteConfig, IsOrder;
    s := Snapshot(
      map n | n in ch.paths :: Cluster(n, ch.paths[n]),
      map k | k in EdsKeys(ch.paths) :: AssignmentFor(ch.assignments, k),
      ch.listeners, routes);
    BuildsOf(configs, o, ch, s);
  }

  /** The order that ends in the one offering configuration, and the order that ends in the other. */
  lemma TwoBuilds(configs: Configs) returns (s: Snapshot, t: Snapshot)
    requires !Unambiguous(configs)
    ensures IsBuildOf(configs, s) && IsBuildOf(configs, t) && !Same(s, t)
  {
    hide Offers, Matching, Served, IsOrder;
    if n, p, q :| Offers(configs, RefEntries, n, p) && Offers(configs, RefEntries, n, q) && p != q {
      s := BuiltWithPath(configs, n, p);
      t := BuiltWithPath(configs, n, q);
    } else if n, l, m :| Offers(configs, ListenerEntries, n, l) && Offers(configs, ListenerEntries, n, m) && l != m {
      s := BuiltWithListener(configs, n, l);
      t := BuiltWithListener(configs, n, m);
    } else if n, l, m :| Offers(configs, RdsEntries, n, l) && Offers(configs, RdsEntries, n, m)
                         && (l.domains != m.domains || Matching(configs, l.accepts) != Matching(configs, m.accepts)) {
      s := BuiltWithRds(configs, n, l);
      t := BuiltWithRds(configs, n, m);
      RouteConfigServes(configs, n, l, s.routes[n]);
      RouteConfigServes(configs, n, m, t.routes[n]);
    } else {
      var k, a, b :| Offers(configs, AssignmentEntries, k, a) && Offers(configs, AssignmentEntries, k, b) &&
        Referenced(configs, k) && a != b;
      s := BuiltWithAssignment(configs, k, a);
      t := BuiltWithAssignment(configs, k, b);
    }
  }

  lemma BuiltWithPath(configs: Configs, n: string, p: string) returns (s: Snapshot)
    requires Offers(configs, RefEntries, n, p)
    ensures IsBuildOf(configs, s) && n in s.clusters && s.clusters[n].serviceName == p
  {
    var order := OrderFor(configs, RefEntries, n, p);
    hide Offers, Ranged, IsOrder, IsRouteConfig, EdsKeys, AssignmentFor;
    s := Built(configs, Orders(order, order, order));
  }

  lemma BuiltWithListener(configs: Configs, n: string, l: Listener) returns (s: Snapshot)
    requires Offers(configs, ListenerEntries, n, l)
    ensures IsBuildOf(configs, s) && n in s.listeners && s.listeners[n] == l
  {
    var order := OrderFor(configs, ListenerEntries, n, l);
    hide Offers, Ranged, IsOrder, IsRouteConfig, EdsKeys, AssignmentFor;
    s := Built(configs, Orders(order, order, order));
  }

  lemma BuiltWithRds(configs: Configs, n: string, l: CompiledListener) returns (s: Snapshot)
    requires Offers(configs, RdsEntries, n, l)
    ensures IsBuildOf(configs, s) && n in s.routes && IsRouteConfig(configs, n, l, s.routes[n])
  {
    var order := OrderFor(configs, RdsEntries, n, l);
    hide Offers, Ranged, IsOrder, IsRouteConfig, EdsKeys, AssignmentFor;
    s := Built(configs, Orders(order, order, order));
  }

  lemma BuiltWithAssignment(configs: Configs, k: string, a: LoadAssignment) returns (s: Snapshot)
    requires Offers(configs, AssignmentEntries, k, a) && Referenced(configs, k)
    ensures IsBuildOf(configs, s) && k in s.endpoints && s.endpoints[k] == a
  {
    var n, p :| Offers(configs, RefEntries, n, p) && EdsName(n, p) == k;
    var order := OrderFor(configs, RefEntries, n, p);
    var order' := OrderFor(configs, AssignmentEntries, k, a);
    hide Offers, Ranged, IsOrder, IsRouteConfig;
    s := Built(configs, Orders(order', order, order));
    var paths := Ranged(configs, order, RefEntries);
    assert n in paths && EdsName(n, paths[n]) == k;
  }

  /** The configurations determine the snapshot exactly when no name is ambiguous. */
  lemma OrderIrrelevantExactly(configs: Configs)
    ensures (forall s, t :: IsBuildOf(configs, s) && IsBuildOf(configs, t) ==> Same(s, t)) <==> Unambiguous(configs)
  {
    hide IsBuildOf, Unambiguous, Same;
    if Unambiguous(configs) {
      forall s, t | IsBuildOf(configs, s) && IsBuildOf(configs, t) ensures Same(s, t) {
        OneBuild(configs, s, t);
      }
    } else {
      var s, t := TwoBuilds(configs);
    }
  }

  // ---------------------------------------------------------------- entries and members

  ghost predicate HasRef(c: CompiledConfig, ref: ClusterRef) {
    exists r :: r in c.routes && ref in r.clusterRefs
  }

  lemma {:induction false} RefEntriesAre(routes: seq<CompiledRoute>, name: string, path: string)
    ensures (name, path) in RoutesRefs(routes) <==> exists r :: r in routes && ClusterRef(name, path) in r.clusterRefs
  {
    if routes != [] {
      var less, last := routes[..|routes| - 1], routes[|routes| - 1];
      RefEntriesAre(less, name, path);
      PairsAre(last.clusterRefs, name, path);
      hide RoutesRefs, Pairs;
      assert routes == less + [last];
    }
  }

  lemma PairsAre(refs: seq<ClusterRef>, name: string, path: string)
    ensures (name, path) in Pairs(refs) <==> ClusterRef(name, path) in refs
  {
    if ClusterRef(name, path) in refs {
      var i :| 0 <= i < |refs| && refs[i] == ClusterRef(name, path);
      assert Pairs(refs)[i] == (name, path);
    }
  }

  lemma {:induction false} RdsEntriesAre(listeners: seq<CompiledListener>, name: string, l: CompiledListener)
    ensures (name, l) in RdsOf(listeners) <==> l in listeners && FirstRds(l.listener) == Some(name)
  {
    if listeners != [] {
      var less, last := listeners[..|listeners| - 1], listeners[|listeners| - 1];
      RdsEntriesAre(less, name, l);
      hide FirstRds;
      assert listeners == less + [last];
    }
  }

  // ---------------------------------------------------------------- references are kept

  function EdsRefs(s: Snapshot): set<string> {
    set n | n in s.clusters :: EdsName(s.clusters[n].name, s.clusters[n].serviceName)
  }

  function RdsRefs(s: Snapshot): set<string> {
    set n, r | n in s.listeners && r in RdsNames(s.listeners[n].chains) :: r
  }

  /** The snapshot cache's check: what is referred to is what is supplied. */
  predicate Consistent(s: Snapshot) {
    EdsRefs(s) == s.endpoints.Keys && RdsRefs(s) == s.routes.Keys
  }

  ghost predicate AllWellCompiled(configs: Configs) {
    forall c :: c in configs ==> WellCompiled(configs[c])
  }

  lemma EndpointsConsistent(configs: Configs, s: Snapshot)
    requires IsBuildOf(configs, s)
    ensures EdsRefs(s) == s.endpoints.Keys
  {
    hide IsChoice, AssignmentFor, IsRouteConfig;
    var ch :| IsChoice(configs, ch) && Builds(configs, ch, s);
    assert forall n :: n in s.clusters ==> s.clusters[n] == Cluster(n, ch.paths[n]);
  }

  /** In a self-named world, listener names and route configuration names are the same. */
  lemma NamesAgree(configs: Configs, listeners: map<string, Listener>, byRds: map<string, CompiledListener>, k: string)
    requires AllWellCompiled(configs) && Picks(configs, ListenerEntries, listeners) && Picks(configs, RdsEntries, byRds)
    ensures k in listeners <==> k in byRds
    ensures k in listeners ==> RdsNames(listeners[k].chains) == [k]
  {
    hide Picks, LastOf, RdsNames, Open, Closed;
    PicksKeys(configs, ListenerEntries, listeners, k);
    PicksKeys(configs, RdsEntries, byRds, k);
    if k in listeners {
      var c, i := PicksEntry(configs, ListenerEntries, listeners, k);
      var l := configs[c].listeners[i];
      assert l in configs[c].listeners && SelfNamed(l);
      RdsEntriesAre(configs[c].listeners, k, l);
      var j: nat :| j < |RdsEntries(configs[c])| && RdsEntries(configs[c])[j] == (k, l);
      assert HasKey(RdsEntries(configs[c]), k);
    }
    if k in byRds {
      var c, i := PicksEntry(configs, RdsEntries, byRds, k);
      var l := RdsEntries(configs[c])[i].1;
      RdsEntriesAre(configs[c].listeners, k, l);
      assert SelfNamed(l);
      var j: nat :| j < |configs[c].listeners| && configs[c].listeners[j] == l;
      assert ListenerEntries(configs[c])[j] == (k, l.listener);
      assert HasKey(ListenerEntries(configs[c]), k);
    }
  }

  lemma RdsAgree(s: Snapshot)
    requires s.listeners.Keys == s.routes.Keys &&
      forall k :: k in s.listeners ==> RdsNames(s.listeners[k].chains) == [k]
    ensures RdsRefs(s) == s.routes.Keys
  {
    hide RdsNames;
    forall k | k in s.routes ensures k in RdsRefs(s) {
      assert k in s.listeners && k in RdsNames(s.listeners[k].chains);
    }
  }

  lemma AllNamesAgree(configs: Configs, listeners: map<string, Listener>, byRds: map<string, CompiledListener>)
    requires AllWellCompiled(configs) && Picks(configs, ListenerEntries, listeners) && Picks(configs, RdsEntries, byRds)
    ensures listeners.Keys == byRds.Keys && forall k :: k in listeners ==> RdsNames(listeners[k].chains) == [k]
  {
    hide AllWellCompiled, Picks, RdsNames;
    forall k ensures (k in listeners <==> k in byRds) && (k in listeners ==> RdsNames(listeners[k].chains) == [k]) {
      NamesAgree(configs, listeners, byRds, k);
    }
  }

  lemma ListenersHaveRoutes(configs: Configs, s: Snapshot)
    requires AllWellCompiled(configs) && IsBuildOf(configs, s)
    ensures s.listeners.Keys == s.routes.Keys && forall k :: k in s.listeners ==> RdsNames(s.listeners[k].chains) == [k]
  {
    hide IsChoice, AllWellCompiled, EdsKeys, AssignmentFor, IsRouteConfig, RdsNames, Picks;
    var ch :| IsChoice(configs, ch) && Builds(configs, ch, s);
    ChoicePicks(configs, ch);
    AllNamesAgree(configs, ch.listeners, ch.byRds);
  }

  lemma OfferedIsServed(configs: Configs, s: Snapshot, k: string, l: CompiledListener)
    requires IsBuildOf(configs, s) && Offers(configs, RdsEntries, k, l)
    ensures k in s.routes
  {
    hide IsChoice, EdsKeys, AssignmentFor, IsRouteConfig, Offers;
    var ch :| IsChoice(configs, ch) && Builds(configs, ch, s);
    ChoicePicks(configs, ch);
  }

  /** Whatever the Gateway and HTTPRoute compilers produced, the snapshot is consistent. */
  lemma WellCompiledConsistent(configs: Configs, s: Snapshot)
    requires AllWellCompiled(configs) && IsBuildOf(configs, s)
    ensures Consistent(s)
  {
    hide AllWellCompiled, IsBuildOf, RdsNames, EdsRefs, RdsRefs;
    EndpointsConsistent(configs, s);
    ListenersHaveRoutes(configs, s);
    RdsAgree(s);
  }

  lemma {:induction false} PickedFrom(routes: seq<CompiledRoute>, p: CompiledRoute -> bool, route: Route)
    requires route in Picked(routes, p)
    ensures exists r :: r in routes && route in r.routes
  {
    var last := routes[|routes| - 1];
    if route !in last.routes {
      PickedFrom(routes[..|routes| - 1], p, route);
    }
  }

  lemma {:induction false} MatchingFrom(configs: Configs, p: CompiledRoute -> bool, route: Route)
    returns (c: string, r: CompiledRoute)
    requires route in Matching(configs, p)
    ensures c in configs && r in configs[c].routes && route in r.routes
    decreases |configs|
  {
    hide Picked;
    var d :| d in configs &&
      Matching(configs, p) == multiset(Picked(configs[d].routes, p)) + Matching(configs - {d}, p);
    if route in Picked(configs[d].routes, p) {
      PickedFrom(configs[d].routes, p, route);
      c := d;
      r :| r in configs[d].routes && route in r.routes;
    } else {
      c, r := MatchingFrom(configs - {d}, p, route);
    }
  }

  lemma RefIsCluster(configs: Configs, s: Snapshot, c: string, ref: ClusterRef)
    requires IsBuildOf(configs, s) && c in configs && HasRef(configs[c], ref)
    ensures ref.name in s.clusters
  {
    hide Picks, EdsKeys, AssignmentFor, IsRouteConfig, RoutesRefs, IsChoice;
    var ch :| IsChoice(configs, ch) && Builds(configs, ch, s);
    ChoicePicks(configs, ch);
    RefEntriesAre(configs[c].routes, ref.name, ref.endpointPath);
    var entries := RefEntries(configs[c]);
    var i: nat :| i < |entries| && entries[i] == (ref.name, ref.endpointPath);
    assert HasKey(entries, ref.name);
    PicksKeys(configs, RefEntries, ch.paths, ref.name);
  }

  /** No route of a snapshot sends to a cluster the snapshot does not have. */
  lemma RoutesResolve(configs: Configs, s: Snapshot, k: string, route: Route, j: nat)
    requires AllWellCompiled(configs) && IsBuildOf(configs, s)
    requires k in s.routes && route in s.routes[k].routes && j < |route.clusters|
    ensures route.clusters[j].name in s.clusters
  {
    hide IsChoice, EdsKeys, AssignmentFor, Matching, IsRouteConfig;
    var ch :| IsChoice(configs, ch) && Builds(configs, ch, s);
    assert route in multiset(s.routes[k].routes);
    RouteConfigServes(configs, k, ch.byRds[k], s.routes[k]);
    var c, r := MatchingFrom(configs, ch.byRds[k].accepts, route);
    hide Builds;
    assert Closed(r);
    var i :| 0 <= i < |r.routes| && r.routes[i] == route;
    assert Refers(r.clusterRefs, r.routes[i].clusters[j].name);
    var m: nat :| m < |r.clusterRefs| && r.clusterRefs[m].name == route.clusters[j].name;
    RefIsCluster(configs, s, c, r.clusterRefs[m]);
  }

  lemma {:induction false} PickedAll(
    routes: seq<CompiledRoute>, p: CompiledRoute -> bool, r: CompiledRoute, route: Route)
    requires r in routes && p(r) && route in r.routes
    ensures route in Picked(routes, p)
  {
    var last := routes[|routes| - 1];
    if r != last {
      PickedAll(routes[..|routes| - 1], p, r, route);
    }
  }

  /** Every listener serves every route of every HTTPRoute. */
  lemma EveryRouteServed(configs: Configs, s: Snapshot, k: string, c: string, r: CompiledRoute, route: Route)
    requires AllWellCompiled(configs) && IsBuildOf(configs, s)
    requires k in s.routes && c in configs && r in configs[c].routes && route in r.routes
    ensures route in s.routes[k].routes && s.routes[k].domains == ["*"]
  {
    hide Picks, EdsKeys, AssignmentFor, Matching, Picked, RdsOf, Closed, SelfNamed, IsChoice, Served, IsOrder;
    var ch :| IsChoice(configs, ch) && Builds(configs, ch, s);
    ChoicePicks(configs, ch);
    RouteConfigServes(configs, k, ch.byRds[k], s.routes[k]);
    var l := ch.byRds[k];
    assert Open(l) by {
      var d, i := PicksEntry(configs, RdsEntries, ch.byRds, k);
      RdsEntriesAre(configs[d].listeners, k, l);
    }
    PickedAll(configs[c].routes, l.accepts, r, route);
    MatchingOne(configs, l.accepts, c);
    assert route in multiset(s.routes[k].routes);
  }

  // ---------------------------------------------------------------- clusters lead where routes meant

  /** References of one name agree on where its endpoints are. */
  ghost predicate PathsAgree(configs: Configs) {
    forall c, d, ref, ref' ::
      c in configs && d in configs && HasRef(configs[c], ref) && HasRef(configs[d], ref') && ref.name == ref'.name ==>
      ref.endpointPath == ref'.endpointPath
  }

  ghost predicate Honoured(configs: Configs, s: Snapshot) {
    forall c, ref :: c in configs && HasRef(configs[c], ref) ==>
      Get(s.clusters, ref.name) == Some(Cluster(ref.name, ref.endpointPath))
  }

  lemma ClusterFromRef(configs: Configs, s: Snapshot, n: string) returns (c: string)
    requires IsBuildOf(configs, s) && n in s.clusters
    ensures s.clusters[n].name == n && c in configs && HasRef(configs[c], ClusterRef(n, s.clusters[n].serviceName))
  {
    hide Picks, EdsKeys, AssignmentFor, IsRouteConfig, RoutesRefs, IsChoice;
    var ch :| IsChoice(configs, ch) && Builds(configs, ch, s);
    ChoicePicks(configs, ch);
    assert s.clusters[n] == Cluster(n, ch.paths[n]);
    var i;
    c, i := PicksEntry(configs, RefEntries, ch.paths, n);
    RefEntriesAre(configs[c].routes, n, ch.paths[n]);
  }

  /** Every reference leads to its own endpoints, in every snapshot, exactly when the references
      agree. Cluster names leave out the namespace, so two HTTPRoutes may well disagree. */
  lemma HonouredExactly(configs: Configs)
    ensures (forall s :: IsBuildOf(configs, s) ==> Honoured(configs, s)) <==> PathsAgree(configs)
  {
    hide IsBuildOf, HasRef;
    if PathsAgree(configs) {
      forall s, c, ref | IsBuildOf(configs, s) && c in configs && HasRef(configs[c], ref)
        ensures Get(s.clusters, ref.name) == Some(Cluster(ref.name, ref.endpointPath))
      {
        RefIsCluster(configs, s, c, ref);
        var d := ClusterFromRef(configs, s, ref.name);
      }
    } else {
      var c, d, ref, ref' :| c in configs && d in configs && HasRef(configs[c], ref) && HasRef(configs[d], ref') &&
        ref.name == ref'.name
        && ref.endpointPath != ref'.endpointPath;
      var order := OrderOf(configs);
      var s := Built(configs, Orders(order, order, order));
      assert !Honoured(configs, s);
    }
  }

  // ---------------------------------------------------------------- endpoint watches

  /** Namespace and name of everything a namespaced route refers to. */
  function WatchEntries(c: CompiledConfig): seq<(string, bool)> {
    RoutesWatches(c.routes)
  }

  function RoutesWatches(routes: seq<CompiledRoute>): seq<(string, bool)> {
    if routes == [] then []
    else
      var r := routes[|routes| - 1];
      RoutesWatches(routes[..|routes| - 1]) + if r.namespace != "" then Watches(r.namespace, r.clusterRefs) else []
  }

  function Watches(namespace: string, refs: seq<ClusterRef>): seq<(string, bool)> {
    seq(|refs|, i requires 0 <= i < |refs| => (Qualified(namespace, refs[i].name), true))
  }

  ghost predicate RefersFrom(c: CompiledConfig, namespace: string, name: string) {
    exists r :: r in c.routes && r.namespace == namespace && Refers(r.clusterRefs, name)
  }

  lemma {:induction false} RoutesWatchesKeys(routes: seq<CompiledRoute>, namespace: string, name: string)
    requires namespace != "" && Free(':', namespace) && forall r :: r in routes ==> Free(':', r.namespace)
    ensures HasKey(RoutesWatches(routes), Qualified(namespace, name)) <==>
      exists r :: r in routes && r.namespace == namespace && Refers(r.clusterRefs, name)
  {
    if routes != [] {
      var less, last := routes[..|routes| - 1], routes[|routes| - 1];
      RoutesWatchesKeys(less, namespace, name);
      WatchesKeys(last, namespace, name);
      var watches := if last.namespace != "" then Watches(last.namespace, last.clusterRefs) else [];
      HasKeyAppend(RoutesWatches(less), watches, Qualified(namespace, name));
      assert routes == less + [last];
      hide HasKey, Refers, Qualified, Watches;
    }
  }

  lemma WatchesKeys(r: CompiledRoute, namespace: string, name: string)
    requires Free(':', namespace) && Free(':', r.namespace)
    ensures HasKey(Watches(r.namespace, r.clusterRefs), Qualified(namespace, name)) <==>
      r.namespace == namespace && Refers(r.clusterRefs, name)
  {
    var ws := Watches(r.namespace, r.clusterRefs);
    if HasKey(ws, Qualified(namespace, name)) {
      var i: nat :| i < |ws| && ws[i].0 == Qualified(namespace, name);
      FirstSeparator(':', r.namespace, r.clusterRefs[i].name, namespace, name);
    }
    if r.namespace == namespace && Refers(r.clusterRefs, name) {
      var i: nat :| i < |r.clusterRefs| && r.clusterRefs[i].name == name;
      assert ws[i].0 == Qualified(namespace, name);
    }
  }

  /** An Endpoints object is watched exactly when a route of its namespace has a cluster of that name. */
  lemma WatchedExactly(configs: Configs, watches: map<string, bool>, namespace: string, name: string)
    requires Picks(configs, WatchEntries, watches) && namespace != "" && Free(':', namespace)
    requires forall c, r :: c in configs && r in configs[c].routes ==> Free(':', r.namespace)
    ensures Qualified(namespace, name) in watches <==>
      exists c :: c in configs && RefersFrom(configs[c], namespace, name)
  {
    PicksKeys(configs, WatchEntries, watches, Qualified(namespace, name));
    hide Picks, HasKey, RoutesWatches, Refers, Qualified, Free;
    forall c | c in configs
      ensures HasKey(WatchEntries(configs[c]), Qualified(namespace, name)) <==>
      RefersFrom(configs[c], namespace, name) {
      RoutesWatchesKeys(configs[c].routes, namespace, name);
    }
  }
}
