/** From Kubernetes and Consul endpoints to the load assignments Envoy gets
    (cmd/entrypoint/endpoint_routing.go, pkg/ambex/endpoint.go, pkg/ambex/transforms.go). */
module EdsJoin {
  import opened Wrappers
  import opened Names

  // ---------------------------------------------------------------- endpoints of one service

  datatype ServicePort = ServicePort(port: nat, targetPort: string, name: string)
  datatype Service = Service(namespace: string, name: string, ports: seq<ServicePort>)
  datatype EndpointPort = EndpointPort(name: string, port: nat, protocol: string)
  datatype Subset = Subset(addresses: seq<string>, ports: seq<EndpointPort>)
  datatype K8sEndpoints = K8sEndpoints(namespace: string, name: string, subsets: seq<Subset>)

  datatype Endpoint = Endpoint(clusterName: string, ip: string, port: nat, protocol: string)

  function Target(p: ServicePort): string {
    if p.targetPort == "" then Dec(p.port) else p.targetPort
  }

  /** Service port `p` lets an endpoint port known as `c` be reached under the name `pn`. */
  predicate Offers(svc: Service, p: ServicePort, c: string, pn: string) {
    var single := |svc.ports| == 1;
    || (c == Target(p) && (pn == Dec(p.port) || (p.name != "" && pn == p.name) || (single && pn == "")))
    || (p.name != "" && c == p.name && pn == Dec(p.port))
    || (single && c == "" && (pn == Dec(p.port) || pn == ""))
  }

  predicate OffersUpTo(svc: Service, n: nat, c: string, pn: string)
    requires n <= |svc.ports|
  {
    exists i :: 0 <= i < n && Offers(svc, svc.ports[i], c, pn)
  }

  function Under(portmap: map<string, seq<string>>, c: string): seq<string> {
    if c in portmap then portmap[c] else []
  }

  function Append(portmap: map<string, seq<string>>, c: string, pn: string): (r: map<string, seq<string>>)
    ensures forall c', pn' :: pn' in Under(r, c') <==> pn' in Under(portmap, c') || (c' == c && pn' == pn)
  {
    portmap[c := Under(portmap, c) + [pn]]
  }

  method BuildPortMap(svc: Service) returns (portmap: map<string, seq<string>>)
    ensures forall c, pn :: pn in Under(portmap, c) <==> OffersUpTo(svc, |svc.ports|, c, pn)
  {
    portmap := map[];
    for i := 0 to |svc.ports|
      invariant forall c, pn :: pn in Under(portmap, c) <==> OffersUpTo(svc, i, c, pn)
    {
      ghost var before := portmap;
      portmap := AddPort(svc, svc.ports[i], portmap);
      forall c, pn ensures pn in Under(portmap, c) <==> OffersUpTo(svc, i + 1, c, pn) {
        assert pn in Under(portmap, c) <==> pn in Under(before, c) || Offers(svc, svc.ports[i], c, pn);
        assert OffersUpTo(svc, i + 1, c, pn) <==> OffersUpTo(svc, i, c, pn) || Offers(svc, svc.ports[i], c, pn);
      }
    }
  }

  method AddPort(svc: Service, p: ServicePort, before: map<string, seq<string>>)
    returns (portmap: map<string, seq<string>>)
    ensures forall c, pn :: pn in Under(portmap, c) <==> pn in Under(before, c) || Offers(svc, p, c, pn)
  {
    hide Append, Under, Dec, Target;
    var port, targetPort := Dec(p.port), Target(p);
    portmap := Append(before, targetPort, port);
    if p.name != "" {
      portmap := Append(portmap, targetPort, p.name);
      portmap := Append(portmap, p.name, port);
    }
    if |svc.ports| == 1 {
      portmap := Append(portmap, targetPort, "");
      portmap := Append(portmap, "", port);
      portmap := Append(portmap, "", "");
    }
  }

  predicate Routable(port: EndpointPort) {
    port.protocol == "TCP" || port.protocol == "UDP"
  }

  /** The names one endpoint port is reached under: by its number, by its own name, or, for a
      service with a single port, with no port at all. */
  predicate Reached(svc: Service, port: EndpointPort, pn: string) {
    || OffersUpTo(svc, |svc.ports|, Dec(port.port), pn)
    || OffersUpTo(svc, |svc.ports|, port.name, pn)
    || OffersUpTo(svc, |svc.ports|, "", pn)
  }

  method PortNames(svc: Service, portmap: map<string, seq<string>>, port: EndpointPort) returns (names: set<string>)
    requires forall c, pn :: pn in Under(portmap, c) <==> OffersUpTo(svc, |svc.ports|, c, pn)
    ensures forall pn :: pn in names <==> Reached(svc, port, pn)
  {
    names := {};
    var candidates := [Dec(port.port), port.name, ""];
    for i := 0 to 3
      invariant forall pn :: pn in names <==> exists k :: 0 <= k < i && pn in Under(portmap, candidates[k])
    {
      var c := candidates[i];
      names := names + set pn | pn in Under(portmap, c);
    }
    forall pn ensures pn in names <==> Reached(svc, port, pn) {
      assert pn in names <==>
        pn in Under(portmap, candidates[0]) || pn in Under(portmap, candidates[1]) ||
        pn in Under(portmap, candidates[2]);
    }
  }

  function ClusterName(ep: K8sEndpoints, pn: string): string {
    "k8s/" + ep.namespace + "/" + ep.name + (if pn == "" then "" else "/") + pn
  }

  /** Port `j` of subset `i`, at address `a`, reached under `pn`. */
  datatype Site = Site(i: nat, j: nat, a: nat, pn: string)

  predicate Emits(ep: K8sEndpoints, svc: Service, x: Site) {
    && x.i < |ep.subsets| && x.j < |ep.subsets[x.i].ports| && x.a < |ep.subsets[x.i].addresses|
    && Routable(ep.subsets[x.i].ports[x.j]) && Reached(svc, ep.subsets[x.i].ports[x.j], x.pn)
  }

  predicate Emitted(ep: K8sEndpoints, svc: Service, x: Site, e: Endpoint) {
    Emits(ep, svc, x) &&
    var port := ep.subsets[x.i].ports[x.j];
    e == Endpoint(ClusterName(ep, x.pn), ep.subsets[x.i].addresses[x.a], port.port, port.protocol)
  }

  /** `result` holds the endpoint of each wanted site, each once. */
  ghost predicate Emission(
    ep: K8sEndpoints, svc: Service, wanted: iset<Site>, sites: seq<Site>, result: seq<Endpoint>)
  {
    Once(wanted, sites) && |sites| == |result| && forall n: nat | n < |sites| :: Emitted(ep, svc, sites[n], result[n])
  }

  lemma EmissionAppend(
    ep: K8sEndpoints, svc: Service, w1: iset<Site>, s1: seq<Site>, r1: seq<Endpoint>, w2: iset<Site>, s2: seq<Site>,
    r2: seq<Endpoint>)
    requires Emission(ep, svc, w1, s1, r1) && Emission(ep, svc, w2, s2, r2) && w1 !! w2
    ensures Emission(ep, svc, w1 + w2, s1 + s2, r1 + r2)
  {
    hide Emitted;
    OnceAppend(w1, s1, w2, s2);
  }

  lemma EmissionMember(
    ep: K8sEndpoints, svc: Service, wanted: iset<Site>, sites: seq<Site>, result: seq<Endpoint>, e: Endpoint)
    requires Emission(ep, svc, wanted, sites, result)
    ensures e in result <==> exists x: Site :: x in wanted && Emitted(ep, svc, x, e)
  {
    if e in result {
      var n: nat :| n < |result| && result[n] == e;
      assert sites[n] in wanted;
    }
    if x: Site :| x in wanted && Emitted(ep, svc, x, e) {
      var n: nat :| n < |sites| && sites[n] == x;
      assert Emitted(ep, svc, sites[n], result[n]);
    }
  }

  ghost function Emissions(ep: K8sEndpoints, svc: Service): iset<Site> {
    iset x: Site | Emits(ep, svc, x)
  }

  ghost function SubsetsBefore(ep: K8sEndpoints, svc: Service, i: nat): iset<Site> {
    iset x: Site | Emits(ep, svc, x) && x.i < i
  }

  ghost function InSubset(ep: K8sEndpoints, svc: Service, i: nat): iset<Site> {
    iset x: Site | Emits(ep, svc, x) && x.i == i
  }

  ghost function PortsBefore(ep: K8sEndpoints, svc: Service, i: nat, j: nat): iset<Site> {
    iset x: Site | x in InSubset(ep, svc, i) && x.j < j
  }

  ghost function AtPort(ep: K8sEndpoints, svc: Service, i: nat, j: nat): iset<Site> {
    iset x: Site | x in InSubset(ep, svc, i) && x.j == j
  }

  ghost function AddressesBefore(ep: K8sEndpoints, svc: Service, i: nat, j: nat, a: nat): iset<Site> {
    iset x: Site | x in AtPort(ep, svc, i, j) && x.a < a
  }

  ghost function AtAddress(ep: K8sEndpoints, svc: Service, i: nat, j: nat, a: nat): iset<Site> {
    iset x: Site | x in AtPort(ep, svc, i, j) && x.a == a
  }

  /** Exactly the routable (address, port) pairs, each once under each name that reaches it. */
  method ToAmbex(ep: K8sEndpoints, svc: Service) returns (result: seq<Endpoint>, ghost sites: seq<Site>)
    ensures forall e :: e in result <==> exists x: Site :: Emitted(ep, svc, x, e)
    ensures Emission(ep, svc, Emissions(ep, svc), sites, result)
  {
    hide Emitted;
    var portmap := BuildPortMap(svc);
    result, sites := [], [];
    for i := 0 to |ep.subsets|
      invariant Emission(ep, svc, SubsetsBefore(ep, svc, i), sites, result)
    {
      var more;
      ghost var here;
      more, here := SubsetToAmbex(ep, svc, portmap, i);
      EmissionAppend(ep, svc, SubsetsBefore(ep, svc, i), sites, result, InSubset(ep, svc, i), here, more);
      assert (SubsetsBefore(ep, svc, i)) + (InSubset(ep, svc, i)) == SubsetsBefore(ep, svc, i + 1);
      result, sites := result + more, sites + here;
    }
    assert (SubsetsBefore(ep, svc, |ep.subsets|)) == Emissions(ep, svc);
    forall e ensures e in result <==> exists x: Site :: Emitted(ep, svc, x, e) {
      EmissionMember(ep, svc, Emissions(ep, svc), sites, result, e);
      EmittedEmits(ep, svc, e);
    }
  }

  lemma EmittedEmits(ep: K8sEndpoints, svc: Service, e: Endpoint)
    ensures forall x: Site :: Emitted(ep, svc, x, e) ==> x in Emissions(ep, svc)
  {
  }

  method SubsetToAmbex(ep: K8sEndpoints, svc: Service, portmap: map<string, seq<string>>, i: nat)
    returns (result: seq<Endpoint>, ghost sites: seq<Site>)
    requires i < |ep.subsets|
    requires forall c, pn :: pn in Under(portmap, c) <==> OffersUpTo(svc, |svc.ports|, c, pn)
    ensures Emission(ep, svc, InSubset(ep, svc, i), sites, result)
  {
    hide Emitted;
    result, sites := [], [];
    var ports := ep.subsets[i].ports;
    for j := 0 to |ports|
      invariant Emission(ep, svc, PortsBefore(ep, svc, i, j), sites, result)
    {
      ghost var w1, w2 := PortsBefore(ep, svc, i, j), AtPort(ep, svc, i, j);
      if Routable(ports[j]) {
        var names := PortNames(svc, portmap, ports[j]);
        var more;
        ghost var here;
        more, here := AddressesToAmbex(ep, svc, i, j, names);
        EmissionAppend(ep, svc, w1, sites, result, w2, here, more);
        result, sites := result + more, sites + here;
      } else {
        assert w2 == iset{};
        assert w1 + w2 == w1;
      }
      assert w1 + w2 == PortsBefore(ep, svc, i, j + 1);
    }
    assert (PortsBefore(ep, svc, i, |ports|)) == InSubset(ep, svc, i);
  }

  method AddressesToAmbex(ep: K8sEndpoints, svc: Service, i: nat, j: nat, names: set<string>)
    returns (result: seq<Endpoint>, ghost sites: seq<Site>)
    requires i < |ep.subsets| && j < |ep.subsets[i].ports| && Routable(ep.subsets[i].ports[j])
    requires forall pn :: pn in names <==> Reached(svc, ep.subsets[i].ports[j], pn)
    ensures Emission(ep, svc, AtPort(ep, svc, i, j), sites, result)
  {
    hide Reached, Routable, Emitted;
    result, sites := [], [];
    var addresses := ep.subsets[i].addresses;
    for a := 0 to |addresses|
      invariant Emission(ep, svc, AddressesBefore(ep, svc, i, j, a), sites, result)
    {
      ghost var w1, w2 := AddressesBefore(ep, svc, i, j, a), AtAddress(ep, svc, i, j, a);
      var more;
      ghost var here;
      more, here := AddressToAmbex(ep, svc, i, j, a, names);
      EmissionAppend(ep, svc, w1, sites, result, w2, here, more);
      assert w1 + w2 == AddressesBefore(ep, svc, i, j, a + 1);
      result, sites := result + more, sites + here;
    }
    assert (AddressesBefore(ep, svc, i, j, |addresses|)) == AtPort(ep, svc, i, j);
  }

  method AddressToAmbex(ep: K8sEndpoints, svc: Service, i: nat, j: nat, a: nat, names: set<string>)
    returns (result: seq<Endpoint>, ghost sites: seq<Site>)
    requires i < |ep.subsets| && j < |ep.subsets[i].ports| && a < |ep.subsets[i].addresses| &&
      Routable(ep.subsets[i].ports[j])
    requires forall pn :: pn in names <==> Reached(svc, ep.subsets[i].ports[j], pn)
    ensures Emission(ep, svc, AtAddress(ep, svc, i, j, a), sites, result)
  {
    hide Reached, Routable;
    result, sites := [], [];
    var port, rest := ep.subsets[i].ports[j], names;
    while rest != {}
      invariant rest <= names && |sites| == |result|
      invariant forall n: nat | n < |sites| ::
        sites[n] == Site(i, j, a, sites[n].pn) && sites[n].pn in names && Emitted(ep, svc, sites[n], result[n])
      invariant forall pn :: pn in names && pn !in rest <==> Site(i, j, a, pn) in sites
      invariant forall m: nat, n: nat | m < n < |sites| :: sites[m] != sites[n]
      decreases rest
    {
      var pn :| pn in rest;
      var e := Endpoint(ClusterName(ep, pn), ep.subsets[i].addresses[a], port.port, port.protocol);
      result, sites := result + [e], sites + [Site(i, j, a, pn)];
      rest := rest - {pn};
    }
    forall x: Site ensures x in sites <==> Emits(ep, svc, x) && x.i == i && x.j == j && x.a == a {
      if x in sites {
        var n: nat :| n < |sites| && sites[n] == x;
      }
      if Emits(ep, svc, x) && x.i == i && x.j == j && x.a == a {
        assert x == Site(i, j, a, x.pn);
      }
    }
  }

  // ---------------------------------------------------------------- grouping by cluster

  /** The endpoints of one cluster, in order. */
  function OfCluster(all: seq<Endpoint>, name: string): seq<Endpoint> {
    if all == [] then []
    else
      var last := all[|all| - 1];
      OfCluster(all[..|all| - 1], name) + if last.clusterName == name then [last] else []
  }

  /** Every endpoint is in the entry of its own cluster, in order, and there are no other entries. */
  ghost predicate Grouped(entries: map<string, seq<Endpoint>>, all: seq<Endpoint>) {
    forall name ::
      && (name in entries ==> entries[name] == OfCluster(all, name) && entries[name] != [])
      && (name !in entries ==> OfCluster(all, name) == [])
  }

  lemma OfClusterSnoc(all: seq<Endpoint>, e: Endpoint, name: string)
    ensures OfCluster(all + [e], name) == OfCluster(all, name) + if e.clusterName == name then [e] else []
  {
    assert (all + [e])[..|all|] == all;
  }

  method AddEndpoints(before: map<string, seq<Endpoint>>, more: seq<Endpoint>, ghost all: seq<Endpoint>)
    returns (entries: map<string, seq<Endpoint>>)
    requires Grouped(before, all)
    ensures Grouped(entries, all + more)
  {
    entries := before;
    assert all + more[..0] == all;
    hide Grouped;
    for i := 0 to |more|
      invariant Grouped(entries, all + more[..i])
    {
      var e := more[i];
      GroupedSnoc(entries, all + more[..i], e);
      assert all + more[..i + 1] == (all + more[..i]) + [e];
      entries := entries[e.clusterName := (if e.clusterName in entries then entries[e.clusterName] else []) + [e]];
    }
    assert all + more[..|more|] == all + more;
  }

  lemma GroupedSnoc(entries: map<string, seq<Endpoint>>, all: seq<Endpoint>, e: Endpoint)
    requires Grouped(entries, all)
    ensures var group := if e.clusterName in entries then entries[e.clusterName] else [];
      Grouped(entries[e.clusterName := group + [e]], all + [e])
  {
    forall name ensures OfCluster(all + [e], name) == OfCluster(all, name) + if e.clusterName == name then [e] else [] {
      OfClusterSnoc(all, e, name);
    }
    hide OfCluster;
  }

  /** The service an endpoints object belongs to is the last one listed under its key. */
  ghost predicate BelongsTo(services: seq<Service>, ep: K8sEndpoints, svc: Service) {
    exists m ::
      && 0 <= m < |services| && services[m] == svc
      && Qualified(svc.namespace, svc.name) == Qualified(ep.namespace, ep.name)
      && forall m' :: m < m' < |services| ==>
           Qualified(services[m'].namespace, services[m'].name) != Qualified(ep.namespace, ep.name)
  }

  method IndexServices(services: seq<Service>) returns (byKey: map<string, Service>)
    ensures forall ep: K8sEndpoints, svc :: BelongsTo(services, ep, svc) <==>
      Qualified(ep.namespace, ep.name) in byKey && byKey[Qualified(ep.namespace, ep.name)] == svc
  {
    byKey := map[];
    for i := 0 to |services|
      invariant forall k :: k in byKey ==>
        exists m :: 0 <= m < i && services[m] == byKey[k] && k == Qualified(services[m].namespace, services[m].name) &&
          forall m' :: m < m' < i ==> Qualified(services[m'].namespace, services[m'].name) != k
      invariant forall m :: 0 <= m < i ==> Qualified(services[m].namespace, services[m].name) in byKey
    {
      byKey := byKey[Qualified(services[i].namespace, services[i].name) := services[i]];
    }
  }

  /** Where an endpoint comes from: a site of the `k`-th Endpoints object, or the `m`-th endpoint
      of the `k`-th Consul service. */
  datatype Origin = K8s(k: nat, site: Site) | Consul(k: nat, m: nat)

  datatype Sources = Sources(services: seq<Service>, eps: seq<K8sEndpoints>, consul: seq<seq<Endpoint>>)

  ghost predicate Yields(src: Sources, o: Origin, e: Endpoint) {
    match o
    case K8s(k, site) => k < |src.eps| &&
      exists svc :: BelongsTo(src.services, src.eps[k], svc) && Emitted(src.eps[k], svc, site, e)
    case Consul(k, m) => k < |src.consul| && m < |src.consul[k]| && src.consul[k][m] == e
  }

  ghost predicate IsOrigin(src: Sources, o: Origin) {
    exists e :: Yields(src, o, e)
  }

  ghost predicate Given(src: Sources, e: Endpoint) {
    exists o :: Yields(src, o, e)
  }

  /** `all` holds the endpoint of each wanted origin, each once. */
  ghost predicate Collected(src: Sources, wanted: iset<Origin>, origins: seq<Origin>, all: seq<Endpoint>) {
    Once(wanted, origins) && |origins| == |all| && forall n: nat | n < |all| :: Yields(src, origins[n], all[n])
  }

  ghost function EpsBefore(src: Sources, k: nat): iset<Origin> {
    iset o: Origin | IsOrigin(src, o) && o.K8s? && o.k < k
  }

  ghost function OfEp(src: Sources, k: nat): iset<Origin> {
    iset o: Origin | IsOrigin(src, o) && o.K8s? && o.k == k
  }

  ghost function ConsulBefore(src: Sources, k: nat): iset<Origin> {
    iset o: Origin | IsOrigin(src, o) && (o.K8s? || o.k < k)
  }

  ghost function OfConsul(src: Sources, k: nat): iset<Origin> {
    iset o: Origin | IsOrigin(src, o) && o.Consul? && o.k == k
  }

  ghost function AllOrigins(src: Sources): iset<Origin> {
    iset o: Origin | IsOrigin(src, o)
  }

  lemma CollectedAppend(
    src: Sources, w1: iset<Origin>, o1: seq<Origin>, a1: seq<Endpoint>, w2: iset<Origin>, o2: seq<Origin>,
    a2: seq<Endpoint>)
    requires Collected(src, w1, o1, a1) && Collected(src, w2, o2, a2) && w1 !! w2
    ensures Collected(src, w1 + w2, o1 + o2, a1 + a2)
  {
    hide Yields;
    OnceAppend(w1, o1, w2, o2);
  }

  function K8sOrigins(k: nat, sites: seq<Site>): (origins: seq<Origin>)
    ensures |origins| == |sites| && forall n: nat | n < |sites| :: origins[n] == K8s(k, sites[n])
  {
    seq(|sites|, n requires 0 <= n < |sites| => K8s(k, sites[n]))
  }

  function ConsulOrigins(k: nat, len: nat): (origins: seq<Origin>)
    ensures |origins| == len && forall m: nat | m < len :: origins[m] == Consul(k, m)
  {
    seq(len, m requires 0 <= m < len => Consul(k, m))
  }

  lemma BelongsOnce(services: seq<Service>, ep: K8sEndpoints, svc: Service, svc': Service)
    requires BelongsTo(services, ep, svc) && BelongsTo(services, ep, svc')
    ensures svc == svc'
  {
  }

  lemma OfEpExactly(src: Sources, k: nat, svc: Service, o: Origin)
    requires k < |src.eps| && BelongsTo(src.services, src.eps[k], svc)
    ensures o in OfEp(src, k) <==> o.K8s? && o.k == k && o.site in Emissions(src.eps[k], svc)
  {
    var ep := src.eps[k];
    if o in OfEp(src, k) {
      var e :| Yields(src, o, e);
      var svc' :| BelongsTo(src.services, ep, svc') && Emitted(ep, svc', o.site, e);
      BelongsOnce(src.services, ep, svc, svc');
    }
    if o.K8s? && o.k == k && o.site in Emissions(ep, svc) {
      var x := o.site;
      var port := ep.subsets[x.i].ports[x.j];
      var e := Endpoint(ClusterName(ep, x.pn), ep.subsets[x.i].addresses[x.a], port.port, port.protocol);
      assert Emitted(ep, svc, x, e);
      assert Yields(src, o, e);
    }
  }

  lemma EpCollected(src: Sources, k: nat, svc: Service, sites: seq<Site>, more: seq<Endpoint>)
    requires k < |src.eps| && BelongsTo(src.services, src.eps[k], svc) &&
      Emission(src.eps[k], svc, Emissions(src.eps[k], svc), sites, more)
    ensures Collected(src, OfEp(src, k), K8sOrigins(k, sites), more)
  {
    var origins := K8sOrigins(k, sites);
    forall n: nat | n < |more| ensures Yields(src, origins[n], more[n]) {
      assert Emitted(src.eps[k], svc, sites[n], more[n]);
    }
    hide Yields, BelongsTo, Emitted, Emissions;
    forall o: Origin ensures o in origins <==> o in OfEp(src, k) {
      OfEpExactly(src, k, svc, o);
      if o.K8s? && o.k == k && o.site in sites {
        var n: nat :| n < |sites| && sites[n] == o.site;
        assert origins[n] == o;
      }
    }
  }

  lemma ConsulCollected(src: Sources, k: nat)
    requires k < |src.consul|
    ensures Collected(src, OfConsul(src, k), ConsulOrigins(k, |src.consul[k]|), src.consul[k])
  {
    var origins := ConsulOrigins(k, |src.consul[k]|);
    forall o: Origin ensures o in origins <==> o in OfConsul(src, k) {
      if o in origins {
        var n: nat :| n < |origins| && origins[n] == o;
        assert Yields(src, o, src.consul[k][n]);
      }
      if o in OfConsul(src, k) {
        var e :| Yields(src, o, e);
        assert origins[o.m] == o;
      }
    }
  }

  lemma {:induction false} OfClusterMember(all: seq<Endpoint>, name: string, e: Endpoint)
    ensures e in OfCluster(all, name) <==> e in all && e.clusterName == name
  {
    if all != [] {
      OfClusterMember(all[..|all| - 1], name, e);
      assert all == all[..|all| - 1] + [all[|all| - 1]];
    }
  }

  lemma GroupedMember(entries: map<string, seq<Endpoint>>, all: seq<Endpoint>, name: string, e: Endpoint)
    requires Grouped(entries, all)
    ensures name in entries && e in entries[name] <==> e in all && e.clusterName == name
  {
    OfClusterMember(all, name, e);
    assert name !in entries ==> OfCluster(all, name) == [];
  }

  /** makeEndpoints: nothing is lost, nothing is invented, and each endpoint is filed once. */
  method MakeEndpoints(src: Sources)
    returns (entries: map<string, seq<Endpoint>>, ghost all: seq<Endpoint>, ghost origins: seq<Origin>)
    ensures Grouped(entries, all) && Collected(src, AllOrigins(src), origins, all)
    ensures forall name, e :: name in entries && e in entries[name] <==> e.clusterName == name && Given(src, e)
  {
    var byKey := IndexServices(src.services);
    entries, all, origins := map[], [], [];
    EmptyGrouped();
    hide Emitted, Emits, BelongsTo, Grouped, Yields, Given;
    for k := 0 to |src.eps|
      invariant Grouped(entries, all) && Collected(src, EpsBefore(src, k), origins, all)
    {
      var key := Qualified(src.eps[k].namespace, src.eps[k].name);
      if key in byKey {
        var svc := byKey[key];
        var more;
        ghost var sites;
        more, sites := ToAmbex(src.eps[k], svc);
        EpCollected(src, k, svc, sites, more);
        CollectedAppend(src, EpsBefore(src, k), origins, all, OfEp(src, k), K8sOrigins(k, sites), more);
        entries := AddEndpoints(entries, more, all);
        all, origins := all + more, origins + K8sOrigins(k, sites);
      } else {
        NoService(src, k);
        assert EpsBefore(src, k) + OfEp(src, k) == EpsBefore(src, k);
      }
      assert EpsBefore(src, k) + OfEp(src, k) == EpsBefore(src, k + 1);
    }
    OriginKinds(src);
    for k := 0 to |src.consul|
      invariant Grouped(entries, all) && Collected(src, ConsulBefore(src, k), origins, all)
    {
      ConsulCollected(src, k);
      CollectedAppend(src, ConsulBefore(src, k), origins, all, OfConsul(src, k), ConsulOrigins(k, |src.consul[k]|),
        src.consul[k]);
      assert ConsulBefore(src, k) + OfConsul(src, k) == ConsulBefore(src, k + 1);
      entries := AddEndpoints(entries, src.consul[k], all);
      all, origins := all + src.consul[k], origins + ConsulOrigins(k, |src.consul[k]|);
    }
    forall name, e ensures name in entries && e in entries[name] <==> e.clusterName == name && Given(src, e) {
      GroupedMember(entries, all, name, e);
      CollectedMember(src, origins, all, e);
    }
  }

  lemma NoService(src: Sources, k: nat)
    requires k < |src.eps| && forall svc :: !BelongsTo(src.services, src.eps[k], svc)
    ensures OfEp(src, k) == iset{}
  {
    hide BelongsTo;
  }

  lemma OriginKinds(src: Sources)
    ensures EpsBefore(src, |src.eps|) == ConsulBefore(src, 0) && ConsulBefore(src, |src.consul|) == AllOrigins(src)
  {
  }

  lemma CollectedMember(src: Sources, origins: seq<Origin>, all: seq<Endpoint>, e: Endpoint)
    requires Collected(src, AllOrigins(src), origins, all)
    ensures e in all <==> Given(src, e)
  {
    if o :| Yields(src, o, e) {
      assert o in AllOrigins(src);
      var n: nat :| n < |origins| && origins[n] == o;
      YieldsOne(src, o, e, all[n]);
    }
  }

  lemma YieldsOne(src: Sources, o: Origin, e: Endpoint, e': Endpoint)
    requires Yields(src, o, e) && Yields(src, o, e')
    ensures e == e'
  {
    if o.K8s? {
      var svc :| BelongsTo(src.services, src.eps[o.k], svc) && Emitted(src.eps[o.k], svc, o.site, e);
      var svc' :| BelongsTo(src.services, src.eps[o.k], svc') && Emitted(src.eps[o.k], svc', o.site, e');
      BelongsOnce(src.services, src.eps[o.k], svc, svc');
    }
  }

  lemma EmptyGrouped()
    ensures Grouped(map[], [])
  {
  }

  // ---------------------------------------------------------------- load assignments

  datatype LbEndpoint = LbEndpoint(protocol: nat, address: string, port: nat)
  datatype LoadAssignment = LoadAssignment(clusterName: string, localities: seq<seq<LbEndpoint>>)

  /** An unknown protocol falls back to TCP, the zero of the enumeration. */
  function ToLbEndpoint(e: Endpoint): LbEndpoint {
    LbEndpoint(if e.protocol == "UDP" then 1 else 0, e.ip, e.port)
  }

  function ToLb(es: seq<Endpoint>): (r: seq<LbEndpoint>)
    ensures |r| == |es| && forall i :: 0 <= i < |es| ==> r[i] == ToLbEndpoint(es[i])
  {
    seq(|es|, i requires 0 <= i < |es| => ToLbEndpoint(es[i]))
  }

  type EdsMap = map<string, LoadAssignment>

  method ToMap(entries: map<string, seq<Endpoint>>) returns (result: EdsMap)
    ensures result.Keys == entries.Keys
    ensures forall name :: name in entries ==> result[name] == LoadAssignment(name, [ToLb(entries[name])])
  {
    result := map[];
    var rest := entries.Keys;
    while rest != {}
      invariant rest <= entries.Keys && result.Keys == entries.Keys - rest
      invariant forall name :: name in result ==> result[name] == LoadAssignment(name, [ToLb(entries[name])])
      decreases rest
    {
      var name :| name in rest;
      var endpoints: seq<LbEndpoint> := [];
      var eps := entries[name];
      for i := 0 to |eps|
        invariant endpoints == ToLb(eps[..i])
      {
        endpoints := endpoints + [ToLbEndpoint(eps[i])];
      }
      assert eps[..|eps|] == eps;
      result := result[name := LoadAssignment(name, [endpoints])];
      rest := rest - {name};
    }
  }

  // ---------------------------------------------------------------- the outer join

  datatype Discovery = Static | Eds | OtherDiscovery(kind: string)

  /** `eds` is the service name of the EDS configuration, if there is one. */
  datatype Cluster = Cluster(
    name: string, eds: Option<string>, discovery: Discovery, load: Option<LoadAssignment>, other: string)

  function Ref(c: Cluster): string
    requires c.eds.Some?
  {
    EdsName(c.name, c.eds.value)
  }

  function Lookup(eds: EdsMap, ref: string): LoadAssignment {
    if ref in eds then eds[ref] else LoadAssignment(ref, [])
  }

  /** The load assignments of the EDS clusters, in order. */
  function Assignments(eds: EdsMap, clusters: seq<Cluster>): seq<LoadAssignment> {
    if clusters == [] then []
    else
      var last := clusters[|clusters| - 1];
      Assignments(eds, clusters[..|clusters| - 1]) + if last.eds.Some? then [Lookup(eds, Ref(last))] else []
  }

  function Bypassed(eds: EdsMap, c: Cluster): Cluster {
    if c.eds.None? then c else c.(eds := None, discovery := Static, load := Some(Lookup(eds, Ref(c))))
  }

  method JoinEdsClusters(clusters: seq<Cluster>, eds: EdsMap, bypass: bool)
    returns (result: seq<Cluster>, endpoints: seq<LoadAssignment>)
    ensures |result| == |clusters|
    ensures !bypass ==> result == clusters && endpoints == Assignments(eds, clusters)
    ensures bypass ==> endpoints == [] && forall i :: 0 <= i < |clusters| ==> result[i] == Bypassed(eds, clusters[i])
  {
    result, endpoints := [], [];
    for i := 0 to |clusters|
      invariant |result| == i
      invariant !bypass ==> result == clusters[..i] && endpoints == Assignments(eds, clusters[..i])
      invariant bypass ==> endpoints == [] && forall k :: 0 <= k < i ==> result[k] == Bypassed(eds, clusters[k])
    {
      assert clusters[..i + 1][..i] == clusters[..i];
      var c := clusters[i];
      if c.eds.Some? {
        var ref := EdsName(c.name, c.eds.value);
        var ep := if ref in eds then eds[ref] else LoadAssignment(ref, []);
        if bypass {
          c := c.(eds := None, discovery := Static, load := Some(ep));
        } else {
          endpoints := endpoints + [ep];
        }
      }
      result := result + [c];
    }
    assert clusters[..|clusters|] == clusters;
  }

  /** Each entry is filed under its own name. */
  ghost predicate WellNamed(eds: EdsMap) {
    forall name :: name in eds ==> eds[name].clusterName == name
  }

  /** go-control-plane's consistency for endpoints: the assignments are for exactly the references. */
  ghost predicate AnswersReferences(clusters: seq<Cluster>, endpoints: seq<LoadAssignment>) {
    forall name :: Referenced(clusters, name) <==> Supplied(endpoints, name)
  }

  predicate Referenced(clusters: seq<Cluster>, name: string) {
    exists i :: 0 <= i < |clusters| && clusters[i].eds.Some? && Ref(clusters[i]) == name
  }

  predicate Supplied(endpoints: seq<LoadAssignment>, name: string) {
    exists k :: 0 <= k < |endpoints| && endpoints[k].clusterName == name
  }

  lemma {:induction false} AssignmentsAt(eds: EdsMap, clusters: seq<Cluster>)
    ensures forall i :: 0 <= i < |clusters| && clusters[i].eds.Some? ==>
      Lookup(eds, Ref(clusters[i])) in Assignments(eds, clusters)
    ensures forall la :: la in Assignments(eds, clusters) ==>
      exists i :: 0 <= i < |clusters| && clusters[i].eds.Some? && la == Lookup(eds, Ref(clusters[i]))
  {
    if clusters != [] {
      var front := clusters[..|clusters| - 1];
      AssignmentsAt(eds, front);
      forall la | la in Assignments(eds, front)
        ensures exists i :: 0 <= i < |clusters| && clusters[i].eds.Some? && la == Lookup(eds, Ref(clusters[i]))
      {
        var i :| 0 <= i < |front| && front[i].eds.Some? && la == Lookup(eds, Ref(front[i]));
        assert clusters[i] == front[i];
      }
      forall i | 0 <= i < |clusters| && clusters[i].eds.Some?
        ensures Lookup(eds, Ref(clusters[i])) in Assignments(eds, clusters) {
        if i < |front| {
          assert clusters[i] == front[i];
        }
      }
    }
  }

  /** Main result: for any well-named map the join is consistent, missing entries included. */
  lemma JoinConsistent(eds: EdsMap, clusters: seq<Cluster>)
    requires WellNamed(eds)
    ensures AnswersReferences(clusters, Assignments(eds, clusters))
  {
    var las := Assignments(eds, clusters);
    AssignmentsAt(eds, clusters);
    forall name ensures Referenced(clusters, name) <==> Supplied(las, name) {
      if i :| 0 <= i < |clusters| && clusters[i].eds.Some? && Ref(clusters[i]) == name {
        var k :| 0 <= k < |las| && las[k] == Lookup(eds, Ref(clusters[i]));
        assert las[k].clusterName == name;
      }
      if k :| 0 <= k < |las| && las[k].clusterName == name {
        assert las[k] in las;
        var i :| 0 <= i < |clusters| && clusters[i].eds.Some? && las[k] == Lookup(eds, Ref(clusters[i]));
        assert Ref(clusters[i]) == name;
      }
    }
  }

  /** What Envoy ends up sending a cluster's traffic to. */
  ghost predicate SendsTo(c: Cluster, endpoints: seq<LoadAssignment>, la: LoadAssignment) {
    if c.eds.None? then c.load == Some(la)
    else
      la in endpoints && la.clusterName == Ref(c) &&
      forall o :: o in endpoints && o.clusterName == Ref(c) ==> o == la
  }

  /** Main result: bypass mode leaves no EDS cluster behind and changes nobody's endpoints. */
  lemma BypassSameEndpoints(eds: EdsMap, clusters: seq<Cluster>, i: nat, la: LoadAssignment)
    requires WellNamed(eds) && i < |clusters|
    ensures Bypassed(eds, clusters[i]).eds.None?
    ensures SendsTo(clusters[i], Assignments(eds, clusters), la) <==> SendsTo(Bypassed(eds, clusters[i]), [], la)
  {
    AssignmentsAt(eds, clusters);
  }

  lemma GroupDelivered(
    entries: map<string, seq<Endpoint>>, all: seq<Endpoint>, eds: EdsMap, clusters: seq<Cluster>, i: nat)
    requires Grouped(entries, all) && eds.Keys == entries.Keys
    requires forall name :: name in entries ==> eds[name] == LoadAssignment(name, [ToLb(entries[name])])
    requires i < |clusters| && clusters[i].eds.Some?
    ensures SendsTo(clusters[i], Assignments(eds, clusters), Delivered(all, Ref(clusters[i])))
  {
    var r := Ref(clusters[i]);
    AssignmentsAt(eds, clusters);
    assert r in entries <==> OfCluster(all, r) != [];
    assert Lookup(eds, r) == Delivered(all, r);
  }

  /** The load assignment of a name: its endpoints, in order. */
  function Delivered(all: seq<Endpoint>, name: string): LoadAssignment {
    LoadAssignment(name, if OfCluster(all, name) == [] then [] else [ToLb(OfCluster(all, name))])
  }

  /** Main result, end to end: from services, endpoints and clusters to what Envoy sends to. Every
      EDS cluster gets the endpoints of its name, each once, or an empty assignment, and bypass
      mode gives the same; without bypass the assignments are for exactly the references. */
  method Deliver(src: Sources, clusters: seq<Cluster>, bypass: bool)
    returns (result: seq<Cluster>, endpoints: seq<LoadAssignment>, ghost all: seq<Endpoint>, ghost origins: seq<Origin>)
    ensures Collected(src, AllOrigins(src), origins, all) && |result| == |clusters|
    ensures forall i: nat | i < |clusters| && clusters[i].eds.Some? ::
      SendsTo(result[i], endpoints, Delivered(all, Ref(clusters[i])))
    ensures forall i: nat | i < |clusters| && clusters[i].eds.None? :: result[i] == clusters[i]
    ensures !bypass ==> result == clusters && AnswersReferences(clusters, endpoints)
    ensures bypass ==> endpoints == [] && forall i: nat | i < |clusters| :: result[i].eds.None?
  {
    hide Collected, Grouped, Delivered, SendsTo, AnswersReferences, ToLb;
    var entries;
    entries, all, origins := MakeEndpoints(src);
    var eds := ToMap(entries);
    result, endpoints := JoinEdsClusters(clusters, eds, bypass);
    JoinConsistent(eds, clusters);
    forall i: nat | i < |clusters| && clusters[i].eds.Some?
      ensures SendsTo(result[i], endpoints, Delivered(all, Ref(clusters[i]))) {
      GroupDelivered(entries, all, eds, clusters, i);
      BypassSameEndpoints(eds, clusters, i, Delivered(all, Ref(clusters[i])));
    }
  }
}
