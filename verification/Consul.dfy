/** Keeping Consul watches in step with resolvers and mappings (cmd/entrypoint/consul.go). */
module Consul {
  import opened Wrappers

  /** `spec` stands for the resolver's whole Spec: address, datacenter and the rest. */
  datatype Resolver = Resolver(name: string, spec: string)
  datatype Mapping = Mapping(service: string, resolver: string)

  // ---------------------------------------------------------------- what is asked for

  /** The last resolver of that name wins. */
  function SpecOf(resolvers: seq<Resolver>, name: string): Option<string> {
    if resolvers == [] then None
    else
      var last := resolvers[|resolvers| - 1];
      if last.name == name then Some(last.spec) else SpecOf(resolvers[..|resolvers| - 1], name)
  }

  /** Some mapping wants this service through this resolver, and the resolver exists. */
  predicate Wanted(resolvers: seq<Resolver>, mappings: seq<Mapping>, name: string, service: string) {
    name != "" && SpecOf(resolvers, name).Some? && Mapping(service, name) in mappings
  }

  ghost predicate WantedAnywhere(resolvers: seq<Resolver>, mappings: seq<Mapping>, service: string) {
    exists name :: Wanted(resolvers, mappings, name, service)
  }

  // ---------------------------------------------------------------- what is running

  /** A live resolver: its spec and the watch running for each service. */
  datatype Live = Live(spec: string, watches: map<string, nat>)

  datatype Watch = Watch(resolver: string, spec: string, service: string)

  /** `started` lists every watch ever started (its index is its identity), `stopped` those
      whose Stop was called. */
  datatype Ledger = Ledger(resolvers: map<string, Live>, started: seq<Watch>, stopped: set<nat>)

  predicate Runs(l: Ledger, name: string, service: string, id: nat) {
    name in l.resolvers && service in l.resolvers[name].watches && l.resolvers[name].watches[service] == id
  }

  /** Every watch held by a resolver was started for it, with the resolver's present spec. */
  ghost predicate Attributed(l: Ledger) {
    forall name, service, id: nat :: Runs(l, name, service, id) ==>
      id < |l.started| && l.started[id] == Watch(name, l.resolvers[name].spec, service)
  }

  /** A started watch is either held where it was started, or it has been stopped, never both. */
  ghost predicate Accounted(l: Ledger) {
    (forall id :: 0 <= id < |l.started| ==>
      (Runs(l, l.started[id].resolver, l.started[id].service, id) <==> id !in l.stopped)) &&
    (forall id :: id in l.stopped ==> id < |l.started|)
  }

  ghost predicate Inv(l: Ledger) {
    Attributed(l) && Accounted(l)
  }

  /** The ledger is exactly what the resolvers and mappings ask for. */
  ghost predicate Settled(l: Ledger, resolvers: seq<Resolver>, mappings: seq<Mapping>) {
    && (forall name :: name in l.resolvers ==>
         SpecOf(resolvers, name) == Some(l.resolvers[name].spec) && l.resolvers[name].watches != map[])
    && (forall name, service :: Wanted(resolvers, mappings, name, service) <==>
         name in l.resolvers && service in l.resolvers[name].watches)
  }

  /** The resolver watches exactly these services. */
  ghost predicate Serves(r: Live, wanted: seq<string>) {
    forall s :: s in r.watches <==> s in wanted
  }

  /** The resolver is the same and still runs the same watch for every service that is wanted. */
  ghost predicate Keeps(before: Live, after: Live, wanted: seq<string>) {
    after.spec == before.spec &&
    forall s :: s in wanted && s in before.watches ==> s in after.watches && after.watches[s] == before.watches[s]
  }

  /** In a sound ledger no watch is held twice. */
  lemma HeldOnce(l: Ledger, n1: string, s1: string, n2: string, s2: string, id: nat)
    requires Inv(l) && Runs(l, n1, s1, id) && Runs(l, n2, s2, id)
    ensures n1 == n2 && s1 == s2 && id !in l.stopped
  {
  }

  class ConsulWatcher {
    var resolvers: map<string, Live>
    var firstReconcileHasHappened: bool
    var endpoints: map<string, seq<string>>
    var keysForBootstrap: seq<string>
    var bootstrapped: bool
    var started: seq<Watch>
    var stopped: set<nat>

    ghost function State(): Ledger
      reads this
    {
      Ledger(resolvers, started, stopped)
    }

    constructor ()
      ensures State() == Ledger(map[], [], {}) && Inv(State())
      ensures !firstReconcileHasHappened && endpoints == map[] && keysForBootstrap == [] && !bootstrapped
    {
      resolvers, started, stopped := map[], [], {};
      firstReconcileHasHappened, endpoints, keysForBootstrap, bootstrapped := false, map[], [], false;
    }

    /** Stopper.Stop: must not be called twice on the same watch. */
    method Stop(id: nat)
      requires id < |started| && id !in stopped
      modifies this`stopped
      ensures stopped == old(stopped) + {id}
    {
      stopped := stopped + {id};
    }

    /** resolver.deleted, followed by taking the resolver off the map. */
    method DropResolver(name: string)
      requires Inv(State()) && name in resolvers
      modifies this`stopped, this`resolvers
      ensures Inv(State()) && resolvers == old(resolvers) - {name} && old(stopped) <= stopped
    {
      var rest := resolvers[name].watches.Keys;
      ghost var all := resolvers[name].watches;
      while rest != {}
        invariant rest <= all.Keys && name in resolvers && resolvers[name].spec == old(resolvers[name].spec)
        invariant resolvers == old(resolvers)[name := resolvers[name]]
        invariant resolvers[name].watches == map s | s in rest :: all[s]
        invariant Inv(State()) && old(stopped) <= stopped
        decreases rest
      {
        var s :| s in rest;
        StopWatch(name, s);
        rest := rest - {s};
      }
      ghost var before := State();
      assert resolvers[name].watches == map[];
      resolvers := resolvers - {name};
      assert resolvers == old(resolvers) - {name};
      assert forall n, t, i: nat {:trigger Runs(State(), n, t, i)} :: Runs(State(), n, t, i) <==> Runs(before, n, t, i);
    }

    /** Stop one watch and take it off its resolver. */
    method StopWatch(name: string, s: string)
      requires Inv(State()) && name in resolvers && s in resolvers[name].watches
      modifies this`stopped, this`resolvers
      ensures Inv(State()) && old(stopped) <= stopped
      ensures resolvers == old(resolvers)[name := Live(old(resolvers)[name].spec, old(resolvers)[name].watches - {s})]
    {
      var id := resolvers[name].watches[s];
      assert Runs(State(), name, s, id);
      Stop(id);
      resolvers := resolvers[name := Live(resolvers[name].spec, resolvers[name].watches - {s})];
      assert forall n, t, i: nat {:trigger Runs(State(), n, t, i)} :: Runs(State(), n, t, i) <==>
        old(Runs(State(), n, t, i)) && !(n == name && t == s);
    }

    /** watchFunc succeeded: record the watch under its resolver. */
    method StartWatch(name: string, s: string)
      requires Inv(State()) && name in resolvers && s !in resolvers[name].watches
      modifies this`started, this`resolvers
      ensures Inv(State())
      ensures started == old(started) + [Watch(name, old(resolvers)[name].spec, s)]
      ensures resolvers ==
        old(resolvers)[name := Live(old(resolvers)[name].spec, old(resolvers)[name].watches[s := |old(started)|])]
    {
      var id := |started|;
      started := started + [Watch(name, resolvers[name].spec, s)];
      resolvers := resolvers[name := Live(resolvers[name].spec, resolvers[name].watches[s := id])];
      assert forall n, t, i: nat {:trigger Runs(State(), n, t, i)} :: Runs(State(), n, t, i) <==>
        old(Runs(State(), n, t, i)) || (n == name && t == s && i == id);
    }

    /** resolver.reconcile: start what is missing, then stop what nobody wants. If a start fails
        nothing has been stopped and everything started so far stays on the resolver. */
    method ReconcileResolver(name: string, wanted: seq<string>, fails: Watch -> bool) returns (ok: bool)
      requires Inv(State()) && name in resolvers
      modifies this`resolvers, this`started, this`stopped
      ensures Inv(State()) && name in resolvers && resolvers == old(resolvers)[name := resolvers[name]]
      ensures Keeps(old(resolvers)[name], resolvers[name], wanted)
      ensures ok ==> Serves(resolvers[name], wanted)
      ensures Serves(old(resolvers)[name], wanted) ==> ok && State() == old(State())
      ensures !ok ==> exists s :: s in wanted && fails(Watch(name, resolvers[name].spec, s))
    {
      var servicesByName: set<string> := {};
      ghost var same := forall s :: s in old(resolvers)[name].watches <==> s in wanted;
      for i := 0 to |wanted|
        invariant Inv(State()) && name in resolvers && resolvers[name].spec == old(resolvers)[name].spec
        invariant resolvers == old(resolvers)[name := resolvers[name]]
        invariant forall s :: s in servicesByName <==> s in wanted[..i]
        invariant forall s :: s in servicesByName ==> s in resolvers[name].watches
        invariant same ==> State() == old(State())
        invariant forall s :: s in old(resolvers)[name].watches ==>
          s in resolvers[name].watches && resolvers[name].watches[s] == old(resolvers)[name].watches[s]
      {
        var svc := wanted[i];
        servicesByName := servicesByName + {svc};
        if svc !in resolvers[name].watches {
          if fails(Watch(name, resolvers[name].spec, svc)) {
            return false;
          }
          StartWatch(name, svc);
        }
      }
      assert wanted[..|wanted|] == wanted;
      StopUnwanted(name, servicesByName);
      ok := true;
    }

    method StopUnwanted(name: string, keep: set<string>)
      requires Inv(State()) && name in resolvers && keep <= resolvers[name].watches.Keys
      modifies this`resolvers, this`stopped
      ensures Inv(State()) && name in resolvers && resolvers[name].spec == old(resolvers)[name].spec
      ensures resolvers == old(resolvers)[name := resolvers[name]]
      ensures resolvers[name].watches == map s | s in keep :: old(resolvers)[name].watches[s]
      ensures old(resolvers)[name].watches.Keys == keep ==> State() == old(State())
    {
      var rest := resolvers[name].watches.Keys;
      while rest != {}
        invariant Inv(State()) && name in resolvers && resolvers[name].spec == old(resolvers)[name].spec
        invariant resolvers == old(resolvers)[name := resolvers[name]]
        invariant keep <= resolvers[name].watches.Keys <= keep + rest &&
          rest <= resolvers[name].watches.Keys <= old(resolvers)[name].watches.Keys
        invariant forall s :: s in resolvers[name].watches ==>
          resolvers[name].watches[s] == old(resolvers)[name].watches[s]
        invariant old(resolvers)[name].watches.Keys == keep ==> State() == old(State())
        decreases rest
      {
        var s :| s in rest;
        if s !in keep {
          StopWatch(name, s);
        }
        rest := rest - {s};
      }
    }

    /** Recreate the resolvers that are new or whose spec changed; leave the others alone. */
    method RecreateChanged(byName: map<string, string>)
      requires Inv(State())
      modifies this`resolvers, this`stopped
      ensures Inv(State()) && resolvers.Keys == old(resolvers).Keys + byName.Keys
      ensures forall n :: n in byName ==> resolvers[n].spec == byName[n]
      ensures forall n :: n in old(resolvers) && (n in byName ==> old(resolvers)[n].spec == byName[n]) ==>
        resolvers[n] == old(resolvers)[n]
      ensures Unchanged(old(resolvers), byName) ==> State() == old(State())
    {
      hide Inv;
      var rest := byName.Keys;
      while rest != {}
        invariant Inv(State()) && rest <= byName.Keys && resolvers.Keys == old(resolvers).Keys + (byName.Keys - rest)
        invariant forall n :: n in byName && n !in rest ==> resolvers[n].spec == byName[n]
        invariant forall n ::
          n in old(resolvers) && (n in rest || (n in byName ==> old(resolvers)[n].spec == byName[n])) ==>
          resolvers[n] == old(resolvers)[n]
        invariant Unchanged(old(resolvers), byName) ==> State() == old(State())
        decreases rest
      {
        var name :| name in rest;
        if name !in resolvers || resolvers[name].spec != byName[name] {
          if name in resolvers {
            DropResolver(name);
          }
          AddResolver(name, byName[name]);
        }
        rest := rest - {name};
      }
    }

    /** Drop the resolvers that are not needed any more. */
    method DropUnneeded(byName: map<string, string>)
      requires Inv(State()) && byName.Keys <= resolvers.Keys
      modifies this`resolvers, this`stopped
      ensures Inv(State()) && resolvers == map n | n in byName :: old(resolvers)[n]
      ensures old(resolvers).Keys == byName.Keys ==> State() == old(State())
    {
      hide Inv;
      var rest := resolvers.Keys;
      while rest != {}
        invariant Inv(State()) && rest <= resolvers.Keys && byName.Keys <= resolvers.Keys <= byName.Keys + rest &&
          resolvers.Keys <= old(resolvers).Keys
        invariant forall n :: n in resolvers ==> resolvers[n] == old(resolvers)[n]
        invariant old(resolvers).Keys == byName.Keys ==> State() == old(State())
        decreases rest
      {
        var name :| name in rest;
        if name !in byName {
          DropResolver(name);
        }
        rest := rest - {name};
      }
    }

    method AddResolver(name: string, spec: string)
      requires Inv(State()) && name !in resolvers
      modifies this`resolvers
      ensures Inv(State()) && resolvers == old(resolvers)[name := Live(spec, map[])]
    {
      ghost var before := State();
      resolvers := resolvers[name := Live(spec, map[])];
      assert forall n, t, i: nat {:trigger Runs(State(), n, t, i)} :: Runs(State(), n, t, i) <==> Runs(before, n, t, i);
    }

    /** reconcile. `fails` says which watches Consul would refuse this time. */
    method Reconcile(rs: seq<Resolver>, ms: seq<Mapping>, fails: Watch -> bool) returns (ok: bool)
      requires Inv(State())
      modifies this`resolvers, this`started, this`stopped, this`firstReconcileHasHappened, this`keysForBootstrap
      ensures Inv(State())
      ensures ok ==> Settled(State(), rs, ms)
      ensures Settled(old(State()), rs, ms) ==> ok && State() == old(State())
      ensures forall n, s, id: nat ::
        Runs(old(State()), n, s, id) && Wanted(rs, ms, n, s) && SpecOf(rs, n) == Some(old(resolvers)[n].spec) ==>
        Runs(State(), n, s, id)
      ensures !ok ==>
        exists n, s, spec :: Wanted(rs, ms, n, s) && SpecOf(rs, n) == Some(spec) && fails(Watch(n, spec, s))
      ensures firstReconcileHasHappened == (old(firstReconcileHasHappened) || ok)
      ensures ok && !old(firstReconcileHasHappened) ==>
        forall s :: s in keysForBootstrap <==> WantedAnywhere(rs, ms, s)
      ensures !ok || old(firstReconcileHasHappened) ==> keysForBootstrap == old(keysForBootstrap)
    {
      hide Settled, Planned, Inv, Wanted, Follows, Keeps, Runs;
      var byName, services := Plan(rs, ms);
      PlannedSettled(State(), rs, ms, byName, services);
      ok := Carry(byName, services, fails);
      PlannedKeeps(old(State()), State(), rs, ms, byName, services);
      if ok {
        PlannedSettled(State(), rs, ms, byName, services);
        if !firstReconcileHasHappened {
          firstReconcileHasHappened := true;
          keysForBootstrap := AllServices(services);
          PlannedKeys(rs, ms, byName, services);
        }
      }
    }

    /** The last loop of reconcile: each resolver follows its services, until a watch fails. */
    method ReconcileAll(services: map<string, seq<string>>, fails: Watch -> bool) returns (ok: bool)
      requires Inv(State()) && resolvers.Keys == services.Keys
      modifies this`resolvers, this`started, this`stopped
      ensures Inv(State()) && resolvers.Keys == services.Keys
      ensures forall n :: n in services ==>
        resolvers[n] == old(resolvers)[n] || Keeps(old(resolvers)[n], resolvers[n], services[n])
      ensures ok ==> AllServed(resolvers, services)
      ensures AllServed(old(resolvers), services) ==> ok && State() == old(State())
      ensures !ok ==> exists n, s :: n in services && s in services[n] && fails(Watch(n, resolvers[n].spec, s))
    {
      hide Inv, Keeps, Serves;
      var rest := services.Keys;
      while rest != {}
        invariant Inv(State()) && rest <= services.Keys && resolvers.Keys == services.Keys
        invariant forall n :: n in rest ==> resolvers[n] == old(resolvers)[n]
        invariant forall n :: n in services && n !in rest ==>
          Keeps(old(resolvers)[n], resolvers[n], services[n]) && Serves(resolvers[n], services[n])
        invariant forall n :: n in services ==> resolvers[n].spec == old(resolvers)[n].spec
        invariant AllServed(old(resolvers), services) ==> State() == old(State())
        decreases rest
      {
        var name :| name in rest;
        ok := ReconcileResolver(name, services[name], fails);
        if !ok {
          return;
        }
        rest := rest - {name};
      }
      ok := true;
    }

    /** The second part of reconcile: make the ledger follow the plan, until a watch fails. */
    method Carry(byName: map<string, string>, services: map<string, seq<string>>, fails: Watch -> bool)
      returns (ok: bool)
      requires Inv(State()) && byName.Keys == services.Keys
      modifies this`resolvers, this`started, this`stopped
      ensures Inv(State()) && resolvers.Keys == byName.Keys
      ensures ok ==> Follows(resolvers, byName, services)
      ensures Follows(old(resolvers), byName, services) ==> ok && State() == old(State())
      ensures !ok ==> exists n, s :: n in byName && s in services[n] && fails(Watch(n, byName[n], s))
      ensures forall n :: n in byName && n in old(resolvers) && old(resolvers)[n].spec == byName[n] ==>
        Keeps(old(resolvers)[n], resolvers[n], services[n])
    {
      hide Inv, Serves;
      RecreateChanged(byName);
      DropUnneeded(byName);
      assert Unchanged(old(resolvers), byName) ==> State() == old(State());
      ok := ReconcileAll(services, fails);
    }

    /** cleanup: nothing is left running. */
    method Cleanup(fails: Watch -> bool)
      requires Inv(State())
      modifies this`resolvers, this`started, this`stopped, this`firstReconcileHasHappened, this`keysForBootstrap
      ensures Inv(State()) && resolvers == map[] && forall id :: 0 <= id < |started| ==> id in stopped
    {
      var ok := Reconcile([], [], fails);
      assert forall n :: n !in resolvers;
    }

    /** Reconciling again with the same input starts nothing and stops nothing. */
    method ReconcileTwice(rs: seq<Resolver>, ms: seq<Mapping>, fails1: Watch -> bool, fails2: Watch -> bool)
      returns (ok1: bool, ok2: bool, ghost between: Ledger)
      requires Inv(State())
      modifies this`resolvers, this`started, this`stopped, this`firstReconcileHasHappened, this`keysForBootstrap
      ensures ok1 ==> ok2 && State() == between && Settled(between, rs, ms)
    {
      ok1 := Reconcile(rs, ms, fails1);
      between := State();
      ok2 := Reconcile(rs, ms, fails2);
    }

    /** updateEndpoints */
    method UpdateEndpoints(service: string, addresses: seq<string>)
      modifies this`endpoints
      ensures endpoints == old(endpoints)[service := addresses]
    {
      endpoints := endpoints[service := addresses];
    }

    /** isBootstrapped: true from the first time every key of the first reconcile has endpoints. */
    method IsBootstrapped() returns (b: bool)
      modifies this`bootstrapped
      ensures b ==
        (firstReconcileHasHappened && (old(bootstrapped) || forall k :: k in keysForBootstrap ==> k in endpoints))
      ensures bootstrapped == (old(bootstrapped) || b)
    {
      if !firstReconcileHasHappened {
        return false;
      }
      if bootstrapped {
        return true;
      }
      for i := 0 to |keysForBootstrap|
        invariant forall k :: k in keysForBootstrap[..i] ==> k in endpoints
        invariant !bootstrapped
      {
        if keysForBootstrap[i] !in endpoints {
          return false;
        }
      }
      assert keysForBootstrap[..|keysForBootstrap|] == keysForBootstrap;
      bootstrapped := true;
      return true;
    }
  }

  // ---------------------------------------------------------------- the plan

  /** What the first part of reconcile computes: the needed resolvers, and their services. */
  ghost predicate Planned(
    rs: seq<Resolver>, ms: seq<Mapping>, byName: map<string, string>, services: map<string, seq<string>>)
  {
    && byName.Keys == services.Keys
    && (forall n :: n in byName ==> SpecOf(rs, n) == Some(byName[n]) && services[n] != [])
    && (forall n, s :: Wanted(rs, ms, n, s) <==> n in services && s in services[n])
  }

  /** The resolvers have exactly the planned specs and services. */
  ghost predicate Follows(resolvers: map<string, Live>, byName: map<string, string>, services: map<string, seq<string>>)
    requires byName.Keys == services.Keys
  {
    Unchanged(resolvers, byName) && AllServed(resolvers, services)
  }

  ghost predicate AllServed(resolvers: map<string, Live>, services: map<string, seq<string>>)
    requires resolvers.Keys == services.Keys
  {
    forall n :: n in services ==> Serves(resolvers[n], services[n])
  }

  predicate Unchanged(resolvers: map<string, Live>, byName: map<string, string>) {
    resolvers.Keys == byName.Keys && forall n :: n in byName ==> resolvers[n].spec == byName[n]
  }

  /** Following the plan is being settled. */
  lemma PlannedSettled(
    l: Ledger, rs: seq<Resolver>, ms: seq<Mapping>, byName: map<string, string>, services: map<string, seq<string>>)
    requires Planned(rs, ms, byName, services)
    ensures byName.Keys == services.Keys
    ensures Settled(l, rs, ms) <==> Follows(l.resolvers, byName, services)
  {
    if Settled(l, rs, ms) {
      forall n | n in l.resolvers ensures n in byName {
        var s :| s in l.resolvers[n].watches;
        assert Wanted(rs, ms, n, s);
      }
      forall n | n in byName ensures n in l.resolvers {
        assert Wanted(rs, ms, n, services[n][0]);
      }
      forall n, s | n in byName ensures s in l.resolvers[n].watches <==> s in services[n] {
        assert Wanted(rs, ms, n, s) <==> s in services[n];
      }
    }
    if Follows(l.resolvers, byName, services) {
      forall n | n in l.resolvers ensures l.resolvers[n].watches != map[] {
        assert Serves(l.resolvers[n], services[n]);
        assert services[n][0] in l.resolvers[n].watches;
      }
      forall n, s ensures Wanted(rs, ms, n, s) <==> n in l.resolvers && s in l.resolvers[n].watches {
        assert n in byName ==> Serves(l.resolvers[n], services[n]);
      }
    }
  }

  lemma PlannedKeeps(
    l: Ledger, l': Ledger, rs: seq<Resolver>, ms: seq<Mapping>, byName: map<string, string>,
    services: map<string, seq<string>>)
    requires Planned(rs, ms, byName, services) && l'.resolvers.Keys == byName.Keys
    requires forall n :: n in byName && n in l.resolvers && l.resolvers[n].spec == byName[n] ==>
      Keeps(l.resolvers[n], l'.resolvers[n], services[n])
    ensures forall n, s, id: nat ::
      Runs(l, n, s, id) && Wanted(rs, ms, n, s) && SpecOf(rs, n) == Some(l.resolvers[n].spec) ==> Runs(l', n, s, id)
  {
  }

  predicate Listed(services: map<string, seq<string>>, s: string) {
    exists n :: n in services && s in services[n]
  }

  lemma PlannedKeys(
    rs: seq<Resolver>, ms: seq<Mapping>, byName: map<string, string>, services: map<string, seq<string>>)
    requires Planned(rs, ms, byName, services)
    ensures forall s :: Listed(services, s) <==> WantedAnywhere(rs, ms, s)
  {
  }

  method Plan(rs: seq<Resolver>, ms: seq<Mapping>)
    returns (byName: map<string, string>, services: map<string, seq<string>>)
    ensures Planned(rs, ms, byName, services)
  {
    byName := map[];
    for i := 0 to |rs|
      invariant forall n :: Get(byName, n) == SpecOf(rs[..i], n)
    {
      assert rs[..i + 1][..i] == rs[..i];
      byName := byName[rs[i].name := rs[i].spec];
    }
    assert rs[..|rs|] == rs;
    services := map[];
    for i := 0 to |ms|
      invariant forall n :: Get(byName, n) == SpecOf(rs, n)
      invariant forall n :: n in services ==> n in byName && services[n] != []
      invariant forall n, s :: Wanted(rs, ms[..i], n, s) <==> n in services && s in services[n]
    {
      assert ms[..i + 1] == ms[..i] + [ms[i]];
      assert forall n, s {:trigger Wanted(rs, ms[..i + 1], n, s)} :: Wanted(rs, ms[..i + 1], n, s) <==>
        Wanted(rs, ms[..i], n, s) || (Mapping(s, n) == ms[i] && n != "" && n in byName);
      var rname := ms[i].resolver;
      if rname != "" && rname in byName {
        services := services[rname := (if rname in services then services[rname] else []) + [ms[i].service]];
      }
    }
    assert ms[..|ms|] == ms;
    byName := map n | n in byName && n in services :: byName[n];
  }

  method AllServices(services: map<string, seq<string>>) returns (keys: seq<string>)
    ensures forall s :: s in keys <==> Listed(services, s)
  {
    keys := [];
    var rest := services.Keys;
    while rest != {}
      invariant rest <= services.Keys
      invariant forall s :: s in keys <==> exists n :: n in services && n !in rest && s in services[n]
      decreases rest
    {
      var n :| n in rest;
      keys := keys + services[n];
      rest := rest - {n};
    }
  }
}
