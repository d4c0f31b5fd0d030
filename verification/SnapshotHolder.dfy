/** The snapshot holder's mutex-held sections, over the real Consul watcher and dispatcher
    (cmd/entrypoint/watcher.go). Each is proved to be the step of the watch loop that models it. */
module SnapshotHolder {
  import opened Wrappers
  import opened KatesState
  import opened WatchLoop
  import opened Consul
  import opened Gateway
  import opened Names
  import GS = GatewaySnapshot
  import D = Dispatcher

  ghost function BootOf(c: ConsulWatcher): Boot
    reads c
  {
    Boot(c.firstReconcileHasHappened, c.keysForBootstrap, c.endpoints, c.bootstrapped)
  }

  function IdOf(d: Delta): D.Id {
    D.Id(d.kind, d.namespace, d.name)
  }

  predicate Deletes(kinds: set<string>, d: Delta) {
    d.kind in kinds && d.deltaType == ObjectDelete
  }

  function DeleteOp(kinds: set<string>, d: Delta): seq<D.Op> {
    if Deletes(kinds, d) then [D.Delete(IdOf(d))] else []
  }

  /** What the deleted resources of registered kinds ask of the dispatcher. */
  function DeleteOps(kinds: set<string>, deltas: seq<Delta>): seq<D.Op> {
    if deltas == [] then []
    else DeleteOps(kinds, deltas[..|deltas| - 1]) + DeleteOp(kinds, deltas[|deltas| - 1])
  }

  predicate AnyRegistered(kinds: set<string>, deltas: seq<Delta>) {
    exists d :: d in deltas && d.kind in kinds
  }

  predicate IsWatched(watches: set<string>, more: map<string, bool>, d: Delta) {
    d.kind == "Endpoints" && (Qualified(d.namespace, d.name) in watches || Qualified(d.namespace, d.name) in more)
  }

  predicate AnyWatched(watches: set<string>, more: map<string, bool>, deltas: seq<Delta>) {
    exists d :: d in deltas && IsWatched(watches, more, d)
  }

  /** The flags that K8sUpdate's loop keeps. */
  datatype Flags = Flags(endpointsChanged: bool, dispatcherChanged: bool, endpointsOnly: bool)

  function FlagsOf(kinds: set<string>, watches: set<string>, more: map<string, bool>, deltas: seq<Delta>): Flags {
    Flags(AnyWatched(watches, more, deltas), AnyRegistered(kinds, deltas), EndpointsOnly(deltas))
  }

  function Flagged(kinds: set<string>, watches: set<string>, more: map<string, bool>, f: Flags, d: Delta): Flags {
    Flags(
      f.endpointsChanged || IsWatched(watches, more, d),
      f.dispatcherChanged || d.kind in kinds,
      f.endpointsOnly && d.kind == "Endpoints")
  }

  lemma TakeOne(
    kinds: set<string>, watches: set<string>, more: map<string, bool>, unsent: seq<Delta>, deltas: seq<Delta>, i: nat)
    requires i < |deltas|
    ensures FlagsOf(kinds, watches, more, deltas[..i + 1]) ==
      Flagged(kinds, watches, more, FlagsOf(kinds, watches, more, deltas[..i]), deltas[i])
    ensures DeleteOps(kinds, deltas[..i + 1]) == DeleteOps(kinds, deltas[..i]) + DeleteOp(kinds, deltas[i])
    ensures unsent + deltas[..i] + [deltas[i]] == unsent + deltas[..i + 1]
  {
    hide IsWatched, DeleteOp;
    assert deltas[..i + 1] == deltas[..i] + [deltas[i]];
    assert deltas[..i + 1][..i] == deltas[..i];
  }

  lemma ApplyOne(transforms: D.Transforms, configs: GS.Configs, op: D.Op)
    ensures D.ApplyAll(transforms, configs, []) == configs
    ensures D.ApplyAll(transforms, configs, [op]) == D.Apply(transforms, configs, op)
  {
    assert [op][..0] == [];
  }

  lemma {:induction false} ApplyAllAppend(
    transforms: D.Transforms, configs: GS.Configs, ops: seq<D.Op>, more: seq<D.Op>)
    ensures D.ApplyAll(transforms, configs, ops + more) ==
      D.ApplyAll(transforms, D.ApplyAll(transforms, configs, ops), more)
    decreases |more|
  {
    if more == [] {
      assert ops + more == ops;
    } else {
      var n := |more| - 1;
      assert (ops + more)[..|ops| + n] == ops + more[..n];
      ApplyAllAppend(transforms, configs, ops, more[..n]);
    }
  }

  /** The dispatcher's configurations after an update; `fast` is whether it took the fast path. */
  function Dispatched(configs: GS.Configs, deltas: seq<Delta>, resources: seq<D.Resource>, fast: bool): GS.Configs {
    if fast then D.ApplyAll(D.REGISTERED, configs, DeleteOps(D.REGISTERED.Keys, deltas) + D.Upserts(resources))
      else configs
  }

  datatype UpdateError = UpdateFailed | SecretsFailed | ConsulFailed

  /** consulWatcher.run: the goroutine that takes endpoints and tells the loop, coalesced. */
  class ConsulRunner {
    const consul: ConsulWatcher
    var dirty: bool

    constructor (consul: ConsulWatcher)
      ensures this.consul == consul && !dirty
    {
      this.consul, dirty := consul, false;
    }

    /** Where the watch loop's model is when this goroutine is at its select. */
    ghost predicate At(s: State)
      reads this, consul
    {
      s.boot == BootOf(consul) && s.dirty == dirty && !s.marking
    }

    /** Endpoints arrive: two steps of the watch loop, after which the loop will be told, and what
        had endpoints still has. */
    method Receive(service: string, addresses: Addresses, ghost s: State) returns (ghost s': State)
      requires At(s) && WatchLoop.Inv(s)
      modifies this`dirty, consul`endpoints
      ensures s' == Next(Next(s, EndpointsArrive(service, addresses)), Mark) && At(s') && WatchLoop.Inv(s') && dirty
      ensures BootCondition(s.boot) ==> BootCondition(s'.boot)
      ensures !BootCondition(s.boot) ==>
        (BootCondition(s'.boot) <==>
        s.boot.first && forall k :: k in s.boot.keys && k !in s.boot.endpoints ==> k == service)
    {
      var steps := [EndpointsArrive(service, addresses), Mark];
      s' := Next(Next(s, steps[0]), steps[1]);
      TwoSteps(s, steps[0], steps[1]);
      hide WatchLoop.Inv;
      consul.UpdateEndpoints(service, addresses);
      dirty := true;
    }

    /** The loop takes the signal. */
    method Tell(ghost s: State) returns (ghost s': State)
      requires At(s) && WatchLoop.Inv(s) && dirty && s.loop == Selecting
      modifies this`dirty
      ensures s' == Next(s, Coalesce) && At(s') && WatchLoop.Inv(s') && !dirty
    {
      s' := Next(s, Coalesce);
      StepKeepsInv(s, Coalesce);
      hide WatchLoop.Inv;
      dirty := false;
    }
  }

  lemma TwoSteps(s: State, a: Step, b: Step)
    requires WatchLoop.Inv(s) && Enabled(s, a) && Enabled(Next(s, a), b)
    ensures WatchLoop.Inv(Next(Next(s, a), b))
  {
    hide WatchLoop.Inv, Next, Enabled;
    StepKeepsInv(s, a);
    StepKeepsInv(Next(s, a), b);
  }

  class Holder {
    const dispatcher: D.Dispatcher
    var consulEndpoints: map<string, Addresses>
    var unsentDeltas: seq<Delta>
    var changeCount: nat
    var changeNotified: nat
    var endpointWatches: set<string>

    ghost function State(): WatchLoop.Holder
      reads this
    {
      WatchLoop.Holder(consulEndpoints, unsentDeltas, changeCount, changeNotified)
    }

    constructor ()
      ensures State() == INIT.holder && endpointWatches == {}
      ensures fresh(dispatcher) && dispatcher.Valid() && dispatcher.transforms == D.REGISTERED &&
        dispatcher.configs == map[]
    {
      dispatcher := new D.Dispatcher();
      consulEndpoints, unsentDeltas, changeCount, changeNotified, endpointWatches := map[], [], 0, 0, {};
      new;
      var _ := dispatcher.Register("Gateway", D.CompileResource);
      var _ := dispatcher.Register("HTTPRoute", D.CompileResource);
    }

    /** What K8sUpdate's loop does with one delta. */
    method TakeDelta(delta: Delta, f: Flags) returns (f': Flags)
      requires dispatcher.Valid()
      modifies this`unsentDeltas, dispatcher`configs, dispatcher`snapshot
      ensures dispatcher.Valid() && unsentDeltas == old(unsentDeltas) + [delta]
      ensures f' == Flagged(dispatcher.transforms.Keys, endpointWatches, dispatcher.endpointWatches, f, delta)
      ensures dispatcher.configs ==
        D.ApplyAll(dispatcher.transforms, old(dispatcher.configs), DeleteOp(dispatcher.transforms.Keys, delta))
    {
      ApplyOne(dispatcher.transforms, dispatcher.configs, D.Delete(IdOf(delta)));
      hide D.Apply, D.ApplyAll, D.ResourceKey, Qualified, D.Dispatcher.Valid;
      f' := f;
      unsentDeltas := unsentDeltas + [delta];
      if delta.kind == "Endpoints" {
        if Qualified(delta.namespace, delta.name) in endpointWatches ||
          dispatcher.IsWatched(delta.namespace, delta.name) {
          f' := f'.(endpointsChanged := true);
        }
      } else {
        f' := f'.(endpointsOnly := false);
      }
      if dispatcher.IsRegistered(delta.kind) {
        f' := f'.(dispatcherChanged := true);
        if delta.deltaType == ObjectDelete {
          dispatcher.DeleteKey(IdOf(delta));
        }
      }
    }

    /** The loop over the deltas in K8sUpdate. */
    method TakeDeltas(deltas: seq<Delta>) returns (f: Flags)
      requires dispatcher.Valid()
      modifies this`unsentDeltas, dispatcher`configs, dispatcher`snapshot
      ensures dispatcher.Valid() && unsentDeltas == old(unsentDeltas) + deltas
      ensures f == FlagsOf(dispatcher.transforms.Keys, endpointWatches, dispatcher.endpointWatches, deltas)
      ensures dispatcher.configs ==
        D.ApplyAll(dispatcher.transforms, old(dispatcher.configs), DeleteOps(dispatcher.transforms.Keys, deltas))
    {
      f := Flags(false, false, true);
      ghost var transforms, watches, more := dispatcher.transforms, endpointWatches, dispatcher.endpointWatches;
      ghost var kinds, unsent, configs := transforms.Keys, unsentDeltas, dispatcher.configs;
      assert deltas[..0] == [] && unsent + [] == unsent;
      hide Flagged, DeleteOp, D.Apply, D.Dispatcher.Valid, AnyWatched, AnyRegistered, EndpointsOnly;
      for i := 0 to |deltas|
        invariant dispatcher.Valid() && unsentDeltas == unsent + deltas[..i]
        invariant f == FlagsOf(kinds, watches, more, deltas[..i])
        invariant dispatcher.configs == D.ApplyAll(transforms, configs, DeleteOps(kinds, deltas[..i]))
      {
        hide FlagsOf, DeleteOps, D.ApplyAll;
        TakeOne(kinds, watches, more, unsent, deltas, i);
        ApplyAllAppend(transforms, configs, DeleteOps(kinds, deltas[..i]), DeleteOp(kinds, deltas[i]));
        f := TakeDelta(deltas[i], f);
      }
      assert deltas[..|deltas|] == deltas;
    }

    method UpsertAll(resources: seq<D.Resource>)
      requires dispatcher.Valid()
      modifies dispatcher`configs, dispatcher`snapshot
      ensures dispatcher.Valid()
      ensures dispatcher.configs == D.ApplyAll(dispatcher.transforms, old(dispatcher.configs), D.Upserts(resources))
    {
      hide D.Dispatcher.Valid, D.Apply;
      ghost var transforms, configs, ops := dispatcher.transforms, dispatcher.configs, D.Upserts(resources);
      for i := 0 to |resources|
        invariant dispatcher.Valid() && dispatcher.configs == D.ApplyAll(transforms, configs, ops[..i])
      {
        assert ops[..i + 1][..i] == ops[..i];
        var _ := dispatcher.Upsert(resources[i]);
      }
      assert ops[..|resources|] == ops;
    }

    /** The dispatcher has the two transforms in use, and only what they compiled. */
    ghost predicate Valid()
      reads this, dispatcher
    {
      dispatcher.Valid() && dispatcher.transforms == D.REGISTERED && GS.AllWellCompiled(dispatcher.configs)
    }

    /** K8sUpdate. `updateFails`, `detected` and `deltas` are what FilteredUpdate reports,
        `secretsFail` whether reconciling Secrets does, `watches` the endpoints that resolvers ask
        for now, `resources` the gateway resources of the new snapshot. The dispatcher always has
        a snapshot to give, so the first three errors are the only ones. */
    method K8sUpdate(
      consul: ConsulWatcher, updateFails: bool, detected: bool, deltas: seq<Delta>, secretsFail: bool,
      rs: seq<Resolver>, ms: seq<Mapping>, fails: Watch -> bool, watches: set<string>, resources: seq<D.Resource>)
      returns (changed: bool, error: Option<UpdateError>, fast: Option<GS.Snapshot>)
      requires Valid() && Consul.Inv(consul.State())
      modifies this`unsentDeltas, this`changeCount, this`endpointWatches, dispatcher
      modifies consul`resolvers, consul`started, consul`stopped, consul`firstReconcileHasHappened,
        consul`keysForBootstrap
      ensures Valid() && Consul.Inv(consul.State()) && changed == (detected && error.None?)
      ensures error == Some(UpdateFailed) <==> updateFails
      ensures error == Some(SecretsFailed) <==> !updateFails && detected && secretsFail
      ensures error == Some(ConsulFailed) ==>
        exists n, s, spec :: Wanted(rs, ms, n, s) && SpecOf(rs, n) == Some(spec) && fails(Watch(n, spec, s))
      ensures !changed ==> State() == old(State())
      ensures !changed && error != Some(ConsulFailed) ==>
        BootOf(consul) == old(BootOf(consul)) && consul.State() == old(consul.State())
      ensures changed ==>
        Settled(consul.State(), rs, ms) && BootOf(consul) == Reconciled(old(BootOf(consul)), consul.keysForBootstrap)
      ensures changed && !old(consul.firstReconcileHasHappened) ==>
        forall s :: s in consul.keysForBootstrap <==> WantedAnywhere(rs, ms, s)
      ensures changed ==> State() == HolderUpdate(old(State()), deltas)
      ensures changed ==>
        (fast.Some? <==>
           || watches != old(endpointWatches) || AnyWatched(watches, old(dispatcher.endpointWatches), deltas)
           || AnyRegistered(D.REGISTERED.Keys, deltas))
      ensures dispatcher.configs == Dispatched(old(dispatcher.configs), deltas, resources, fast.Some?)
      ensures fast.Some? ==> GS.IsBuildOf(dispatcher.configs, fast.value) && GS.Consistent(fast.value)
    {
      changed, error, fast := false, None, None;
      if updateFails {
        error := Some(UpdateFailed);
        return;
      }
      if !detected {
        return;
      }
      if secretsFail {
        error := Some(SecretsFailed);
        return;
      }
      hide Settled, Wanted, WantedAnywhere, Consul.Inv, GS.IsBuildOf, GS.AllWellCompiled, GS.Consistent;
      hide AnyWatched, AnyRegistered, EndpointsOnly, D.Dispatcher.Valid;
      var ok := consul.Reconcile(rs, ms, fails);
      if !ok {
        error := Some(ConsulFailed);
        return;
      }
      hide Dispatched;
      changed := true;
      fast := Absorb(deltas, watches, resources);
    }

    /** K8sUpdate after the Consul reconcile. */
    method Absorb(deltas: seq<Delta>, watches: set<string>, resources: seq<D.Resource>)
      returns (fast: Option<GS.Snapshot>)
      requires Valid()
      modifies this`unsentDeltas, this`changeCount, this`endpointWatches, dispatcher
      ensures Valid() && State() == HolderUpdate(old(State()), deltas)
      ensures fast.Some? <==>
        || watches != old(endpointWatches) || AnyWatched(watches, old(dispatcher.endpointWatches), deltas)
        || AnyRegistered(D.REGISTERED.Keys, deltas)
      ensures dispatcher.configs == Dispatched(old(dispatcher.configs), deltas, resources, fast.Some?)
      ensures fast.Some? ==> GS.IsBuildOf(dispatcher.configs, fast.value) && GS.Consistent(fast.value)
    {
      hide GS.IsBuildOf, GS.AllWellCompiled, GS.Consistent, AnyWatched, AnyRegistered, DeleteOps, D.Upserts,
        D.Dispatcher.Valid;
      fast := None;
      var watchesChanged := watches != endpointWatches;
      endpointWatches := watches;
      var f := TakeDeltas(deltas);
      if !f.endpointsOnly {
        changeCount := changeCount + 1;
      }
      if watchesChanged || f.endpointsChanged || f.dispatcherChanged {
        fast := Dispatch(deltas, resources, old(dispatcher.configs));
      } else {
        NothingToDelete(D.REGISTERED.Keys, deltas);
      }
    }

    method Dispatch(deltas: seq<Delta>, resources: seq<D.Resource>, ghost before: GS.Configs)
      returns (fast: Option<GS.Snapshot>)
      requires dispatcher.Valid() && dispatcher.transforms == D.REGISTERED && GS.AllWellCompiled(before)
      requires dispatcher.configs == D.ApplyAll(D.REGISTERED, before, DeleteOps(D.REGISTERED.Keys, deltas))
      modifies dispatcher
      ensures Valid() && fast.Some? && GS.IsBuildOf(dispatcher.configs, fast.value) && GS.Consistent(fast.value)
      ensures dispatcher.configs ==
        D.ApplyAll(D.REGISTERED, before, DeleteOps(D.REGISTERED.Keys, deltas) + D.Upserts(resources))
    {
      ApplyAllAppend(D.REGISTERED, before, DeleteOps(D.REGISTERED.Keys, deltas), D.Upserts(resources));
      hide D.Dispatcher.Valid, D.Apply, D.ApplyAll, GS.IsBuildOf, GS.AllWellCompiled, GS.Consistent;
      UpsertAll(resources);
      D.StayWellCompiled(before, DeleteOps(D.REGISTERED.Keys, deltas) + D.Upserts(resources));
      var _, s := dispatcher.GetSnapshot();
      fast := s;
    }

    method ConsulUpdate(consul: ConsulWatcher) returns (fast: Option<GS.Snapshot>)
      requires Valid()
      modifies this`consulEndpoints, dispatcher
      ensures Valid() && dispatcher.configs == old(dispatcher.configs)
      ensures State() == old(State()).(consul := BootOf(consul).endpoints)
      ensures fast.Some? && GS.IsBuildOf(dispatcher.configs, fast.value) && GS.Consistent(fast.value)
    {
      hide GS.IsBuildOf, GS.AllWellCompiled, GS.Consistent;
      consulEndpoints := consul.endpoints;
      var _, s := dispatcher.GetSnapshot();
      fast := s;
    }

    method IstioUpdate(secretsFail: bool) returns (ok: bool)
      requires Valid()
      modifies this`changeCount
      ensures Valid() && ok == !secretsFail
      ensures State() == if ok then old(State()).(changeCount := old(State()).changeCount + 1) else old(State())
    {
      if secretsFail {
        return false;
      }
      changeCount := changeCount + 1;
      ok := true;
    }

    /** Notify: its mutex-held section, and what it then hands to the snapshot processor. */
    method Notify(consul: ConsulWatcher) returns (emissions: seq<Emission>)
      modifies this`unsentDeltas, this`changeNotified, consul`bootstrapped
      ensures (State(), BootOf(consul)) ==
        (NotifyHolder(old(State()), old(BootOf(consul))).0, NotifyHolder(old(State()), old(BootOf(consul))).1)
      ensures var pc := NotifyHolder(old(State()), old(BootOf(consul))).2;
        emissions == if pc.Sending? then Emitted(pc.sn, pc.ready) else []
    {
      if changeNotified == changeCount {
        return [];
      }
      var sn := WatchLoop.Snapshot(consulEndpoints, unsentDeltas, changeCount);
      var bootstrapped := consul.IsBootstrapped();
      emissions := [];
      if bootstrapped {
        unsentDeltas := [];
        changeNotified := changeCount;
        emissions := [Ready(sn)];
      }
      emissions := emissions + [Incomplete(sn)];
    }
  }

  lemma {:induction false} NothingToDelete(kinds: set<string>, deltas: seq<Delta>)
    requires !AnyRegistered(kinds, deltas)
    ensures DeleteOps(kinds, deltas) == []
  {
    if deltas != [] {
      var before, d := deltas[..|deltas| - 1], deltas[|deltas| - 1];
      assert d in deltas && forall e :: e in before ==> e in deltas;
      NothingToDelete(kinds, before);
    }
  }

  // ---------------------------------------------------------------- the dispatcher follows the cluster

  predicate DeletedBy(kinds: set<string>, deltas: seq<Delta>, id: D.Id) {
    exists d :: d in deltas && Deletes(kinds, d) && IdOf(d) == id
  }

  lemma {:induction false} InForceAppend(
    transforms: D.Transforms, live: map<D.Id, D.Resource>, ops: seq<D.Op>, more: seq<D.Op>)
    ensures D.InForce(transforms, live, ops + more) == D.InForce(transforms, D.InForce(transforms, live, ops), more)
    decreases |more|
  {
    if more == [] {
      assert ops + more == ops;
    } else {
      var n := |more| - 1;
      assert (ops + more)[..|ops| + n] == ops + more[..n];
      InForceAppend(transforms, live, ops, more[..n]);
    }
  }

  lemma DeletedBySnoc(kinds: set<string>, before: seq<Delta>, d: Delta, id: D.Id)
    ensures DeletedBy(kinds, before + [d], id) <==> DeletedBy(kinds, before, id) || (Deletes(kinds, d) && IdOf(d) == id)
  {
  }

  lemma {:induction false} DeletesInForce(
    transforms: D.Transforms, kinds: set<string>, live: map<D.Id, D.Resource>, deltas: seq<Delta>, id: D.Id)
    ensures Get(D.InForce(transforms, live, DeleteOps(kinds, deltas)), id) ==
      if DeletedBy(kinds, deltas, id) then None else Get(live, id)
  {
    if deltas != [] {
      var before, d := deltas[..|deltas| - 1], deltas[|deltas| - 1];
      DeletesInForce(transforms, kinds, live, before, id);
      DeletedBySnoc(kinds, before, d, id);
      assert deltas == before + [d];
      DeleteInForce(transforms, kinds, live, before, d, id);
      assert DeleteOps(kinds, deltas) == DeleteOps(kinds, before) + DeleteOp(kinds, d);
      hide *;
    }
  }

  lemma DeleteInForce(
    transforms: D.Transforms, kinds: set<string>, live: map<D.Id, D.Resource>, before: seq<Delta>, d: Delta, id: D.Id)
    ensures Get(D.InForce(transforms, live, DeleteOps(kinds, before) + DeleteOp(kinds, d)), id) ==
      if Deletes(kinds, d) && IdOf(d) == id then None
        else Get(D.InForce(transforms, live, DeleteOps(kinds, before)), id)
  {
    hide D.InForce, DeleteOp, DeleteOps, IdOf, Deletes;
    InForceAppend(transforms, live, DeleteOps(kinds, before), DeleteOp(kinds, d));
    EnforceOne(transforms, kinds, D.InForce(transforms, live, DeleteOps(kinds, before)), d);
  }

  lemma EnforceOne(transforms: D.Transforms, kinds: set<string>, live: map<D.Id, D.Resource>, d: Delta)
    ensures D.InForce(transforms, live, DeleteOp(kinds, d)) == if Deletes(kinds, d) then live - {IdOf(d)} else live
  {
    if Deletes(kinds, d) {
      var op := D.Delete(IdOf(d));
      assert [op][..0] == [];
      assert D.InForce(transforms, live, [op]) == D.Enforce(transforms, D.InForce(transforms, live, []), op);
    }
  }

  /** What K8sUpdate leaves in the dispatcher: of the resources in the new snapshot `next`, the new
      form of each that compiles; otherwise what was in force, unless a delta deleted it. */
  lemma DispatcherFollows(
    configs: GS.Configs, live: map<D.Id, D.Resource>, deltas: seq<Delta>, resources: seq<D.Resource>,
    next: map<D.Id, D.Resource>)
    returns (live': map<D.Id, D.Resource>)
    requires D.Mirrors(D.REGISTERED, configs, live)
    requires forall r :: r in resources <==> r.id in next && next[r.id] == r
    requires forall id :: id in next ==> next[id].id == id && D.Plain(id)
    requires forall d :: d in deltas ==> D.Plain(IdOf(d))
    ensures D.Mirrors(D.REGISTERED,
      D.ApplyAll(D.REGISTERED, configs, DeleteOps(D.REGISTERED.Keys, deltas) + D.Upserts(resources)), live')
    ensures forall id :: (Get(live', id) ==
      if id in next && D.Compiled(D.REGISTERED, next[id]).Some? then Some(next[id])
      else if DeletedBy(D.REGISTERED.Keys, deltas, id) then None else Get(live, id))
  {
    var kinds := D.REGISTERED.Keys;
    var deletes, upserts := DeleteOps(kinds, deltas), D.Upserts(resources);
    live' := D.InForce(D.REGISTERED, live, deletes + upserts);
    PlainDeletes(kinds, deltas);
    assert D.AllPlain(deletes + upserts);
    hide D.Mirrors, D.Compiled, D.Plain, D.InForce, DeletedBy, DeleteOps, D.Upserts, D.ApplyAll;
    D.RunMirrors(D.REGISTERED, configs, live, deletes + upserts);
    InForceAppend(D.REGISTERED, live, deletes, upserts);
    forall id ensures Get(live', id) ==
      if id in next && D.Compiled(D.REGISTERED, next[id]).Some? then Some(next[id])
      else if DeletedBy(kinds, deltas, id) then None else Get(live, id)
    {
      DeletesInForce(D.REGISTERED, kinds, live, deltas, id);
      D.UpsertsInForce(D.REGISTERED, D.InForce(D.REGISTERED, live, deletes), resources, next, id);
    }
  }

  lemma {:induction false} PlainDeletes(kinds: set<string>, deltas: seq<Delta>)
    requires forall d :: d in deltas ==> D.Plain(IdOf(d))
    ensures D.AllPlain(DeleteOps(kinds, deltas))
  {
    if deltas != [] {
      var before, d := deltas[..|deltas| - 1], deltas[|deltas| - 1];
      assert forall e :: e in before ==> e in deltas;
      assert d in deltas;
      PlainDeletes(kinds, before);
    }
  }

  /** One update of the gateway resources in the cluster, from what they were to `next`. */
  datatype ClusterUpdate = ClusterUpdate(deltas: seq<Delta>, resources: seq<D.Resource>, next: map<D.Id, D.Resource>,
    fast: bool)

  predicate About(kinds: set<string>, deltas: seq<Delta>, id: D.Id) {
    exists d :: d in deltas && d.kind in kinds && IdOf(d) == id
  }

  /** The deltas tell each change, and a registered one takes the fast path. */
  ghost predicate TellsAll(prev: map<D.Id, D.Resource>, u: ClusterUpdate) {
    && (forall id :: Get(prev, id) != Get(u.next, id) ==> About(D.REGISTERED.Keys, u.deltas, id))
    && (forall id :: id in prev && id !in u.next ==> DeletedBy(D.REGISTERED.Keys, u.deltas, id))
    && (AnyRegistered(D.REGISTERED.Keys, u.deltas) ==> u.fast)
    && (forall d :: d in u.deltas ==> D.Plain(IdOf(d)))
  }

  /** The list is that of the cluster's resources, and they all compile. */
  ghost predicate Wholesome(u: ClusterUpdate) {
    && (forall r :: r in u.resources <==> r.id in u.next && u.next[r.id] == r)
    && (forall id :: id in u.next ==> u.next[id].id == id && D.Plain(id) && D.Compiled(D.REGISTERED, u.next[id]).Some?)
  }

  /** An update whose deltas tell every change leaves the dispatcher with the cluster's resources,
      on the fast path or not. */
  lemma DispatcherInStep(configs: GS.Configs, prev: map<D.Id, D.Resource>, u: ClusterUpdate)
    requires D.Mirrors(D.REGISTERED, configs, prev) && TellsAll(prev, u) && Wholesome(u)
    ensures D.Mirrors(D.REGISTERED, Dispatched(configs, u.deltas, u.resources, u.fast), u.next)
  {
    hide D.Mirrors, D.Compiled, D.Plain, D.ApplyAll, DeleteOps, D.Upserts, DeletedBy;
    if u.fast {
      var live' := DispatcherFollows(configs, prev, u.deltas, u.resources, u.next);
      forall id ensures Get(live', id) == Get(u.next, id) {
        assert id in prev && id !in u.next ==> DeletedBy(D.REGISTERED.Keys, u.deltas, id);
      }
      SameEntries(live', u.next);
    } else {
      SameEntries(prev, u.next);
    }
  }

  ghost predicate FaithfulRun(prev: map<D.Id, D.Resource>, us: seq<ClusterUpdate>) {
    us == [] ||
    var before, u := us[..|us| - 1], us[|us| - 1];
    FaithfulRun(prev, before) && TellsAll(ClusterAfter(prev, before), u) && Wholesome(u)
  }

  function ClusterAfter(prev: map<D.Id, D.Resource>, us: seq<ClusterUpdate>): map<D.Id, D.Resource> {
    if us == [] then prev else us[|us| - 1].next
  }

  function DispatchedAll(configs: GS.Configs, us: seq<ClusterUpdate>): GS.Configs {
    if us == [] then configs
    else var u := us[|us| - 1]; Dispatched(DispatchedAll(configs, us[..|us| - 1]), u.deltas, u.resources, u.fast)
  }

  /** Main result: over every run of such updates, skipped ones included, the dispatcher holds
      exactly the cluster's gateway resources. */
  lemma {:induction false} DispatcherStaysInStep(
    configs: GS.Configs, prev: map<D.Id, D.Resource>, us: seq<ClusterUpdate>)
    requires D.Mirrors(D.REGISTERED, configs, prev) && FaithfulRun(prev, us)
    ensures D.Mirrors(D.REGISTERED, DispatchedAll(configs, us), ClusterAfter(prev, us))
    decreases |us|
  {
    if us != [] {
      hide D.Mirrors, TellsAll, Wholesome, Dispatched;
      var before := us[..|us| - 1];
      DispatcherStaysInStep(configs, prev, before);
      DispatcherInStep(DispatchedAll(configs, before), ClusterAfter(prev, before), us[|us| - 1]);
    }
  }
}
