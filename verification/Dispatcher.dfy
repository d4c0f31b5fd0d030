/** The gateway dispatcher: resources in, versioned snapshots out (pkg/gateway/dispatcher.go). */
module Dispatcher {
  import opened Wrappers
  import opened Names
  import opened Gateway
  import opened GatewaySnapshot
  import opened Ranging

  datatype Id = Id(kind: string, namespace: string, name: string)

  datatype Spec = GatewaySpec(listeners: seq<GatewayListener>) | HTTPRouteSpec(rules: seq<Rule>) | OtherSpec

  datatype Resource = Resource(id: Id, spec: Spec)

  /** None: the transform reports an error. */
  type Transform = Resource -> Option<CompiledConfig>
  type Transforms = map<string, Transform>

  // ---------------------------------------------------------------- keys

  function ResourceKey(id: Id): string {
    id.kind + ":" + id.namespace + ":" + id.name
  }

  /** Kind and namespace hold no colon. */
  predicate Plain(id: Id) {
    Free(':', id.kind) && Free(':', id.namespace)
  }

  lemma KeyInjective(a: Id, b: Id)
    requires Plain(a) && Plain(b) && ResourceKey(a) == ResourceKey(b)
    ensures a == b
  {
    var x, y := a.namespace + [':'] + a.name, b.namespace + [':'] + b.name;
    assert ResourceKey(a) == a.kind + [':'] + x && ResourceKey(b) == b.kind + [':'] + y;
    FirstSeparator(':', a.kind, x, b.kind, y);
    FirstSeparator(':', a.namespace, a.name, b.namespace, b.name);
  }

  // ---------------------------------------------------------------- histories

  datatype Op = Upsert(r: Resource) | Delete(id: Id)

  function IdOf(op: Op): Id {
    if op.Upsert? then op.r.id else op.id
  }

  function Compiled(transforms: Transforms, r: Resource): Option<CompiledConfig> {
    if r.id.kind in transforms then transforms[r.id.kind](r) else None
  }

  /** A resource that does not compile leaves what was there. */
  function Apply(transforms: Transforms, configs: Configs, op: Op): Configs {
    match op
    case Upsert(r) =>
      var c := Compiled(transforms, r);
      if c.Some? then configs[ResourceKey(r.id) := c.value] else configs
    case Delete(id) => configs - {ResourceKey(id)}
  }

  function ApplyAll(transforms: Transforms, configs: Configs, ops: seq<Op>): Configs {
    if ops == [] then configs else Apply(transforms, ApplyAll(transforms, configs, ops[..|ops| - 1]), ops[|ops| - 1])
  }

  function Enforce(transforms: Transforms, live: map<Id, Resource>, op: Op): map<Id, Resource> {
    match op
    case Upsert(r) => if Compiled(transforms, r).Some? then live[r.id := r] else live
    case Delete(id) => live - {id}
  }

  /** The resources in force: upserted with success and not deleted since. */
  function InForce(transforms: Transforms, live: map<Id, Resource>, ops: seq<Op>): map<Id, Resource> {
    if ops == [] then live else Enforce(transforms, InForce(transforms, live, ops[..|ops| - 1]), ops[|ops| - 1])
  }

  predicate AllPlain(ops: seq<Op>) {
    forall i: nat | i < |ops| :: Plain(IdOf(ops[i]))
  }

  function Entry(transforms: Transforms, live: map<Id, Resource>, id: Id): Option<CompiledConfig> {
    if id in live then Compiled(transforms, live[id]) else None
  }

  ghost predicate Keyed(live: map<Id, Resource>, k: string) {
    exists id :: id in live && ResourceKey(id) == k
  }

  /** The configurations are those of the resources in force, each under its own key. */
  ghost predicate Mirrors(transforms: Transforms, configs: Configs, live: map<Id, Resource>) {
    && (forall id :: id in live ==> Plain(id) && live[id].id == id && Compiled(transforms, live[id]).Some?)
    && (forall id :: Plain(id) ==> Get(configs, ResourceKey(id)) == Entry(transforms, live, id))
    && (forall k :: k in configs ==> Keyed(live, k))
  }

  lemma OnlyMe(me: Id)
    requires Plain(me)
    ensures forall id :: Plain(id) && ResourceKey(id) == ResourceKey(me) ==> id == me
  {
    forall id | Plain(id) && ResourceKey(id) == ResourceKey(me) ensures id == me {
      KeyInjective(id, me);
    }
  }

  /** Changing what is under one key, and in force under one id, changes no other entry. */
  lemma EntriesElsewhere(
    transforms: Transforms, c: Configs, c': Configs, live: map<Id, Resource>, live': map<Id, Resource>, me: Id)
    requires Plain(me) && forall id :: Plain(id) ==> Get(c, ResourceKey(id)) == Entry(transforms, live, id)
    requires forall k :: k != ResourceKey(me) ==> Get(c', k) == Get(c, k)
    requires forall id :: id != me ==> Get(live', id) == Get(live, id)
    requires Get(c', ResourceKey(me)) == Entry(transforms, live', me)
    ensures forall id :: Plain(id) ==> Get(c', ResourceKey(id)) == Entry(transforms, live', id)
  {
    OnlyMe(me);
    hide Plain, ResourceKey, Compiled;
    forall id | Plain(id) ensures Get(c', ResourceKey(id)) == Entry(transforms, live', id) {
      if id != me {
        assert Get(live', id) == Get(live, id);
        assert Get(c, ResourceKey(id)) == Entry(transforms, live, id);
      }
    }
  }

  lemma MirrorsUpsert(transforms: Transforms, configs: Configs, live: map<Id, Resource>, r: Resource)
    requires Mirrors(transforms, configs, live) && Plain(r.id) && Compiled(transforms, r).Some?
    ensures Mirrors(transforms, configs[ResourceKey(r.id) := Compiled(transforms, r).value], live[r.id := r])
  {
    hide Plain, ResourceKey, Compiled;
    var more := live[r.id := r];
    forall k | Keyed(live, k) || k == ResourceKey(r.id) ensures Keyed(more, k) {
      if k == ResourceKey(r.id) {
        assert r.id in more;
      } else {
        var id :| id in live && ResourceKey(id) == k;
        assert id in more;
      }
    }
    hide Keyed;
    EntriesElsewhere(transforms, configs, configs[ResourceKey(r.id) := Compiled(transforms, r).value], live, more,
      r.id);
  }

  lemma MirrorsDelete(transforms: Transforms, configs: Configs, live: map<Id, Resource>, me: Id)
    requires Mirrors(transforms, configs, live) && Plain(me)
    ensures Mirrors(transforms, configs - {ResourceKey(me)}, live - {me})
  {
    hide Plain, ResourceKey, Compiled, Keyed;
    var less := live - {me};
    forall k | Keyed(live, k) && k != ResourceKey(me) ensures Keyed(less, k) {
      KeyedWithout(live, me, k);
    }
    EntriesElsewhere(transforms, configs, configs - {ResourceKey(me)}, live, less, me);
  }

  lemma KeyedWithout(live: map<Id, Resource>, me: Id, k: string)
    requires Keyed(live, k) && k != ResourceKey(me)
    ensures Keyed(live - {me}, k)
  {
    hide ResourceKey;
    var id :| id in live && ResourceKey(id) == k;
    assert id in live - {me};
  }

  lemma {:induction false} RunMirrors(transforms: Transforms, configs: Configs, live: map<Id, Resource>, ops: seq<Op>)
    requires AllPlain(ops) && Mirrors(transforms, configs, live)
    ensures Mirrors(transforms, ApplyAll(transforms, configs, ops), InForce(transforms, live, ops))
  {
    if ops != [] {
      var before, op := ops[..|ops| - 1], ops[|ops| - 1];
      RunMirrors(transforms, configs, live, before);
      assert Plain(IdOf(op));
      var configs', live' := ApplyAll(transforms, configs, before), InForce(transforms, live, before);
      hide Mirrors, Compiled;
      if op.Delete? {
        MirrorsDelete(transforms, configs', live', op.id);
      } else if Compiled(transforms, op.r).Some? {
        MirrorsUpsert(transforms, configs', live', op.r);
      }
    }
  }

  lemma MirrorsOnce(transforms: Transforms, c1: Configs, c2: Configs, live: map<Id, Resource>)
    requires Mirrors(transforms, c1, live) && Mirrors(transforms, c2, live)
    ensures c1 == c2
  {
    hide Plain, ResourceKey, Compiled;
    forall k ensures Get(c1, k) == Get(c2, k) {
      if k in c1 {
        assert Keyed(live, k);
        var id :| id in live && ResourceKey(id) == k;
        assert Get(c1, ResourceKey(id)) == Entry(transforms, live, id) == Get(c2, ResourceKey(id));
      } else if k in c2 {
        assert Keyed(live, k);
        var id :| id in live && ResourceKey(id) == k;
        assert Get(c1, ResourceKey(id)) == Entry(transforms, live, id) == Get(c2, ResourceKey(id));
      }
    }
    SameEntries(c1, c2);
  }

  function Upserts(batch: seq<Resource>): seq<Op> {
    seq(|batch|, i requires 0 <= i < |batch| => Upsert(batch[i]))
  }

  /** Upserting a batch puts its resources in force, as far as they compile, and leaves the others. */
  lemma {:induction false} UpsertsInForce(
    transforms: Transforms, live: map<Id, Resource>, batch: seq<Resource>, next: map<Id, Resource>, id: Id)
    requires forall r :: r in batch ==> r.id in next && next[r.id] == r
    ensures Get(InForce(transforms, live, Upserts(batch)), id) ==
      if id in next && next[id] in batch && next[id].id == id &&
        Compiled(transforms, next[id]).Some? then Some(next[id]) else Get(live, id)
  {
    if batch != [] {
      var less, last := batch[..|batch| - 1], batch[|batch| - 1];
      assert Upserts(batch)[..|batch| - 1] == Upserts(less);
      assert batch == less + [last];
      UpsertsInForce(transforms, live, less, next, id);
      hide Compiled;
    }
  }

  /** Incremental equals batch: after any history, failed upserts included, the dispatcher holds
      what a fresh one holds that was given, in any order, just the resources in force. */
  lemma IncrementalIsBatch(transforms: Transforms, ops: seq<Op>, batch: seq<Resource>)
    requires AllPlain(ops)
    requires forall r :: r in batch <==>
      r.id in InForce(transforms, map[], ops) && InForce(transforms, map[], ops)[r.id] == r
    ensures ApplyAll(transforms, map[], ops) == ApplyAll(transforms, map[], Upserts(batch))
  {
    var live := InForce(transforms, map[], ops);
    RunMirrors(transforms, map[], map[], ops);
    forall r | r in batch ensures Plain(r.id) && Compiled(transforms, r).Some? {
      assert r.id in live;
    }
    assert AllPlain(Upserts(batch));
    assert forall id :: id in live ==> live[id].id == id && live[id] in batch && Compiled(transforms, live[id]).Some?;
    RunMirrors(transforms, map[], map[], Upserts(batch));
    forall id ensures Get(InForce(transforms, map[], Upserts(batch)), id) == Get(live, id) {
      UpsertsInForce(transforms, map[], batch, live, id);
    }
    SameEntries(InForce(transforms, map[], Upserts(batch)), live);
    hide InForce, Mirrors;
    MirrorsOnce(transforms, ApplyAll(transforms, map[], ops), ApplyAll(transforms, map[], Upserts(batch)), live);
  }

  // ---------------------------------------------------------------- the dispatcher

  function VersionOf(count: nat): string {
    if count == 0 then "" else "v" + Dec(count)
  }

  /** What one GetSnapshot call answered, and at which change count. */
  datatype Answer = Answer(count: nat, snapshot: Option<Snapshot>)

  class Dispatcher {
    var transforms: Transforms
    var configs: Configs
    var version: string
    var changeCount: nat
    var snapshot: Option<Snapshot>
    var endpointWatches: map<string, bool>
    ghost var answers: seq<Answer>

    /** The cache is never stale, and an answer is fixed by its count. */
    ghost predicate Valid()
      reads this
    {
      && version == VersionOf(changeCount)
      && (snapshot.Some? ==> changeCount > 0 && IsBuildOf(configs, snapshot.value) && Consistent(snapshot.value))
      && (snapshot.Some? ==> Picks(configs, WatchEntries, endpointWatches))
      && (forall i: nat | i < |answers| :: 0 < answers[i].count <= changeCount)
      && (snapshot.Some? ==>
           forall i: nat | i < |answers| && answers[i].count == changeCount :: answers[i].snapshot == snapshot)
      && (forall i: nat, j: nat | i < |answers| && j < |answers| && answers[i].count == answers[j].count ::
           answers[i].snapshot == answers[j].snapshot)
    }

    constructor ()
      ensures Valid() && transforms == map[] && configs == map[] && snapshot == None && changeCount == 0 &&
        answers == []
    {
      transforms, configs, version, changeCount, snapshot := map[], map[], "", 0, None;
      endpointWatches, answers := map[], [];
    }

    method Register(kind: string, transform: Transform) returns (ok: bool)
      requires Valid()
      modifies this`transforms
      ensures Valid() && ok == (kind !in old(transforms))
      ensures transforms == if ok then old(transforms)[kind := transform] else old(transforms)
    {
      ok := kind !in transforms;
      if ok {
        transforms := transforms[kind := transform];
      }
    }

    /** A resource that is refused changes nothing; any other drops the cache. */
    method Upsert(r: Resource) returns (ok: bool)
      requires Valid()
      modifies this`configs, this`snapshot
      ensures Valid() && ok == Compiled(transforms, r).Some?
      ensures configs == Apply(transforms, old(configs), Op.Upsert(r))
      ensures snapshot == if ok then None else old(snapshot)
    {
      if r.id.kind !in transforms {
        return false;
      }
      var config := transforms[r.id.kind](r);
      if config.None? {
        return false;
      }
      configs := configs[ResourceKey(r.id) := config.value];
      snapshot := None;
      ok := true;
    }

    method DeleteKey(id: Id)
      requires Valid()
      modifies this`configs, this`snapshot
      ensures Valid() && configs == Apply(transforms, old(configs), Op.Delete(id)) && snapshot == None
    {
      configs := configs - {ResourceKey(id)};
      snapshot := None;
    }

    /** The answer is a snapshot a fresh dispatcher could build from the same configurations; there
        is one whenever the configurations come from the Gateway and HTTPRoute compilers. */
    method GetSnapshot() returns (v: string, s: Option<Snapshot>)
      requires Valid()
      modifies this`version, this`changeCount, this`snapshot, this`endpointWatches, this`answers
      ensures Valid() && answers == old(answers) + [Answer(changeCount, s)] && v == VersionOf(changeCount) &&
        s == snapshot
      ensures s.Some? ==> IsBuildOf(configs, s.value) && Consistent(s.value)
      ensures AllWellCompiled(configs) ==> s.Some?
      ensures old(snapshot).Some? ==> s == old(snapshot) && v == old(version)
      ensures old(snapshot).None? ==> changeCount == old(changeCount) + 1
    {
      hide IsBuildOf, Consistent, Picks, AllWellCompiled;
      if snapshot.None? {
        BuildSnapshot();
      }
      v, s := version, snapshot;
      answers := answers + [Answer(changeCount, s)];
    }

    method BuildSnapshot()
      requires Valid() && snapshot.None?
      modifies this`version, this`changeCount, this`snapshot, this`endpointWatches
      ensures Valid() && changeCount == old(changeCount) + 1
      ensures forall i: nat | i < |answers| :: answers[i].count < changeCount
      ensures AllWellCompiled(configs) ==> snapshot.Some?
    {
      hide IsBuildOf, Consistent, Picks, AllWellCompiled;
      changeCount := changeCount + 1;
      version := "v" + Dec(changeCount);
      var built, watches := Build(configs);
      if Consistent(built) {
        snapshot := Some(built);
        endpointWatches := watches;
      }
      if AllWellCompiled(configs) {
        WellCompiledConsistent(configs, built);
      }
    }

    predicate IsWatched(namespace: string, name: string)
      reads this
    {
      Qualified(namespace, name) in endpointWatches
    }

    predicate IsRegistered(kind: string)
      reads this
    {
      kind in transforms
    }
  }

  /** Two answers with the same version are the same snapshot. */
  lemma SameVersionSameSnapshot(d: Dispatcher, i: nat, j: nat)
    requires d.Valid() && i < |d.answers| && j < |d.answers|
    requires VersionOf(d.answers[i].count) == VersionOf(d.answers[j].count)
    ensures d.answers[i].snapshot == d.answers[j].snapshot
  {
    var x, y := d.answers[i].count, d.answers[j].count;
    assert VersionOf(x)[1..] == Dec(x) && VersionOf(y)[1..] == Dec(y);
    DecInjective(x, y);
    hide IsBuildOf, Consistent, Picks;
  }

  // ---------------------------------------------------------------- the transforms in use

  function CompileResource(r: Resource): Option<CompiledConfig> {
    match r.spec
    case GatewaySpec(listeners) => Some(GatewayConfig(r.id.namespace, r.id.name, listeners))
    case HTTPRouteSpec(rules) => HTTPRouteConfig(r.id.namespace, rules)
    case OtherSpec => None
  }

  const REGISTERED: Transforms := map["Gateway" := CompileResource, "HTTPRoute" := CompileResource]

  /** So no history of gateways and routes can make the dispatcher answer without a snapshot. */
  lemma {:induction false} StayWellCompiled(configs: Configs, ops: seq<Op>)
    requires AllWellCompiled(configs)
    ensures AllWellCompiled(ApplyAll(REGISTERED, configs, ops))
  {
    if ops != [] {
      StayWellCompiled(configs, ops[..|ops| - 1]);
      var op := ops[|ops| - 1];
      hide WellCompiled, GatewayConfig, HTTPRouteConfig;
      if op.Upsert? && Compiled(REGISTERED, op.r).Some? {
        assert Compiled(REGISTERED, op.r) == CompileResource(op.r);
        CompiledWell(op.r);
      }
    }
  }

  lemma CompiledWell(r: Resource)
    requires CompileResource(r).Some?
    ensures WellCompiled(CompileResource(r).value)
  {
    hide WellCompiled;
    match r.spec
    case GatewaySpec(listeners) => GatewayWellCompiled(r.id.namespace, r.id.name, listeners);
    case HTTPRouteSpec(rules) => HTTPRouteWellCompiled(r.id.namespace, rules);
  }

  /** The whole claim for gateways: whatever the history, its snapshot is consistent, and when no
      name is ambiguous it is, up to order, the one a fresh dispatcher builds from what is in force. */
  lemma HistoriesAgree(ops: seq<Op>, batch: seq<Resource>, s: Snapshot, t: Snapshot)
    requires AllPlain(ops)
    requires forall r :: r in batch <==>
      r.id in InForce(REGISTERED, map[], ops) && InForce(REGISTERED, map[], ops)[r.id] == r
    requires IsBuildOf(ApplyAll(REGISTERED, map[], ops), s) && IsBuildOf(ApplyAll(REGISTERED, map[], Upserts(batch)), t)
    requires Unambiguous(ApplyAll(REGISTERED, map[], ops))
    ensures Same(s, t) && Consistent(s) && Consistent(t)
  {
    var configs := ApplyAll(REGISTERED, map[], ops);
    IncrementalIsBatch(REGISTERED, ops, batch);
    StayWellCompiled(map[], ops);
    hide *;
    OneBuild(configs, s, t);
    WellCompiledConsistent(configs, s);
    WellCompiledConsistent(configs, t);
  }
}
