/** How the accumulator's deltas drive the Gateway API dispatcher: what kates promises of an update
    (pkg/kates/accumulator.go) meets what K8sUpdate relies on (cmd/entrypoint/watcher.go). */
module GatewayFeed {
  import opened Wrappers
  import opened KatesState
  import opened KatesRuns
  import opened KatesAccumulator
  import D = Dispatcher
  import GS = GatewaySnapshot
  import H = SnapshotHolder

  /** How the fields of an object are read as a gateway resource. */
  type Decoder = Object -> D.Spec

  function IdFor(i: Ident): D.Id {
    D.Id(i.kind, i.namespace, i.name)
  }

  function ResourceOf(decode: Decoder, o: Object): D.Resource {
    D.Resource(IdFor(IdentOf(o)), decode(o))
  }

  /** The caller holds a gateway resource in field `n` under UID `k`. */
  predicate Shows(target: map<string, map<Key, Object>>, n: string, k: Key) {
    n in target && k in target[n] && target[n][k].kind in D.REGISTERED
  }

  /** `live` are the gateway resources that the caller holds, no two under one name. */
  ghost predicate Gathers(decode: Decoder, target: map<string, map<Key, Object>>, live: map<D.Id, D.Resource>) {
    && (forall n, k :: Shows(target, n, k) ==> Gathered(decode, target[n][k], live))
    && (forall id :: id in live ==>
         exists n, k :: Shows(target, n, k) && ResourceOf(decode, target[n][k]) == live[id] && live[id].id == id)
  }

  predicate Gathered(decode: Decoder, o: Object, live: map<D.Id, D.Resource>) {
    var r := ResourceOf(decode, o); Get(live, r.id) == Some(r)
  }

  /** The caller held the resource and no longer does, although it is still in the cluster: it does not
      pass the filter any more. */
  predicate Hidden(s0: System, s: System, n: string, k: Key) {
    Shows(s0.target, n, k) && k !in Held(s.target, n) && n in s.fields && k in s.fields[n].values
  }

  /** Every resource that became hidden has been replaced by another of its name. */
  ghost predicate NoneHidden(env: Env, s0: System, s: System, next: map<D.Id, D.Resource>) {
    forall n, k :: Hidden(s0, s, n, k) ==> IdFor(env.identity(k)) in next
  }

  /** What Accumulator.Update promises of an update from `s0` to `s` without error, when nothing was lost before. */
  ghost predicate Updates(env: Env, s0: System, s: System, tags: seq<Tag>, deltas: seq<Delta>) {
    && Inv(env, s0) && Inv(env, s) && s0.lost == {}
    && s.fields.Keys == s0.fields.Keys && |tags| == |deltas|
    && (forall n :: n in s0.fields ==> Covered(s0, s.target, tags, n) && Brought(env.filter, s0, s, n))
    && (forall i: nat :: i < |tags| ==> Tells(env, s.fields, tags[i], deltas[i]))
  }

  /** FilteredUpdate keeps that promise. */
  method FilteredUpdate(acc: Accumulator, target: Target, filter: Filter, encodes: string -> bool, ghost env: Env)
    returns (updated: bool, err: bool, deltas: seq<Delta>, ghost tags: seq<Tag>)
    requires env.filter == filter && target.Valid() && Inv(env, acc.View(target.told)) && acc.lost == {}
    modifies acc`excluded, acc`fields, acc`lost, acc.client, target
    ensures target.Valid() && (!updated ==> target.told == old(target.told) && (deltas == [] || err))
    ensures !err ==> Updates(env, old(acc.View(target.told)), acc.View(target.told), tags, deltas)
  {
    hide Inv, Covered, Brought, Tells, ValidRun, Final, Target.Valid;
    ghost var steps;
    updated, err, deltas, steps, tags := acc.Update(target, filter, encodes, env);
  }

  lemma NotLost(env: Env, s0: System, s: System, tags: seq<Tag>, deltas: seq<Delta>, n: string)
    requires Updates(env, s0, s, tags, deltas) && n in s.target
    ensures n !in s.lost
  {
    assert Brought(env.filter, s0, s, n);
  }

  lemma HeldNamed(env: Env, s: System, n: string, k: Key)
    requires Inv(env, s) && n !in s.lost && k in Held(s.target, n)
    ensures n in s.fields && IdentOf(s.target[n][k]) == env.identity(k)
  {
    assert FieldInv(env, n, s.fields[n], s.excluded, s.target, s.lost);
    assert KeyInv(env, n, s.fields[n], s.excluded, Told(s.fields[n], s.target, s.lost, n), k);
  }

  /** A gateway resource that the caller holds differently now has a delta of its name. */
  lemma ChangeHasDelta(env: Env, s0: System, s: System, tags: seq<Tag>, deltas: seq<Delta>, n: string, k: Key)
    returns (i: nat)
    requires Updates(env, s0, s, tags, deltas) && (Shows(s0.target, n, k) || Shows(s.target, n, k))
    requires Get(Held(s0.target, n), k) != Get(Held(s.target, n), k)
    ensures n in s.fields && i < |tags| == |deltas| && tags[i] == Tag(n, k)
    ensures H.IdOf(deltas[i]) == IdFor(env.identity(k)) && deltas[i].kind in D.REGISTERED
    ensures deltas[i].deltaType == ObjectDelete <==> k !in s.fields[n].values
  {
    hide Inv, Brought;
    if Shows(s0.target, n, k) {
      HeldNamed(env, s0, n, k);
    } else {
      NotLost(env, s0, s, tags, deltas, n);
      HeldNamed(env, s, n, k);
    }
    assert Covered(s0, s.target, tags, n);
    i :| i < |tags| && tags[i] == Tag(n, k);
    assert Tells(env, s.fields, tags[i], deltas[i]);
  }

  lemma StillHeld(env: Env, decode: Decoder, s: System, next: map<D.Id, D.Resource>, n: string, k: Key)
    requires Inv(env, s) && n !in s.lost && k in Held(s.target, n) && env.identity(k).kind in D.REGISTERED
    requires Gathers(decode, s.target, next)
    ensures IdFor(env.identity(k)) in next
  {
    HeldNamed(env, s, n, k);
    assert Shows(s.target, n, k) && Gathered(decode, s.target[n][k], next);
  }

  /** A name that the caller no longer holds: the object that bore it has a delta, which deletes it unless
      the object is merely hidden. */
  lemma VanishedHasDelta(env: Env, decode: Decoder, s0: System, s: System, tags: seq<Tag>, deltas: seq<Delta>,
                         prev: map<D.Id, D.Resource>, next: map<D.Id, D.Resource>, id: D.Id)
    returns (n: string, k: Key, i: nat)
    requires Updates(env, s0, s, tags, deltas) && Gathers(decode, s0.target, prev) && Gathers(decode, s.target, next)
    requires id in prev && id !in next
    ensures IdFor(env.identity(k)) == id && i < |tags| == |deltas| && tags[i] == Tag(n, k)
    ensures H.IdOf(deltas[i]) == id && deltas[i].kind in D.REGISTERED
    ensures deltas[i].deltaType == ObjectDelete <==> !Hidden(s0, s, n, k)
  {
    hide Inv, Covered, Brought, Tells;
    n, k :| Shows(s0.target, n, k) && ResourceOf(decode, s0.target[n][k]) == prev[id] && prev[id].id == id;
    HeldNamed(env, s0, n, k);
    if k in Held(s.target, n) {
      NotLost(env, s0, s, tags, deltas, n);
      StillHeld(env, decode, s, next, n, k);
    }
    hide Gathers, Updates;
    i := ChangeHasDelta(env, s0, s, tags, deltas, n, k);
  }

  lemma ChangesTold(env: Env, decode: Decoder, s0: System, s: System, tags: seq<Tag>, deltas: seq<Delta>,
                    prev: map<D.Id, D.Resource>, next: map<D.Id, D.Resource>, id: D.Id)
    requires Updates(env, s0, s, tags, deltas) && Gathers(decode, s0.target, prev) && Gathers(decode, s.target, next)
    requires Get(prev, id) != Get(next, id)
    ensures H.About(D.REGISTERED.Keys, deltas, id)
  {
    hide Inv, Gathers, Covered, Brought, Tells;
    var n, k := ChangedUnder(decode, s0.target, s.target, prev, next, id);
    if Shows(s0.target, n, k) {
      HeldNamed(env, s0, n, k);
    }
    if Shows(s.target, n, k) {
      NotLost(env, s0, s, tags, deltas, n);
      HeldNamed(env, s, n, k);
    }
    hide Updates;
    var i := ChangeHasDelta(env, s0, s, tags, deltas, n, k);
    assert deltas[i] in deltas;
  }

  /** A name is held differently only if some UID that bears it is. */
  lemma ChangedUnder(decode: Decoder, target0: map<string, map<Key, Object>>, target: map<string, map<Key, Object>>,
                     prev: map<D.Id, D.Resource>, next: map<D.Id, D.Resource>, id: D.Id)
    returns (n: string, k: Key)
    requires Gathers(decode, target0, prev) && Gathers(decode, target, next) && Get(prev, id) != Get(next, id)
    ensures Get(Held(target0, n), k) != Get(Held(target, n), k)
    ensures (Shows(target0, n, k) && IdFor(IdentOf(target0[n][k])) == id) ||
      (Shows(target, n, k) && IdFor(IdentOf(target[n][k])) == id)
  {
    if id in prev {
      n, k :| Shows(target0, n, k) && ResourceOf(decode, target0[n][k]) == prev[id] && prev[id].id == id;
      assert Shows(target, n, k) ==> Gathered(decode, target[n][k], next);
    } else {
      n, k :| Shows(target, n, k) && ResourceOf(decode, target[n][k]) == next[id] && next[id].id == id;
      assert Shows(target0, n, k) ==> Gathered(decode, target0[n][k], prev);
    }
  }

  /** No two objects with a delta share a name. */
  ghost predicate OneDeltaPerName(env: Env, tags: seq<Tag>) {
    forall i: nat, j: nat | i < |tags| && j < |tags| :: env.identity(tags[i].key) == env.identity(tags[j].key) ==>
      tags[i] == tags[j]
  }

  /** Main result: the deltas of an update tell the dispatcher everything if and only if no gateway
      resource was hidden by the filter; what the filter hides is not deleted. */
  lemma TellsAllExactly(env: Env, decode: Decoder, s0: System, s: System, tags: seq<Tag>,
                        prev: map<D.Id, D.Resource>, u: H.ClusterUpdate)
    requires Updates(env, s0, s, tags, u.deltas) && Gathers(decode, s0.target, prev) &&
      Gathers(decode, s.target, u.next)
    requires (H.AnyRegistered(D.REGISTERED.Keys, u.deltas) ==> u.fast) &&
      forall d :: d in u.deltas ==> D.Plain(H.IdOf(d))
    ensures NoneHidden(env, s0, s, u.next) ==> H.TellsAll(prev, u)
    ensures H.TellsAll(prev, u) && OneDeltaPerName(env, tags) ==> NoneHidden(env, s0, s, u.next)
  {
    hide Inv, Gathers, Updates, Hidden, D.Plain;
    if NoneHidden(env, s0, s, u.next) {
      forall id | Get(prev, id) != Get(u.next, id) ensures H.About(D.REGISTERED.Keys, u.deltas, id) {
        ChangesTold(env, decode, s0, s, tags, u.deltas, prev, u.next, id);
      }
      forall id | id in prev && id !in u.next ensures H.DeletedBy(D.REGISTERED.Keys, u.deltas, id) {
        var n, k, i := VanishedHasDelta(env, decode, s0, s, tags, u.deltas, prev, u.next, id);
        assert u.deltas[i] in u.deltas;
      }
    }
    if H.TellsAll(prev, u) && OneDeltaPerName(env, tags) {
      forall n, k | Hidden(s0, s, n, k) ensures IdFor(env.identity(k)) in u.next {
        HiddenNotDeleted(env, decode, s0, s, tags, prev, u, n, k);
      }
    }
  }

  lemma HiddenNotDeleted(env: Env, decode: Decoder, s0: System, s: System, tags: seq<Tag>,
                         prev: map<D.Id, D.Resource>, u: H.ClusterUpdate, n: string, k: Key)
    requires Updates(env, s0, s, tags, u.deltas) && Gathers(decode, s0.target, prev)
    requires OneDeltaPerName(env, tags) && Hidden(s0, s, n, k)
    ensures var id := IdFor(env.identity(k)); id in prev && !H.DeletedBy(D.REGISTERED.Keys, u.deltas, id)
  {
    hide Inv, Covered, Brought, Tells;
    HeldNamed(env, s0, n, k);
    assert Gathered(decode, s0.target[n][k], prev);
    hide Gathers;
    var i := ChangeHasDelta(env, s0, s, tags, u.deltas, n, k);
    NotDeleted(env, s.fields, tags, u.deltas, i);
  }

  /** With one delta per name, a name is deleted only by its own delta. */
  lemma NotDeleted(env: Env, fields: map<string, FieldState>, tags: seq<Tag>, deltas: seq<Delta>, i: nat)
    requires |tags| == |deltas| && OneDeltaPerName(env, tags) && i < |tags| && tags[i].name in fields
    requires forall j: nat :: j < |tags| ==> Tells(env, fields, tags[j], deltas[j])
    requires tags[i].key in fields[tags[i].name].values
    ensures !H.DeletedBy(D.REGISTERED.Keys, deltas, IdFor(env.identity(tags[i].key)))
  {
    var id := IdFor(env.identity(tags[i].key));
    forall d | d in deltas && H.IdOf(d) == id ensures d.deltaType != ObjectDelete {
      var j: nat :| j < |deltas| && deltas[j] == d;
      assert Tells(env, fields, tags[j], deltas[j]);
      assert env.identity(tags[j].key) == env.identity(tags[i].key);
    }
  }

  /** The filter has nothing against gateway resources. */
  ghost predicate Spares(filter: Filter) {
    forall o: Object :: o.kind in D.REGISTERED ==> Passes(filter, o)
  }

  /** The resource validator only knows the schemas of getambassador.io, so it spares them, and then
      none can be hidden. */
  lemma SparedNotHidden(
    env: Env, s0: System, s: System, tags: seq<Tag>, deltas: seq<Delta>, next: map<D.Id, D.Resource>)
    requires Updates(env, s0, s, tags, deltas) && Spares(env.filter)
    ensures NoneHidden(env, s0, s, next)
  {
    forall n, k | Hidden(s0, s, n, k) ensures false {
      HeldNamed(env, s0, n, k);
      assert Brought(env.filter, s0, s, n);
      StoredNamed(env, s, n, k);
    }
  }

  lemma StoredNamed(env: Env, s: System, n: string, k: Key)
    requires Inv(env, s) && n in s.fields && k in s.fields[n].values
    ensures IdentOf(s.fields[n].values[k]) == env.identity(k)
  {
    assert KeyInv(env, n, s.fields[n], s.excluded, Told(s.fields[n], s.target, s.lost, n), k);
  }

  // ---------------------------------------------------------------- over whole runs

  /** One successful update: the accumulator's state before and after, and what K8sUpdate makes of it. */
  datatype Round = Round(s0: System, s: System, tags: seq<Tag>, u: H.ClusterUpdate)

  ghost predicate Proper(env: Env, decode: Decoder, r: Round) {
    && Updates(env, r.s0, r.s, r.tags, r.u.deltas) && Gathers(decode, r.s.target, r.u.next) && H.Wholesome(r.u)
    && (H.AnyRegistered(D.REGISTERED.Keys, r.u.deltas) ==> r.u.fast)
    && (forall d :: d in r.u.deltas ==> D.Plain(H.IdOf(d)))
    && NoneHidden(env, r.s0, r.s, r.u.next)
  }

  function TargetAfter(target: map<string, map<Key, Object>>, rounds: seq<Round>): map<string, map<Key, Object>> {
    if rounds == [] then target else rounds[|rounds| - 1].s.target
  }

  /** Between updates the caller's snapshot stays as it is, whatever watch events and local writes there are. */
  ghost predicate Chained(env: Env, decode: Decoder, target: map<string, map<Key, Object>>, rounds: seq<Round>) {
    rounds == [] ||
    var before, r := rounds[..|rounds| - 1], rounds[|rounds| - 1];
    Chained(env, decode, target, before) && Proper(env, decode, r) && r.s0.target == TargetAfter(target, before)
  }

  function ClusterUpdates(rounds: seq<Round>): (us: seq<H.ClusterUpdate>)
    ensures |us| == |rounds| && forall i :: 0 <= i < |us| ==> us[i] == rounds[i].u
  {
    seq(|rounds|, i requires 0 <= i < |rounds| => rounds[i].u)
  }

  lemma {:induction false} RoundsAreFaithful(
    env: Env, decode: Decoder, target: map<string, map<Key, Object>>, prev: map<D.Id, D.Resource>, rounds: seq<Round>)
    requires Gathers(decode, target, prev) && Chained(env, decode, target, rounds)
    ensures H.FaithfulRun(prev, ClusterUpdates(rounds))
    ensures Gathers(decode, TargetAfter(target, rounds), H.ClusterAfter(prev, ClusterUpdates(rounds)))
    decreases |rounds|
  {
    hide Gathers, Proper, H.Wholesome, H.TellsAll;
    if rounds != [] {
      var before, r := rounds[..|rounds| - 1], rounds[|rounds| - 1];
      RoundsAreFaithful(env, decode, target, prev, before);
      assert ClusterUpdates(rounds)[..|rounds| - 1] == ClusterUpdates(before);
      RoundIsFaithful(env, decode, H.ClusterAfter(prev, ClusterUpdates(before)), r);
    }
  }

  lemma RoundIsFaithful(env: Env, decode: Decoder, prev: map<D.Id, D.Resource>, r: Round)
    requires Proper(env, decode, r) && Gathers(decode, r.s0.target, prev)
    ensures H.TellsAll(prev, r.u) && H.Wholesome(r.u) && Gathers(decode, r.s.target, r.u.next)
  {
    hide Gathers, Updates, H.Wholesome, H.TellsAll, NoneHidden, H.AnyRegistered, D.Plain;
    TellsAllExactly(env, decode, r.s0, r.s, r.tags, prev, r.u);
  }

  /** Main result: as long as the filter hides no gateway resource that the caller held, the dispatcher
      holds exactly the gateway resources of the caller's snapshot after every update. */
  lemma GatewaysStayInStep(
    env: Env, decode: Decoder, target: map<string, map<Key, Object>>, prev: map<D.Id, D.Resource>, rounds: seq<Round>,
    configs: GS.Configs)
    requires Gathers(decode, target, prev) && Chained(env, decode, target, rounds)
    requires D.Mirrors(D.REGISTERED, configs, prev)
    ensures var live := H.ClusterAfter(prev, ClusterUpdates(rounds));
      && Gathers(decode, TargetAfter(target, rounds), live)
      && D.Mirrors(D.REGISTERED, H.DispatchedAll(configs, ClusterUpdates(rounds)), live)
  {
    hide *;
    RoundsAreFaithful(env, decode, target, prev, rounds);
    H.DispatcherStaysInStep(configs, prev, ClusterUpdates(rounds));
  }

  // ---------------------------------------------------------------- a filter that does not spare them

  /** An update without a delete and with no resources to upsert leaves the dispatcher as it was. */
  lemma NothingDeleted(configs: GS.Configs, live: map<D.Id, D.Resource>, deltas: seq<Delta>, fast: bool)
    requires D.Mirrors(D.REGISTERED, configs, live)
    requires forall d :: d in deltas ==> d.deltaType != ObjectDelete && D.Plain(H.IdOf(d))
    ensures D.Mirrors(D.REGISTERED, H.Dispatched(configs, deltas, [], fast), live)
  {
    hide D.Mirrors, D.Plain, D.ApplyAll, D.Upserts, H.DeleteOps;
    if fast {
      var live' := H.DispatcherFollows(configs, live, deltas, [], map[]);
      forall id ensures Get(live', id) == Get(live, id) {
        assert !H.DeletedBy(D.REGISTERED.Keys, deltas, id);
      }
      SameEntries(live', live);
    }
  }

  function Event(n: string, before: Option<Object>, o: Object): Step {
    Store(RawUpdate(n, true, before, Some(o)))
  }

  /** One watch event and one update, with no local writes. */
  function StoreAndUpdate(n: string, before: Option<Object>, o: Object): seq<Step> {
    [Event(n, before, o)] + ([UpdateField(n)] + [])
  }

  lemma OneShown(env: Env, s: System, n: string, before: Option<Object>, o: Object)
    requires Inv(env, s) && n in s.fields && n !in s.lost && s.canonical == map[] && s.fields[n].deltas == map[]
    requires Enabled(env, s, Event(n, before, o))
    requires o.uid in s.fields[n].values ==> s.fields[n].values[o.uid].version != o.version
    ensures var s1 := Apply(env, s, Event(n, before, o));
      && n in s1.fields && Enabled(env, s1, UpdateField(n)) && ValidRun(env, s, StoreAndUpdate(n, before, o))
      && Patched(s1.fields[n], s1.canonical).deltas ==
           map[o.uid := NewDelta(if before.None? then ObjectAdd else ObjectUpdate, o)]
      && var s2 := Apply(env, s1, UpdateField(n));
      && Final(env, s, StoreAndUpdate(n, before, o)) == s2 && Inv(env, s2) && n in s2.fields && n !in s2.lost
      && s2.canonical == map[] && s2.fields[n].deltas == map[] && s2.fields[n].values == s.fields[n].values[o.uid := o]
      && s2.target == s.target[n := Rebuild(env.filter, s2.fields[n])]
  {
    var s1 := Apply(env, s, Event(n, before, o));
    StepKeepsInv(env, s, Event(n, before, o));
    NothingPatched(s1.fields[n], s1.canonical);
    var p := Patch(s1, n, s1.canonical.Keys);
    PatchKeepsInv(env, s1, n, s1.canonical.Keys);
    DrainDelivers(env, p, n);
    StepKeepsInv(env, s1, UpdateField(n));
    RunCons(env, s1, UpdateField(n), []);
    RunCons(env, s, Event(n, before, o), [UpdateField(n)] + []);
    UpdatePatches(env, s1, n);
    assert !Quiet(p.fields[n]);
    hide Inv, Refilter, Rebuild, Visible, PatchField, PatchCanonical;
  }

  /** An update hands the object over, and the next one takes it out of the caller's snapshot with a
      delta that says Update. */
  ghost predicate TurnsInvalid(env: Env, init: System, n: string, o: Object, o': Object) {
    && ValidRun(env, init, StoreAndUpdate(n, None, o))
    && var s := Final(env, init, StoreAndUpdate(n, None, o));
    && s.target == map[n := map[o.uid := o]]
    && ValidRun(env, s, StoreAndUpdate(n, Some(o), o'))
    && Final(env, s, StoreAndUpdate(n, Some(o), o')).target == map[n := map[]]
    && Enabled(env, s, Event(n, Some(o), o'))
    && var s1 := Apply(env, s, Event(n, Some(o), o'));
    && n in s1.fields && Patched(s1.fields[n], s1.canonical).deltas == map[o.uid := NewDelta(ObjectUpdate, o')]
  }

  lemma TurningInvalid(env: Env, init: System, n: string, o: Object, o': Object)
    requires Initial(env, init) && init.canonical == map[] && n in init.fields && env.owner(o.uid) == n
    requires o'.uid == o.uid && o'.version != o.version && Genuine(env, Some(o)) && Genuine(env, Some(o'))
    requires Passes(env.filter, o) && !Passes(env.filter, o')
    ensures TurnsInvalid(env, init, n, o, o')
  {
    hide Inv, Final, ValidRun, Apply, Patched, Initial, Enabled, Passes;
    FirstShown(env, init, n, o);
    ThenHidden(env, Final(env, init, StoreAndUpdate(n, None, o)), n, o, o');
  }

  lemma FirstShown(env: Env, init: System, n: string, o: Object)
    requires Initial(env, init) && init.canonical == map[] && n in init.fields && env.owner(o.uid) == n
    requires Genuine(env, Some(o)) && Passes(env.filter, o)
    ensures ValidRun(env, init, StoreAndUpdate(n, None, o))
    ensures var s := Final(env, init, StoreAndUpdate(n, None, o));
      && Inv(env, s) && s.target == map[n := map[o.uid := o]] && n in s.fields && n !in s.lost
      && s.canonical == map[] && s.fields[n].deltas == map[] && s.fields[n].values == map[o.uid := o]
  {
    hide Inv, Final, ValidRun, Apply, Patched;
    InitialInv(env, init);
    assert Enabled(env, init, Event(n, None, o));
    hide Enabled;
    OneShown(env, init, n, None, o);
    var s := Final(env, init, StoreAndUpdate(n, None, o));
    assert Rebuild(env.filter, s.fields[n]) == map[o.uid := o];
  }

  lemma ThenHidden(env: Env, s: System, n: string, o: Object, o': Object)
    requires Inv(env, s) && s.target == map[n := map[o.uid := o]] && n in s.fields && n !in s.lost
    requires s.canonical == map[] && s.fields[n].deltas == map[] && s.fields[n].values == map[o.uid := o]
    requires o'.uid == o.uid && o'.version != o.version && Genuine(env, Some(o)) && Genuine(env, Some(o'))
    requires env.owner(o.uid) == n && !Passes(env.filter, o')
    ensures ValidRun(env, s, StoreAndUpdate(n, Some(o), o')) && Enabled(env, s, Event(n, Some(o), o'))
    ensures Final(env, s, StoreAndUpdate(n, Some(o), o')).target == map[n := map[]]
    ensures var s1 := Apply(env, s, Event(n, Some(o), o'));
      n in s1.fields && Patched(s1.fields[n], s1.canonical).deltas == map[o.uid := NewDelta(ObjectUpdate, o')]
  {
    hide Inv, Final, ValidRun, Apply, Patched;
    assert Enabled(env, s, Event(n, Some(o), o'));
    hide Enabled;
    OneShown(env, s, n, Some(o), o');
    var s' := Final(env, s, StoreAndUpdate(n, Some(o), o'));
    assert Rebuild(env.filter, s'.fields[n]) == map[];
  }

  /** The condition is needed: with a filter that turns against a gateway resource, the resource is gone
      from the snapshot but stays in force. */
  lemma InvalidStaysInForce(
    env: Env, init: System, n: string, o: Object, o': Object, decode: Decoder, configs: GS.Configs, fast: bool)
    requires Initial(env, init) && init.canonical == map[] && n in init.fields && env.owner(o.uid) == n
    requires o'.uid == o.uid && o'.version != o.version && Genuine(env, Some(o)) && Genuine(env, Some(o'))
    requires Passes(env.filter, o) && !Passes(env.filter, o') && D.Plain(IdFor(IdentOf(o)))
    requires var r := ResourceOf(decode, o); D.Mirrors(D.REGISTERED, configs, map[r.id := r])
    ensures TurnsInvalid(env, init, n, o, o')
    ensures var r := ResourceOf(decode, o);
      D.Mirrors(D.REGISTERED, H.Dispatched(configs, [NewDelta(ObjectUpdate, o')], [], fast), map[r.id := r])
  {
    hide Initial, D.Mirrors, D.Plain, TurnsInvalid;
    var r, d := ResourceOf(decode, o), NewDelta(ObjectUpdate, o');
    assert d.deltaType != ObjectDelete && H.IdOf(d) == IdFor(IdentOf(o));
    hide *;
    TurningInvalid(env, init, n, o, o');
    NothingDeleted(configs, map[r.id := r], [d], fast);
  }
}
