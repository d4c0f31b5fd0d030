/** The client's local-write list and the accumulator as they are coded: maps updated in place,
    with loops over Go maps in whatever order the runtime picks. Each method is proved against
    the pure step it takes in KatesRuns. */
module KatesAccumulator {
  import opened Wrappers
  import opened KatesState
  import opened KatesRuns

  /** The map with the entry at `k` set or, for None, taken out. */
  function Put<K, V>(m: map<K, V>, k: K, v: Option<V>): map<K, V> {
    if v.Some? then m[k := v.value] else m - {k}
  }

  // ---------------------------------------------------------------- the client

  lemma PatchNothing(f: FieldState, can: Canonical)
    ensures PatchField(f, can, {}) == f
    ensures PatchCanonical(f, can, {}) == can
  {
    forall k
      ensures Get(PatchField(f, can, {}).values, k) == Get(f.values, k)
      ensures Get(PatchField(f, can, {}).deltas, k) == Get(f.deltas, k)
    {
      PatchAt(f, can, {}, k);
    }
    SameEntries(PatchField(f, can, {}).values, f.values);
    SameEntries(PatchField(f, can, {}).deltas, f.deltas);
  }

  lemma PatchedMore(f: FieldState, can: Canonical, done: set<Key>, k: Key)
    requires k !in done && k in can
    ensures var p, q := PatchField(f, can, done), PatchField(f, can, done + {k});
      && q.values == Put(p.values, k, PatchedValue(f, can, k))
      && q.deltas == Put(p.deltas, k, PatchedDelta(f, can, k))
  {
    var p, q := PatchField(f, can, done), PatchField(f, can, done + {k});
    var values, deltas := Put(p.values, k, PatchedValue(f, can, k)), Put(p.deltas, k, PatchedDelta(f, can, k));
    forall j ensures Get(q.values, j) == Get(values, j) && Get(q.deltas, j) == Get(deltas, j) {
      PatchAt(f, can, done, j);
      PatchAt(f, can, done + {k}, j);
    }
    SameEntries(q.values, values);
    SameEntries(q.deltas, deltas);
  }

  /** Patching one more key is a patch of the field and the list reached so far. */
  lemma PatchOneMore(f: FieldState, can: Canonical, done: set<Key>, k: Key)
    requires k !in done && k in can
    ensures var p, c := PatchField(f, can, done), PatchCanonical(f, can, done);
      && k in c
      && (Comparable(p, c, k) <==> Comparable(f, can, k))
      && PatchField(f, can, done + {k}) ==
           p.(values := Put(p.values, k, PatchedValue(p, c, k)), deltas := Put(p.deltas, k, PatchedDelta(p, c, k)))
      && PatchCanonical(f, can, done + {k}) == PatchCanonical(p, c, {k})
  {
    var p, c := PatchField(f, can, done), PatchCanonical(f, can, done);
    PatchAt(f, can, done, k);
    assert Echoed(p, c, k) <==> Echoed(f, can, k);
    assert PatchedValue(p, c, k) == PatchedValue(f, can, k);
    assert PatchedDelta(p, c, k) == PatchedDelta(f, can, k);
    PatchedMore(f, can, done, k);
    assert PatchCanonical(f, can, done + {k}) == PatchCanonical(p, c, {k});
  }

  lemma OneStep(env: Env, s: System, step: Step)
    requires Enabled(env, s, step)
    ensures ValidRun(env, s, [step]) && Final(env, s, [step]) == Apply(env, s, step)
  {
    assert [step][1..] == [];
  }

  class Client {
    var canonical: Canonical

    constructor ()
      ensures canonical == map[]
    {
      canonical := map[];
    }

    /** Create, Get, and each item of List: remember what the API server answered. In every system
        this client serves it is the step LocalWrite, and the next update of a field that takes
        the object shows it at its version or a later one. */
    method Record(res: Object, ghost env: Env, ghost s: System)
      requires s.canonical == canonical && Inv(env, s) && Enabled(env, s, LocalWrite(res.uid, Some(res)))
      modifies this
      ensures s.(canonical := canonical) == Apply(env, s, LocalWrite(res.uid, Some(res))) &&
        Inv(env, s.(canonical := canonical))
      ensures forall n :: n in s.fields && Matches(s.fields[n], res) && ParseInt64(res.version).Some? ==>
        Fresh(s.(canonical := canonical), n, res.uid, ParseInt64(res.version).value)
    {
      StepKeepsInv(env, s, LocalWrite(res.uid, Some(res)));
      hide Inv;
      canonical := canonical[res.uid := Some(res)];
    }

    /** Update, Patch, Upsert, UpdateStatus: a write that changed nothing is not remembered, and is
        no step at all. */
    method RecordIfChanged(res: Object, prev: string, ghost env: Env, ghost s: System) returns (ghost steps: seq<Step>)
      requires s.canonical == canonical && Inv(env, s) && Enabled(env, s, LocalWrite(res.uid, Some(res)))
      modifies this
      ensures steps == if res.version != prev then [LocalWrite(res.uid, Some(res))] else []
      ensures ValidRun(env, s, steps) && s.(canonical := canonical) == Final(env, s, steps) &&
        Inv(env, s.(canonical := canonical))
      ensures forall n ::
        n in s.fields && Matches(s.fields[n], res) && res.version != prev && ParseInt64(res.version).Some? ==>
        Fresh(s.(canonical := canonical), n, res.uid, ParseInt64(res.version).value)
    {
      steps := [];
      if res.version != prev {
        steps := [LocalWrite(res.uid, Some(res))];
        OneStep(env, s, steps[0]);
        hide Inv, Fresh;
        Record(res, env, s);
      }
    }

    /** Delete: the entry is keyed by the UID of the resource the caller passed in. It is the step
        LocalWrite of an absence, and no field shows the object at its next update. */
    method RecordDelete(un: Object, ghost env: Env, ghost s: System)
      requires s.canonical == canonical && Inv(env, s)
      modifies this
      ensures s.(canonical := canonical) == Apply(env, s, LocalWrite(un.uid, None)) &&
        Inv(env, s.(canonical := canonical))
      ensures forall n :: n in s.fields ==> PatchedValue(s.fields[n], canonical, un.uid) == None
    {
      StepKeepsInv(env, s, LocalWrite(un.uid, None));
      hide Inv;
      canonical := canonical[un.uid := None];
    }

    /** DeleteFunc, before the event is sent on: the step WatchDeleteSeen. From here on only the
        watch decides what is shown of the object. */
    method NoteWatchDelete(gone: Object, ghost env: Env, ghost s: System)
      requires s.canonical == canonical && Inv(env, s)
      modifies this
      ensures s.(canonical := canonical) == Apply(env, s, WatchDeleteSeen(gone.uid)) &&
        Inv(env, s.(canonical := canonical))
      ensures forall n, v :: n in s.fields ==>
        (Fresh(s.(canonical := canonical), n, gone.uid, v) <==> Stored(s.fields[n], gone.uid, v))
    {
      StepKeepsInv(env, s, WatchDeleteSeen(gone.uid));
      hide Inv;
      canonical := canonical - {gone.uid};
    }

    /** One turn of patchWatch's loop. */
    method PatchKey(field: FieldState, key: Key) returns (bad: bool, f: FieldState)
      requires key in canonical
      modifies this
      ensures bad <==> !Comparable(field, old(canonical), key)
      ensures bad ==> f == field && canonical == old(canonical)
      ensures !bad ==> f == field.(values := Put(field.values, key, PatchedValue(field, old(canonical), key)),
                                   deltas := Put(field.deltas, key, PatchedDelta(field, old(canonical), key)))
      ensures !bad ==> canonical == PatchCanonical(field, old(canonical), {key})
    {
      bad, f := false, field;
      var can := canonical[key];
      if key in field.values {
        var item := field.values[key];
        if can.None? {
          f := f.(values := f.values - {key}, deltas := f.deltas[key := NewDelta(ObjectDelete, item)]);
        } else {
          var newer := Gteq(item.version, can.value.version);
          if newer.None? {
            bad := true;
          } else if newer.value {
            canonical := canonical - {key};
          } else {
            f := f.(values := f.values[key := can.value], deltas := f.deltas[key := NewDelta(ObjectUpdate, can.value)]);
          }
        }
      } else if can.Some? && can.value.kind == field.kind && field.selector(can.value.labels) {
        f := f.(values := f.values[key := can.value], deltas := f.deltas[key := NewDelta(ObjectAdd, can.value)]);
      }
    }

    /** patchWatch. On an unreadable version it stops where it is, with the keys of `done` patched. */
    method PatchWatch(field: FieldState) returns (err: bool, f: FieldState, ghost done: set<Key>)
      modifies this
      ensures done <= old(canonical.Keys)
      ensures f == PatchField(field, old(canonical), done)
      ensures canonical == PatchCanonical(field, old(canonical), done)
      ensures forall k :: k in done ==> Comparable(field, old(canonical), k)
      ensures !err ==> done == old(canonical.Keys)
      ensures err ==> exists k :: k in old(canonical) && !Comparable(field, old(canonical), k)
    {
      ghost var can0 := canonical;
      err, f, done := false, field, {};
      var rest := canonical.Keys;
      PatchNothing(field, can0);
      while rest != {}
        invariant rest == can0.Keys - done && done <= can0.Keys
        invariant f == PatchField(field, can0, done)
        invariant canonical == PatchCanonical(field, can0, done)
        invariant forall k :: k in done ==> Comparable(field, can0, k)
        decreases rest
      {
        var key :| key in rest;
        PatchOneMore(field, can0, done, key);
        err, f := PatchKey(f, key);
        if err {
          return;
        }
        rest := rest - {key};
        done := done + {key};
      }
    }
  }

  // ---------------------------------------------------------------- the caller's snapshot

  /** `items` holds the values of `m`, one per key, in the order of `keys`. */
  ghost predicate Lists<V(!new)>(items: seq<V>, keys: seq<Key>, m: map<Key, V>) {
    && |keys| == |items|
    && (forall i :: 0 <= i < |keys| ==> keys[i] in m && items[i] == m[keys[i]])
    && (forall i, j :: 0 <= i < j < |keys| ==> keys[i] != keys[j])
    && (forall k :: k in m ==> k in keys)
  }

  lemma ListsOneMore<V(!new)>(items: seq<V>, keys: seq<Key>, m: map<Key, V>, k: Key, v: V)
    requires Lists(items, keys, m) && k !in m
    ensures Lists(items + [v], keys + [k], m[k := v])
  {
    var all := keys + [k];
    assert all[|keys|] == k && forall i :: 0 <= i < |keys| ==> all[i] == keys[i];
  }

  /** The struct FilteredUpdate fills: a list of objects per query, whose contents are `told`. */
  class Target {
    var items: map<string, seq<Object>>
    ghost var keys: map<string, seq<Key>>
    ghost var told: map<string, map<Key, Object>>

    ghost predicate Valid()
      reads this
    {
      items.Keys == told.Keys == keys.Keys && forall n :: n in told ==> Lists(items[n], keys[n], told[n])
    }

    constructor ()
      ensures Valid() && told == map[]
    {
      items, keys, told := map[], map[], map[];
    }

    method Set(n: string, objects: seq<Object>, ghost order: seq<Key>, ghost m: map<Key, Object>)
      requires Valid() && Lists(objects, order, m)
      modifies this
      ensures Valid() && told == old(told)[n := m]
    {
      items, keys, told := items[n := objects], keys[n := order], told[n := m];
    }
  }

  // ---------------------------------------------------------------- the accumulator

  /** Whether `k` is excluded once the deltas of `done` have been re-filtered. */
  ghost predicate ExcludedAfter(
    filter: Filter, values: map<Key, Object>, deltas: map<Key, Delta>, done: set<Key>, excluded: set<Key>, k: Key)
    requires done <= deltas.Keys
  {
    if k in done && filter.Some? then deltas[k].deltaType != ObjectDelete && k in values && !filter.value(values[k])
    else k in excluded
  }

  ghost predicate Excludes(filter: Filter, f: FieldState, done: set<Key>, before: set<Key>, now: set<Key>) {
    done <= f.deltas.Keys && forall k :: k in now <==> ExcludedAfter(filter, f.values, f.deltas, done, before, k)
  }

  /** The filter will find an object for every pending add or update. */
  ghost predicate DeltasHaveObjects(f: FieldState) {
    forall k :: k in f.deltas && f.deltas[k].deltaType != ObjectDelete ==> k in f.values
  }

  lemma LoudHasDeltas(f: FieldState, can: Canonical)
    ensures !Quiet(Patched(f, can)) && f.firstUpdate ==> Patched(f, can).deltas != map[]
  {
  }

  lemma ListsMembers<V(!new)>(items: seq<V>, keys: seq<Key>, m: map<Key, V>)
    requires Lists(items, keys, m)
    ensures forall o :: o in items <==> exists k :: k in m && m[k] == o
  {
    forall k | k in m ensures m[k] in items {
      var i :| 0 <= i < |keys| && keys[i] == k;
      assert items[i] == m[k];
    }
  }

  lemma ListsNonempty<V(!new)>(items: seq<V>, keys: seq<Key>, m: map<Key, V>)
    requires Lists(items, keys, m) && m != map[]
    ensures items != []
  {
    var k :| k in m;
    assert k in keys;
  }

  lemma PatchedDeltasHaveObjects(f: FieldState, can: Canonical, done: set<Key>)
    requires DeltasHaveObjects(f) && done <= can.Keys
    ensures DeltasHaveObjects(PatchField(f, can, done))
  {
    var p := PatchField(f, can, done);
    forall k | k in p.deltas && p.deltas[k].deltaType != ObjectDelete ensures k in p.values {
      PatchAt(f, can, done, k);
    }
  }

  lemma RefilterIgnoresFirst(filter: Filter, f: FieldState, excluded: set<Key>)
    ensures Refilter(filter, f.(firstUpdate := true), excluded) == Refilter(filter, f, excluded)
    ensures DeltasHaveObjects(f.(firstUpdate := true)) <==> DeltasHaveObjects(f)
  {
  }

  lemma InvDeltasHaveObjects(env: Env, s: System, n: string)
    requires Inv(env, s) && n in s.fields
    ensures DeltasHaveObjects(s.fields[n])
  {
    var f := s.fields[n];
    forall k | k in f.deltas && f.deltas[k].deltaType != ObjectDelete ensures k in f.values {
      assert KeyInv(env, n, f, s.excluded, Told(f, s.target, s.lost, n), k);
    }
  }

  lemma {:induction false} RunSnoc(env: Env, s: System, steps: seq<Step>, step: Step)
    requires ValidRun(env, s, steps) && Enabled(env, Final(env, s, steps), step)
    ensures ValidRun(env, s, steps + [step])
    ensures Final(env, s, steps + [step]) == Apply(env, Final(env, s, steps), step)
    decreases |steps|
  {
    if steps == [] {
      assert [step][1..] == [];
    } else {
      assert (steps + [step])[1..] == steps[1..] + [step];
      RunSnoc(env, Apply(env, s, steps[0]), steps[1..], step);
    }
  }

  lemma DrainTouchesOnly(filter: Filter, s: System, n: string)
    requires n in s.fields
    ensures OthersKept(s, Drain(filter, s, n, true), n)
  {
    hide Refilter, Visible;
  }

  /** Nothing happened to any other field. */
  ghost predicate OthersKept(s: System, s': System, n: string) {
    && n in s.fields && n in s'.fields && s'.fields == s.fields[n := s'.fields[n]]
    && forall m :: m != n ==> Get(s'.target, m) == Get(s.target, m) && (m in s'.lost <==> m in s.lost)
  }

  /** The caller holds the plain rebuild of field `n`; or its last hand-over was already lost in `s0`, and
      it holds the same still. */
  ghost predicate Brought(filter: Filter, s0: System, s: System, n: string) {
    n in s.fields &&
    if n in s.lost then n in s0.lost && Get(s.target, n) == Get(s0.target, n)
    else n in s.target && s.target[n] == Rebuild(filter, s.fields[n])
  }

  /** A successful update of one field rebuilds it, unless there is nothing to hand over since one was
      lost, and leaves the other fields as they were. */
  lemma UpdateRebuilds(env: Env, s: System, n: string)
    requires Inv(env, s) && Enabled(env, s, Step.UpdateField(n))
    ensures var s' := Apply(env, s, Step.UpdateField(n));
      && OthersKept(s, s', n) && Brought(env.filter, s, s', n)
      && (n in s'.lost <==> n in s.lost && Quiet(Patched(s.fields[n], s.canonical)))
  {
    hide Inv, Refilter, Visible, PatchField, PatchCanonical, Rebuild, Comparable;
    var p := Patch(s, n, s.canonical.Keys);
    PatchKeepsInv(env, s, n, s.canonical.Keys);
    DrainDelivers(env, p, n);
    DrainTouchesOnly(env.filter, p, n);
    assert Apply(env, s, Step.UpdateField(n)) == Drain(env.filter, p, n, true);
    hide Apply, Drain;
  }

  /** The outcomes of updateField after a complete patch, written out. */
  lemma UpdateStep(env: Env, s: System, n: string)
    requires n in s.fields && forall k :: k in s.canonical ==> Comparable(s.fields[n], s.canonical, k)
    ensures Enabled(env, s, Step.UpdateField(n))
    ensures var p, can := Patched(s.fields[n], s.canonical), PatchCanonical(s.fields[n], s.canonical, s.canonical.Keys);
      if Quiet(p) then Apply(env, s, Step.UpdateField(n)) == s.(fields := s.fields[n := p], canonical := can)
      else
        var excluded := Refilter(env.filter, p, s.excluded);
        var f := p.(firstUpdate := true, deltas := map[]);
        var s' := s.(fields := s.fields[n := f], canonical := can, excluded := excluded);
        && Apply(env, s, Step.UpdateField(n)) ==
             s'.(target := s.target[n := Visible(p.values, excluded)], lost := s.lost - {n})
        && Enabled(env, s, EncodingError(n)) && Apply(env, s, EncodingError(n)) == s'.(lost := s.lost + {n})
  {
    hide Comparable, PatchField, PatchCanonical, Refilter, Visible;
  }

  lemma FailedStep(env: Env, s: System, n: string, done: set<Key>)
    requires n in s.fields && done <= s.canonical.Keys &&
      forall k :: k in done ==> Comparable(s.fields[n], s.canonical, k)
    ensures Enabled(env, s, FailedUpdate(n, done))
    ensures Apply(env, s, FailedUpdate(n, done)) ==
      s.(fields := s.fields[n := PatchField(s.fields[n], s.canonical, done)],
         canonical := PatchCanonical(s.fields[n], s.canonical, done))
  {
    hide Comparable, PatchField, PatchCanonical;
  }

  // ---------------------------------------------------------------- what the deltas of an update say

  /** The query and key that a delta is about. */
  datatype Tag = Tag(name: string, key: Key)

  function Tags(n: string, keys: seq<Key>): (tags: seq<Tag>)
    ensures |tags| == |keys| && forall i :: 0 <= i < |keys| ==> tags[i] == Tag(n, keys[i])
  {
    seq(|keys|, i requires 0 <= i < |keys| => Tag(n, keys[i]))
  }

  /** Every key of the query on which the caller was out of date has a delta, unless a hand-over was lost. */
  ghost predicate Covered(s0: System, target: map<string, map<Key, Object>>, tags: seq<Tag>, n: string) {
    n !in s0.lost ==> forall k :: Get(Held(s0.target, n), k) != Get(Held(target, n), k) ==> Tag(n, k) in tags
  }

  /** A delta says Delete exactly when the object is gone, and bears its name. */
  ghost predicate Tells(env: Env, fields: map<string, FieldState>, tag: Tag, d: Delta) {
    && tag.name in fields && (d.deltaType == ObjectDelete <==> tag.key !in fields[tag.name].values)
    && Subject(d) == env.identity(tag.key)
  }

  /** Some query has never been delivered. */
  ghost predicate AnyFirst(fields: map<string, FieldState>) {
    exists n :: n in fields && !fields[n].firstUpdate
  }

  /** Halfway through update, with the queries of `rest` still to come. */
  ghost predicate Progress(
    env: Env, s0: System, s: System, rest: set<string>, tags: seq<Tag>, deltas: seq<Delta>)
  {
    && |tags| == |deltas| && s.fields.Keys == s0.fields.Keys && rest <= s0.fields.Keys
    && (forall n :: n in rest ==> Untouched(s0, s, n))
    && (forall n :: n in s0.fields && n !in rest ==> Covered(s0, s.target, tags, n) && Brought(env.filter, s0, s, n))
    && (forall i: nat :: i < |tags| ==> tags[i].name !in rest && Tells(env, s.fields, tags[i], deltas[i]))
  }

  ghost predicate Untouched(s0: System, s: System, n: string) {
    && n in s0.fields && n in s.fields && s.fields[n] == s0.fields[n]
    && Get(s.target, n) == Get(s0.target, n) && (n in s.lost <==> n in s0.lost)
  }

  /** One query has been updated, with the deltas `pd` pending and listed. */
  ghost predicate Visits(env: Env, s: System, s': System, n: string, pd: map<Key, Delta>) {
    && OthersKept(s, s', n)
    && (n !in s.lost ==> forall k :: Get(Held(s.target, n), k) != Get(Held(s'.target, n), k) ==> k in pd)
    && (forall k :: k in pd ==>
          (pd[k].deltaType == ObjectDelete <==> k !in s'.fields[n].values) && Subject(pd[k]) == env.identity(k))
  }

  lemma UpdateVisits(env: Env, s: System, n: string)
    requires Inv(env, s) && Enabled(env, s, Step.UpdateField(n))
    ensures Visits(env, s, Apply(env, s, Step.UpdateField(n)), n, Patched(s.fields[n], s.canonical).deltas)
  {
    hide Inv, PatchField, PatchCanonical, Rebuild, Comparable, Refilter, Visible;
    UpdateRebuilds(env, s, n);
    DeltasTell(env, s, n);
    assert Apply(env, s, Step.UpdateField(n)).fields[n].values == Patched(s.fields[n], s.canonical).values;
    hide Enabled, Apply, Patched;
  }

  lemma VisitCovers(
    env: Env, s0: System, s: System, s': System, rest: set<string>, n: string, tags: seq<Tag>, deltas: seq<Delta>,
    pd: map<Key, Delta>, keys: seq<Key>)
    requires Progress(env, s0, s, rest, tags, deltas) && n in rest && Visits(env, s, s', n, pd)
    requires forall k :: k in pd ==> k in keys
    ensures forall m :: m in s0.fields && m !in rest - {n} ==> Covered(s0, s'.target, tags + Tags(n, keys), m)
  {
    hide Brought, Tells;
    var tags' := tags + Tags(n, keys);
    forall k | k in pd ensures Tag(n, k) in tags' {
      var i :| 0 <= i < |keys| && keys[i] == k;
      assert tags'[|tags| + i] == Tag(n, k);
    }
    forall m | m in s0.fields && m !in rest - {n} ensures Covered(s0, s'.target, tags', m) {
      if m != n {
        assert Covered(s0, s.target, tags, m);
        assert Get(s'.target, m) == Get(s.target, m);
      } else {
        assert Untouched(s0, s, n);
      }
    }
  }

  lemma OneVisited(
    env: Env, s0: System, s: System, s': System, rest: set<string>, n: string, tags: seq<Tag>, deltas: seq<Delta>,
    pd: map<Key, Delta>, keys: seq<Key>, more: seq<Delta>)
    requires Progress(env, s0, s, rest, tags, deltas) && n in rest && Visits(env, s, s', n, pd) && Lists(more, keys, pd)
    requires Brought(env.filter, s, s', n)
    ensures Progress(env, s0, s', rest - {n}, tags + Tags(n, keys), deltas + more)
  {
    VisitCovers(env, s0, s, s', rest, n, tags, deltas, pd, keys);
    VisitTells(env, s0, s, s', rest, n, tags, deltas, pd, keys, more);
    VisitLeaves(env, s0, s, s', rest, n, tags, deltas, pd);
    hide Covered, Tells, Lists, Visits, Brought, Untouched;
  }

  lemma VisitLeaves(
    env: Env, s0: System, s: System, s': System, rest: set<string>, n: string, tags: seq<Tag>, deltas: seq<Delta>,
    pd: map<Key, Delta>)
    requires Progress(env, s0, s, rest, tags, deltas) && n in rest && Visits(env, s, s', n, pd)
    requires Brought(env.filter, s, s', n)
    ensures s'.fields.Keys == s0.fields.Keys
    ensures forall m :: m in rest - {n} ==> Untouched(s0, s', m)
    ensures forall m :: m in s0.fields && m !in rest - {n} ==> Brought(env.filter, s0, s', m)
  {
    hide Covered, Tells, Rebuild;
    assert Untouched(s0, s, n);
    forall m | m in rest - {n} ensures Untouched(s0, s', m) {
      assert Untouched(s0, s, m);
    }
    forall m | m in s0.fields && m !in rest - {n} ensures Brought(env.filter, s0, s', m) {
      if m != n {
        assert Brought(env.filter, s0, s, m);
      }
    }
  }

  lemma VisitTells(
    env: Env, s0: System, s: System, s': System, rest: set<string>, n: string, tags: seq<Tag>, deltas: seq<Delta>,
    pd: map<Key, Delta>, keys: seq<Key>, more: seq<Delta>)
    requires Progress(env, s0, s, rest, tags, deltas) && n in rest && Visits(env, s, s', n, pd) && Lists(more, keys, pd)
    ensures var tags' := tags + Tags(n, keys);
      |tags'| == |deltas + more| &&
      forall i: nat :: i < |tags'| ==>
        tags'[i].name !in rest - {n} && Tells(env, s'.fields, tags'[i], (deltas + more)[i])
  {
    hide Covered, Brought, Untouched;
    var tags' := tags + Tags(n, keys);
    forall i: nat | i < |tags'|
      ensures tags'[i].name !in rest - {n} && Tells(env, s'.fields, tags'[i], (deltas + more)[i]) {
      if i < |tags| {
        assert Tells(env, s.fields, tags[i], deltas[i]);
      } else {
        assert keys[i - |tags|] in pd;
      }
    }
  }

  lemma StillToCome(
    env: Env, s0: System, s: System, rest: set<string>, tags: seq<Tag>, deltas: seq<Delta>, n: string)
    requires Progress(env, s0, s, rest, tags, deltas) && n in rest
    ensures n in s0.fields && n in s.fields && s.fields[n] == s0.fields[n]
  {
    assert Untouched(s0, s, n);
  }

  lemma UpdateProgress(
    env: Env, s0: System, s: System, rest: set<string>, n: string, tags: seq<Tag>, deltas: seq<Delta>,
    keys: seq<Key>, more: seq<Delta>)
    requires Inv(env, s) && Enabled(env, s, Step.UpdateField(n)) && n in rest
    requires Progress(env, s0, s, rest, tags, deltas) && Lists(more, keys, Patched(s.fields[n], s.canonical).deltas)
    ensures Progress(env, s0, Apply(env, s, Step.UpdateField(n)), rest - {n}, tags + Tags(n, keys), deltas + more)
    ensures n in s.fields && (!s.fields[n].firstUpdate ==> AnyFirst(s0.fields))
  {
    StillToCome(env, s0, s, rest, tags, deltas, n);
    UpdateVisits(env, s, n);
    UpdateRebuilds(env, s, n);
    hide Inv, Enabled, Apply, Rebuild, Progress, Lists, Visits, Patched, Brought, OthersKept;
    var s' := Apply(env, s, Step.UpdateField(n));
    OneVisited(env, s0, s, s', rest, n, tags, deltas, Patched(s.fields[n], s.canonical).deltas, keys, more);
  }

  lemma ProgressStart(env: Env, s: System)
    ensures ValidRun(env, s, []) && Final(env, s, []) == s && Progress(env, s, s, s.fields.Keys, [], [])
  {
  }

  lemma ProgressDone(env: Env, s0: System, s: System, tags: seq<Tag>, deltas: seq<Delta>)
    requires Progress(env, s0, s, {}, tags, deltas)
    ensures |tags| == |deltas| && forall n :: n in s0.fields ==> Covered(s0, s.target, tags, n)
    ensures forall i: nat :: i < |tags| ==> Tells(env, s.fields, tags[i], deltas[i])
    ensures forall n :: n in s.fields ==> Brought(env.filter, s0, s, n)
  {
    hide Covered, Tells, Brought, Untouched;
  }

  class Accumulator {
    const client: Client
    var fields: map<string, FieldState>
    var excluded: set<Key>
    var synced: nat
    ghost var lost: set<string>

    /** The counter counts the synced fields. */
    ghost predicate Valid()
      reads this
    {
      synced == |SyncedNames(fields)|
    }

    ghost function View(told: map<string, map<Key, Object>>): System
      reads this, client
    {
      System(fields, client.canonical, excluded, told, lost)
    }

    /** newAccumulator: one empty field per query (kind and selector come from the query). */
    constructor (client: Client, queries: map<string, (string, Labels -> bool)>, ghost env: Env)
      requires forall k, o :: k in client.canonical && client.canonical[k] == Some(o) ==>
        o.uid == k && Genuine(env, Some(o)) &&
          forall n :: n in queries && o.kind == queries[n].0 && queries[n].1(o.labels) ==> env.owner(k) == n
      ensures this.client == client && fields.Keys == queries.Keys && Valid() && Initial(env, View(map[]))
    {
      this.client, excluded, synced, lost := client, {}, 0, {};
      fields := map n | n in queries :: FieldState(queries[n].0, queries[n].1, map[], map[], false, false);
      new;
      assert SyncedNames(fields) == {};
    }

    /** storeUpdate: the answer is whether every query has synced, which the counter decides. */
    method StoreUpdate(u: RawUpdate) returns (allSynced: bool)
      requires Valid() && u.name in fields
      modifies this`synced, this`fields
      ensures Valid()
      ensures fields == old(fields)[u.name := StoreField(old(fields)[u.name], u)]
      ensures allSynced <==> forall n :: n in fields ==> fields[n].synced
    {
      hide StoreField;
      var field := StoreValue(fields[u.name], u);
      var news := u.synced && !field.synced;
      if news {
        field := field.(synced := true);
        synced := synced + 1;
      }
      fields := fields[u.name := field];
      SyncedNamesStep(old(fields), u.name, field);
      AllSynced(fields);
      allSynced := synced >= |fields|;
    }

    method StoreValue(field: FieldState, u: RawUpdate) returns (f: FieldState)
      ensures f.synced == field.synced
      ensures f.(synced := field.synced || u.synced) == StoreField(field, u)
    {
      f := field;
      if u.after.Some? {
        var o := u.after.value;
        var seen := o.uid in field.values && field.values[o.uid].version == o.version;
        f := f.(values := f.values[o.uid := o]);
        if !seen {
          f := f.(deltas := f.deltas[o.uid := NewDelta(if u.before.None? then ObjectAdd else ObjectUpdate, o)]);
        }
      } else if u.before.Some? {
        var o := u.before.value;
        if o.uid in field.values {
          f := f.(values := f.values - {o.uid}, deltas := f.deltas[o.uid := NewDelta(ObjectDelete, o)]);
        }
      }
    }

    /** Re-filter one changed key. */
    method Refile(field: FieldState, filter: Filter, key: Key, ghost done: set<Key>, ghost before: set<Key>)
      requires DeltasHaveObjects(field) && key in field.deltas && Excludes(filter, field, done, before, excluded)
      modifies this`excluded
      ensures Excludes(filter, field, done + {key}, before, excluded)
    {
      if filter.Some? {
        if field.deltas[key].deltaType == ObjectDelete || filter.value(field.values[key]) {
          excluded := excluded - {key};
        } else {
          excluded := excluded + {key};
        }
      }
    }

    /** The first loop of updateField: empty the delta map into a list and re-filter its keys. */
    method DrainDeltas(field: FieldState, filter: Filter)
      returns (f: FieldState, deltas: seq<Delta>, ghost keys: seq<Key>)
      requires DeltasHaveObjects(field)
      modifies this`excluded
      ensures f == field.(deltas := map[])
      ensures excluded == Refilter(filter, field, old(excluded))
      ensures Lists(deltas, keys, field.deltas)
    {
      deltas, keys := [], [];
      var left := field.deltas;
      ghost var done: map<Key, Delta> := map[];
      assert Excludes(filter, field, {}, excluded, excluded);
      while left != map[]
        invariant left.Keys + done.Keys == field.deltas.Keys && left.Keys !! done.Keys
        invariant (forall k :: k in left ==> left[k] == field.deltas[k]) &&
          (forall k :: k in done ==> done[k] == field.deltas[k])
        invariant Lists(deltas, keys, done) && Excludes(filter, field, done.Keys, old(excluded), excluded)
        decreases left.Keys
      {
        hide Lists, Excludes, DeltasHaveObjects;
        var key :| key in left;
        var delta := left[key];
        left := left - {key};
        ListsOneMore(deltas, keys, done, key, delta);
        deltas, keys := deltas + [delta], keys + [key];
        Refile(field, filter, key, done.Keys, old(excluded));
        assert done.Keys + {key} == done[key := delta].Keys;
        done := done[key := delta];
      }
      assert done == field.deltas;
      f := field.(deltas := left);
    }

    /** The second loop of updateField: the objects that are not excluded. */
    method ListItems(field: FieldState) returns (items: seq<Object>, ghost keys: seq<Key>)
      ensures Lists(items, keys, Visible(field.values, excluded))
      ensures forall o :: o in items <==>
        exists k :: k in Visible(field.values, excluded) && Visible(field.values, excluded)[k] == o
    {
      items, keys := [], [];
      var rest := field.values.Keys;
      while rest != {}
        invariant rest <= field.values.Keys
        invariant Lists(items, keys, map k | k in field.values && k !in excluded && k !in rest :: field.values[k])
        decreases rest
      {
        var key :| key in rest;
        if key !in excluded {
          items, keys := items + [field.values[key]], keys + [key];
        }
        rest := rest - {key};
      }
      ListsMembers(items, keys, Visible(field.values, excluded));
    }

    /** updateField after the early return: drain the deltas, then list what is not excluded and
        turn it into the caller's field, if it encodes. */
    method Fill(target: Target, n: string, field: FieldState, filter: Filter, encodes: bool)
      returns (f: FieldState, deltas: seq<Delta>, ghost keys: seq<Key>)
      requires target.Valid() && DeltasHaveObjects(field)
      modifies this`excluded, target
      ensures target.Valid() && Lists(deltas, keys, field.deltas)
      ensures f == field.(firstUpdate := true, deltas := map[]) && excluded == Refilter(filter, field, old(excluded))
      ensures target.told == if encodes then old(target.told)[n := Visible(field.values, excluded)]
        else old(target.told)
    {
      RefilterIgnoresFirst(filter, field, excluded);
      hide Refilter, Visible, DeltasHaveObjects, Lists, Target.Valid;
      f, deltas, keys := DrainDeltas(field.(firstUpdate := true), filter);
      var items;
      ghost var order;
      items, order := ListItems(f);
      if encodes {
        target.Set(n, items, order, Visible(f.values, excluded));
      }
    }

    /** updateField takes exactly one step of the run model, and the snapshot follows it. Unless the
        patch failed, the deltas are the pending ones, each once. */
    method UpdateField(target: Target, n: string, filter: Filter, encodes: bool, ghost env: Env)
      returns (updated: bool, err: bool, deltas: seq<Delta>, ghost step: Step, ghost keys: seq<Key>)
      requires n in fields && env.filter == filter && target.Valid() && DeltasHaveObjects(fields[n])
      modifies this`excluded, this`fields, this`lost, client, target
      ensures target.Valid()
      ensures if !err then step == Step.UpdateField(n)
        else step == EncodingError(n) || (step.FailedUpdate? && step.n == n)
      ensures step == EncodingError(n) ==> !encodes
      ensures fields.Keys == old(fields.Keys)
      ensures Enabled(env, old(View(target.told)), step)
      ensures View(target.told) == Apply(env, old(View(target.told)), step)
      ensures !step.FailedUpdate? ==> Lists(deltas, keys, Patched(old(fields[n]), old(client.canonical)).deltas)
      ensures updated <==> !err && !Quiet(Patched(old(fields[n]), old(client.canonical)))
      ensures !updated ==> target.told == old(target.told) && (deltas == [] || err)
      ensures updated ==> deltas != [] || !old(fields[n]).firstUpdate
    {
      updated, deltas, keys := false, [], [];
      assert Lists(deltas, keys, map[]);
      hide PatchField, PatchCanonical, Refilter, Visible, Comparable, DeltasHaveObjects, Lists, Target.Valid, Enabled,
        Apply;
      ghost var s, done := View(target.told), {};
      var field;
      err, field, done := client.PatchWatch(fields[n]);
      if err {
        step := Step.FailedUpdate(n, done);
        FailedStep(env, s, n, done);
      } else {
        step := Step.UpdateField(n);
        UpdateStep(env, s, n);
      }
      PatchedDeltasHaveObjects(old(fields[n]), old(client.canonical), done);
      if !err && !Quiet(field) {
        LoudHasDeltas(old(fields[n]), old(client.canonical));
        field, deltas, keys := Fill(target, n, field, filter, encodes);
        if old(fields[n]).firstUpdate {
          ListsNonempty(deltas, keys, Patched(old(fields[n]), old(client.canonical)).deltas);
        }
        if encodes {
          updated, lost := true, lost - {n};
        } else {
          err, step, lost := true, EncodingError(n), lost + {n};
        }
      }
      fields := fields[n := field];
    }

    /** One turn of update's loop, as a step that goes on from `steps`. */
    method VisitField(
      target: Target, n: string, filter: Filter, encodes: bool,
      ghost env: Env, ghost s0: System, ghost steps: seq<Step>,
      ghost rest: set<string>, ghost tags: seq<Tag>, ghost deltas: seq<Delta>)
      returns (updated: bool, err: bool, more: seq<Delta>, ghost step: Step, ghost here: seq<Tag>)
      requires n in rest && rest <= fields.Keys && env.filter == filter && target.Valid() && Inv(env, View(target.told))
      requires ValidRun(env, s0, steps) && View(target.told) == Final(env, s0, steps)
      requires Progress(env, s0, View(target.told), rest, tags, deltas)
      modifies this`excluded, this`fields, this`lost, client, target
      ensures target.Valid() && Inv(env, View(target.told)) && fields.Keys == old(fields.Keys)
      ensures ValidRun(env, s0, steps + [step]) && View(target.told) == Final(env, s0, steps + [step])
      ensures !err ==> Progress(env, s0, View(target.told), rest - {n}, tags + here, deltas + more)
      ensures (err ==> !updated) && (!updated ==> target.told == old(target.told) && (more == [] || err))
      ensures updated ==> more != [] || AnyFirst(s0.fields)
    {
      hide Inv, Enabled, Apply, DeltasHaveObjects, Progress, Lists, Patched, ValidRun, Final, Quiet, Target.Valid,
        AnyFirst;
      ghost var s := View(target.told);
      InvDeltasHaveObjects(env, s, n);
      ghost var keys;
      updated, err, more, step, keys := UpdateField(target, n, filter, encodes, env);
      here := Tags(n, keys);
      StepKeepsInv(env, s, step);
      RunSnoc(env, s0, steps, step);
      if !err {
        UpdateProgress(env, s0, s, rest, n, tags, deltas, keys, more);
      }
    }

    /** update: each field once, in any order, until one fails; which fields encode is the caller's
        type's affair. With no error the run visits every field, so afterwards the snapshot holds the
        plain rebuild of each, except where an earlier hand-over was lost and nothing is new. */
    method Update(target: Target, filter: Filter, encodes: string -> bool, ghost env: Env)
      returns (updated: bool, err: bool, deltas: seq<Delta>, ghost steps: seq<Step>, ghost tags: seq<Tag>)
      requires env.filter == filter && target.Valid() && Inv(env, View(target.told))
      modifies this`excluded, this`fields, this`lost, client, target
      ensures target.Valid() && Inv(env, View(target.told))
      ensures ValidRun(env, old(View(target.told)), steps)
      ensures View(target.told) == Final(env, old(View(target.told)), steps)
      ensures fields.Keys == old(fields.Keys)
      ensures !err ==> forall n :: n in fields ==> Brought(filter, old(View(target.told)), View(target.told), n)
      ensures !updated ==> target.told == old(target.told) && (deltas == [] || err)
      ensures updated ==> deltas != [] || AnyFirst(old(fields))
      ensures !err ==>
        |tags| == |deltas| && forall n :: n in fields ==> Covered(old(View(target.told)), target.told, tags, n)
      ensures !err ==> forall i: nat :: i < |tags| ==> Tells(env, fields, tags[i], deltas[i])
    {
      updated, err, deltas, steps, tags := false, false, [], [], [];
      hide Inv, Rebuild, Progress, Covered, Brought, Tells, ValidRun, Final, Target.Valid, AnyFirst;
      ghost var s0 := View(target.told);
      ProgressStart(env, s0);
      var rest := fields.Keys;
      while rest != {}
        invariant rest <= fields.Keys == old(fields.Keys)
        invariant target.Valid() && Inv(env, View(target.told))
        invariant ValidRun(env, s0, steps) && View(target.told) == Final(env, s0, steps)
        invariant Progress(env, s0, View(target.told), rest, tags, deltas)
        invariant !updated ==> deltas == [] && target.told == s0.target
        invariant updated ==> deltas != [] || AnyFirst(s0.fields)
        decreases rest
      {
        var n :| n in rest;
        var up, more;
        ghost var step;
        ghost var here;
        up, err, more, step, here := VisitField(target, n, filter, encodes(n), env, s0, steps, rest, tags, deltas);
        updated, deltas, steps, tags := updated || up, deltas + more, steps + [step], tags + here;
        if err {
          return;
        }
        rest := rest - {n};
      }
      ProgressDone(env, s0, View(target.told), tags, deltas);
    }
  }

  ghost function SyncedNames(fields: map<string, FieldState>): set<string> {
    set n | n in fields && fields[n].synced
  }

  lemma SyncedNamesStep(fields: map<string, FieldState>, n: string, f: FieldState)
    requires n in fields && (fields[n].synced ==> f.synced)
    ensures |SyncedNames(fields[n := f])| == |SyncedNames(fields)| + if f.synced && !fields[n].synced then 1 else 0
  {
    assert SyncedNames(fields[n := f]) == SyncedNames(fields) + if f.synced then {n} else {};
  }

  lemma AllSynced(fields: map<string, FieldState>)
    ensures |SyncedNames(fields)| >= |fields| <==> forall n :: n in fields ==> fields[n].synced
  {
    var synced := SyncedNames(fields);
    assert fields.Keys == synced + (fields.Keys - synced);
    assert |fields.Keys| == |fields|;
    if forall n :: n in fields ==> fields[n].synced {
      assert synced == fields.Keys;
    } else {
      var n :| n in fields && !fields[n].synced;
      assert n in fields.Keys - synced;
    }
  }
}
