/** Every interleaving of watch events, local writes and updates on one client with one
    accumulator: what is delivered is always the plain rebuild, and local writes are read back. */
module KatesRuns {
  import opened Wrappers
  import opened KatesState

  /** `target` is what each field of the caller's snapshot holds, by UID. `lost` only keeps account:
      the fields whose last hand-over failed after their deltas had been taken. */
  datatype System = System(
    fields: map<string, FieldState>,
    canonical: Canonical,
    excluded: set<Key>,
    target: map<string, map<Key, Object>>,
    lost: set<string>)

  datatype Step =
    | Store(u: RawUpdate)
    | LocalWrite(k: Key, o: Option<Object>)       // Create/Update/Patch/Upsert/Get/List, or Delete (None)
    | WatchDeleteSeen(k: Key)                     // DeleteFunc forgets the local write
    | UpdateField(n: string)
    | FailedUpdate(n: string, done: set<Key>)     // patchWatch hit an unreadable version after visiting `done`
    | EncodingError(n: string)                    // the items could not be turned into the caller's field

  /** What the environment promises, fixed for a run: the filter the caller uses, the one field
      each UID can show up in, and what the object of each UID is called. */
  datatype Env = Env(filter: Filter, owner: Key -> string, identity: Key -> Ident)

  predicate Genuine(env: Env, o: Option<Object>) {
    o.Some? ==> IdentOf(o.value) == env.identity(o.value.uid)
  }

  // ---------------------------------------------------------------- steps

  predicate Readable(s: System, n: string)
    requires n in s.fields
  {
    forall k :: k in s.canonical ==> Comparable(s.fields[n], s.canonical, k)
  }

  /** updateField returns early. */
  predicate Quiet(f: FieldState) {
    f.firstUpdate && f.deltas == map[]
  }

  ghost predicate Enabled(env: Env, s: System, step: Step) {
    match step
    case Store(u) =>
      u.name in s.fields && Genuine(env, u.before) && Genuine(env, u.after) &&
      (u.after.Some? ==>
         env.owner(u.after.value.uid) == u.name &&
         // a resource version names one state of an object
         (u.after.value.uid in s.fields[u.name].values &&
          s.fields[u.name].values[u.after.value.uid].version == u.after.value.version ==>
            s.fields[u.name].values[u.after.value.uid] == u.after.value))
    case LocalWrite(k, o) =>
      o.Some? ==>
        o.value.uid == k && Genuine(env, o) &&
        forall n :: n in s.fields && Matches(s.fields[n], o.value) ==> env.owner(k) == n
    case WatchDeleteSeen(k) => true
    case UpdateField(n) => n in s.fields && Readable(s, n)
    case FailedUpdate(n, done) =>
      n in s.fields && done <= s.canonical.Keys &&
      forall k :: k in done ==> Comparable(s.fields[n], s.canonical, k)
    case EncodingError(n) =>
      n in s.fields && Readable(s, n) && !Quiet(Patched(s.fields[n], s.canonical))
  }

  /** The field once every local write has been patched in. */
  ghost function Patched(f: FieldState, can: Canonical): FieldState {
    PatchField(f, can, can.Keys)
  }

  ghost function Patch(s: System, n: string, done: set<Key>): System
    requires n in s.fields
  {
    s.(fields := s.fields[n := PatchField(s.fields[n], s.canonical, done)],
       canonical := PatchCanonical(s.fields[n], s.canonical, done))
  }

  /** updateField once patchWatch has succeeded; the deltas are gone whether or not the items encode. */
  ghost function Drain(filter: Filter, s: System, n: string, encodes: bool): System
    requires n in s.fields
  {
    var f := s.fields[n];
    if Quiet(f) then s
    else
      var excluded := Refilter(filter, f, s.excluded);
      s.(fields := s.fields[n := f.(firstUpdate := true, deltas := map[])],
         excluded := excluded,
         target := if encodes then s.target[n := Visible(f.values, excluded)] else s.target,
         lost := if encodes then s.lost - {n} else s.lost + {n})
  }

  ghost function Apply(env: Env, s: System, step: Step): System
    requires Enabled(env, s, step)
  {
    match step
    case Store(u) => s.(fields := s.fields[u.name := StoreField(s.fields[u.name], u)])
    case LocalWrite(k, o) => s.(canonical := s.canonical[k := o])
    case WatchDeleteSeen(k) => s.(canonical := s.canonical - {k})
    case UpdateField(n) => Drain(env.filter, Patch(s, n, s.canonical.Keys), n, true)
    case FailedUpdate(n, done) => Patch(s, n, done)
    case EncodingError(n) => Drain(env.filter, Patch(s, n, s.canonical.Keys), n, false)
  }

  ghost predicate ValidRun(env: Env, s: System, steps: seq<Step>)
    decreases |steps|
  {
    steps == [] ||
    (Enabled(env, s, steps[0]) && ValidRun(env, Apply(env, s, steps[0]), steps[1..]))
  }

  ghost function Final(env: Env, s: System, steps: seq<Step>): System
    requires ValidRun(env, s, steps)
    decreases |steps|
  {
    if steps == [] then s else Final(env, Apply(env, s, steps[0]), steps[1..])
  }

  /** newAccumulator: nothing stored, nothing delivered. The client may have written before. */
  ghost predicate Initial(env: Env, s: System) {
    (forall k :: WriteOwned(env, s, k)) && s.excluded == {} && s.target == map[] && s.lost == {} &&
    forall n :: n in s.fields ==>
      s.fields[n].values == map[] && s.fields[n].deltas == map[] && !s.fields[n].firstUpdate
  }

  // ---------------------------------------------------------------- the invariant, key by key

  /** What the caller should see of a key. */
  function Shown(filter: Filter, v: Option<Object>): Option<Object> {
    if v.Some? && Passes(filter, v.value) then v else None
  }

  /** `told` is what the caller was last handed for the field, if anything.
      - A pending delta says Delete exactly when the object is gone, so the filter always gets an object.
      - Without a pending delta, `excluded` is the filter's verdict and the caller is up to date.
      - Objects and deltas bear the name that goes with their UID, and before the first update every
        object has a delta. */
  ghost predicate KeyInv(
    env: Env, n: string, f: FieldState, excluded: set<Key>, told: Option<map<Key, Object>>, k: Key)
  {
    && (k in f.values ==> f.values[k].uid == k && env.owner(k) == n)
    && (k in f.deltas ==> env.owner(k) == n && (f.deltas[k].deltaType == ObjectDelete <==> k !in f.values))
    && (k !in f.deltas && k in f.values ==> (k in excluded <==> !Passes(env.filter, f.values[k])))
    && (k !in f.deltas && told.Some? ==> Get(told.value, k) == Shown(env.filter, Get(f.values, k)))
    && (k in f.values ==> IdentOf(f.values[k]) == env.identity(k))
    && (k in f.deltas ==> Subject(f.deltas[k]) == env.identity(k))
    && (!f.firstUpdate && k in f.values ==> k in f.deltas)
    && (told.Some? && k in told.value ==> IdentOf(told.value[k]) == env.identity(k))
  }

  /** The caller holds what the field was last handed over as. */
  predicate Handed(f: FieldState, lost: set<string>, n: string) {
    f.firstUpdate && n !in lost
  }

  function Told(
    f: FieldState, target: map<string, map<Key, Object>>, lost: set<string>, n: string): Option<map<Key, Object>>
  {
    if Handed(f, lost, n) then Get(target, n) else None
  }

  ghost predicate FieldInv(
    env: Env, n: string, f: FieldState, excluded: set<Key>, target: map<string, map<Key, Object>>, lost: set<string>)
  {
    (Handed(f, lost, n) ==> n in target) && (n in target ==> f.firstUpdate) &&
    forall k :: KeyInv(env, n, f, excluded, Told(f, target, lost, n), k)
  }

  ghost predicate Known(s: System, k: Key) {
    exists n :: n in s.fields && (k in s.fields[n].values || k in s.fields[n].deltas)
  }

  /** No exclusion outlives the object it was made for. */
  ghost predicate NoStaleExclusion(env: Env, s: System) {
    (env.filter.None? ==> s.excluded == {}) &&
    forall k :: k in s.excluded ==> Known(s, k)
  }

  ghost predicate WriteOwned(env: Env, s: System, k: Key) {
    k in s.canonical && s.canonical[k].Some? ==>
      s.canonical[k].value.uid == k && Genuine(env, s.canonical[k]) &&
      forall n :: n in s.fields && Matches(s.fields[n], s.canonical[k].value) ==> env.owner(k) == n
  }

  ghost predicate Inv(env: Env, s: System) {
    (forall n :: n in s.fields ==> FieldInv(env, n, s.fields[n], s.excluded, s.target, s.lost)) &&
    NoStaleExclusion(env, s) && (forall k :: WriteOwned(env, s, k)) && s.target.Keys <= s.fields.Keys
  }

  lemma InitialInv(env: Env, s: System)
    requires Initial(env, s)
    ensures Inv(env, s)
  {
  }

  /** A step that keeps the kinds and selectors, the excluded keys' objects and every other
      field's invariant keeps the whole invariant. */
  lemma InvFromField(env: Env, s: System, s': System, n: string)
    requires Inv(env, s) && n in s.fields
    requires n in s'.fields && s'.fields == s.fields[n := s'.fields[n]]
    requires s'.excluded == s.excluded && s'.target == s.target && s'.lost == s.lost
    requires s'.fields[n].kind == s.fields[n].kind && s'.fields[n].selector == s.fields[n].selector
    requires FieldInv(env, n, s'.fields[n], s'.excluded, s'.target, s'.lost)
    requires forall k :: k in s.fields[n].values || k in s.fields[n].deltas ==>
      k in s'.fields[n].values || k in s'.fields[n].deltas
    requires forall k :: k in s'.canonical ==> k in s.canonical && s'.canonical[k] == s.canonical[k]
    ensures Inv(env, s')
  {
    forall k | k in s'.excluded ensures Known(s', k) {
      assert Known(s, k);
      var m :| m in s.fields && (k in s.fields[m].values || k in s.fields[m].deltas);
      assert m in s'.fields && (k in s'.fields[m].values || k in s'.fields[m].deltas);
    }
    forall k ensures WriteOwned(env, s', k) {
      assert WriteOwned(env, s, k);
    }
  }

  lemma StoreKeepsInv(env: Env, s: System, u: RawUpdate)
    requires Inv(env, s) && Enabled(env, s, Store(u))
    ensures Inv(env, Apply(env, s, Store(u)))
  {
    var n, f, f' := u.name, s.fields[u.name], StoreField(s.fields[u.name], u);
    forall k ensures KeyInv(env, n, f', s.excluded, Told(f', s.target, s.lost, n), k) {
      assert KeyInv(env, n, f, s.excluded, Told(f, s.target, s.lost, n), k);
    }
    InvFromField(env, s, Apply(env, s, Store(u)), n);
  }

  /** PatchField one key at a time. */
  lemma PatchAt(f: FieldState, can: Canonical, done: set<Key>, k: Key)
    ensures Get(PatchField(f, can, done).values, k) == if k in done then PatchedValue(f, can, k) else Get(f.values, k)
    ensures Get(PatchField(f, can, done).deltas, k) == if k in done then PatchedDelta(f, can, k) else Get(f.deltas, k)
  {
    var values := (k: Key) => if k in done then PatchedValue(f, can, k) else Get(f.values, k);
    var deltas := (k: Key) => if k in done then PatchedDelta(f, can, k) else Get(f.deltas, k);
    assert PatchField(f, can, done).values == Collect(f.values.Keys + done, values);
    assert PatchField(f, can, done).deltas == Collect(f.deltas.Keys + done, deltas);
    assert k !in f.values.Keys + done ==> values(k) == None;
    assert k !in f.deltas.Keys + done ==> deltas(k) == None;
  }

  lemma PatchKeepsKey(env: Env, s: System, n: string, done: set<Key>, k: Key)
    requires Inv(env, s) && n in s.fields && done <= s.canonical.Keys
    ensures var f, f' := s.fields[n], PatchField(s.fields[n], s.canonical, done);
      && KeyInv(env, n, f', s.excluded, Told(f', s.target, s.lost, n), k)
      && (k in f.values || k in f.deltas ==> k in f'.values || k in f'.deltas)
  {
    var f, f' := s.fields[n], PatchField(s.fields[n], s.canonical, done);
    PatchAt(f, s.canonical, done, k);
    assert KeyInv(env, n, f, s.excluded, Told(f, s.target, s.lost, n), k);
    assert WriteOwned(env, s, k);
    assert f'.firstUpdate == f.firstUpdate;
  }

  lemma PatchKeepsInv(env: Env, s: System, n: string, done: set<Key>)
    requires Inv(env, s) && n in s.fields && done <= s.canonical.Keys
    ensures Inv(env, Patch(s, n, done))
  {
    var f, f' := s.fields[n], PatchField(s.fields[n], s.canonical, done);
    forall k
      ensures KeyInv(env, n, f', s.excluded, Told(f', s.target, s.lost, n), k)
      ensures k in f.values || k in f.deltas ==> k in f'.values || k in f'.deltas
    {
      PatchKeepsKey(env, s, n, done, k);
    }
    InvFromField(env, s, Patch(s, n, done), n);
  }

  /** After the pending deltas are drained the caller holds exactly the rebuild, unless an earlier
      hand-over was lost and there is nothing to hand over now. */
  lemma DrainDelivers(env: Env, s: System, n: string)
    requires Inv(env, s) && n in s.fields
    ensures var s' := Drain(env.filter, s, n, true);
      if n in s.lost && Quiet(s.fields[n]) then s' == s
      else n !in s'.lost && n in s'.target && s'.target[n] == Rebuild(env.filter, s'.fields[n])
  {
    var s' := Drain(env.filter, s, n, true);
    var f := s.fields[n];
    if !(n in s.lost && Quiet(f)) {
      forall k
        ensures Get(s'.target[n], k) == Get(Rebuild(env.filter, f), k)
      {
        assert KeyInv(env, n, f, s.excluded, Told(f, s.target, s.lost, n), k);
      }
      SameEntries(s'.target[n], Rebuild(env.filter, f));
    }
  }

  /** Draining keeps every field's invariant, although `excluded` is shared by all of them. */
  lemma DrainKeepsFields(env: Env, s: System, n: string, encodes: bool, m: string)
    requires Inv(env, s) && n in s.fields && m in s.fields && !Quiet(s.fields[n])
    ensures var s' := Drain(env.filter, s, n, encodes); FieldInv(env, m, s'.fields[m], s'.excluded, s'.target, s'.lost)
  {
    var s' := Drain(env.filter, s, n, encodes);
    var f, g, g' := s.fields[n], s.fields[m], s'.fields[m];
    DrainDelivers(env, s, n);
    forall k ensures KeyInv(env, m, g', s'.excluded, Told(g', s'.target, s'.lost, m), k) {
      assert KeyInv(env, m, g, s.excluded, Told(g, s.target, s.lost, m), k);
      assert KeyInv(env, n, f, s.excluded, Told(f, s.target, s.lost, n), k);
    }
  }

  lemma DrainKeepsInv(env: Env, s: System, n: string, encodes: bool)
    requires Inv(env, s) && n in s.fields
    ensures Inv(env, Drain(env.filter, s, n, encodes))
  {
    var s' := Drain(env.filter, s, n, encodes);
    var f := s.fields[n];
    if !Quiet(f) {
      forall m | m in s'.fields ensures FieldInv(env, m, s'.fields[m], s'.excluded, s'.target, s'.lost) {
        DrainKeepsFields(env, s, n, encodes, m);
      }
      forall k | k in s'.excluded ensures Known(s', k) {
        if k in f.deltas {
          assert KeyInv(env, n, f, s.excluded, Told(f, s.target, s.lost, n), k);
          assert k in s'.fields[n].values;
        } else {
          assert Known(s, k);
          var m :| m in s.fields && (k in s.fields[m].values || k in s.fields[m].deltas);
          assert k in s'.fields[m].values || k in s'.fields[m].deltas;
        }
      }
      forall k ensures WriteOwned(env, s', k) {
        assert WriteOwned(env, s, k);
      }
    }
  }

  lemma StepKeepsInv(env: Env, s: System, step: Step)
    requires Inv(env, s) && Enabled(env, s, step)
    ensures Inv(env, Apply(env, s, step))
  {
    var s' := Apply(env, s, step);
    match step
    case Store(u) => StoreKeepsInv(env, s, u);
    case UpdateField(n) =>
      PatchKeepsInv(env, s, n, s.canonical.Keys);
      DrainKeepsInv(env, Patch(s, n, s.canonical.Keys), n, true);
    case FailedUpdate(n, done) => PatchKeepsInv(env, s, n, done);
    case EncodingError(n) =>
      PatchKeepsInv(env, s, n, s.canonical.Keys);
      DrainKeepsInv(env, Patch(s, n, s.canonical.Keys), n, false);
    case LocalWrite(_, _) =>
      assert forall k :: Known(s, k) ==> Known(s', k);
      forall j ensures WriteOwned(env, s', j) { assert WriteOwned(env, s, j); }
    case WatchDeleteSeen(_) =>
      assert forall k :: Known(s, k) ==> Known(s', k);
      forall j ensures WriteOwned(env, s', j) { assert WriteOwned(env, s, j); }
  }

  lemma {:induction false} RunKeepsInv(env: Env, s: System, steps: seq<Step>)
    requires Inv(env, s) && ValidRun(env, s, steps)
    ensures Inv(env, Final(env, s, steps))
    decreases |steps|
  {
    if steps != [] {
      StepKeepsInv(env, s, steps[0]);
      RunKeepsInv(env, Apply(env, s, steps[0]), steps[1..]);
    }
  }

  /** What the caller holds of field `n`, nothing at first. */
  function Held(target: map<string, map<Key, Object>>, n: string): map<Key, Object> {
    if n in target then target[n] else map[]
  }

  lemma KeyTold(env: Env, s: System, n: string, k: Key)
    requires Inv(env, s) && n in s.fields && n !in s.lost
    ensures Get(Held(s.target, n), k) != Get(Rebuild(env.filter, s.fields[n]), k) ==> k in s.fields[n].deltas
  {
    assert FieldInv(env, n, s.fields[n], s.excluded, s.target, s.lost);
    assert KeyInv(env, n, s.fields[n], s.excluded, Told(s.fields[n], s.target, s.lost, n), k);
  }

  /** A delta marks every key on which the caller was out of date, says whether the object is gone, and
      bears its name. */
  lemma DeltasTell(env: Env, s: System, n: string)
    requires Inv(env, s) && Enabled(env, s, UpdateField(n))
    ensures var patched := Patched(s.fields[n], s.canonical);
      var s' := Apply(env, s, UpdateField(n));
      && (n !in s.lost ==> forall k :: Get(Held(s.target, n), k) != Get(Held(s'.target, n), k) ==> k in patched.deltas)
      && (forall k :: k in patched.deltas ==>
            && (patched.deltas[k].deltaType == ObjectDelete <==> k !in patched.values)
            && Subject(patched.deltas[k]) == env.identity(k))
  {
    PatchKeepsInv(env, s, n, s.canonical.Keys);
    var p := Patch(s, n, s.canonical.Keys);
    DrainDelivers(env, p, n);
    assert Apply(env, s, UpdateField(n)) == Drain(env.filter, p, n, true);
    assert Rebuild(env.filter, Drain(env.filter, p, n, true).fields[n]) == Rebuild(env.filter, p.fields[n]);
    assert p.fields[n] == Patched(s.fields[n], s.canonical) && p.target == s.target && p.lost == s.lost;
    hide Apply, Patch, Patched, Drain, Rebuild, Enabled;
    forall k
      ensures n !in p.lost && Get(Held(p.target, n), k) != Get(Rebuild(env.filter, p.fields[n]), k) ==>
        k in p.fields[n].deltas
      ensures k in p.fields[n].deltas ==> DeltaTells(env, p.fields[n], k)
    {
      PendingTells(env, p, n, k);
      if n !in p.lost {
        KeyTold(env, p, n, k);
      }
    }
    hide Inv;
  }

  predicate DeltaTells(env: Env, f: FieldState, k: Key)
    requires k in f.deltas
  {
    (f.deltas[k].deltaType == ObjectDelete <==> k !in f.values) && Subject(f.deltas[k]) == env.identity(k)
  }

  lemma PendingTells(env: Env, s: System, n: string, k: Key)
    requires Inv(env, s) && n in s.fields
    ensures k in s.fields[n].deltas ==> DeltaTells(env, s.fields[n], k)
  {
    assert KeyInv(env, n, s.fields[n], s.excluded, Told(s.fields[n], s.target, s.lost, n), k);
  }

  // ---------------------------------------------------------------- errors while encoding

  /** The step hands over field `n`. */
  ghost predicate Delivers(s: System, n: string, step: Step) {
    step == UpdateField(n) && n in s.fields && !Quiet(Patched(s.fields[n], s.canonical))
  }

  /** Some update in the run reports that it handed over field `n`. */
  ghost predicate HandsOver(env: Env, s: System, n: string, steps: seq<Step>)
    requires ValidRun(env, s, steps)
    decreases |steps|
  {
    steps != [] &&
    (Delivers(s, n, steps[0]) || HandsOver(env, Apply(env, s, steps[0]), n, steps[1..]))
  }

  /** Somewhere in the run an update of field `n` fails while encoding, and no later one hands the field over. */
  ghost predicate Owed(env: Env, s: System, n: string, steps: seq<Step>)
    requires ValidRun(env, s, steps)
    decreases |steps|
  {
    steps != [] &&
    var s' := Apply(env, s, steps[0]);
    (steps[0] == EncodingError(n) && !HandsOver(env, s', n, steps[1..])) || Owed(env, s', n, steps[1..])
  }

  lemma LostStep(env: Env, s: System, n: string, step: Step)
    requires Enabled(env, s, step)
    ensures n in Apply(env, s, step).lost <==> step == EncodingError(n) || (n in s.lost && !Delivers(s, n, step))
  {
    hide PatchField, PatchCanonical, Comparable, Refilter, Visible;
  }

  lemma {:induction false} LostExactly(env: Env, s: System, n: string, steps: seq<Step>)
    requires ValidRun(env, s, steps)
    ensures n in Final(env, s, steps).lost <==> Owed(env, s, n, steps) || (n in s.lost && !HandsOver(env, s, n, steps))
    decreases |steps|
  {
    if steps != [] {
      LostStep(env, s, n, steps[0]);
      hide Apply, Enabled, Delivers;
      LostExactly(env, Apply(env, s, steps[0]), n, steps[1..]);
    }
  }

  /** Main result: after any run, a successful update of a field leaves the caller with the
      plain rebuild of that field, whether or not the early return was taken, and a pending
      delta marks every key on which the caller was out of date. The one exception is an earlier
      update that failed while encoding and was not made up for: then an update with nothing new
      to hand over leaves the caller's field as it was before that error. */
  lemma DeliveredIsRebuild(env: Env, init: System, steps: seq<Step>, n: string)
    requires Initial(env, init) && ValidRun(env, init, steps)
    requires Enabled(env, Final(env, init, steps), UpdateField(n))
    ensures var s := Final(env, init, steps);
      var patched := Patched(s.fields[n], s.canonical);
      var s' := Apply(env, s, UpdateField(n));
      && s'.fields[n].values == patched.values
      && s'.fields[n].deltas == map[]
      && (if Owed(env, init, n, steps) && Quiet(patched) then s'.target == s.target
          else n in s'.target && s'.target[n] == Rebuild(env.filter, patched))
      && (!Owed(env, init, n, steps) ==>
            forall k :: Get(Held(s.target, n), k) != Get(Held(s'.target, n), k) ==> k in patched.deltas)
      && (forall k :: k in patched.deltas ==>
            && (patched.deltas[k].deltaType == ObjectDelete <==> k !in patched.values)
            && Subject(patched.deltas[k]) == env.identity(k))
  {
    var s := Final(env, init, steps);
    InitialInv(env, init);
    RunKeepsInv(env, init, steps);
    PatchKeepsInv(env, s, n, s.canonical.Keys);
    DrainDelivers(env, Patch(s, n, s.canonical.Keys), n);
    DeltasTell(env, s, n);
    LostExactly(env, init, n, steps);
    hide Inv, PatchField, PatchCanonical, Refilter, Visible;
  }

  /** Nothing but what the caller holds of field `n` tells the two apart. */
  ghost predicate AgreeBut(s: System, t: System, n: string) {
    && s.fields == t.fields && s.canonical == t.canonical && s.excluded == t.excluded
    && s.lost - {n} == t.lost - {n} && forall m :: m != n ==> Get(s.target, m) == Get(t.target, m)
  }

  lemma DrainAgrees(filter: Filter, s: System, t: System, n: string, m: string, encodes: bool)
    requires AgreeBut(s, t, n) && m in s.fields
    ensures var s', t' := Drain(filter, s, m, encodes), Drain(filter, t, m, encodes);
      && AgreeBut(s', t', n)
      && (if m == n && encodes && !Quiet(s.fields[m]) then s' == t'
          else Get(s'.target, n) == Get(s.target, n) && Get(t'.target, n) == Get(t.target, n))
  {
    hide Refilter, Visible;
    var s', t' := Drain(filter, s, m, encodes), Drain(filter, t, m, encodes);
    forall l ensures l in s'.lost - {n} <==> l in t'.lost - {n} {
      assert l in s.lost - {n} <==> l in t.lost - {n};
    }
    forall l | l != n ensures Get(s'.target, l) == Get(t'.target, l) {
      assert Get(s.target, l) == Get(t.target, l);
    }
    if m == n && encodes && !Quiet(s.fields[m]) {
      SameEntries(s'.target, t'.target);
      assert s'.lost == s.lost - {n} && t'.lost == t.lost - {n};
    }
  }

  /** A step does the same on both sides; handing over field `n` removes the difference, and
      nothing else touches what the caller holds of it. */
  lemma AgreeStep(env: Env, s: System, t: System, n: string, step: Step)
    requires AgreeBut(s, t, n) && Enabled(env, s, step)
    ensures Enabled(env, t, step) && AgreeBut(Apply(env, s, step), Apply(env, t, step), n)
    ensures Delivers(s, n, step) <==> Delivers(t, n, step)
    ensures if Delivers(s, n, step) then Apply(env, s, step) == Apply(env, t, step)
      else
        Get(Apply(env, s, step).target, n) == Get(s.target, n) &&
        Get(Apply(env, t, step).target, n) == Get(t.target, n)
  {
    hide PatchField, PatchCanonical, Comparable, Refilter, Visible, Matches, StoreField, Quiet, Drain;
    if step.UpdateField? || step.EncodingError? {
      DrainAgrees(env.filter, Patch(s, step.n, s.canonical.Keys), Patch(t, step.n, t.canonical.Keys), n, step.n,
        step.UpdateField?);
    }
  }

  /** Main result: an error while encoding makes no difference to anything but the caller's copy of
      that field, over any run. If a later update hands the field over, the caller is exactly where
      it would be without the error; if none does, it still has what it had before the error. So
      it has what it should have if and only if one of them handed the field over, or the failed
      update had nothing to change. */
  lemma EncodingErrorExactly(env: Env, s: System, n: string, steps: seq<Step>)
    requires Enabled(env, s, EncodingError(n)) && ValidRun(env, Apply(env, s, EncodingError(n)), steps)
    ensures Enabled(env, s, UpdateField(n)) && ValidRun(env, Apply(env, s, UpdateField(n)), steps)
    ensures var bad, good := Apply(env, s, EncodingError(n)), Apply(env, s, UpdateField(n));
      var bad', good' := Final(env, bad, steps), Final(env, good, steps);
      && AgreeBut(bad', good', n)
      && (if HandsOver(env, bad, n, steps) then bad' == good'
          else Get(bad'.target, n) == Get(s.target, n) && Get(good'.target, n) == Get(good.target, n))
      && (bad'.target == good'.target <==>
            HandsOver(env, bad, n, steps) || Get(s.target, n) == Get(good.target, n))
  {
    var bad, good := Apply(env, s, EncodingError(n)), Apply(env, s, UpdateField(n));
    ErrorAgrees(env, s, n);
    AgreeRun(env, bad, good, n, steps);
    var bad', good' := Final(env, bad, steps), Final(env, good, steps);
    hide Apply, Enabled, ValidRun, Final, HandsOver;
    if Get(bad'.target, n) == Get(good'.target, n) {
      SameEntries(bad'.target, good'.target);
    }
  }

  lemma ErrorAgrees(env: Env, s: System, n: string)
    requires Enabled(env, s, EncodingError(n))
    ensures Enabled(env, s, UpdateField(n))
    ensures AgreeBut(Apply(env, s, EncodingError(n)), Apply(env, s, UpdateField(n)), n)
    ensures Apply(env, s, EncodingError(n)).target == s.target
  {
    hide PatchField, PatchCanonical, Comparable, Refilter, Visible;
  }

  lemma {:induction false} AgreeRun(env: Env, s: System, t: System, n: string, steps: seq<Step>)
    requires AgreeBut(s, t, n) && ValidRun(env, s, steps)
    ensures ValidRun(env, t, steps) && AgreeBut(Final(env, s, steps), Final(env, t, steps), n)
    ensures if HandsOver(env, s, n, steps) then Final(env, s, steps) == Final(env, t, steps)
      else
        Get(Final(env, s, steps).target, n) == Get(s.target, n) &&
        Get(Final(env, t, steps).target, n) == Get(t.target, n)
    decreases |steps|
  {
    if steps != [] {
      AgreeStep(env, s, t, n, steps[0]);
      hide Apply, Enabled, Delivers, AgreeBut;
      AgreeRun(env, Apply(env, s, steps[0]), Apply(env, t, steps[0]), n, steps[1..]);
    }
  }

  // ---------------------------------------------------------------- read your writes

  lemma PatchedValueIs(s: System, env: Env, n: string, k: Key)
    requires Enabled(env, s, UpdateField(n))
    ensures Get(Apply(env, s, UpdateField(n)).fields[n].values, k) == PatchedValue(s.fields[n], s.canonical, k)
  {
    PatchAt(s.fields[n], s.canonical, s.canonical.Keys, k);
  }

  /** The next update of field `n` shows `k` at version `v` or later: either the watch got
      there, or an unechoed local write did and the field will take it. A local delete rules it out. */
  predicate Fresh(s: System, n: string, k: Key, v: int)
    requires n in s.fields
  {
    var f := s.fields[n];
    if k !in s.canonical then k in f.values && AtLeast(f.values[k], v)
    else
      s.canonical[k].Some? &&
      ((k in f.values && AtLeast(f.values[k], v)) ||
       (AtLeast(s.canonical[k].value, v) && (k in f.values || Matches(f, s.canonical[k].value))))
  }

  lemma FreshPatch(s: System, n: string, k: Key, v: int)
    requires n in s.fields && Comparable(s.fields[n], s.canonical, k)
    ensures var p := PatchedValue(s.fields[n], s.canonical, k);
      Fresh(s, n, k, v) <==> p.Some? && AtLeast(p.value, v)
  {
  }

  lemma UpdateShows(env: Env, s: System, n: string, k: Key)
    requires Inv(env, s) && Enabled(env, s, UpdateField(n))
    ensures var s' := Apply(env, s, UpdateField(n));
      && Get(s'.fields[n].values, k) == PatchedValue(s.fields[n], s.canonical, k)
      && (n !in s.lost ==> n !in s'.lost)
      && (n !in s'.lost ==>
            n in s'.target && Get(s'.target[n], k) == Shown(env.filter, PatchedValue(s.fields[n], s.canonical, k)))
  {
    PatchedValueIs(s, env, n, k);
    PatchKeepsInv(env, s, n, s.canonical.Keys);
    DrainDelivers(env, Patch(s, n, s.canonical.Keys), n);
  }

  /** Exactly when an update makes version `v` of `k` readable. */
  lemma FreshExactly(env: Env, s: System, n: string, k: Key, v: int)
    requires Inv(env, s) && Enabled(env, s, UpdateField(n))
    ensures var s' := Apply(env, s, UpdateField(n));
      && (Fresh(s, n, k, v) <==> k in s'.fields[n].values && AtLeast(s'.fields[n].values[k], v))
      && (n !in s'.lost ==>
            n in s'.target && Get(s'.target[n], k) == Shown(env.filter, Get(s'.fields[n].values, k)))
  {
    UpdateShows(env, s, n, k);
    FreshPatch(s, n, k, v);
  }

  // ---------------------------------------------------------------- over whole runs

  /** A local write of `k` at version `v` or later has not been forgotten. */
  predicate Remembered(s: System, k: Key, v: int) {
    k in s.canonical && s.canonical[k].Some? && AtLeast(s.canonical[k].value, v)
  }

  predicate Stored(f: FieldState, k: Key, v: int) {
    k in f.values && AtLeast(f.values[k], v)
  }

  /** Exactly the steps that lose version `v` of `k`: an older watch event after the write was
      forgotten, a watch delete, a local delete, or an older local write. No update ever does. */
  predicate Loses(s: System, n: string, k: Key, v: int, step: Step)
    requires n in s.fields
  {
    var f := s.fields[n];
    match step
    case Store(u) =>
      u.name == n &&
      if u.after.Some? then u.after.value.uid == k && !AtLeast(u.after.value, v) && !Remembered(s, k, v)
      else u.before.Some? && u.before.value.uid == k && !(Remembered(s, k, v) && Matches(f, s.canonical[k].value))
    case LocalWrite(j, o) =>
      j == k && (o.None? || (!Stored(f, k, v) && !(AtLeast(o.value, v) && (k in f.values || Matches(f, o.value)))))
    case WatchDeleteSeen(j) => j == k && !Stored(f, k, v)
    case UpdateField(_) => false
    case FailedUpdate(_, _) => false
    case EncodingError(_) => false
  }

  /** With the write forgotten, an older watch event decides what is shown; until then it does not. */
  lemma OlderEventExactly(env: Env, s: System, n: string, u: RawUpdate, v: int)
    requires Enabled(env, s, Store(u)) && u.name == n && u.after.Some? && !AtLeast(u.after.value, v)
    ensures Fresh(Apply(env, s, Store(u)), n, u.after.value.uid, v) <==> Remembered(s, u.after.value.uid, v)
  {
  }

  lemma FreshOwned(env: Env, s: System, n: string, k: Key, v: int)
    requires Inv(env, s) && n in s.fields && Fresh(s, n, k, v)
    ensures env.owner(k) == n && forall m :: m in s.fields && m != n ==> k !in s.fields[m].values
  {
    assert KeyInv(env, n, s.fields[n], s.excluded, Told(s.fields[n], s.target, s.lost, n), k) && WriteOwned(env, s, k);
    forall m | m in s.fields && m != n ensures k !in s.fields[m].values {
      assert KeyInv(env, m, s.fields[m], s.excluded, Told(s.fields[m], s.target, s.lost, m), k);
    }
  }

  /** Patching any part of any field keeps what is fresh. */
  lemma PatchKeepsFresh(env: Env, s: System, n: string, k: Key, v: int, m: string, done: set<Key>)
    requires Inv(env, s) && n in s.fields && Fresh(s, n, k, v)
    requires m in s.fields && done <= s.canonical.Keys &&
      forall j :: j in done ==> Comparable(s.fields[m], s.canonical, j)
    ensures Fresh(Patch(s, m, done), n, k, v)
  {
    FreshOwned(env, s, n, k, v);
    PatchAt(s.fields[m], s.canonical, done, k);
  }

  lemma StoreFreshExactly(env: Env, s: System, n: string, k: Key, v: int, u: RawUpdate)
    requires n in s.fields && Fresh(s, n, k, v) && Enabled(env, s, Store(u))
    ensures Fresh(Apply(env, s, Store(u)), n, k, v) <==> !Loses(s, n, k, v, Store(u))
  {
  }

  lemma WriteFreshExactly(env: Env, s: System, n: string, k: Key, v: int, step: Step)
    requires n in s.fields && Fresh(s, n, k, v) && Enabled(env, s, step) && (step.LocalWrite? || step.WatchDeleteSeen?)
    ensures Fresh(Apply(env, s, step), n, k, v) <==> !Loses(s, n, k, v, step)
  {
  }

  lemma DrainKeepsFresh(env: Env, s: System, n: string, k: Key, v: int, m: string, encodes: bool)
    requires n in s.fields && m in s.fields
    ensures Fresh(Drain(env.filter, s, m, encodes), n, k, v) <==> Fresh(s, n, k, v)
  {
  }

  /** A step loses what was fresh exactly when it is one of those. */
  lemma FreshStepExactly(env: Env, s: System, n: string, k: Key, v: int, step: Step)
    requires Inv(env, s) && n in s.fields && Fresh(s, n, k, v) && Enabled(env, s, step)
    ensures n in Apply(env, s, step).fields
    ensures Fresh(Apply(env, s, step), n, k, v) <==> !Loses(s, n, k, v, step)
  {
    hide Inv, Fresh, Comparable, PatchField, PatchCanonical;
    match step
    case UpdateField(m) =>
      PatchKeepsFresh(env, s, n, k, v, m, s.canonical.Keys);
      DrainKeepsFresh(env, Patch(s, m, s.canonical.Keys), n, k, v, m, true);
    case EncodingError(m) =>
      PatchKeepsFresh(env, s, n, k, v, m, s.canonical.Keys);
      DrainKeepsFresh(env, Patch(s, m, s.canonical.Keys), n, k, v, m, false);
    case FailedUpdate(m, done) => PatchKeepsFresh(env, s, n, k, v, m, done);
    case Store(u) => StoreFreshExactly(env, s, n, k, v, u);
    case LocalWrite(_, _) => WriteFreshExactly(env, s, n, k, v, step);
    case WatchDeleteSeen(_) => WriteFreshExactly(env, s, n, k, v, step);
  }

  ghost predicate NeverLost(env: Env, s: System, n: string, k: Key, v: int, steps: seq<Step>)
    requires n in s.fields && ValidRun(env, s, steps)
    decreases |steps|
  {
    steps == [] ||
    (!Loses(s, n, k, v, steps[0]) &&
     var s' := Apply(env, s, steps[0]);
     n in s'.fields && NeverLost(env, s', n, k, v, steps[1..]))
  }

  /** Fresh now and after every step. */
  ghost predicate StaysFresh(env: Env, s: System, n: string, k: Key, v: int, steps: seq<Step>)
    requires ValidRun(env, s, steps)
    decreases |steps|
  {
    n in s.fields && Fresh(s, n, k, v) && (steps == [] || StaysFresh(env, Apply(env, s, steps[0]), n, k, v, steps[1..]))
  }

  /** Main result: an update anywhere along a run shows version `v` or later if and only if no
      step before it lost it. */
  lemma {:induction false} FreshRunExactly(env: Env, s: System, n: string, k: Key, v: int, steps: seq<Step>)
    requires Inv(env, s) && n in s.fields && Fresh(s, n, k, v) && ValidRun(env, s, steps)
    ensures StaysFresh(env, s, n, k, v, steps) <==> NeverLost(env, s, n, k, v, steps)
    ensures NeverLost(env, s, n, k, v, steps) ==>
      n in Final(env, s, steps).fields && Fresh(Final(env, s, steps), n, k, v)
    decreases |steps|
  {
    if steps != [] {
      var s' := Apply(env, s, steps[0]);
      FreshStepExactly(env, s, n, k, v, steps[0]);
      StepKeepsInv(env, s, steps[0]);
      hide Inv, Fresh, Loses, Enabled, Apply;
      if Fresh(s', n, k, v) {
        FreshRunExactly(env, s', n, k, v, steps[1..]);
      }
    }
  }

  /** A step that brings no older watch event of `k`, no delete of it, and no older local write. */
  predicate Harmless(f: FieldState, n: string, k: Key, v: int, step: Step) {
    match step
    case Store(u) =>
      u.name == n ==>
        (u.after.Some? && u.after.value.uid == k ==> AtLeast(u.after.value, v)) &&
        (u.after.None? && u.before.Some? ==> u.before.value.uid != k)
    case LocalWrite(j, o) => j == k ==> o.Some? && AtLeast(o.value, v) && Matches(f, o.value)
    case WatchDeleteSeen(j) => j != k
    case UpdateField(_) => true
    case FailedUpdate(_, _) => true
    case EncodingError(_) => true
  }

  lemma HarmlessKeeps(env: Env, s: System, n: string, k: Key, v: int, step: Step)
    requires n in s.fields && Enabled(env, s, step) && Harmless(s.fields[n], n, k, v, step)
    ensures !Loses(s, n, k, v, step) && n in Apply(env, s, step).fields
    ensures var f, f' := s.fields[n], Apply(env, s, step).fields[n]; f'.kind == f.kind && f'.selector == f.selector
  {
  }

  lemma {:induction false} HarmlessNeverLost(env: Env, s: System, n: string, k: Key, v: int, steps: seq<Step>)
    requires n in s.fields && ValidRun(env, s, steps) &&
      forall i :: 0 <= i < |steps| ==> Harmless(s.fields[n], n, k, v, steps[i])
    ensures NeverLost(env, s, n, k, v, steps)
    decreases |steps|
  {
    if steps != [] {
      HarmlessKeeps(env, s, n, k, v, steps[0]);
      var s' := Apply(env, s, steps[0]);
      forall i | 0 <= i < |steps[1..]| ensures Harmless(s'.fields[n], n, k, v, steps[1..][i]) {
        assert steps[1..][i] == steps[i + 1];
      }
      HarmlessNeverLost(env, s', n, k, v, steps[1..]);
    }
  }

  lemma WrittenIsFresh(env: Env, s: System, o: Object, n: string)
    requires n in s.fields && (o.uid in s.fields[n].values || Matches(s.fields[n], o)) && ParseInt64(o.version).Some?
    requires Enabled(env, s, LocalWrite(o.uid, Some(o)))
    ensures Fresh(Apply(env, s, LocalWrite(o.uid, Some(o))), n, o.uid, ParseInt64(o.version).value)
  {
  }

  /** Main result, read your writes over whole runs: after a local write of `o`, EVERY update of the
      field delivers `o` or something newer (unless the caller's filter hides it), however many
      there are and whatever other updates succeed or fail in between, as long as no step loses it. */
  lemma ReadYourWritesAlways(env: Env, s: System, o: Object, steps: seq<Step>, n: string)
    requires Inv(env, s) && n in s.fields && (o.uid in s.fields[n].values || Matches(s.fields[n], o))
    requires ParseInt64(o.version).Some? && Enabled(env, s, LocalWrite(o.uid, Some(o)))
    requires var s1 := Apply(env, s, LocalWrite(o.uid, Some(o)));
      ValidRun(env, s1, steps) && NeverLost(env, s1, n, o.uid, ParseInt64(o.version).value, steps) &&
        Enabled(env, Final(env, s1, steps), UpdateField(n))
    ensures
      var s3 := Apply(env, Final(env, Apply(env, s, LocalWrite(o.uid, Some(o))), steps), UpdateField(n));
      var f := s3.fields[n];
      && o.uid in f.values && AtLeast(f.values[o.uid], ParseInt64(o.version).value)
      && (n !in s3.lost ==>
            n in s3.target && Get(s3.target[n], o.uid) == Shown(env.filter, Some(f.values[o.uid])))
  {
    var v := ParseInt64(o.version).value;
    var s1 := Apply(env, s, LocalWrite(o.uid, Some(o)));
    StepKeepsInv(env, s, LocalWrite(o.uid, Some(o)));
    WrittenIsFresh(env, s, o, n);
    FreshRunExactly(env, s1, n, o.uid, v, steps);
    RunKeepsInv(env, s1, steps);
    FreshExactly(env, Final(env, s1, steps), n, o.uid, v);
  }

  // ---------------------------------------------------------------- up to the first update

  /** A step that neither updates the field, nor shows a watch delete of `k`, nor replaces the
      local write of `k` by something older or something the field would not take. */
  predicate Undisturbed(f: FieldState, n: string, k: Key, v: int, step: Step) {
    match step
    case Store(_) => true
    case LocalWrite(j, o) => j == k ==> o.Some? && AtLeast(o.value, v) && Matches(f, o.value)
    case WatchDeleteSeen(j) => j != k
    case UpdateField(m) => m != n
    case FailedUpdate(m, _) => m != n
    case EncodingError(m) => m != n
  }

  predicate Pending(s: System, n: string, k: Key, v: int)
    requires n in s.fields
  {
    k in s.canonical && s.canonical[k].Some? && AtLeast(s.canonical[k].value, v) &&
      Matches(s.fields[n], s.canonical[k].value)
  }

  lemma StepKeepsPending(env: Env, s: System, n: string, k: Key, v: int, step: Step)
    requires Inv(env, s) && n in s.fields && Pending(s, n, k, v)
    requires Enabled(env, s, step) && Undisturbed(s.fields[n], n, k, v, step)
    ensures var s' := Apply(env, s, step);
      && n in s'.fields && Pending(s', n, k, v)
      && s'.fields[n].kind == s.fields[n].kind && s'.fields[n].selector == s.fields[n].selector
  {
    assert WriteOwned(env, s, k);
    if step.UpdateField? || step.FailedUpdate? || step.EncodingError? {
      // Another field cannot hold `k`, so it cannot take the local write off the list.
      assert KeyInv(env, step.n, s.fields[step.n], s.excluded, Told(s.fields[step.n], s.target, s.lost, step.n), k);
    }
  }

  lemma {:induction false} RunKeepsPending(env: Env, s: System, n: string, k: Key, v: int, steps: seq<Step>)
    requires Inv(env, s) && n in s.fields && Pending(s, n, k, v) && ValidRun(env, s, steps)
    requires forall i :: 0 <= i < |steps| ==> Undisturbed(s.fields[n], n, k, v, steps[i])
    ensures Inv(env, Final(env, s, steps))
    ensures n in Final(env, s, steps).fields && Pending(Final(env, s, steps), n, k, v)
    decreases |steps|
  {
    if steps != [] {
      StepKeepsInv(env, s, steps[0]);
      StepKeepsPending(env, s, n, k, v, steps[0]);
      var s' := Apply(env, s, steps[0]);
      forall i | 0 <= i < |steps[1..]| ensures Undisturbed(s'.fields[n], n, k, v, steps[1..][i]) {
        assert steps[1..][i] == steps[i + 1];
      }
      RunKeepsPending(env, s', n, k, v, steps[1..]);
    }
  }

  /** Main result: whatever happens between a local write of `o` and the field's next update,
      older watch events included, that update delivers `o` or something newer (unless the
      caller's filter hides it), as long as the watch did not report a delete. */
  lemma ReadYourWrites(env: Env, s: System, o: Object, steps: seq<Step>, n: string)
    requires Inv(env, s) && n in s.fields && Matches(s.fields[n], o)
    requires ParseInt64(o.version).Some?
    requires Enabled(env, s, LocalWrite(o.uid, Some(o)))
    requires var s1 := Apply(env, s, LocalWrite(o.uid, Some(o)));
      && ValidRun(env, s1, steps)
      && (forall i :: 0 <= i < |steps| ==>
            Undisturbed(s.fields[n], n, o.uid, ParseInt64(o.version).value, steps[i]))
      && Enabled(env, Final(env, s1, steps), UpdateField(n))
    ensures
      var s2 := Final(env, Apply(env, s, LocalWrite(o.uid, Some(o))), steps);
      var s3 := Apply(env, s2, UpdateField(n));
      var f := s3.fields[n];
      && o.uid in f.values && AtLeast(f.values[o.uid], ParseInt64(o.version).value)
      && (n !in s3.lost ==>
            n in s3.target && Get(s3.target[n], o.uid) == Shown(env.filter, Some(f.values[o.uid])))
  {
    var v := ParseInt64(o.version).value;
    var s1 := Apply(env, s, LocalWrite(o.uid, Some(o)));
    StepKeepsInv(env, s, LocalWrite(o.uid, Some(o)));
    RunKeepsPending(env, s1, n, o.uid, v, steps);
    FreshExactly(env, Final(env, s1, steps), n, o.uid, v);
  }

  /** Nothing writes `k` again and the watch has not yet reported its delete. */
  predicate KeepsDelete(k: Key, step: Step) {
    match step
    case LocalWrite(j, _) => j != k
    case WatchDeleteSeen(j) => j != k
    case _ => true
  }

  lemma StepKeepsDelete(env: Env, s: System, k: Key, step: Step)
    requires k in s.canonical && s.canonical[k] == None
    requires Enabled(env, s, step) && KeepsDelete(k, step)
    ensures k in Apply(env, s, step).canonical && Apply(env, s, step).canonical[k] == None
    ensures Apply(env, s, step).fields.Keys == s.fields.Keys
  {
  }

  /** Main result: a local delete is honoured by every later update, however many there are and
      whatever the watch replays, until the watch itself reports the delete. */
  lemma {:induction false} DeletesStayDeleted(env: Env, s: System, k: Key, steps: seq<Step>, n: string)
    requires Inv(env, s) && k in s.canonical && s.canonical[k] == None
    requires ValidRun(env, s, steps) && forall i :: 0 <= i < |steps| ==> KeepsDelete(k, steps[i])
    requires Enabled(env, Final(env, s, steps), UpdateField(n))
    ensures var s' := Apply(env, Final(env, s, steps), UpdateField(n));
      k !in s'.fields[n].values && (n !in s'.lost ==> n in s'.target && k !in s'.target[n])
    decreases |steps|
  {
    if steps == [] {
      PatchedValueIs(s, env, n, k);
      FreshExactly(env, s, n, k, 0);
    } else {
      StepKeepsInv(env, s, steps[0]);
      StepKeepsDelete(env, s, k, steps[0]);
      var s' := Apply(env, s, steps[0]);
      forall i | 0 <= i < |steps[1..]| ensures KeepsDelete(k, steps[1..][i]) {
        assert steps[1..][i] == steps[i + 1];
      }
      DeletesStayDeleted(env, s', k, steps[1..], n);
    }
  }

  /** Delete files its entry under the UID it is given, so the next update hides the object `k` if and
      only if that UID is the object's own (or the object had been deleted before). */
  lemma DeleteHidesExactly(env: Env, s: System, n: string, k: Key, given: Key)
    requires Inv(env, s) && n in s.fields && k in s.fields[n].values && Enabled(env, s, LocalWrite(given, None))
    requires Enabled(env, Apply(env, s, LocalWrite(given, None)), UpdateField(n))
    ensures var s' := Apply(env, Apply(env, s, LocalWrite(given, None)), UpdateField(n));
      && (k !in s'.fields[n].values <==> given == k || Get(s.canonical, k) == Some(None))
      && (n !in s'.lost ==>
            n in s'.target && Get(s'.target[n], k) == Shown(env.filter, Get(s'.fields[n].values, k)))
  {
    StepKeepsInv(env, s, LocalWrite(given, None));
    FreshExactly(env, Apply(env, s, LocalWrite(given, None)), n, k, 0);
    UpdateShows(env, Apply(env, s, LocalWrite(given, None)), n, k);
    hide Inv;
  }

  // ---------------------------------------------------------------- what is not guaranteed

  /** An object deleted by kind and name only, without its UID, is delivered all the same. */
  lemma DeleteWithoutUid(env: Env, init: System, n: string, o: Object)
    requires Initial(env, init) && init.canonical == map[] && n in init.fields
    requires env.owner(o.uid) == n && Genuine(env, Some(o)) && o.uid != "" && Passes(env.filter, o)
    ensures var run := [Store(RawUpdate(n, true, None, Some(o)))] + ([LocalWrite("", None)] + ([UpdateField(n)] + []));
      && ValidRun(env, init, run)
      && n in Final(env, init, run).target
      && Get(Final(env, init, run).target[n], o.uid) == Some(o)
  {
    var event := Store(RawUpdate(n, true, None, Some(o)));
    InitialInv(env, init);
    StepKeepsInv(env, init, event);
    var s1 := Apply(env, init, event);
    StepKeepsInv(env, s1, LocalWrite("", None));
    var s2 := Apply(env, s1, LocalWrite("", None));
    UpdateShows(env, s2, n, o.uid);
    RunCons(env, s2, UpdateField(n), []);
    RunCons(env, s1, LocalWrite("", None), [UpdateField(n)] + []);
    RunCons(env, init, event, [LocalWrite("", None)] + ([UpdateField(n)] + []));
  }

  /** Patching twice without a watch event in between takes the write off the list, because
      the second patch mistakes the first one for the echo. */
  lemma PatchTwiceForgets(f: FieldState, can: Canonical, o: Object)
    requires o.uid in can && can[o.uid] == Some(o) && (o.uid in f.values || Matches(f, o))
    requires Comparable(f, can, o.uid) && ParseInt64(o.version).Some?
    ensures var f1, can1 := PatchField(f, can, can.Keys), PatchCanonical(f, can, can.Keys);
      o.uid !in PatchCanonical(f1, can1, can1.Keys)
  {
    PatchAt(f, can, can.Keys, o.uid);
    var f1, can1 := PatchField(f, can, can.Keys), PatchCanonical(f, can, can.Keys);
    if !Echoed(f, can, o.uid) {
      assert f1.values[o.uid] == o;
      assert Echoed(f1, can1, o.uid);
    }
  }

  lemma UpdatePatches(env: Env, s: System, n: string)
    requires Enabled(env, s, UpdateField(n))
    ensures var s' := Apply(env, s, UpdateField(n));
      && s'.canonical == PatchCanonical(s.fields[n], s.canonical, s.canonical.Keys)
      && s'.fields[n].values == PatchField(s.fields[n], s.canonical, s.canonical.Keys).values
      && s'.fields.Keys == s.fields.Keys
      && s'.fields[n].kind == s.fields[n].kind && s'.fields[n].selector == s.fields[n].selector
  {
  }

  lemma SameValuesSameCanonical(f: FieldState, g: FieldState, can: Canonical)
    requires f.values == g.values
    ensures PatchCanonical(f, can, can.Keys) == PatchCanonical(g, can, can.Keys)
  {
  }

  /** A local write is forgotten at the second update even if the watch never echoed it. */
  lemma SecondUpdateForgets(env: Env, s: System, n: string, o: Object)
    requires n in s.fields && (o.uid in s.fields[n].values || Matches(s.fields[n], o)) && ParseInt64(o.version).Some?
    requires o.uid in s.canonical && s.canonical[o.uid] == Some(o)
    requires Enabled(env, s, UpdateField(n))
    requires Enabled(env, Apply(env, s, UpdateField(n)), UpdateField(n))
    ensures o.uid !in Apply(env, Apply(env, s, UpdateField(n)), UpdateField(n)).canonical
  {
    var f, s1 := s.fields[n], Apply(env, s, UpdateField(n));
    assert Comparable(f, s.canonical, o.uid);
    PatchTwiceForgets(f, s.canonical, o);
    UpdatePatches(env, s, n);
    UpdatePatches(env, s1, n);
    SameValuesSameCanonical(s1.fields[n], PatchField(f, s.canonical, s.canonical.Keys), s1.canonical);
  }

  lemma RunCons(env: Env, s: System, step: Step, rest: seq<Step>)
    requires Enabled(env, s, step)
    ensures ValidRun(env, s, [step] + rest) <==> ValidRun(env, Apply(env, s, step), rest)
    ensures ValidRun(env, s, [step] + rest) ==> Final(env, s, [step] + rest) == Final(env, Apply(env, s, step), rest)
  {
    assert ([step] + rest)[1..] == rest;
  }

  lemma OnlyWritePatch(f: FieldState, can: Canonical, o: Object)
    requires can == map[o.uid := Some(o)] && Matches(f, o) && ParseInt64(o.version).Some?
    requires o.uid in f.values ==> f.values[o.uid] == o
    ensures forall k :: k in can ==> Comparable(f, can, k)
    ensures PatchedValue(f, can, o.uid) == Some(o)
    ensures PatchCanonical(f, can, can.Keys) == if o.uid in f.values then map[] else can
  {
    assert Echoed(f, can, o.uid) <==> o.uid in f.values;
  }

  /** An update when `o` is the only local write and the watch shows nothing else of its key. */
  lemma OnlyWrite(env: Env, s: System, n: string, o: Object)
    requires Inv(env, s) && n in s.fields && n !in s.lost && env.filter == None && s.canonical == map[o.uid := Some(o)]
    requires Matches(s.fields[n], o) && ParseInt64(o.version).Some?
    requires o.uid in s.fields[n].values ==> s.fields[n].values[o.uid] == o
    ensures Enabled(env, s, UpdateField(n))
    ensures var s' := Apply(env, s, UpdateField(n));
      && Inv(env, s') && s'.fields.Keys == s.fields.Keys && n !in s'.lost && Matches(s'.fields[n], o)
      && n in s'.target && Get(s'.target[n], o.uid) == Some(o) && Get(s'.fields[n].values, o.uid) == Some(o)
      && s'.canonical == if o.uid in s.fields[n].values then map[] else s.canonical
  {
    OnlyWritePatch(s.fields[n], s.canonical, o);
    UpdateShows(env, s, n, o.uid);
    StepKeepsInv(env, s, UpdateField(n));
    UpdatePatches(env, s, n);
  }

  /** One local write and two updates, with no watch event at all: the caller has the write,
      and the client no longer remembers it. */
  lemma ForgottenRun(env: Env, init: System, n: string, o: Object)
    requires Initial(env, init) && init.canonical == map[] && n in init.fields && env.filter == None
    requires forall m :: m in init.fields && Matches(init.fields[m], o) ==> m == n
    requires env.owner(o.uid) == n && Genuine(env, Some(o)) && Matches(init.fields[n], o) && ParseInt64(o.version).Some?
    ensures var twice := [LocalWrite(o.uid, Some(o))] + ([UpdateField(n)] + ([UpdateField(n)] + []));
      && ValidRun(env, init, twice)
      && var s := Final(env, init, twice);
      && Inv(env, s) && s.canonical == map[] && s.fields.Keys == init.fields.Keys && n !in s.lost
      && n in s.target && Get(s.target[n], o.uid) == Some(o) && Get(s.fields[n].values, o.uid) == Some(o)
  {
    InitialInv(env, init);
    var s1 := Apply(env, init, LocalWrite(o.uid, Some(o)));
    StepKeepsInv(env, init, LocalWrite(o.uid, Some(o)));
    OnlyWrite(env, s1, n, o);
    var s2 := Apply(env, s1, UpdateField(n));
    OnlyWrite(env, s2, n, o);
    RunCons(env, s2, UpdateField(n), []);
    RunCons(env, s1, UpdateField(n), [UpdateField(n)] + []);
    RunCons(env, init, LocalWrite(o.uid, Some(o)), [UpdateField(n)] + ([UpdateField(n)] + []));
  }

  /** With no local write remembered, whatever the watch replays is what the next update delivers. */
  lemma ReplayDelivered(env: Env, s: System, n: string, o: Object)
    requires Inv(env, s) && n in s.fields && n !in s.lost && s.canonical == map[] && env.filter == None
    requires env.owner(o.uid) == n && Genuine(env, Some(o))
    requires o.uid in s.fields[n].values ==> s.fields[n].values[o.uid].version != o.version
    ensures var replay := [Store(RawUpdate(n, true, None, Some(o)))] + ([UpdateField(n)] + []);
      && ValidRun(env, s, replay)
      && n in Final(env, s, replay).target
      && Get(Final(env, s, replay).target[n], o.uid) == Some(o)
  {
    var event := Store(RawUpdate(n, true, None, Some(o)));
    var s1 := Apply(env, s, event);
    StepKeepsInv(env, s, event);
    UpdateShows(env, s1, n, o.uid);
    RunCons(env, s, event, [UpdateField(n)] + []);
    RunCons(env, s1, UpdateField(n), []);
  }

  /** So read-your-writes fails over whole runs: for every write and every older version of the
      object there is a run in which the second update still delivers the write and the third
      update takes it back. */
  lemma StaleAfterForgetting(env: Env, init: System, n: string, o: Object, stale: Object)
    requires Initial(env, init) && init.canonical == map[] && n in init.fields && env.filter == None
    requires forall m :: m in init.fields && Matches(init.fields[m], o) ==> m == n
    requires env.owner(o.uid) == n && stale.uid == o.uid && Matches(init.fields[n], o)
    requires Genuine(env, Some(o)) && Genuine(env, Some(stale))
    requires ParseInt64(o.version).Some? && ParseInt64(stale.version).Some?
    requires ParseInt64(stale.version).value < ParseInt64(o.version).value
    ensures var twice := [LocalWrite(o.uid, Some(o))] + ([UpdateField(n)] + ([UpdateField(n)] + []));
      && ValidRun(env, init, twice)
      && n in Final(env, init, twice).target
      && Get(Final(env, init, twice).target[n], o.uid) == Some(o)
      && var replay := [Store(RawUpdate(n, true, None, Some(stale)))] + ([UpdateField(n)] + []);
      && ValidRun(env, Final(env, init, twice), replay)
      && n in Final(env, Final(env, init, twice), replay).target
      && Get(Final(env, Final(env, init, twice), replay).target[n], o.uid) == Some(stale)
  {
    ForgottenRun(env, init, n, o);
    var twice := [LocalWrite(o.uid, Some(o))] + ([UpdateField(n)] + ([UpdateField(n)] + []));
    ReplayDelivered(env, Final(env, init, twice), n, stale);
  }

  // ---------------------------------------------------------------- updates do not make up for an encoding error

  /** A field that was patched and whose deltas were then taken. */
  ghost predicate Settled(f: FieldState, can: Canonical) {
    Patched(f, can) == f && Quiet(f)
  }

  lemma PatchKeepsRest(f: FieldState, can: Canonical)
    ensures var p := Patched(f, can); p == f.(values := p.values, deltas := p.deltas)
  {
  }

  lemma NothingPatched(f: FieldState, can: Canonical)
    requires forall k :: k in can ==>
      PatchedValue(f, can, k) == Get(f.values, k) && PatchedDelta(f, can, k) == Get(f.deltas, k)
    ensures Patched(f, can) == f
  {
    hide PatchedValue, PatchedDelta, PatchField;
    var p := Patched(f, can);
    forall k ensures Get(p.values, k) == Get(f.values, k) && Get(p.deltas, k) == Get(f.deltas, k) {
      PatchAt(f, can, can.Keys, k);
    }
    SameEntries(p.values, f.values);
    SameEntries(p.deltas, f.deltas);
    PatchKeepsRest(f, can);
  }

  /** The field and the memory after a patch whose deltas were taken. */
  ghost function Emptied(f: FieldState, can: Canonical): (FieldState, Canonical) {
    (Patched(f, can).(firstUpdate := true, deltas := map[]), PatchCanonical(f, can, can.Keys))
  }

  lemma PatchedAgainAt(f: FieldState, can: Canonical, k: Key)
    requires var (g, c) := Emptied(f, can); (k in can ==> Comparable(f, can, k)) && (k in c ==> Comparable(g, c, k))
    ensures var (g, c) := Emptied(f, can);
      k in c ==> PatchedValue(g, c, k) == Get(g.values, k) && PatchedDelta(g, c, k) == None
  {
    var (g, c) := Emptied(f, can);
    PatchAt(f, can, can.Keys, k);
    PatchKeepsRest(f, can);
    hide PatchField;
  }

  /** Patching again changes nothing. */
  lemma PatchedAgain(f: FieldState, can: Canonical)
    requires forall k :: k in can ==> Comparable(f, can, k)
    requires var (g, c) := Emptied(f, can); forall k :: k in c ==> Comparable(g, c, k)
    ensures var (g, c) := Emptied(f, can); Settled(g, c)
  {
    var (g, c) := Emptied(f, can);
    assert g.deltas == map[];
    hide Comparable, PatchedValue, PatchedDelta;
    forall k ensures k in c ==> PatchedValue(g, c, k) == Get(g.values, k) && PatchedDelta(g, c, k) == None {
      PatchedAgainAt(f, can, k);
    }
    assert Quiet(g);
    hide Emptied;
    NothingPatched(g, c);
  }

  lemma ErrorEmpties(env: Env, s: System, n: string)
    requires Enabled(env, s, EncodingError(n))
    ensures var s' := Apply(env, s, EncodingError(n));
      && n in s'.fields && (s'.fields[n], s'.canonical) == Emptied(s.fields[n], s.canonical) && s'.target == s.target
  {
    hide PatchField, PatchCanonical, Comparable, Refilter, Visible;
  }

  /** Updating a field that has nothing to hand over leaves it so. */
  lemma SettledUpdate(env: Env, s: System, n: string)
    requires Enabled(env, s, UpdateField(n)) && Settled(s.fields[n], s.canonical)
    ensures var s' := Apply(env, s, UpdateField(n));
      && n in s'.fields && s'.fields[n] == s.fields[n] && s'.target == s.target
      && (s'.fields[n], s'.canonical) == Emptied(s.fields[n], s.canonical)
  {
    hide PatchField, PatchCanonical, Comparable, Refilter, Visible;
  }

  lemma {:induction false} SettledRun(env: Env, f: FieldState, can: Canonical, s: System, n: string, steps: seq<Step>)
    requires ValidRun(env, s, steps) && forall i :: 0 <= i < |steps| ==> steps[i] == UpdateField(n)
    requires n in s.fields && (s.fields[n], s.canonical) == Emptied(f, can) &&
      forall k :: k in can ==> Comparable(f, can, k)
    ensures var s' := Final(env, s, steps); s'.target == s.target && n in s'.fields && s'.fields[n] == s.fields[n]
    decreases |steps|
  {
    if steps != [] {
      assert Enabled(env, s, steps[0]) && steps[0] == UpdateField(n);
      PatchedAgain(f, can);
      SettledUpdate(env, s, n);
      hide Apply, Emptied, Comparable, PatchField, Settled;
      SettledRun(env, s.fields[n], s.canonical, Apply(env, s, steps[0]), n, steps[1..]);
    }
  }

  /** After an error while encoding, no number of updates by themselves hands the field over: it takes
      another change of the field. */
  lemma UpdatesAloneNeverMakeUp(env: Env, s: System, n: string, steps: seq<Step>)
    requires Enabled(env, s, EncodingError(n)) && ValidRun(env, Apply(env, s, EncodingError(n)), steps)
    requires forall i :: 0 <= i < |steps| ==> steps[i] == UpdateField(n)
    ensures var s' := Final(env, Apply(env, s, EncodingError(n)), steps);
      s'.target == s.target && n in s'.fields && s'.fields[n].values == Patched(s.fields[n], s.canonical).values
  {
    ErrorEmpties(env, s, n);
    SettledRun(env, s.fields[n], s.canonical, Apply(env, s, EncodingError(n)), n, steps);
    hide Apply, PatchField, Comparable;
  }

  /** For every object there is such a run from the start: it is stored, the first update fails while
      encoding, and however often the field is updated then, the caller does not get it. */
  lemma NeverHandedOver(env: Env, init: System, n: string, o: Object, steps: seq<Step>)
    requires Initial(env, init) && init.canonical == map[] && n in init.fields
    requires env.owner(o.uid) == n && Genuine(env, Some(o))
    requires forall i :: 0 <= i < |steps| ==> steps[i] == UpdateField(n)
    ensures var run := [Store(RawUpdate(n, true, None, Some(o)))] + ([EncodingError(n)] + steps);
      && ValidRun(env, init, run)
      && var s := Final(env, init, run);
      && n in s.fields && Get(s.fields[n].values, o.uid) == Some(o) && n !in s.target
  {
    var event := Store(RawUpdate(n, true, None, Some(o)));
    var s1 := Apply(env, init, event);
    assert Patched(s1.fields[n], s1.canonical) == s1.fields[n] by { NothingPatched(s1.fields[n], s1.canonical); }
    assert Enabled(env, s1, EncodingError(n));
    var s2 := Apply(env, s1, EncodingError(n));
    assert s2.canonical == map[];
    OnlyUpdatesValid(env, s2, n, steps);
    UpdatesAloneNeverMakeUp(env, s1, n, steps);
    RunCons(env, s1, EncodingError(n), steps);
    RunCons(env, init, event, [EncodingError(n)] + steps);
  }

  lemma {:induction false} OnlyUpdatesValid(env: Env, s: System, n: string, steps: seq<Step>)
    requires n in s.fields && s.canonical == map[] && forall i :: 0 <= i < |steps| ==> steps[i] == UpdateField(n)
    ensures ValidRun(env, s, steps)
    decreases |steps|
  {
    if steps != [] {
      UpdatePatches(env, s, n);
      OnlyUpdatesValid(env, Apply(env, s, steps[0]), n, steps[1..]);
    }
  }
}
