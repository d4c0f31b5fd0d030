/** Kubernetes objects, watched fields, and what one step of the client and the
    accumulator means for them (pkg/kates/accumulator.go, pkg/kates/client.go).

    Every step treats each UID on its own, so the steps are written per key. */
module KatesState {
  import opened Wrappers

  type Key = string
  type Labels = map<string, string>

  datatype Object = Object(
    uid: Key, kind: string, namespace: string, name: string,
    version: string, labels: Labels, payload: string)

  /** How the cluster calls an object. */
  datatype Ident = Ident(kind: string, namespace: string, name: string)

  function IdentOf(o: Object): Ident {
    Ident(o.kind, o.namespace, o.name)
  }

  datatype DeltaType = ObjectAdd | ObjectUpdate | ObjectDelete

  datatype Delta = Delta(kind: string, namespace: string, name: string, deltaType: DeltaType)

  function Subject(d: Delta): Ident {
    Ident(d.kind, d.namespace, d.name)
  }

  function NewDelta(t: DeltaType, o: Object): (d: Delta)
    ensures Subject(d) == IdentOf(o)
  {
    Delta(o.kind, o.namespace, o.name, t)
  }

  /** One watched query: the latest objects, and the changes nobody has been told of yet. */
  datatype FieldState = FieldState(
    kind: string, selector: Labels -> bool,
    values: map<Key, Object>, deltas: map<Key, Delta>,
    synced: bool, firstUpdate: bool)

  /** A client-go event. `before`/`after` are the old and new object; neither is a bare sync signal. */
  datatype RawUpdate = RawUpdate(name: string, synced: bool, before: Option<Object>, after: Option<Object>)

  /** Local writes the watch has not echoed yet; None stands for a local delete. */
  type Canonical = map<Key, Option<Object>>

  /** The predicate given to FilteredUpdate, if any. */
  type Filter = Option<Object -> bool>

  predicate Passes(filter: Filter, o: Object) {
    filter.None? || filter.value(o)
  }

  // ---------------------------------------------------------------- resource versions

  function Digits(s: string): (n: Option<nat>)
    ensures n.Some? ==> s != []
  {
    if s == [] then None
    else
      var d := s[|s| - 1];
      if !('0' <= d <= '9') then None
      else if |s| == 1 then Some(d as int - '0' as int)
      else
        var front := Digits(s[..|s| - 1]);
        if front.None? then None else Some(10 * front.value + (d as int - '0' as int))
  }

  /** strconv.ParseInt(s, 10, 64) */
  function ParseInt64(s: string): (n: Option<int>)
    ensures n.Some? ==> -0x8000_0000_0000_0000 <= n.value < 0x8000_0000_0000_0000
  {
    if s == [] then None
    else
      var signed := s[0] == '-' || s[0] == '+';
      var magnitude := Digits(if signed then s[1..] else s);
      if magnitude.None? then None
      else
        var n: int := if s[0] == '-' then 0 - magnitude.value else magnitude.value;
        if -0x8000_0000_0000_0000 <= n < 0x8000_0000_0000_0000 then Some(n) else None
  }

  function Gteq(v1: string, v2: string): (r: Option<bool>) {
    var i1, i2 := ParseInt64(v1), ParseInt64(v2);
    if i1.None? || i2.None? then None else Some(i1.value >= i2.value)
  }

  /** The object's version is the number `v` or a later one. */
  predicate AtLeast(o: Object, v: int) {
    var n := ParseInt64(o.version);
    n.Some? && n.value >= v
  }

  // ---------------------------------------------------------------- storing a watch event

  function StoreField(f: FieldState, u: RawUpdate): FieldState {
    var f1 :=
      if u.after.Some? then
        var o := u.after.value;
        var seen := o.uid in f.values && f.values[o.uid].version == o.version;
        f.(values := f.values[o.uid := o],
           deltas := if seen then f.deltas
                     else f.deltas[o.uid := NewDelta(if u.before.None? then ObjectAdd else ObjectUpdate, o)])
      else if u.before.Some? && u.before.value.uid in f.values then
        var o := u.before.value;
        f.(values := f.values - {o.uid}, deltas := f.deltas[o.uid := NewDelta(ObjectDelete, o)])
      else f;
    f1.(synced := f.synced || u.synced)
  }

  // ---------------------------------------------------------------- patching in local writes

  predicate Matches(f: FieldState, o: Object) {
    o.kind == f.kind && f.selector(o.labels)
  }

  /** The watched version and the local version of `k` can be compared, if both exist. */
  predicate Comparable(f: FieldState, can: Canonical, k: Key) {
    k in f.values && k in can && can[k].Some? ==>
      Gteq(f.values[k].version, can[k].value.version).Some?
  }

  /** The watch already shows the local write of `k`, or something later. */
  predicate Echoed(f: FieldState, can: Canonical, k: Key) {
    k in f.values && k in can && can[k].Some? &&
    Gteq(f.values[k].version, can[k].value.version) == Some(true)
  }

  function PatchedValue(f: FieldState, can: Canonical, k: Key): Option<Object> {
    if k !in can then Get(f.values, k)
    else if can[k].None? then None
    else if k in f.values then (if Echoed(f, can, k) then Some(f.values[k]) else can[k])
    else if Matches(f, can[k].value) then can[k]
    else None
  }

  function PatchedDelta(f: FieldState, can: Canonical, k: Key): Option<Delta> {
    if k !in can then Get(f.deltas, k)
    else if k in f.values then
      if can[k].None? then Some(NewDelta(ObjectDelete, f.values[k]))
      else if Echoed(f, can, k) then Get(f.deltas, k)
      else Some(NewDelta(ObjectUpdate, can[k].value))
    else if can[k].Some? && Matches(f, can[k].value) then Some(NewDelta(ObjectAdd, can[k].value))
    else Get(f.deltas, k)
  }

  /** The field after patchWatch has visited the canonical keys in `done`. */
  ghost function PatchField(f: FieldState, can: Canonical, done: set<Key>): (r: FieldState) {
    f.(values := Collect(f.values.Keys + done, k => if k in done then PatchedValue(f, can, k) else Get(f.values, k)),
       deltas := Collect(f.deltas.Keys + done, k => if k in done then PatchedDelta(f, can, k) else Get(f.deltas, k)))
  }

  function PatchCanonical(f: FieldState, can: Canonical, done: set<Key>): Canonical {
    map k | k in can && !(k in done && Echoed(f, can, k)) :: can[k]
  }

  // ---------------------------------------------------------------- handing the field to the caller

  /** `excluded` after the pending deltas of `f` have been run through the filter. */
  function Refilter(filter: Filter, f: FieldState, excluded: set<Key>): set<Key> {
    if filter.None? then excluded
    else
      (excluded - f.deltas.Keys) +
      set k | k in f.deltas && f.deltas[k].deltaType != ObjectDelete && k in f.values && !filter.value(f.values[k])
  }

  function Visible(values: map<Key, Object>, excluded: set<Key>): map<Key, Object> {
    map k | k in values && k !in excluded :: values[k]
  }

  /** The plain rebuild: every object of the field that passes the filter. */
  function Rebuild(filter: Filter, f: FieldState): map<Key, Object> {
    map k | k in f.values && Passes(filter, f.values[k]) :: f.values[k]
  }
}
