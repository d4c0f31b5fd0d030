/** Dropping d6e union types from a CRD schema (charts/helmify-crds.py, _filter_d6e_union). */
module SchemaPrune {
  import opened Wrappers

  /** What a key of the dictionary may hold: nothing, something that is not a dictionary, or a schema. */
  datatype Child = Absent | Plain(value: string) | Sub(schema: Schema)

  /** `preserve` is the x-kubernetes-preserve-unknown-fields entry, `rest` every other key. */
  datatype Schema = Schema(
    typ: string, properties: map<string, Child>, items: Child, additionalProperties: Child,
    preserve: Option<bool>, rest: string)

  predicate IsD6e(typ: string) {
    "d6e" <= typ
  }

  /** The caller must delete it: it is of a d6e type, or a list of one. */
  predicate Doomed(s: Schema) {
    IsD6e(s.typ) || (s.items.Sub? && IsD6e(s.items.schema.typ))
  }

  predicate DoomedChild(c: Child) {
    c.Sub? && Doomed(c.schema)
  }

  predicate LosesProperty(s: Schema) {
    exists k :: k in s.properties && DoomedChild(s.properties[k])
  }

  predicate LosesChild(s: Schema) {
    LosesProperty(s) || DoomedChild(s.additionalProperties) || DoomedChild(s.items)
  }

  function Prune(s: Schema): Schema {
    Schema(
      s.typ,
      map k | k in s.properties && !DoomedChild(s.properties[k]) :: PruneChild(s.properties[k]),
      PruneChild(s.items), PruneChild(s.additionalProperties),
      if LosesChild(s) then Some(true) else s.preserve,
      s.rest)
  }

  function PruneChild(c: Child): Child {
    if DoomedChild(c) then Absent else if c.Sub? then Sub(Prune(c.schema)) else c
  }

  // ---------------------------------------------------------------- schemas by path

  datatype Step = Property(name: string) | Items | AdditionalProperties

  function ChildAt(s: Schema, step: Step): Child {
    match step
    case Property(name) => if name in s.properties then s.properties[name] else Absent
    case Items => s.items
    case AdditionalProperties => s.additionalProperties
  }

  function At(s: Schema, path: seq<Step>): Option<Schema>
    decreases |path|
  {
    if path == [] then Some(s)
    else
      var c := ChildAt(s, path[0]);
      if c.Sub? then At(c.schema, path[1..]) else None
  }

  /** The schema at the path exists and nothing on the way to it, itself included, is doomed. */
  predicate Kept(s: Schema, path: seq<Step>)
    ensures Kept(s, path) ==> At(s, path).Some?
    decreases |path|
  {
    !Doomed(s) && (path == [] || (ChildAt(s, path[0]).Sub? && Kept(ChildAt(s, path[0]).schema, path[1..])))
  }

  lemma {:induction false} KeptMeans(s: Schema, path: seq<Step>)
    ensures Kept(s, path) <==>
      At(s, path).Some? && forall n: nat | n <= |path| :: At(s, path[..n]).Some? && !Doomed(At(s, path[..n]).value)
    decreases |path|
  {
    assert path[..0] == [];
    if path != [] {
      var c := ChildAt(s, path[0]);
      if c.Sub? {
        KeptMeans(c.schema, path[1..]);
        forall n: nat | n < |path| ensures At(s, path[..n + 1]) == At(c.schema, path[1..][..n]) {
          assert path[..n + 1][1..] == path[1..][..n];
        }
        assert Kept(s, path) ==>
          forall n: nat | n <= |path| :: n == 0 || At(s, path[..n]) == At(c.schema, path[1..][..n - 1]);
        assert forall n: nat | n < |path| :: At(c.schema, path[1..][..n]) == At(s, path[..n + 1]);
      }
    } else {
      assert forall n: nat | n <= |path| :: path[..n] == [];
    }
  }

  lemma {:induction false} PrunedAt(s: Schema, path: seq<Step>)
    requires !Doomed(s)
    ensures At(Prune(s), path) == if Kept(s, path) then Some(Prune(At(s, path).value)) else None
    decreases |path|
  {
    if path != [] {
      var c := ChildAt(s, path[0]);
      assert ChildAt(Prune(s), path[0]) == PruneChild(c);
      hide Doomed, Prune;
      if c.Sub? && !Doomed(c.schema) {
        PrunedAt(c.schema, path[1..]);
      }
    }
  }

  /** Pruning drops exactly the doomed schemas and what is below them, and changes nothing else
      but the mark on each schema that lost a child. */
  lemma {:induction false} PrunedExactly(s: Schema, path: seq<Step>)
    requires !Doomed(s)
    ensures At(Prune(s), path).Some? <==> Kept(s, path)
    ensures Kept(s, path) ==>
      var n, n' := At(s, path).value, At(Prune(s), path).value;
      && n'.typ == n.typ && n'.rest == n.rest
      && n'.preserve == (if LosesChild(n) then Some(true) else n.preserve)
      && forall step ::
           ChildAt(n', step).Sub? == (ChildAt(n, step).Sub? && !DoomedChild(ChildAt(n, step))) &&
           (!ChildAt(n', step).Sub? ==>
             ChildAt(n', step) == if DoomedChild(ChildAt(n, step)) then Absent else ChildAt(n, step))
  {
    PrunedAt(s, path);
    if Kept(s, path) {
      var n := At(s, path).value;
      forall step ensures ChildAt(Prune(n), step) == PruneChild(ChildAt(n, step)) {
      }
    }
  }

  /** Nothing of a d6e type can be reached in what is left. */
  lemma NoD6eLeft(s: Schema, path: seq<Step>)
    requires !Doomed(s) && At(Prune(s), path).Some?
    ensures !IsD6e(At(Prune(s), path).value.typ)
  {
    PrunedAt(s, path);
    KeptMeans(s, path);
    assert path[..|path|] == path;
  }

  lemma NotDoomedAgain(s: Schema)
    requires !Doomed(s)
    ensures !Doomed(Prune(s)) && !LosesChild(Prune(s))
  {
    forall c: Child ensures !DoomedChild(PruneChild(c)) {
      if c.Sub? && !Doomed(c.schema) {
        var i := c.schema.items;
        assert Prune(c.schema).items == PruneChild(i);
      }
    }
  }

  /** A second pass changes nothing. */
  lemma {:induction false} PruneTwice(s: Schema)
    requires !Doomed(s)
    ensures !Doomed(Prune(s)) && Prune(Prune(s)) == Prune(s)
    decreases s
  {
    NotDoomedAgain(s);
    var p := Prune(s);
    forall k | k in p.properties ensures PruneChild(p.properties[k]) == p.properties[k] {
      PruneChildTwice(s.properties[k]);
      assert p.properties[k] == PruneChild(s.properties[k]);
    }
    PruneChildTwice(s.items);
    PruneChildTwice(s.additionalProperties);
    assert forall k :: k in p.properties ==> !DoomedChild(p.properties[k]);
    assert Prune(p).properties == p.properties;
  }

  lemma {:induction false} PruneChildTwice(c: Child)
    ensures PruneChild(PruneChild(c)) == PruneChild(c)
    decreases c
  {
    if c.Sub? && !Doomed(c.schema) {
      PruneTwice(c.schema);
    }
  }
}
