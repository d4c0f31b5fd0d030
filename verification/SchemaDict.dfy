/** The filter as it runs: on nested dictionaries, in place (charts/helmify-crds.py, _filter_d6e_union). */
module SchemaDict {
  import opened Wrappers
  import opened SchemaPrune

  datatype Entry = NoEntry | Scalar(value: string) | Nested(dict: Dict)

  /** `repr` bounds the dictionaries that can be reached from this one. */
  class Dict {
    var typ: string
    var properties: map<string, Entry>
    var items: Entry
    var additionalProperties: Entry
    var preserve: Option<bool>
    var rest: string
    ghost const repr: set<Dict>
  }

  function EntryAt(d: Dict, step: Step): Entry
    reads d
  {
    match step
    case Property(name) => if name in d.properties then d.properties[name] else NoEntry
    case Items => d.items
    case AdditionalProperties => d.additionalProperties
  }

  /** The dictionaries form a tree: no two places share one, and none contains itself. */
  ghost predicate Tree(d: Dict)
    reads d, d.repr
    decreases d.repr
  {
    && d in d.repr
    && (forall step :: EntryAt(d, step).Nested? ==>
          var c := EntryAt(d, step).dict;
          c in d.repr && c.repr <= d.repr - {d} && Tree(c))
    && (forall a, b :: a != b && EntryAt(d, a).Nested? && EntryAt(d, b).Nested? ==>
         EntryAt(d, a).dict.repr !! EntryAt(d, b).dict.repr)
  }

  /** The schema that the dictionaries spell out. */
  ghost function Abs(d: Dict): Schema
    requires Tree(d)
    reads d, d.repr
    decreases d.repr, 1
  {
    Schema(
      d.typ, map k | k in d.properties :: AbsAt(d, Property(k)),
      AbsAt(d, Items), AbsAt(d, AdditionalProperties), d.preserve, d.rest)
  }

  ghost function AbsAt(d: Dict, step: Step): Child
    requires Tree(d)
    reads d, d.repr
    decreases d.repr, 0
  {
    match EntryAt(d, step)
    case NoEntry => Absent
    case Scalar(v) => Plain(v)
    case Nested(c) => Sub(Abs(c))
  }

  /** A dictionary spells out `s` when it does so place by place. */
  ghost predicate Spells(d: Dict, s: Schema)
    requires Tree(d)
    reads d, d.repr
  {
    && d.typ == s.typ && d.rest == s.rest && d.preserve == s.preserve && d.properties.Keys == s.properties.Keys
    && forall step :: AbsAt(d, step) == ChildAt(s, step)
  }

  lemma OwnSpelling(d: Dict)
    requires Tree(d)
    ensures Spells(d, Abs(d))
  {
    forall step ensures AbsAt(d, step) == ChildAt(Abs(d), step) {
      if step.Property? && step.name !in d.properties {
        assert EntryAt(d, step) == NoEntry;
      }
    }
  }

  lemma SpellsOnly(d: Dict, s: Schema)
    requires Tree(d) && Spells(d, s)
    ensures Abs(d) == s
  {
    hide Tree, AbsAt;
    forall k | k in d.properties ensures AbsAt(d, Property(k)) == s.properties[k] {
      assert AbsAt(d, Property(k)) == ChildAt(s, Property(k));
    }
    assert AbsAt(d, Items) == ChildAt(s, Items) && AbsAt(d, AdditionalProperties) == ChildAt(s, AdditionalProperties);
  }

  ghost function ReprAt(d: Dict, step: Step): set<Dict>
    reads d
  {
    if EntryAt(d, step).Nested? then EntryAt(d, step).dict.repr else {}
  }

  /** Filters the dictionary in one place of `d`, if there is one; the others keep their content. */
  method FilterAt(d: Dict, step: Step) returns (drop: bool)
    requires Tree(d)
    modifies ReprAt(d, step)
    ensures Tree(d) && unchanged(d) && drop == DoomedChild(old(AbsAt(d, step)))
    ensures AbsAt(d, step) == if drop then old(AbsAt(d, step)) else PruneChild(old(AbsAt(d, step)))
    ensures forall other :: other != step ==> AbsAt(d, other) == old(AbsAt(d, other))
    decreases d.repr, 0
  {
    drop := false;
    if EntryAt(d, step).Nested? {
      drop := FilterDict(EntryAt(d, step).dict);
    }
  }

  /** Deleting entries of `d` leaves what the others hold. */
  twostate lemma Deleted(d: Dict)
    requires old(Tree(d)) && forall o :: o in d.repr && o != d ==> unchanged(o)
    requires forall step :: EntryAt(d, step) == old(EntryAt(d, step)) || EntryAt(d, step) == NoEntry
    ensures Tree(d)
    ensures forall step ::
      AbsAt(d, step) == if EntryAt(d, step) == old(EntryAt(d, step)) then old(AbsAt(d, step)) else Absent
  {
    forall step | EntryAt(d, step).Nested?
      ensures var c := EntryAt(d, step).dict; c in d.repr && c.repr <= d.repr - {d} && Tree(c) && Abs(c) == old(Abs(c))
    {
      var c := EntryAt(d, step).dict;
      assert old(EntryAt(d, step)) == Nested(c);
      assert old(Tree(c));
    }
    assert forall a, b :: a != b && EntryAt(d, a).Nested? && EntryAt(d, b).Nested? ==>
      old(EntryAt(d, a).Nested? && EntryAt(d, b).Nested?);
  }

  /** True: nothing was changed, and the caller is to delete the dictionary. */
  method FilterDict(d: Dict) returns (drop: bool)
    requires Tree(d)
    modifies d.repr
    ensures Tree(d) && drop == Doomed(old(Abs(d)))
    ensures Abs(d) == if drop then old(Abs(d)) else Prune(old(Abs(d)))
    decreases d.repr, 3
  {
    ghost var s := Abs(d);
    OwnSpelling(d);
    assert ChildAt(s, Items) == AbsAt(d, Items);
    if IsD6e(d.typ) {
      return true;
    }
    if d.items.Nested? && IsD6e(d.items.dict.typ) {
      return true;
    }
    drop := false;
    hide Tree, AbsAt, Spells, Abs;
    FilterProperties(d, s);
    FilterRest(d, AdditionalProperties, WithoutProperties(s));
    FilterRest(d, Items, Without(WithoutProperties(s), AdditionalProperties));
    InTurn(s);
    SpellsOnly(d, Prune(s));
  }

  /** A schema after its properties, or the schema at one step, have been pruned. */
  function WithoutProperties(s: Schema): Schema {
    s.(properties := Prune(s).properties, preserve := if LosesProperty(s) then Some(true) else s.preserve)
  }

  function Without(s: Schema, step: Step): Schema {
    var c := ChildAt(s, step);
    var preserve := if DoomedChild(c) then Some(true) else s.preserve;
    match step
    case Property(_) => s
    case Items => s.(items := PruneChild(c), preserve := preserve)
    case AdditionalProperties => s.(additionalProperties := PruneChild(c), preserve := preserve)
  }

  lemma InTurn(s: Schema)
    ensures Without(Without(WithoutProperties(s), AdditionalProperties), Items) == Prune(s)
  {
    hide PruneChild, DoomedChild;
  }

  function DoomedKeys(s: Schema): set<string> {
    set k | k in s.properties && DoomedChild(s.properties[k])
  }

  /** Before anything is deleted: the properties that stay have been pruned. */
  function EachAt(s: Schema, step: Step): Child {
    if step.Property? && step.name in s.properties && step.name !in DoomedKeys(s) then PruneChild(ChildAt(s, step))
      else ChildAt(s, step)
  }

  lemma PropertiesPointwise(s: Schema)
    ensures var gone, s' := DoomedKeys(s), WithoutProperties(s);
      && s'.typ == s.typ && s'.rest == s.rest && s'.preserve == (if gone == {} then s.preserve else Some(true))
      && s'.properties.Keys == s.properties.Keys - gone
      && forall step :: ChildAt(s', step) == if step.Property? && step.name in gone then Absent else EachAt(s, step)
  {
    hide PruneChild, DoomedChild;
    var gone := DoomedKeys(s);
    assert LosesProperty(s) ==> gone != {} by {
      if k :| k in s.properties && DoomedChild(s.properties[k]) {
        assert k in gone;
      }
    }
  }

  /** Filters every property, then deletes those that are to go. */
  method FilterProperties(d: Dict, ghost s: Schema)
    requires Tree(d) && Spells(d, s)
    modifies d.repr
    ensures Tree(d) && Spells(d, WithoutProperties(s))
    decreases d.repr, 2
  {
    assert d in d.repr;
    hide AbsAt, PruneChild, DoomedChild, Prune, WithoutProperties, EachAt;
    var d6eElements := FilterEach(d, s);
    DeleteProperties(d, d6eElements, s);
  }

  method DeleteProperties(d: Dict, d6eElements: set<string>, ghost s: Schema)
    requires Tree(d) && d6eElements == DoomedKeys(s)
    requires d.typ == s.typ && d.rest == s.rest && d.preserve == s.preserve && d.properties.Keys == s.properties.Keys
    requires forall step :: AbsAt(d, step) == EachAt(s, step)
    modifies d
    ensures Tree(d) && Spells(d, WithoutProperties(s))
  {
    PropertiesPointwise(s);
    forall k | k in d6eElements ensures EntryAt(d, Property(k)) != NoEntry {
      assert AbsAt(d, Property(k)) == EachAt(s, Property(k)) == ChildAt(s, Property(k));
    }
    hide Tree, AbsAt, PruneChild, DoomedChild, Prune, WithoutProperties, EachAt, DoomedKeys;
    if d6eElements != {} {
      d.properties := d.properties - d6eElements;
      d.preserve := Some(true);
      Deleted(d);
    }
  }

  method FilterEach(d: Dict, ghost s: Schema) returns (d6eElements: set<string>)
    requires Tree(d) && Spells(d, s)
    modifies d.repr - {d}
    ensures Tree(d) && d6eElements == DoomedKeys(s)
    ensures forall step :: AbsAt(d, step) == EachAt(s, step)
    decreases d.repr, 1
  {
    assert forall step :: EntryAt(d, step).Nested? ==> ReprAt(d, step) <= d.repr - {d};
    hide Tree, AbsAt, DoomedChild, PruneChild;
    d6eElements := {};
    var rest := d.properties.Keys;
    while rest != {}
      invariant Tree(d) && rest <= d.properties.Keys
      invariant d6eElements == DoomedKeys(s) - rest
      invariant forall step ::
        AbsAt(d, step) == if step.Property? && step.name in rest then ChildAt(s, step) else EachAt(s, step)
      decreases rest
    {
      var name :| name in rest;
      var drop := FilterAt(d, Property(name));
      if drop {
        d6eElements := d6eElements + {name};
      }
      rest := rest - {name};
    }
  }

  /** The check of additionalProperties and items. */
  method FilterRest(d: Dict, step: Step, ghost s: Schema)
    requires Tree(d) && Spells(d, s) && !step.Property?
    modifies d.repr
    ensures Tree(d) && Spells(d, Without(s, step))
    decreases d.repr, 2
  {
    assert AbsAt(d, step) == ChildAt(s, step);
    assert DoomedChild(ChildAt(s, step)) ==> PruneChild(ChildAt(s, step)) == Absent;
    var drop := FilterAt(d, step);
    label Filtered:
    if drop {
      if step.Items? {
        d.items := NoEntry;
      } else {
        d.additionalProperties := NoEntry;
      }
      d.preserve := Some(true);
      Deleted@Filtered(d);
    }
    hide Tree, AbsAt, PruneChild, DoomedChild;
  }
}
