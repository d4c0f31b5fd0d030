/** Go's range over a map, when it fills another map: any order of the keys, and the last entry
    of a name wins. */
module Ranging {
  import opened Wrappers

  // ---------------------------------------------------------------- orders

  /** Every key of `src` once. */
  ghost predicate IsOrder<C>(src: map<string, C>, order: seq<string>) {
    (forall c :: c in order <==> c in src) && forall i: nat, j: nat | i < j < |order| :: order[i] != order[j]
  }

  /** Some order: the one this range happens to take. */
  method Order<C>(src: map<string, C>) returns (order: seq<string>)
    ensures IsOrder(src, order)
  {
    order := [];
    var rest := src.Keys;
    while rest != {}
      invariant rest <= src.Keys && (forall c :: c in order <==> c in src && c !in rest)
      invariant forall i: nat, j: nat | i < j < |order| :: order[i] != order[j]
      decreases rest
    {
      var c :| c in rest;
      order := order + [c];
      rest := rest - {c};
    }
  }

  lemma OrderEnding<C>(src: map<string, C>, c: string) returns (order: seq<string>)
    requires c in src
    ensures IsOrder(src, order) && order != [] && order[|order| - 1] == c
  {
    var less := OrderOf(src - {c});
    order := less + [c];
    assert forall d :: d in order <==> d in less || d == c;
  }

  lemma OrderLess<C>(src: map<string, C>, order: seq<string>)
    requires IsOrder(src, order) && order != []
    ensures var n := |order| - 1; order[n] in src && IsOrder(src - {order[n]}, order[..n])
  {
    var n := |order| - 1;
    forall d ensures d in order[..n] <==> d in src - {order[n]} {
      assert d in order <==> d in order[..n] || d == order[n];
    }
  }

  lemma OrderOf<C>(src: map<string, C>) returns (order: seq<string>)
    ensures IsOrder(src, order)
    decreases |src|
  {
    order := [];
    if src != map[] {
      var c :| c in src;
      var less := OrderOf(src - {c});
      order := less + [c];
      assert forall d :: d in order <==> d in less || d == c;
    }
  }

  // ---------------------------------------------------------------- entries

  /** The last entry of that name wins. */
  function LastOf<T>(entries: seq<(string, T)>, k: string): Option<T> {
    if entries == [] then None
    else
      var last := entries[|entries| - 1];
      if last.0 == k then Some(last.1) else LastOf(entries[..|entries| - 1], k)
  }

  predicate HasKey<T>(entries: seq<(string, T)>, k: string) {
    exists i: nat :: i < |entries| && entries[i].0 == k
  }

  lemma {:induction false} LastOfEntry<T>(entries: seq<(string, T)>, k: string)
    ensures LastOf(entries, k).Some? <==> HasKey(entries, k)
    ensures LastOf(entries, k).Some? ==> exists i: nat :: i < |entries| && entries[i] == (k, LastOf(entries, k).value)
    decreases |entries|
  {
    if entries != [] {
      var n := |entries| - 1;
      var less := entries[..n];
      LastOfEntry(less, k);
      assert forall i: nat :: i < n ==> less[i] == entries[i];
      if entries[n].0 == k {
        assert entries[n] == (k, entries[n].1);
      } else if LastOf(less, k).Some? {
        var i: nat :| i < n && less[i] == (k, LastOf(less, k).value);
        assert entries[i] == less[i];
      }
    }
  }

  lemma HasKeyAppend<T>(a: seq<(string, T)>, b: seq<(string, T)>, k: string)
    ensures HasKey(a + b, k) <==> HasKey(a, k) || HasKey(b, k)
  {
    assert forall i: nat :: i < |a| ==> (a + b)[i] == a[i];
    assert forall i: nat :: i < |b| ==> (a + b)[|a| + i] == b[i];
  }

  /** `m` after the entries have been put into it one by one. */
  function Put<T>(m: map<string, T>, entries: seq<(string, T)>): map<string, T> {
    if entries == [] then m
    else
      var last := entries[|entries| - 1];
      Put(m, entries[..|entries| - 1])[last.0 := last.1]
  }

  lemma PutOneMore<T>(m: map<string, T>, entries: seq<(string, T)>, e: (string, T))
    ensures Put(m, entries + [e]) == Put(m, entries)[e.0 := e.1]
  {
    assert (entries + [e])[..|entries|] == entries;
  }

  lemma {:induction false} PutAt<T>(m: map<string, T>, entries: seq<(string, T)>, k: string)
    ensures Get(Put(m, entries), k) == if LastOf(entries, k).Some? then LastOf(entries, k) else Get(m, k)
    decreases |entries|
  {
    if entries != [] {
      PutAt(m, entries[..|entries| - 1], k);
    }
  }

  // ---------------------------------------------------------------- ranging

  /** The map that ranging over `src` in this order fills with each source's entries. */
  function Ranged<C, T>(src: map<string, C>, order: seq<string>, entries: C -> seq<(string, T)>): map<string, T>
    requires forall c :: c in order ==> c in src
  {
    if order == [] then map[]
    else Put(Ranged(src, order[..|order| - 1], entries), entries(src[order[|order| - 1]]))
  }

  method Index<C, T>(src: map<string, C>, order: seq<string>, entries: C -> seq<(string, T)>)
    returns (m: map<string, T>)
    requires IsOrder(src, order)
    ensures m == Ranged(src, order, entries)
  {
    m := map[];
    for i := 0 to |order|
      invariant m == Ranged(src, order[..i], entries)
    {
      assert order[..i + 1][..i] == order[..i];
      m := PutAll(m, entries(src[order[i]]));
    }
    assert order[..|order|] == order;
  }

  method PutAll<T>(before: map<string, T>, entries: seq<(string, T)>) returns (m: map<string, T>)
    ensures m == Put(before, entries)
  {
    m := before;
    for i := 0 to |entries|
      invariant m == Put(before, entries[..i])
    {
      assert entries[..i + 1][..i] == entries[..i];
      m := m[entries[i].0 := entries[i].1];
    }
    assert entries[..|entries|] == entries;
  }

  /** Some source, when ranged over last, gives `k` the value `v`. */
  ghost predicate Offers<C, T>(src: map<string, C>, entries: C -> seq<(string, T)>, k: string, v: T) {
    exists c :: c in src && LastOf(entries(src[c]), k) == Some(v)
  }

  /** Exactly the names on offer, each with a value that is on offer for it. */
  ghost predicate Picks<C, T(!new)>(src: map<string, C>, entries: C -> seq<(string, T)>, m: map<string, T>) {
    && (forall k :: k in m ==> Offers(src, entries, k, m[k]))
    && (forall k, v :: Offers(src, entries, k, v) ==> k in m)
  }

  /** Which source decides: the last one in the order that has the name. */
  lemma {:induction false} RangedAt<C, T>(
    src: map<string, C>, order: seq<string>, entries: C -> seq<(string, T)>, k: string)
    requires forall c :: c in order ==> c in src
    ensures Get(Ranged(src, order, entries), k).Some? ==>
      exists i: nat :: i < |order| && LastOf(entries(src[order[i]]), k) == Get(Ranged(src, order, entries), k)
    ensures forall i: nat | i < |order| ::
      LastOf(entries(src[order[i]]), k).Some? &&
      (forall j: nat | i < j < |order| :: LastOf(entries(src[order[j]]), k).None?) ==>
      Get(Ranged(src, order, entries), k) == LastOf(entries(src[order[i]]), k)
    ensures (forall i: nat | i < |order| :: LastOf(entries(src[order[i]]), k).None?) ==>
      k !in Ranged(src, order, entries)
    ensures (exists i: nat :: i < |order| && LastOf(entries(src[order[i]]), k).Some?) ==>
      k in Ranged(src, order, entries)
    decreases |order|
  {
    if order != [] {
      var n := |order| - 1;
      var less := order[..n];
      RangedAt(src, less, entries, k);
      PutAt(Ranged(src, less, entries), entries(src[order[n]]), k);
      assert forall i: nat | i < n :: less[i] == order[i];
      hide Put, LastOf;
    }
  }

  lemma RangedPicks<C, T(!new)>(src: map<string, C>, order: seq<string>, entries: C -> seq<(string, T)>)
    requires IsOrder(src, order)
    ensures Picks(src, entries, Ranged(src, order, entries))
  {
    hide LastOf, Ranged;
    var m := Ranged(src, order, entries);
    forall k | k in m ensures Offers(src, entries, k, m[k]) {
      RangedAt(src, order, entries, k);
      var i: nat :| i < |order| && LastOf(entries(src[order[i]]), k) == Get(m, k);
      assert order[i] in src;
    }
    forall k, v | Offers(src, entries, k, v) ensures k in m {
      RangedAt(src, order, entries, k);
      var c :| c in src && LastOf(entries(src[c]), k) == Some(v);
      assert c in order;
    }
  }

  /** The source that is ranged over last has its way. */
  lemma LastHasItsWay<C, T>(src: map<string, C>, order: seq<string>, entries: C -> seq<(string, T)>, k: string, v: T)
    requires IsOrder(src, order) && order != [] && LastOf(entries(src[order[|order| - 1]]), k) == Some(v)
    ensures Get(Ranged(src, order, entries), k) == Some(v)
  {
    RangedAt(src, order, entries, k);
  }

  /** Any value on offer is the outcome of some order. */
  lemma OrderFor<C, T>(src: map<string, C>, entries: C -> seq<(string, T)>, k: string, v: T)
    returns (order: seq<string>)
    requires Offers(src, entries, k, v)
    ensures IsOrder(src, order) && Get(Ranged(src, order, entries), k) == Some(v)
  {
    var c :| c in src && LastOf(entries(src[c]), k) == Some(v);
    order := OrderEnding(src, c);
    LastHasItsWay(src, order, entries, k, v);
  }

  lemma SamePicks<C, T(!new)>(
    src: map<string, C>, entries: C -> seq<(string, T)>, m1: map<string, T>, m2: map<string, T>)
    requires Picks(src, entries, m1) && Picks(src, entries, m2)
    ensures m1.Keys == m2.Keys
    ensures (forall k, v, w :: Offers(src, entries, k, v) && Offers(src, entries, k, w) ==> v == w) ==> m1 == m2
  {
    hide Offers;
    assert forall k :: k in m1 <==> k in m2;
  }

  lemma PicksKeys<C, T(!new)>(src: map<string, C>, entries: C -> seq<(string, T)>, m: map<string, T>, k: string)
    requires Picks(src, entries, m)
    ensures k in m <==> exists c :: c in src && HasKey(entries(src[c]), k)
  {
    if k in m {
      assert Offers(src, entries, k, m[k]);
      var c :| c in src && LastOf(entries(src[c]), k) == Some(m[k]);
      LastOfEntry(entries(src[c]), k);
    }
    if c :| c in src && HasKey(entries(src[c]), k) {
      LastOfEntry(entries(src[c]), k);
      assert Offers(src, entries, k, LastOf(entries(src[c]), k).value);
    }
  }

  lemma PicksEntry<C, T(!new)>(src: map<string, C>, entries: C -> seq<(string, T)>, m: map<string, T>, k: string)
    returns (c: string, i: nat)
    requires Picks(src, entries, m) && k in m
    ensures c in src && i < |entries(src[c])| && entries(src[c])[i] == (k, m[k])
  {
    assert Offers(src, entries, k, m[k]);
    c :| c in src && LastOf(entries(src[c]), k) == Some(m[k]);
    LastOfEntry(entries(src[c]), k);
    i :| i < |entries(src[c])| && entries(src[c])[i] == (k, m[k]);
  }
}
