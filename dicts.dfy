/** Python's `dict`: a finite map that remembers the order in which its keys were
    first inserted. Assigning to an existing key replaces its value and keeps its place. */
module Dicts {

  import opened Wrappers
  import StringOrder

  /** The keys in insertion order and the value stored under each. */
  datatype Dict<K, V> = Dict(keys: seq<K>, values: map<K, V>)

  /** No element occurs twice. */
  predicate NoDuplicates<K(==)>(s: seq<K>) {
    forall x | x in s :: multiset(s)[x] <= 1
  }

  /** A sequence whose elements differ pairwise has no duplicates. */
  lemma {:induction false} DistinctNoDuplicates<K>(s: seq<K>)
    requires forall i, j :: 0 <= i < j < |s| ==> s[i] != s[j]
    ensures NoDuplicates(s)
  {
    if |s| > 0 {
      var t := s[1..];
      DistinctNoDuplicates(t);
      assert s == [s[0]] + t;
      assert s[0] !in t;
      forall x | x in s
        ensures multiset(s)[x] <= 1
      {
        assert multiset(s) == multiset{s[0]} + multiset(t);
      }
    }
  }

  /** Conversely, in a sequence without duplicates two positions hold different elements. */
  lemma NoDuplicatesDistinct<K>(s: seq<K>, i: int, j: int)
    requires NoDuplicates(s) && 0 <= i < j < |s|
    ensures s[i] != s[j]
  {
    assert s == s[..j] + s[j..];
    assert s[..j][i] == s[i];
    assert s[j..][0] == s[j];
    assert multiset(s) == multiset(s[..j]) + multiset(s[j..]);
    assert multiset(s)[s[i]] >= 1 + (if s[i] == s[j] then 1 else 0);
  }

  /** In a sequence without duplicates, an element does not occur before its position. */
  lemma NotBefore<K>(s: seq<K>, i: int)
    requires NoDuplicates(s) && 0 <= i < |s|
    ensures s[i] !in s[..i]
  {
    if s[i] in s[..i] {
      var j :| 0 <= j < i && s[..i][j] == s[i];
      NoDuplicatesDistinct(s, j, i);
    }
  }

  /** The key list lists each key of the map exactly once. */
  predicate WellFormed<K(==), V>(d: Dict<K, V>) {
    NoDuplicates(d.keys) && (forall k | k in d.values :: k in d.keys) && (forall k | k in d.keys :: k in d.values)
  }

  /** `{}`. */
  function Empty<K(==), V>(): (r: Dict<K, V>)
    ensures WellFormed(r) && r.keys == [] && r.values == map[]
  {
    Dict([], map[])
  }

  /** A dict display `{ks[0]: vs[0], ...}` with distinct keys. */
  function FromLists<K(==), V>(ks: seq<K>, vs: seq<V>): (d: Dict<K, V>)
    requires |ks| == |vs|
    requires forall i, j :: 0 <= i < j < |ks| ==> ks[i] != ks[j]
    ensures WellFormed(d) && d.keys == ks
    ensures forall i :: 0 <= i < |ks| ==> d.values[ks[i]] == vs[i]
  {
    DistinctNoDuplicates(ks);
    Dict(ks, map i | 0 <= i < |ks| :: ks[i] := vs[i])
  }

  /** `d[k] = v`. */
  function Put<K(==), V>(d: Dict<K, V>, k: K, v: V): Dict<K, V> {
    Dict(if k in d.values then d.keys else d.keys + [k], d.values[k := v])
  }

  /** `d[k]`, which raises KeyError for a missing key. */
  function Get<K(==), V>(d: Dict<K, V>, k: K): (r: Result<V>)
    ensures r.Ok? <==> k in d.values
    ensures r.Ok? ==> r.value == d.values[k]
    ensures r.Raise? ==> r.error == KeyError
  {
    if k in d.values then Ok(d.values[k]) else Raise(KeyError)
  }

  /** Assignment keeps the dict well formed: a new key goes to the end, an old key keeps its place. */
  lemma PutSpec<K, V>(d: Dict<K, V>, k: K, v: V)
    requires WellFormed(d)
    ensures var r := Put(d, k, v);
      WellFormed(r) && r.values == d.values[k := v] &&
      (k in d.keys ==> r.keys == d.keys) && (k !in d.keys ==> r.keys == d.keys + [k])
  {
    if k !in d.keys {
      assert multiset(d.keys + [k]) == multiset(d.keys) + multiset{k};
    }
  }

  /** The map built by assigning the pairs one after the other: a later pair wins. */
  function MapOf<K(==), V>(items: seq<(K, V)>): map<K, V> {
    if items == [] then map[] else map[items[0].0 := items[0].1] + MapOf(items[1..])
  }

  /** The keys of the pairs, and nothing else. */
  lemma {:induction false} MapOfDomain<K, V>(items: seq<(K, V)>)
    ensures forall k :: k in MapOf(items) <==> exists i :: 0 <= i < |items| && items[i].0 == k
  {
    if items != [] {
      MapOfDomain(items[1..]);
      assert forall i :: 0 < i < |items| ==> items[1..][i - 1] == items[i];
    }
  }

  /** `for k, v in items: d[k] = v`. */
  function PutAll<K(==), V>(d: Dict<K, V>, items: seq<(K, V)>): Dict<K, V>
    decreases |items|
  {
    if items == [] then d else PutAll(Put(d, items[0].0, items[0].1), items[1..])
  }

  /** Assigning a list of pairs keeps the dict well formed and keeps the old keys in front. */
  lemma {:induction false} PutAllKeys<K, V>(d: Dict<K, V>, items: seq<(K, V)>)
    requires WellFormed(d)
    ensures var r := PutAll(d, items);
      WellFormed(r) && |d.keys| <= |r.keys| && r.keys[..|d.keys|] == d.keys
    decreases |items|
  {
    if items != [] {
      var d' := Put(d, items[0].0, items[0].1);
      PutSpec(d, items[0].0, items[0].1);
      assert d'.keys[..|d.keys|] == d.keys;
      PutAllKeys(d', items[1..]);
      PrefixChain(d.keys, d'.keys, PutAll(d', items[1..]).keys);
    }
  }

  lemma PrefixChain<T>(a: seq<T>, b: seq<T>, c: seq<T>)
    requires |a| <= |b| <= |c| && b[..|a|] == a && c[..|b|] == b
    ensures c[..|a|] == a
  {
    assert c[..|b|][..|a|] == c[..|a|];
  }

  /** The values of the old dict overridden by the pairs, the last pair for a key winning. */
  lemma {:induction false} PutAllValues<K, V>(d: Dict<K, V>, items: seq<(K, V)>)
    ensures PutAll(d, items).values == d.values + MapOf(items)
    decreases |items|
  {
    if items != [] {
      var d' := Put(d, items[0].0, items[0].1);
      PutAllValues(d', items[1..]);
      assert d.values + MapOf(items) == d'.values + MapOf(items[1..]);
    }
  }

  /** The pairs `(k, m[k])` for the keys ks in order, as `d.items()` yields them. */
  function ItemsOf<K(==), V>(ks: seq<K>, m: map<K, V>): (r: seq<(K, V)>)
    requires forall k :: k in ks ==> k in m
    ensures |r| == |ks|
  {
    if ks == [] then [] else [(ks[0], m[ks[0]])] + ItemsOf(ks[1..], m)
  }

  lemma {:induction false} ItemsOfAt<K, V>(ks: seq<K>, m: map<K, V>)
    requires forall k :: k in ks ==> k in m
    ensures forall i :: 0 <= i < |ks| ==> ItemsOf(ks, m)[i] == (ks[i], m[ks[i]])
  {
    if ks != [] {
      ItemsOfAt(ks[1..], m);
    }
  }

  function Items<K(==), V>(d: Dict<K, V>): seq<(K, V)>
    requires WellFormed(d)
  {
    ItemsOf(d.keys, d.values)
  }

  lemma {:induction false} MapOfItemsOf<K, V>(ks: seq<K>, m: map<K, V>)
    requires forall k :: k in ks ==> k in m
    ensures MapOf(ItemsOf(ks, m)) == map k | k in ks :: m[k]
  {
    if ks != [] {
      MapOfItemsOf(ks[1..], m);
      var items := ItemsOf(ks, m);
      assert items[1..] == ItemsOf(ks[1..], m);
      assert forall k :: k in ks <==> k == ks[0] || k in ks[1..];
    }
  }

  /** `d.update(e)`. */
  function Update<K(==), V>(d: Dict<K, V>, e: Dict<K, V>): Dict<K, V>
    requires WellFormed(e)
  {
    PutAll(d, Items(e))
  }

  /** After `d.update(e)` the dict holds every key of both, e's value winning on a shared
      key, with d's keys first in their old order. */
  lemma UpdateSpec<K, V>(d: Dict<K, V>, e: Dict<K, V>)
    requires WellFormed(d) && WellFormed(e)
    ensures var r := Update(d, e);
      WellFormed(r) && r.values == d.values + e.values &&
      |d.keys| <= |r.keys| && r.keys[..|d.keys|] == d.keys
  {
    PutAllKeys(d, Items(e));
    PutAllValues(d, Items(e));
    MapOfItemsOf(e.keys, e.values);
    assert (map k | k in e.keys :: e.values[k]) == e.values;
  }

  /** `{key: d[key] for key in sorted(d)}` for string keys. */
  function SortByKey<V>(d: Dict<string, V>): Dict<string, V> {
    Dict(StringOrder.Sort(d.keys), d.values)
  }

  /** Sorting by key changes the order of the keys and nothing else. */
  lemma SortByKeySpec<V>(d: Dict<string, V>)
    requires WellFormed(d)
    ensures var r := SortByKey(d);
      WellFormed(r) && r.values == d.values && StringOrder.Sorted(r.keys) &&
      multiset(r.keys) == multiset(d.keys)
  {
    StringOrder.SortSpec(d.keys);
  }

  /** Two dicts with the same contents sort to the same dict, whatever order their keys were
      inserted in. */
  lemma SortByKeyCanonical<V>(d1: Dict<string, V>, d2: Dict<string, V>)
    requires WellFormed(d1) && WellFormed(d2) && d1.values == d2.values
    ensures SortByKey(d1) == SortByKey(d2)
  {
    assert forall x :: multiset(d1.keys)[x] == multiset(d2.keys)[x] by {
      forall x
        ensures multiset(d1.keys)[x] == multiset(d2.keys)[x]
      {
        assert x in d1.keys <==> x in d2.keys;
      }
    }
    assert multiset(d1.keys) == multiset(d2.keys);
    StringOrder.SortDependsOnElementsOnly(d1.keys, d2.keys);
  }
}
