/** Python's insertion-ordered `dict`, as used by the bounded caches and the
    group-by loops of the servers. */
module OrderedDict {
  import opened Wrappers
  import opened PySeq

  /** `keys` lists the keys in insertion order; `values` holds the entries. */
  datatype Dict<K, V> = Dict(keys: seq<K>, values: map<K, V>) {

    ghost predicate Valid() {
      (forall i, j :: 0 <= i < j < |keys| ==> keys[i] != keys[j])
      && (forall k :: k in values ==> k in keys)
      && (forall i :: 0 <= i < |keys| ==> keys[i] in values)
    }

    function Size(): nat {
      |keys|
    }

    /** `d.get(k)`. */
    function Get(k: K): (r: Option<V>)
      ensures r.Some? <==> k in values
      ensures r.Some? ==> r.value == values[k]
    {
      if k in values then Some(values[k]) else None
    }

    /** `d[k] = v`: a new key goes last, an existing key keeps its place. */
    function Set(k: K, v: V): (r: Dict<K, V>)
      requires Valid()
      ensures r.Valid()
      ensures r.values == values[k := v]
      ensures k in values ==> r.keys == keys
      ensures k !in values ==> r.keys == keys + [k]
    {
      if k in values then Dict(keys, values[k := v]) else Dict(keys + [k], values[k := v])
    }

    /** `d.pop(next(iter(d)))`: removes the first-inserted entry. */
    function PopFirst(): (r: Dict<K, V>)
      requires Valid() && keys != []
      ensures r.Valid()
      ensures r.keys == keys[1..]
      ensures keys[0] !in r.values
      ensures forall k :: k in r.values ==> k in values && r.values[k] == values[k]
    {
      Dict(keys[1..], values - {keys[0]})
    }

    /** The cache pruning step: at `cap` entries or more, drop the oldest one;
        otherwise leave the dictionary as it is. */
    function PruneOldest(cap: nat): (r: Dict<K, V>)
      requires Valid() && cap > 0
      ensures r.Valid()
      ensures |keys| >= cap ==> r.keys == keys[1..] && keys[0] !in r.values
      ensures |keys| < cap ==> r == this
      ensures forall k :: k in r.values ==> k in values && r.values[k] == values[k]
    {
      if |keys| >= cap then PopFirst() else this
    }
  }

  function Empty<K, V>(): (d: Dict<K, V>)
    ensures d.Valid() && d.Size() == 0
  {
    Dict([], map[])
  }

  /** Pruning before inserting a new key keeps a cache within `cap` entries. */
  lemma PruneThenInsertBounded<K, V>(d: Dict<K, V>, cap: nat, k: K, v: V)
    requires d.Valid() && cap > 0 && d.Size() <= cap
    ensures d.PruneOldest(cap).Set(k, v).Size() <= cap
    ensures d.PruneOldest(cap).Set(k, v).Get(k) == Some(v)
  {
  }

  // ---------------------------------------------------------------------------
  // Grouping: `if key not in groups: groups[key] = []; groups[key].append(x)`

  function KeyIs<T, K(==)>(key: T -> K, k: K): T -> bool {
    x => key(x) == k
  }

  /** The group keys in order of first appearance. */
  function GroupKeys<T, K(==)>(s: seq<T>, key: T -> K): (ks: seq<K>)
    decreases |s|
  {
    if s == [] then []
    else
      var ks := GroupKeys(s[..|s| - 1], key);
      if key(s[|s| - 1]) in ks then ks else ks + [key(s[|s| - 1])]
  }

  /** The keys are distinct, and they are exactly the keys of the elements. */
  lemma {:induction false} GroupKeysMembers<T, K>(s: seq<T>, key: T -> K)
    ensures forall i, j :: 0 <= i < j < |GroupKeys(s, key)| ==> GroupKeys(s, key)[i] != GroupKeys(s, key)[j]
    ensures forall k :: k in GroupKeys(s, key) <==> Filter(s, KeyIs(key, k)) != []
    decreases |s|
  {
    if s != [] {
      var init := s[..|s| - 1];
      GroupKeysMembers(init, key);
      assert s == init + [s[|s| - 1]];
      forall k ensures Filter(s, KeyIs(key, k)) == Filter(init, KeyIs(key, k)) + Filter([s[|s| - 1]], KeyIs(key, k)) {
        FilterAppend(init, [s[|s| - 1]], KeyIs(key, k));
      }
    }
  }

  /** The group keys sorted by `le`: ordered, distinct, each with members,
      and covering the key of every element. */
  lemma SortedKeysCorrect<T, K(!new)>(s: seq<T>, key: T -> K, le: (K, K) -> bool)
    requires TotalPreorder(le)
    ensures var sorted := SortBy(GroupKeys(s, key), le);
            && SortedBy(sorted, le)
            && Distinct(sorted)
            && (forall i :: 0 <= i < |sorted| ==> Filter(s, KeyIs(key, sorted[i])) != [])
            && (forall x :: x in s ==> key(x) in sorted)
  {
    var keys := GroupKeys(s, key);
    var sorted := SortBy(keys, le);
    SortByCorrect(keys, le);
    GroupKeysMembers(s, key);
    DistinctPermutation(keys, sorted);
    forall i | 0 <= i < |sorted| ensures Filter(s, KeyIs(key, sorted[i])) != [] {
      assert sorted[i] in multiset(keys);
    }
    forall x | x in s ensures key(x) in sorted {
      FilterMembers(s, KeyIs(key, key(x)), x);
      assert key(x) in multiset(sorted);
    }
  }

  /** `d` is the grouping of the first `n` elements of `s`. */
  ghost predicate GroupedUpTo<T, K(!new)>(d: Dict<K, seq<T>>, s: seq<T>, key: T -> K, n: nat)
    requires n <= |s|
  {
    && d.Valid()
    && d.keys == GroupKeys(s[..n], key)
    && (forall k :: k in d.values ==> d.values[k] == Filter(s[..n], KeyIs(key, k)))
    && (forall k :: k !in d.values ==> Filter(s[..n], KeyIs(key, k)) == [])
  }

  /** Extending the key list of a prefix by one element. */
  lemma GroupKeysSnoc<T, K>(s: seq<T>, key: T -> K, n: nat)
    requires n < |s|
    ensures var ks := GroupKeys(s[..n], key);
            GroupKeys(s[..n + 1], key) == if key(s[n]) in ks then ks else ks + [key(s[n])]
  {
    assert s[..n + 1][..n] == s[..n];
  }

  lemma GroupedStep<T, K(!new)>(d: Dict<K, seq<T>>, s: seq<T>, key: T -> K, n: nat)
    requires n < |s| && GroupedUpTo(d, s, key, n)
    ensures var k := key(s[n]);
            GroupedUpTo(d.Set(k, (if k in d.values then d.values[k] else []) + [s[n]]), s, key, n + 1)
  {
    var k := key(s[n]);
    var d' := d.Set(k, (if k in d.values then d.values[k] else []) + [s[n]]);
    GroupKeysSnoc(s, key, n);
    assert k in d.values <==> k in d.keys;
    assert d'.keys == GroupKeys(s[..n + 1], key);
    forall k' | k' in d'.values ensures d'.values[k'] == Filter(s[..n + 1], KeyIs(key, k')) {
      FilterSnoc(s, KeyIs(key, k'), n);
    }
    forall k' | k' !in d'.values ensures Filter(s[..n + 1], KeyIs(key, k')) == [] {
      FilterSnoc(s, KeyIs(key, k'), n);
    }
  }

  /** A `for x in s` loop that appends each element to the bucket of its key.
      The buckets come out in first-appearance order, each being the elements
      with that key in their original order. */
  method GroupBy<T, K(==, !new)>(s: seq<T>, key: T -> K) returns (d: Dict<K, seq<T>>)
    ensures d.Valid()
    ensures d.keys == GroupKeys(s, key)
    ensures forall k :: k in d.values ==> d.values[k] == Filter(s, KeyIs(key, k))
    ensures forall k :: k !in d.values ==> Filter(s, KeyIs(key, k)) == []
  {
    d := Empty();
    var i := 0;
    while i < |s|
      invariant 0 <= i <= |s|
      invariant GroupedUpTo(d, s, key, i)
    {
      var k := key(s[i]);
      var bucket := if k in d.values then d.values[k] else [];
      GroupedStep(d, s, key, i);
      d := d.Set(k, bucket + [s[i]]);
      i := i + 1;
    }
    assert s[..i] == s;
  }

  // ---------------------------------------------------------------------------
  // `d.update(other)`

  /** Sets each key of `ks` in turn to its value in `vs`, as `d.update(other)`
      does with the keys of `other` in their order. */
  function UpdateFrom<K, V>(d: Dict<K, V>, ks: seq<K>, vs: map<K, V>): (r: Dict<K, V>)
    requires d.Valid()
    requires forall k :: k in ks ==> k in vs
    ensures r.Valid()
    decreases |ks|
  {
    if ks == [] then d else UpdateFrom(d.Set(ks[0], vs[ks[0]]), ks[1..], vs)
  }

  /** `d.update(other)`. */
  function Update<K, V>(d: Dict<K, V>, other: Dict<K, V>): (r: Dict<K, V>)
    requires d.Valid() && other.Valid()
    ensures r.Valid()
  {
    UpdateFrom(d, other.keys, other.values)
  }

  /** After the update a key of `other` holds its value there, and every other
      key keeps what `d` held (or stays absent). */
  lemma {:induction false} UpdateFromGet<K, V>(d: Dict<K, V>, ks: seq<K>, vs: map<K, V>, k: K)
    requires d.Valid()
    requires forall k :: k in ks ==> k in vs
    ensures UpdateFrom(d, ks, vs).Get(k) == if k in ks then Some(vs[k]) else d.Get(k)
    decreases |ks|
  {
    if ks != [] {
      UpdateFromGet(d.Set(ks[0], vs[ks[0]]), ks[1..], vs, k);
      assert k in ks <==> k == ks[0] || k in ks[1..];
    }
  }

  /** The keys `d` already had keep their places at the front; new keys follow. */
  lemma {:induction false} UpdateFromKeys<K, V>(d: Dict<K, V>, ks: seq<K>, vs: map<K, V>)
    requires d.Valid()
    requires forall k :: k in ks ==> k in vs
    ensures |d.keys| <= |UpdateFrom(d, ks, vs).keys|
    ensures forall i :: 0 <= i < |d.keys| ==> UpdateFrom(d, ks, vs).keys[i] == d.keys[i]
    decreases |ks|
  {
    if ks != [] {
      UpdateFromKeys(d.Set(ks[0], vs[ks[0]]), ks[1..], vs);
    }
  }

  /** `update` in one statement: `other` wins on shared keys, the rest of `d`
      is kept, and `d`'s keys keep their order at the front. */
  lemma UpdateCorrect<K, V>(d: Dict<K, V>, other: Dict<K, V>)
    requires d.Valid() && other.Valid()
    ensures forall k :: Update(d, other).Get(k) == if k in other.values then other.Get(k) else d.Get(k)
    ensures |d.keys| <= |Update(d, other).keys| && Update(d, other).keys[..|d.keys|] == d.keys
  {
    forall k ensures Update(d, other).Get(k) == if k in other.values then other.Get(k) else d.Get(k) {
      UpdateFromGet(d, other.keys, other.values, k);
    }
    UpdateFromKeys(d, other.keys, other.values);
    assert Update(d, other).keys[..|d.keys|] == d.keys;
  }
}
