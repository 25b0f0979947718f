/** Optional values and insertion-ordered dictionaries, shared by every part of the model. */
module Options {
  datatype Option<+T> = None | Some(value: T)
}

/**
 A Python or JavaScript dictionary: its entries, and its keys in the order in which they were
 first inserted.  Assigning to a key that is present keeps its place.
 */
module Dicts {
  import opened Options

  datatype Dict<K(==,!new), V> = Dict(keys: seq<K>, entries: map<K, V>) {
    ghost predicate Valid() {
      && Distinct(keys)
      && (forall k :: k in keys <==> k in entries)
    }

    predicate Has(k: K) {
      k in entries
    }

    function Get(k: K): Option<V> {
      if k in entries then Some(entries[k]) else None
    }

    function Put(k: K, v: V): (d: Dict<K, V>)
      ensures Valid() ==> d.Valid()
      ensures d.entries == entries[k := v]
    {
      Dict(if k in entries then keys else keys + [k], entries[k := v])
    }

    function Delete(k: K): (d: Dict<K, V>)
      ensures Valid() ==> d.Valid()
      ensures d.entries == entries - {k}
    {
      WithoutFacts(keys, k);
      Dict(Without(keys, k), entries - {k})
    }

    /** `del d[next(iter(d))]`: removes the entry that was inserted first. */
    function DeleteFirst(): (d: Dict<K, V>)
      requires Valid() && keys != []
      ensures d.Valid() && d.keys == keys[1..]
      ensures d.entries == entries - {keys[0]}
    {
      Dict(keys[1..], entries - {keys[0]})
    }
  }

  /** The dictionary after the oldest entries beyond the capacity have been deleted. */
  function Evicted<K(==,!new), V>(d: Dict<K, V>, max: Option<nat>): (r: Dict<K, V>)
    requires d.Valid()
    ensures r.Valid()
    ensures max.Some? && |d.keys| > max.value ==> |r.keys| == max.value && r.keys == d.keys[|d.keys| - max.value..]
    ensures max.None? || |d.keys| <= max.value ==> r == d
    ensures forall k :: k in r.entries ==> k in d.entries && r.entries[k] == d.entries[k]
    decreases |d.keys|
  {
    if max.Some? && |d.keys| > max.value then Evicted(d.DeleteFirst(), max) else d
  }

  function Empty<K(==,!new), V>(): (d: Dict<K, V>)
    ensures d.Valid()
  {
    Dict([], map[])
  }

  ghost predicate Distinct<T>(s: seq<T>) {
    forall i, j :: 0 <= i < j < |s| ==> s[i] != s[j]
  }

  /** The sequence with every occurrence of x left out. */
  function Without<T(==)>(s: seq<T>, x: T): seq<T> {
    if s == [] then []
    else if s[|s| - 1] == x then Without(s[..|s| - 1], x)
    else Without(s[..|s| - 1], x) + [s[|s| - 1]]
  }

  lemma {:induction false} WithoutFacts<T(!new)>(s: seq<T>, x: T)
    ensures forall y :: y in Without(s, x) <==> y in s && y != x
    ensures Distinct(s) ==> Distinct(Without(s, x))
    ensures |Without(s, x)| <= |s|
  {
    if s != [] {
      var front, last := s[..|s| - 1], s[|s| - 1];
      WithoutFacts(front, x);
      assert s == front + [last];
      if Distinct(s) {
        assert Distinct(front) && last !in front;
        var rest := Without(front, x);
        assert last !in rest;
        assert Distinct(rest + [last]);
      }
    }
  }

  /** A list without repetitions is as long as the set of its elements. */
  lemma {:induction false} DistinctSize<T(!new)>(s: seq<T>)
    requires Distinct(s)
    ensures |set x | x in s| == |s|
  {
    if s != [] {
      var front, last := s[..|s| - 1], s[|s| - 1];
      DistinctSize(front);
      assert s == front + [last];
      assert (set x | x in s) == (set x | x in front) + {last};
    }
  }
}
