/** A dictionary that remembers insertion order, as Python's `dict` does. */
module OrderedDict {

  datatype Dict<K(==,!new), V> = Dict(keys: seq<K>, vals: map<K, V>) {

    /** Each key of the map stands exactly once in the key list. */
    ghost predicate Valid() {
      && (forall k :: k in keys <==> k in vals)
      && NoDuplicates(keys)
    }

    /** The values in insertion order. */
    function Values(): (vs: seq<V>)
      requires Valid()
      ensures |vs| == |keys| && forall i :: 0 <= i < |vs| ==> vs[i] == vals[keys[i]]
    {
      seq(|keys|, i requires 0 <= i < |keys| => assert keys[i] in keys; vals[keys[i]])
    }

    /** A new key goes to the end; an old one keeps its place. */
    function Put(k: K, v: V): (d: Dict<K, V>)
      ensures d.vals == vals[k := v]
      ensures Valid() ==> d.Valid()
    {
      if k in vals then Dict(keys, vals[k := v]) else Dict(keys + [k], vals[k := v])
    }

    function Remove(k: K): (d: Dict<K, V>)
      ensures d.vals == vals - {k}
      ensures Valid() ==> d.Valid()
    {
      WithoutIsFiltered(keys, k);
      Dict(Without(keys, k), vals - {k})
    }

    function RemoveAll(gone: set<K>): (d: Dict<K, V>)
      ensures d.vals == vals - gone
      ensures Valid() ==> d.Valid()
    {
      WithoutAllKeepsOrder(keys, gone);
      Dict(WithoutAll(keys, gone), vals - gone)
    }
  }

  function ToSet<T(!new)>(s: seq<T>): set<T> {
    set x | x in s
  }

  lemma ToSetSnoc<T(!new)>(s: seq<T>, x: T)
    ensures ToSet(s + [x]) == ToSet(s) + {x}
  {
  }

  lemma {:induction false} DistinctCount<T(!new)>(s: seq<T>)
    requires NoDuplicates(s)
    ensures |ToSet(s)| == |s|
    decreases |s|
  {
    if s != [] {
      var front, last := s[..|s| - 1], s[|s| - 1];
      DistinctCount(front);
      ToSetSnoc(front, last);
      assert s == front + [last] && last !in ToSet(front);
    }
  }

  /** The keys outside `gone`, in their order. */
  function WithoutAll<K(==,!new)>(keys: seq<K>, gone: set<K>): (rest: seq<K>)
    ensures forall x :: x in rest <==> x in keys && x !in gone
  {
    if keys == [] then []
    else if keys[|keys| - 1] in gone then WithoutAll(keys[..|keys| - 1], gone)
    else WithoutAll(keys[..|keys| - 1], gone) + [keys[|keys| - 1]]
  }

  lemma {:induction false} WithoutOneMore<K(!new)>(keys: seq<K>, gone: set<K>, k: K)
    ensures Without(WithoutAll(keys, gone), k) == WithoutAll(keys, gone + {k})
    decreases |keys|
  {
    if keys != [] {
      WithoutOneMore(keys[..|keys| - 1], gone, k);
    }
  }

  lemma {:induction false} WithoutNone<K(!new)>(keys: seq<K>)
    ensures WithoutAll(keys, {}) == keys
    decreases |keys|
  {
    if keys != [] {
      WithoutNone(keys[..|keys| - 1]);
    }
  }

  lemma {:induction false} WithoutAllKeepsOrder<K(!new)>(keys: seq<K>, gone: set<K>)
    ensures NoDuplicates(keys) ==> NoDuplicates(WithoutAll(keys, gone))
    decreases |keys|
  {
    if keys != [] {
      var front, last := keys[..|keys| - 1], keys[|keys| - 1];
      WithoutAllKeepsOrder(front, gone);
      if NoDuplicates(keys) {
        assert last !in front && NoDuplicates(front);
      }
    }
  }

  /** The keys other than `k`, in their order. */
  function Without<K(==)>(keys: seq<K>, k: K): seq<K> {
    if keys == [] then []
    else if keys[|keys| - 1] == k then Without(keys[..|keys| - 1], k)
    else Without(keys[..|keys| - 1], k) + [keys[|keys| - 1]]
  }

  ghost predicate NoDuplicates<K>(keys: seq<K>) {
    forall i, j :: 0 <= i < j < |keys| ==> keys[i] != keys[j]
  }

  lemma {:induction false} WithoutIsFiltered<K>(keys: seq<K>, k: K)
    ensures forall x :: x in Without(keys, k) <==> x in keys && x != k
    ensures NoDuplicates(keys) ==> NoDuplicates(Without(keys, k))
    decreases |keys|
  {
    if keys != [] {
      var front, last := keys[..|keys| - 1], keys[|keys| - 1];
      WithoutIsFiltered(front, k);
      assert forall x :: x in keys <==> x in front || x == last;
      if NoDuplicates(keys) {
        assert last !in front && NoDuplicates(front);
      }
    }
  }

  function Empty<K(!new), V>(): (d: Dict<K, V>)
    ensures d.Valid()
  {
    Dict([], map[])
  }

  lemma RemoveNone<K(!new), V>(d: Dict<K, V>)
    ensures d.RemoveAll({}) == d
  {
    WithoutNone(d.keys);
  }

  lemma RemoveOneMore<K(!new), V>(d: Dict<K, V>, gone: set<K>, k: K)
    ensures d.RemoveAll(gone).Remove(k) == d.RemoveAll(gone + {k})
  {
    WithoutOneMore(d.keys, gone, k);
    assert (d.vals - gone) - {k} == d.vals - (gone + {k});
  }

  /** Only the last value put under a key remains. */
  lemma PutTwice<K(!new), V>(d: Dict<K, V>, k: K, a: V, b: V)
    requires k in d.vals
    ensures d.Put(k, a).Put(k, b) == d.Put(k, b)
  {
  }
}
