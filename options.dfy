/** Optional values, standing in for Java's nullable references and `Hashtable.get`. */
module Options {

  datatype Option<+T> = None | Some(value: T) {

    /** The wrapped value, or `default` when there is none (the source's `if (x == null) x = default`). */
    function GetOr(default: T): T
    {
      match this
      case Some(v) => v
      case None => default
    }
  }

  /** `Hashtable.get`: the value stored under `k`, or None when the key is absent. */
  function Lookup<K, V>(m: map<K, V>, k: K): (r: Option<V>)
    ensures r.Some? <==> k in m
    ensures r.Some? ==> r.value == m[k]
  {
    if k in m then Some(m[k]) else None
  }

  /** `Hashtable.put` for Some and `Hashtable.remove` for None. */
  function Store<K(!new), V>(m: map<K, V>, k: K, o: Option<V>): (r: map<K, V>)
    ensures Lookup(r, k) == o
  {
    if o.Some? then m[k := o.value] else m - {k}
  }

  /** Storing under `k` leaves every other key as it was. */
  lemma StoreOthers<K(!new), V>(m: map<K, V>, k: K, o: Option<V>)
    ensures forall j :: j != k ==> Lookup(Store(m, k, o), j) == Lookup(m, j)
  {
  }

  /** Storing what is already there changes nothing. */
  lemma StoreSame<K(!new), V>(m: map<K, V>, k: K)
    ensures Store(m, k, Lookup(m, k)) == m
  {
    if k in m {
      assert m[k := m[k]] == m;
    }
  }

  /** Of two stores under the same key only the second counts. */
  lemma StoreTwice<K(!new), V>(m: map<K, V>, k: K, o1: Option<V>, o2: Option<V>)
    ensures Store(Store(m, k, o1), k, o2) == Store(m, k, o2)
  {
    if o2.Some? {
      assert Store(m, k, o1)[k := o2.value] == m[k := o2.value];
    } else {
      assert Store(m, k, o1) - {k} == m - {k};
    }
  }

  /** Maps that agree on every lookup are equal. */
  lemma LookupExtensional<K, V>(m1: map<K, V>, m2: map<K, V>)
    requires forall k :: Lookup(m1, k) == Lookup(m2, k)
    ensures m1 == m2
  {
    forall k | k in m1
      ensures k in m2 && m1[k] == m2[k]
    {
      assert Lookup(m1, k) == Lookup(m2, k);
    }
    forall k | k in m2
      ensures k in m1
    {
      assert Lookup(m1, k) == Lookup(m2, k);
    }
  }

  /** Every element of `s` occurs once. */
  predicate Distinct<T(==)>(s: seq<T>)
  {
    forall i, j :: 0 <= i < j < |s| ==> s[i] != s[j]
  }

  /** Concatenation is associative. */
  lemma AppendAssociative<T>(a: seq<T>, b: seq<T>, c: seq<T>)
    ensures a + b + c == a + (b + c)
  {
  }
}
