/** An insertion-ordered dictionary, as Python's `dict`: a sequence of
    key/value pairs with distinct keys. Assigning to a present key keeps its
    position and replaces its value; assigning to a new key appends it. */
module PyDict {
  import opened Values

  type Dict<K, V> = seq<(K, V)>

  /** No key occurs twice. */
  predicate DistinctKeys<K(==), V>(d: Dict<K, V>) {
    forall i, j :: 0 <= i < j < |d| ==> d[i].0 != d[j].0
  }

  /** The keys in iteration order. */
  function Keys<K(==), V>(d: Dict<K, V>): (ks: seq<K>)
    ensures |ks| == |d|
    ensures forall i :: 0 <= i < |d| ==> ks[i] == d[i].0
  {
    if d == [] then [] else Keys(d[..|d| - 1]) + [d[|d| - 1].0]
  }

  predicate Has<K(==), V>(d: Dict<K, V>, k: K) {
    exists i :: 0 <= i < |d| && d[i].0 == k
  }

  /** `d.get(k)`: the value under `k`, searched from the front. */
  function Get<K(==), V>(d: Dict<K, V>, k: K): (r: Option<V>)
    ensures r.Some? <==> Has(d, k)
  {
    if d == [] then None
    else if d[0].0 == k then Some(d[0].1)
    else Get(d[1..], k)
  }

  /** A found value is stored under its key. */
  lemma {:induction false} GetWitness<K, V>(d: Dict<K, V>, k: K)
    ensures Get(d, k).Some? ==> exists i :: 0 <= i < |d| && d[i] == (k, Get(d, k).value)
  {
    if d != [] && d[0].0 != k {
      GetWitness(d[1..], k);
      if Get(d, k).Some? {
        var i :| 0 <= i < |d[1..]| && d[1..][i] == (k, Get(d, k).value);
        assert d[i + 1] == d[1..][i];
      }
    }
  }

  /** `d[k] = v`. */
  function Put<K(==), V>(d: Dict<K, V>, k: K, v: V): (r: Dict<K, V>)
    ensures Has(d, k) ==> |r| == |d|
    ensures !Has(d, k) ==> r == d + [(k, v)]
  {
    if d == [] then [(k, v)]
    else if d[0].0 == k then [(k, v)] + d[1..]
    else [d[0]] + Put(d[1..], k, v)
  }

  lemma {:induction false} GetAt<K, V>(d: Dict<K, V>, i: nat)
    requires DistinctKeys(d) && i < |d|
    ensures Get(d, d[i].0) == Some(d[i].1)
  {
    if i > 0 {
      assert d[1..][i - 1] == d[i];
      GetAt(d[1..], i - 1);
    }
  }

  /** After `d[k] = v` the key `k` holds `v`, every other key keeps its
      value, and keys stay distinct. */
  lemma {:induction false} PutGet<K, V>(d: Dict<K, V>, k: K, v: V, k': K)
    ensures Get(Put(d, k, v), k') == if k' == k then Some(v) else Get(d, k')
  {
    if d != [] && d[0].0 != k {
      PutGet(d[1..], k, v, k');
    }
  }

  lemma PutHas<K, V>(d: Dict<K, V>, k: K, v: V, k': K)
    ensures Has(Put(d, k, v), k') <==> Has(d, k') || k' == k
  {
    PutGet(d, k, v, k');
  }

  lemma {:induction false} PutDistinct<K, V>(d: Dict<K, V>, k: K, v: V)
    requires DistinctKeys(d)
    ensures DistinctKeys(Put(d, k, v))
    ensures forall k' :: Has(Put(d, k, v), k') <==> Has(d, k') || k' == k
  {
    forall k' ensures Has(Put(d, k, v), k') <==> Has(d, k') || k' == k {
      PutHas(d, k, v, k');
    }
    if d != [] && d[0].0 != k {
      PutDistinct(d[1..], k, v);
      HeadNotInTail(d);
      PutHas(d[1..], k, v, d[0].0);
      ConsDistinct(d[0], Put(d[1..], k, v));
    }
  }

  lemma HeadNotInTail<K, V>(d: Dict<K, V>)
    requires DistinctKeys(d) && d != []
    ensures !Has(d[1..], d[0].0)
  {
    forall m | 0 <= m < |d| - 1 ensures d[1..][m].0 != d[0].0 {
      assert d[1..][m] == d[m + 1];
    }
  }

  lemma ConsDistinct<K, V>(x: (K, V), t: Dict<K, V>)
    requires DistinctKeys(t) && !Has(t, x.0)
    ensures DistinctKeys([x] + t)
  {
    var r := [x] + t;
    forall i, j | 0 <= i < j < |r| ensures r[i].0 != r[j].0 {
      assert r[j] == t[j - 1];
      if i > 0 {
        assert r[i] == t[i - 1];
      }
    }
  }

  /** Assigning to a present key keeps every key in its place. */
  lemma {:induction false} PutKeys<K, V>(d: Dict<K, V>, k: K, v: V)
    requires Has(d, k)
    ensures forall i :: 0 <= i < |d| ==> Put(d, k, v)[i].0 == d[i].0
  {
    if d[0].0 != k {
      PutKeys(d[1..], k, v);
      assert forall i :: 1 <= i < |d| ==> Put(d, k, v)[i] == Put(d[1..], k, v)[i - 1];
    }
  }

  /** The set of keys. */
  function KeySet<K, V>(d: Dict<K, V>): (ks: set<K>)
    ensures forall i :: 0 <= i < |d| ==> d[i].0 in ks
  {
    set i | 0 <= i < |d| :: d[i].0
  }

  lemma KeySetHas<K, V>(d: Dict<K, V>, k: K)
    ensures k in KeySet(d) <==> Has(d, k)
  {
  }

  /** Assigning adds the key to the key set. */
  lemma PutKeySetAdd<K, V>(d: Dict<K, V>, k: K, v: V)
    ensures KeySet(Put(d, k, v)) == KeySet(d) + {k}
  {
    forall k' ensures k' in KeySet(Put(d, k, v)) <==> k' in KeySet(d) + {k} {
      PutGet(d, k, v, k');
      KeySetHas(Put(d, k, v), k');
      KeySetHas(d, k');
    }
  }

  /** With distinct keys, assigning to the key stored at position `i`
      replaces the value at `i` and nothing else. */
  lemma {:induction false} PutAt<K, V>(d: Dict<K, V>, i: nat, v: V)
    requires DistinctKeys(d) && i < |d|
    ensures Put(d, d[i].0, v) == d[i := (d[i].0, v)]
  {
    if i > 0 {
      assert d[1..][i - 1] == d[i];
      PutAt(d[1..], i - 1, v);
      assert d[i := (d[i].0, v)] == [d[0]] + d[1..][i - 1 := (d[i].0, v)];
    }
  }
}
