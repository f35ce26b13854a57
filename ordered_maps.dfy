/**
 * A JavaScript `Map` (or a plain object with string keys): entries in
 * insertion order, `set` on a present key replacing the value in place and
 * `set` on a new key appending it.
 */
module OrderedMaps {
  import opened Options

  type Entries<K, V> = seq<(K, V)>

  function Keys<K(==), V>(m: Entries<K, V>): (ks: seq<K>)
    ensures |ks| == |m| && forall i :: 0 <= i < |m| ==> ks[i] == m[i].0
  {
    seq(|m|, i requires 0 <= i < |m| => m[i].0)
  }

  function Values<K(==), V>(m: Entries<K, V>): (vs: seq<V>)
    ensures |vs| == |m| && forall i :: 0 <= i < |m| ==> vs[i] == m[i].1
  {
    seq(|m|, i requires 0 <= i < |m| => m[i].1)
  }

  /** No key occurs twice. */
  predicate KeysDistinct<K(==), V>(m: Entries<K, V>)
  {
    forall i, j :: 0 <= i < j < |m| ==> m[i].0 != m[j].0
  }

  predicate Has<K(==), V>(m: Entries<K, V>, k: K)
  {
    exists i :: 0 <= i < |m| && m[i].0 == k
  }

  /** `map.get(k)`: None for a missing key. */
  function Find<K(==), V>(m: Entries<K, V>, k: K): (r: Option<V>)
    ensures r.Some? <==> Has(m, k)
    decreases |m|
  {
    if m == [] then None
    else if m[0].0 == k then Some(m[0].1)
    else
      var r := Find(m[1..], k);
      assert forall i :: 0 < i < |m| ==> m[i] == m[1..][i - 1];
      assert Has(m[1..], k) ==> Has(m, k);
      r
  }

  /** `get` gives the value of the first entry with the key: with distinct keys, of the only one. */
  lemma {:induction false} FindSpec<K, V>(m: Entries<K, V>, k: K)
    ensures Find(m, k).Some? ==> exists i :: 0 <= i < |m| && m[i] == (k, Find(m, k).value)
    ensures KeysDistinct(m) ==> forall i :: 0 <= i < |m| && m[i].0 == k ==> Find(m, k) == Some(m[i].1)
    decreases |m|
  {
    if m != [] && m[0].0 != k {
      FindSpec(m[1..], k);
      assert forall i :: 0 < i < |m| ==> m[i] == m[1..][i - 1];
      if Find(m, k).Some? {
        var i :| 0 <= i < |m[1..]| && m[1..][i] == (k, Find(m, k).value);
        assert m[i + 1] == (k, Find(m, k).value);
      }
    }
  }

  /** `map.set(k, v)`: a new key goes at the end. */
  function Put<K(==), V>(m: Entries<K, V>, k: K, v: V): (r: Entries<K, V>)
    ensures !Has(m, k) ==> r == m + [(k, v)]
    decreases |m|
  {
    if m == [] then [(k, v)]
    else if m[0].0 == k then [(k, v)] + m[1..]
    else
      assert forall i :: 0 < i < |m| ==> m[i] == m[1..][i - 1];
      assert Has(m[1..], k) ==> Has(m, k);
      [m[0]] + Put(m[1..], k, v)
  }

  /** `set` on a present key keeps the keys and their order. */
  lemma {:induction false} PutKeys<K, V>(m: Entries<K, V>, k: K, v: V)
    requires Has(m, k)
    ensures |Put(m, k, v)| == |m| && Keys(Put(m, k, v)) == Keys(m)
    decreases |m|
  {
    var t := m[1..];
    var r := Put(m, k, v);
    if m[0].0 == k {
      assert r == [(k, v)] + t;
      assert forall i :: 0 < i < |m| ==> r[i] == m[i];
    } else {
      assert forall i :: 0 < i < |m| ==> m[i] == t[i - 1];
      assert Has(t, k);
      PutKeys(t, k, v);
      assert r == [m[0]] + Put(t, k, v);
      assert forall i :: 0 < i < |m| ==> r[i].0 == Keys(Put(t, k, v))[i - 1];
    }
  }

  /** Setting the same value twice is setting it once. */
  lemma {:induction false} PutPut<K, V>(m: Entries<K, V>, k: K, v: V)
    ensures Put(Put(m, k, v), k, v) == Put(m, k, v)
    decreases |m|
  {
    if m != [] && m[0].0 != k {
      PutPut(m[1..], k, v);
      var x := Put(m[1..], k, v);
      assert ([m[0]] + x)[1..] == x;
    }
  }

  /** With distinct keys, `set` changes only the entry of its key. */
  lemma {:induction false} PutEntries<K, V>(m: Entries<K, V>, k: K, v: V)
    requires KeysDistinct(m)
    ensures forall i :: 0 <= i < |Put(m, k, v)| ==>
      if Put(m, k, v)[i].0 == k then Put(m, k, v)[i] == (k, v) else i < |m| && Put(m, k, v)[i] == m[i]
    decreases |m|
  {
    if m != [] {
      var t := m[1..];
      var r := Put(m, k, v);
      assert forall i :: 0 < i < |m| ==> m[i] == t[i - 1];
      if m[0].0 == k {
        assert r == [(k, v)] + t;
        assert forall i :: 0 < i < |m| ==> m[i].0 != k;
      } else {
        assert KeysDistinct(t);
        PutEntries(t, k, v);
        assert r == [m[0]] + Put(t, k, v);
        forall i | 0 <= i < |r|
          ensures if r[i].0 == k then r[i] == (k, v) else i < |m| && r[i] == m[i]
        {
          if i > 0 {
            assert r[i] == Put(t, k, v)[i - 1];
          }
        }
      }
    }
  }

  /** After `set`, `get` of that key gives the new value and every other key is unaffected. */
  lemma PutFind<K, V>(m: Entries<K, V>, k: K, v: V, other: K)
    requires KeysDistinct(m)
    ensures KeysDistinct(Put(m, k, v))
    ensures Find(Put(m, k, v), k) == Some(v)
    ensures other != k ==> Find(Put(m, k, v), other) == Find(m, other)
  {
    PutEntries(m, k, v);
    FindSpec(m, other);
    FindSpec(Put(m, k, v), k);
    FindSpec(Put(m, k, v), other);
    var r := Put(m, k, v);
    if !Has(m, k) {
      assert r[|m|] == (k, v);
    } else {
      var i :| 0 <= i < |m| && m[i].0 == k;
      PutKeys(m, k, v);
      assert Keys(r)[i] == Keys(m)[i];
    }
    if other != k {
      if Has(r, other) {
        var i :| 0 <= i < |r| && r[i].0 == other;
        assert i < |m| && m[i] == r[i];
      }
      if Has(m, other) {
        var i :| 0 <= i < |m| && m[i].0 == other;
        assert r[i] == m[i];
      }
    }
  }
}
