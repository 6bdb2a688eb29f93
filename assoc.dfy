/**
 * Ordered association lists: the model of JavaScript `Map`, of a plain object
 * used as a record of string keys, and of `URLSearchParams`. Lookup returns
 * the first entry with the key; setting a key that is present overwrites the
 * first such entry in place and drops the later ones, and setting a new key
 * appends it, so insertion order is kept.
 */
module Assoc {
  import opened Wrappers

  type Entries<K, V> = seq<(K, V)>

  function Keys<K, V>(m: Entries<K, V>): (r: seq<K>)
    ensures |r| == |m|
    ensures forall i :: 0 <= i < |m| ==> r[i] == m[i].0
    decreases |m|
  {
    if m == [] then [] else [m[0].0] + Keys(m[1..])
  }

  predicate DistinctKeys<K(==), V>(m: Entries<K, V>)
  {
    forall i, j :: 0 <= i < j < |m| ==> m[i].0 != m[j].0
  }

  /** `map.get(k)` / `params.get(k)`: the value of the first entry with key `k`. */
  function Get<K(==), V>(m: Entries<K, V>, k: K): (r: Option<V>)
    decreases |m|
  {
    if m == [] then None
    else if m[0].0 == k then Some(m[0].1)
    else Get(m[1..], k)
  }

  /** Lookup finds a value exactly for the keys present. */
  lemma {:induction false} GetSome<K, V>(m: Entries<K, V>, k: K)
    ensures Get(m, k).Some? <==> k in Keys(m)
    decreases |m|
  {
    if m != [] {
      assert Keys(m) == [m[0].0] + Keys(m[1..]);
      GetSome(m[1..], k);
    }
  }

  /** Lookup returns the value of the first entry with the key. */
  lemma {:induction false} GetFirst<K(!new), V>(m: Entries<K, V>, k: K)
    ensures Get(m, k).Some? ==> exists i :: 0 <= i < |m| && m[i] == (k, Get(m, k).value) && forall j :: 0 <= j < i ==> m[j].0 != k
    decreases |m|
  {
    if m != [] && m[0].0 != k {
      GetFirst(m[1..], k);
      var r := Get(m[1..], k);
      if r.Some? {
        var i :| 0 <= i < |m| - 1 && m[1..][i] == (k, r.value) && forall j :: 0 <= j < i ==> m[1..][j].0 != k;
        assert m[i + 1] == (k, r.value);
        forall j | 0 <= j < i + 1 ensures m[j].0 != k {
          if j > 0 {
            assert m[j] == m[1..][j - 1];
          }
        }
      }
    } else if m != [] {
      assert m[0] == (k, Get(m, k).value);
    }
  }

  /** With distinct keys, the entry stored for a key is what lookup returns. */
  lemma {:induction false} GetEntry<K(!new), V>(m: Entries<K, V>, i: int)
    requires DistinctKeys(m) && 0 <= i < |m|
    ensures Get(m, m[i].0) == Some(m[i].1)
    decreases i
  {
    if i > 0 {
      var t := m[1..];
      assert DistinctKeys(t) by {
        forall a, b | 0 <= a < b < |t| ensures t[a].0 != t[b].0 {
          assert t[a] == m[a + 1] && t[b] == m[b + 1];
        }
      }
      assert t[i - 1] == m[i];
      GetEntry(t, i - 1);
    }
  }

  /** `map.delete(k)` / removing a property: every entry with key `k` goes. */
  function Delete<K(==,!new), V>(m: Entries<K, V>, k: K): (r: Entries<K, V>)
    ensures |r| <= |m|
    ensures k !in Keys(r)
    ensures forall x :: x in Keys(r) <==> x in Keys(m) && x != k
    decreases |m|
  {
    if m == [] then []
    else
      var rest := Delete(m[1..], k);
      assert Keys(m) == [m[0].0] + Keys(m[1..]);
      if m[0].0 == k then rest
      else
        assert Keys([m[0]] + rest) == [m[0].0] + Keys(rest);
        [m[0]] + rest
  }

  function SetFirst<K(==,!new), V>(m: Entries<K, V>, k: K, v: V): (r: Entries<K, V>)
    decreases |m|
  {
    if m == [] then []
    else if m[0].0 == k then [(k, v)] + Delete(m[1..], k)
    else [m[0]] + SetFirst(m[1..], k, v)
  }

  /** `map.set(k, v)`, `params.set(k, v)`, `{ ...m, [k]: v }`. */
  function Set<K(==,!new), V>(m: Entries<K, V>, k: K, v: V): (r: Entries<K, V>)
  {
    if k in Keys(m) then SetFirst(m, k, v) else m + [(k, v)]
  }

  lemma {:induction false} GetDeleteOther<K(!new), V>(m: Entries<K, V>, k: K, x: K)
    requires x != k
    ensures Get(Delete(m, k), x) == Get(m, x)
    decreases |m|
  {
    if m != [] {
      GetDeleteOther(m[1..], k, x);
    }
  }

  lemma {:induction false} GetSetFirst<K(!new), V>(m: Entries<K, V>, k: K, v: V, x: K)
    requires k in Keys(m)
    ensures Get(SetFirst(m, k, v), x) == if x == k then Some(v) else Get(m, x)
    decreases |m|
  {
    assert Keys(m) == [m[0].0] + Keys(m[1..]);
    if m[0].0 == k {
      if x != k {
        GetDeleteOther(m[1..], k, x);
      }
    } else {
      GetSetFirst(m[1..], k, v, x);
    }
  }

  lemma {:induction false} GetAppend<K(!new), V>(m: Entries<K, V>, k: K, v: V, x: K)
    requires k !in Keys(m)
    ensures Get(m + [(k, v)], x) == if x == k then Some(v) else Get(m, x)
    decreases |m|
  {
    if m != [] {
      assert Keys(m) == [m[0].0] + Keys(m[1..]);
      assert (m + [(k, v)])[1..] == m[1..] + [(k, v)];
      GetAppend(m[1..], k, v, x);
    }
  }

  /** After setting `k`, looking it up gives the new value and nothing else moves. */
  lemma GetSet<K(!new), V>(m: Entries<K, V>, k: K, v: V, x: K)
    ensures Get(Set(m, k, v), x) == if x == k then Some(v) else Get(m, x)
  {
    if k in Keys(m) {
      GetSetFirst(m, k, v, x);
    } else {
      GetAppend(m, k, v, x);
    }
  }

  /** After deleting `k`, it is absent and every other lookup is unchanged. */
  lemma GetDelete<K(!new), V>(m: Entries<K, V>, k: K, x: K)
    ensures Get(Delete(m, k), x) == if x == k then None else Get(m, x)
  {
    if x != k {
      GetDeleteOther(m, k, x);
    }
  }

  lemma {:induction false} DeleteKeepsDistinct<K(!new), V>(m: Entries<K, V>, k: K)
    requires DistinctKeys(m)
    ensures DistinctKeys(Delete(m, k))
    decreases |m|
  {
    if m != [] {
      DeleteKeepsDistinct(m[1..], k);
      assert Keys(m) == [m[0].0] + Keys(m[1..]);
      var rest := Delete(m[1..], k);
      if m[0].0 != k {
        assert m[0].0 !in Keys(rest);
        assert forall j :: 0 <= j < |rest| ==> rest[j].0 in Keys(rest);
      }
    }
  }

  lemma {:induction false} SetFirstShape<K(!new), V>(m: Entries<K, V>, k: K, v: V)
    requires DistinctKeys(m) && k in Keys(m)
    ensures Keys(SetFirst(m, k, v)) == Keys(m)
    decreases |m|
  {
    assert Keys(m) == [m[0].0] + Keys(m[1..]);
    if m[0].0 == k {
      assert k !in Keys(m[1..]);
      DeleteUnchanged(m[1..], k);
    } else {
      SetFirstShape(m[1..], k, v);
      assert Keys(SetFirst(m, k, v)) == [m[0].0] + Keys(SetFirst(m[1..], k, v));
    }
  }

  lemma {:induction false} DeleteUnchanged<K(!new), V>(m: Entries<K, V>, k: K)
    requires k !in Keys(m)
    ensures Delete(m, k) == m
    decreases |m|
  {
    if m != [] {
      assert Keys(m) == [m[0].0] + Keys(m[1..]);
      DeleteUnchanged(m[1..], k);
    }
  }

  /**
   * Setting keeps keys distinct; an existing key keeps its position and a new
   * key goes last.
   */
  lemma SetKeys<K(!new), V>(m: Entries<K, V>, k: K, v: V)
    requires DistinctKeys(m)
    ensures Keys(Set(m, k, v)) == if k in Keys(m) then Keys(m) else Keys(m) + [k]
    ensures DistinctKeys(Set(m, k, v))
  {
    if k in Keys(m) {
      SetFirstShape(m, k, v);
      var r := Set(m, k, v);
      assert forall i :: 0 <= i < |r| ==> r[i].0 == Keys(r)[i] == Keys(m)[i] == m[i].0;
    } else {
      var r := m + [(k, v)];
      assert Keys(r) == Keys(m) + [k];
      assert forall i :: 0 <= i < |m| ==> r[i].0 == m[i].0;
    }
  }
}
