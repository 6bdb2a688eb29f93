/**
 * Running counts kept in a JavaScript `Map` from keys to numbers: each
 * occurrence bumps its key, `map.set(k, (map.get(k) ?? 0) + w)`. The
 * lemmas say that after a pass over a list of weighted occurrences the map
 * holds each key that occurs once, with the summed weight of its
 * occurrences.
 */
module Tally {
  import opened Wrappers
  import Assoc

  /** `map.set(k, (map.get(k) ?? 0) + w)`. */
  function Bump<K(==,!new)>(m: Assoc.Entries<K, int>, k: K, w: int): Assoc.Entries<K, int>
  {
    Assoc.Set(m, k, Assoc.Get(m, k).GetOr(0) + w)
  }

  /** The keys of a list of weighted occurrences. */
  function Names<K>(occ: seq<(K, int)>): (r: seq<K>)
    ensures |r| == |occ| && forall i :: 0 <= i < |occ| ==> r[i] == occ[i].0
    decreases |occ|
  {
    if occ == [] then [] else Names(occ[..|occ| - 1]) + [occ[|occ| - 1].0]
  }

  /** The summed weight of the occurrences of `k`. */
  function SumFor<K(==)>(occ: seq<(K, int)>, k: K): (r: int)
    ensures k !in Names(occ) ==> r == 0
    decreases |occ|
  {
    if occ == [] then 0
    else SumFor(occ[..|occ| - 1], k) + (if occ[|occ| - 1].0 == k then occ[|occ| - 1].1 else 0)
  }

  /** The map after bumping every occurrence in turn, starting from an empty map. */
  function Accumulate<K(==,!new)>(occ: seq<(K, int)>): Assoc.Entries<K, int>
    decreases |occ|
  {
    if occ == [] then []
    else Bump(Accumulate(occ[..|occ| - 1]), occ[|occ| - 1].0, occ[|occ| - 1].1)
  }

  /** One more occurrence bumps the map built from the earlier ones. */
  lemma AccumulateSnoc<K(!new)>(occ: seq<(K, int)>, k: K, w: int)
    ensures Accumulate(occ + [(k, w)]) == Bump(Accumulate(occ), k, w)
  {
    assert (occ + [(k, w)])[..|occ|] == occ;
  }

  /** Each key occurs once in the map. */
  lemma {:induction false} AccumulateDistinct<K(!new)>(occ: seq<(K, int)>)
    ensures Assoc.DistinctKeys(Accumulate(occ))
    decreases |occ|
  {
    if occ != [] {
      var init := occ[..|occ| - 1];
      var a := Accumulate(init);
      var k0 := occ[|occ| - 1].0;
      var v := Assoc.Get(a, k0).GetOr(0) + occ[|occ| - 1].1;
      assert Accumulate(occ) == Assoc.Set(a, k0, v);
      AccumulateDistinct(init);
      Assoc.SetKeys(a, k0, v);
    }
  }

  /** Bumping a key adds to its count (from zero when absent) and leaves the others alone. */
  lemma BumpGet<K(!new)>(m: Assoc.Entries<K, int>, k: K, w: int, x: K)
    ensures Assoc.Get(Bump(m, k, w), k) == Some(Assoc.Get(m, k).GetOr(0) + w)
    ensures x != k ==> Assoc.Get(Bump(m, k, w), x) == Assoc.Get(m, x)
  {
    var v := Assoc.Get(m, k).GetOr(0) + w;
    Assoc.GetSet(m, k, v, k);
    Assoc.GetSet(m, k, v, x);
  }

  /** The map holds every key that occurs, with its summed weight, and no other key. */
  lemma {:induction false} AccumulateGet<K(!new)>(occ: seq<(K, int)>, k: K)
    ensures k in Names(occ) ==> Assoc.Get(Accumulate(occ), k) == Some(SumFor(occ, k))
    ensures k !in Names(occ) ==> Assoc.Get(Accumulate(occ), k) == None
    decreases |occ|
  {
    if occ != [] {
      var init := occ[..|occ| - 1];
      var k0 := occ[|occ| - 1].0;
      var w := occ[|occ| - 1].1;
      var a := Accumulate(init);
      assert Accumulate(occ) == Bump(a, k0, w);
      assert Names(occ) == Names(init) + [k0];
      AccumulateGet(init, k);
      BumpGet(a, k0, w, k);
      assert Assoc.Get(a, k).GetOr(0) == SumFor(init, k);
    } else {
      assert Names(occ) == [];
    }
  }

  /** Every key of `ts` tagged with the same weight `w`. */
  function Tagged<K>(ts: seq<K>, w: int): (r: seq<(K, int)>)
    ensures |r| == |ts| && forall i :: 0 <= i < |ts| ==> r[i] == (ts[i], w)
  {
    seq(|ts|, i requires 0 <= i < |ts| => (ts[i], w))
  }

  lemma TaggedSnoc<K>(ts: seq<K>, t: K, w: int)
    ensures Tagged(ts + [t], w) == Tagged(ts, w) + [(t, w)]
  {
  }

  /** The names of a concatenation are the names of its parts. */
  lemma NamesAppend<K>(a: seq<(K, int)>, b: seq<(K, int)>)
    ensures Names(a + b) == Names(a) + Names(b)
  {
  }

  lemma NamesTagged<K>(ts: seq<K>, w: int)
    ensures Names(Tagged(ts, w)) == ts
  {
  }

  /** Summing over a concatenation adds the sums of its parts. */
  lemma {:induction false} SumForAppend<K>(a: seq<(K, int)>, b: seq<(K, int)>, k: K)
    ensures SumFor(a + b, k) == SumFor(a, k) + SumFor(b, k)
    decreases |b|
  {
    if b != [] {
      var b' := b[..|b| - 1];
      assert (a + b)[..|a + b| - 1] == a + b';
      SumForAppend(a, b', k);
    } else {
      assert a + b == a;
    }
  }

  /** A key tagged `n` times with weight `w` sums to `n * w`. */
  lemma {:induction false} SumForTagged<K>(ts: seq<K>, w: int, k: K)
    ensures SumFor(Tagged(ts, w), k) == w * multiset(ts)[k]
    decreases |ts|
  {
    if ts != [] {
      var init := ts[..|ts| - 1];
      var last := ts[|ts| - 1];
      assert ts == init + [last];
      var t := Tagged(ts, w);
      TaggedSnoc(init, last, w);
      assert t[..|t| - 1] == Tagged(init, w);
      assert SumFor(t, k) == SumFor(Tagged(init, w), k) + (if last == k then w else 0);
      SumForTagged(init, w, k);
      var n := multiset(init)[k];
      assert multiset(ts) == multiset(init) + multiset{last};
      if last == k {
        MulSucc(w, n, multiset(ts)[k]);
      } else {
        assert multiset(ts)[k] == n;
      }
    } else {
      assert multiset(ts)[k] == 0;
    }
  }

  lemma MulSucc(w: int, n: int, m: int)
    requires m == n + 1
    ensures w * m == w * n + w
  {
  }
}
