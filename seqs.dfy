/**
 * Generic sequence helpers standing for the JavaScript array methods the
 * modelled code calls (`filter`, `map`, lodash `uniqBy`).
 */
module Seqs {
  import opened Wrappers

  /** `a` can be obtained from `b` by deleting elements (order kept). */
  predicate IsSubseq<T(==)>(a: seq<T>, b: seq<T>)
    decreases |b|
  {
    a == [] || (b != [] && ((a[0] == b[0] && IsSubseq(a[1..], b[1..])) || IsSubseq(a, b[1..])))
  }

  lemma {:induction false} SubseqTrans<T>(a: seq<T>, b: seq<T>, c: seq<T>)
    requires IsSubseq(a, b) && IsSubseq(b, c)
    ensures IsSubseq(a, c)
    decreases |c|
  {
    if a == [] {
    } else if b[0] == c[0] && IsSubseq(b[1..], c[1..]) {
      if a[0] == b[0] && IsSubseq(a[1..], b[1..]) {
        SubseqTrans(a[1..], b[1..], c[1..]);
      } else {
        SubseqTrans(a, b[1..], c[1..]);
      }
    } else {
      SubseqTrans(a, b, c[1..]);
    }
  }

  lemma {:induction false} SubseqMembers<T(!new)>(a: seq<T>, b: seq<T>)
    requires IsSubseq(a, b)
    ensures |a| <= |b|
    ensures forall x :: x in a ==> x in b
    decreases |b|
  {
    if a != [] {
      if a[0] == b[0] && IsSubseq(a[1..], b[1..]) {
        SubseqMembers(a[1..], b[1..]);
        assert forall x :: x in a ==> x == a[0] || x in a[1..];
      } else {
        SubseqMembers(a, b[1..]);
      }
    }
  }

  lemma {:induction false} SubseqRefl<T>(a: seq<T>)
    ensures IsSubseq(a, a)
    decreases |a|
  {
    if a != [] {
      SubseqRefl(a[1..]);
    }
  }

  /** A subsequence stays one when anything is put in front of the longer list. */
  lemma {:induction false} SubseqPrepend<T>(a: seq<T>, b: seq<T>, p: seq<T>)
    requires IsSubseq(a, b)
    ensures IsSubseq(a, p + b)
    decreases |p|
  {
    if p == [] {
      assert p + b == b;
    } else if a != [] {
      SubseqPrepend(a, b, p[1..]);
      assert (p + b)[1..] == p[1..] + b;
      assert IsSubseq(a, (p + b)[1..]);
    }
  }

  /** Subsequences of two lists concatenate to a subsequence of their concatenation. */
  lemma {:induction false} SubseqConcat<T>(a1: seq<T>, b1: seq<T>, a2: seq<T>, b2: seq<T>)
    requires IsSubseq(a1, b1) && IsSubseq(a2, b2)
    ensures IsSubseq(a1 + a2, b1 + b2)
    decreases |b1|
  {
    if a1 == [] {
      SubseqPrepend(a2, b2, b1);
      assert a1 + a2 == a2;
    } else {
      assert (b1 + b2)[1..] == b1[1..] + b2;
      if a1[0] == b1[0] && IsSubseq(a1[1..], b1[1..]) {
        SubseqConcat(a1[1..], b1[1..], a2, b2);
        assert (a1 + a2)[1..] == a1[1..] + a2;
      } else {
        SubseqConcat(a1, b1[1..], a2, b2);
      }
    }
  }

  lemma SubseqAppendBoth<T>(a: seq<T>, b: seq<T>, x: T)
    requires IsSubseq(a, b)
    ensures IsSubseq(a + [x], b + [x])
  {
    assert IsSubseq([x][1..], [x][1..]);
    SubseqConcat(a, b, [x], [x]);
  }

  /** Growing a prefix by one element. */
  lemma PrefixSnoc<T>(s: seq<T>, i: int)
    requires 0 <= i < |s|
    ensures s[..i + 1] == s[..i] + [s[i]]
  {
  }

  /** A non-empty sequence followed by more is its head, then its tail followed by the rest. */
  lemma ConsAppend<T>(s: seq<T>, t: seq<T>)
    requires |s| > 0
    ensures s + t == [s[0]] + (s[1..] + t)
  {
    assert s == [s[0]] + s[1..];
  }

  /** A sequence that extends `b` by one element is `b` with that element appended. */
  lemma ExtendsBy<T>(a: seq<T>, b: seq<T>, x: T)
    requires |a| == |b| + 1 && a[|b|] == x
    requires forall k :: 0 <= k < |b| ==> a[k] == b[k]
    ensures a == b + [x]
  {
  }

  /** The whole-length prefix is the sequence. */
  lemma PrefixAll<T>(s: seq<T>)
    ensures s[..|s|] == s
  {
  }

  lemma SubseqAppendRight<T>(a: seq<T>, b: seq<T>, x: T)
    requires IsSubseq(a, b)
    ensures IsSubseq(a, b + [x])
  {
    SubseqConcat(a, b, [], [x]);
    assert a + [] == a;
  }

  /** `s.filter(p)`: exactly the elements satisfying `p`, in order. */
  function Filter<T(==,!new)>(s: seq<T>, p: T -> bool): (r: seq<T>)
    ensures |r| <= |s|
    ensures IsSubseq(r, s)
    ensures forall x :: x in r <==> x in s && p(x)
    ensures forall i :: 0 <= i < |r| ==> p(r[i])
    decreases |s|
  {
    if s == [] then []
    else if p(s[0]) then [s[0]] + Filter(s[1..], p)
    else Filter(s[1..], p)
  }

  /** Filtering a concatenation filters each part. */
  lemma {:induction false} FilterAppend<T(!new)>(a: seq<T>, b: seq<T>, p: T -> bool)
    ensures Filter(a + b, p) == Filter(a, p) + Filter(b, p)
    decreases |a|
  {
    if a == [] {
      assert a + b == b;
    } else {
      assert (a + b)[1..] == a[1..] + b;
      FilterAppend(a[1..], b, p);
    }
  }

  /** Filtering a list with one more element at the end. */
  lemma FilterSnoc<T(!new)>(s: seq<T>, x: T, p: T -> bool)
    ensures Filter(s + [x], p) == Filter(s, p) + (if p(x) then [x] else [])
  {
    FilterAppend(s, [x], p);
    assert [x][1..] == [];
  }

  /** Filtering with two predicates that agree on the elements gives the same list. */
  lemma {:induction false} FilterExt<T(!new)>(s: seq<T>, p: T -> bool, q: T -> bool)
    requires forall x :: x in s ==> p(x) == q(x)
    ensures Filter(s, p) == Filter(s, q)
    decreases |s|
  {
    if s != [] {
      FilterExt(s[1..], p, q);
    }
  }

  /** A filter every element passes keeps the whole list. */
  lemma {:induction false} FilterAll<T(!new)>(s: seq<T>, p: T -> bool)
    requires forall i :: 0 <= i < |s| ==> p(s[i])
    ensures Filter(s, p) == s
    decreases |s|
  {
    if s != [] {
      FilterAll(s[1..], p);
    }
  }

  /** A filter no element passes keeps nothing. */
  lemma {:induction false} FilterNone<T(!new)>(s: seq<T>, p: T -> bool)
    requires forall i :: 0 <= i < |s| ==> !p(s[i])
    ensures Filter(s, p) == []
    decreases |s|
  {
    if s != [] {
      FilterNone(s[1..], p);
    }
  }

  /** `s.map(f)` */
  function MapSeq<A, B>(s: seq<A>, f: A -> B): (r: seq<B>)
    ensures |r| == |s|
    ensures forall i :: 0 <= i < |s| ==> r[i] == f(s[i])
    decreases |s|
  {
    if s == [] then [] else [f(s[0])] + MapSeq(s[1..], f)
  }

  /**
   * The list a loop builds by appending `f(x)` for each element `x` that
   * passes `p`, in order.
   */
  function FilterMap<A(!new), B>(s: seq<A>, p: A -> bool, f: A --> B): seq<B>
    requires forall x :: p(x) ==> f.requires(x)
    decreases |s|
  {
    if s == [] then []
    else
      var x := s[|s| - 1];
      FilterMap(s[..|s| - 1], p, f) + (if p(x) then [f(x)] else [])
  }

  /** The loop's list is `s.filter(p).map(f)`. */
  lemma {:induction false} FilterMapSpec<A(!new), B>(s: seq<A>, p: A -> bool, f: A --> B)
    requires forall x :: p(x) ==> f.requires(x)
    ensures |FilterMap(s, p, f)| == |Filter(s, p)|
    ensures forall i :: 0 <= i < |FilterMap(s, p, f)| ==> FilterMap(s, p, f)[i] == f(Filter(s, p)[i])
    decreases |s|
  {
    if s != [] {
      var init := s[..|s| - 1];
      var x := s[|s| - 1];
      FilterMapSpec(init, p, f);
      assert s == init + [x];
      FilterSnoc(init, x, p);
      var prev := FilterMap(init, p, f);
      if p(x) {
        assert FilterMap(s, p, f) == prev + [f(x)];
        assert Filter(s, p) == Filter(init, p) + [x];
      } else {
        assert FilterMap(s, p, f) == prev;
      }
    }
  }

  predicate Distinct<T(==)>(s: seq<T>)
  {
    forall i, j :: 0 <= i < j < |s| ==> s[i] != s[j]
  }

  /** The keys an element list carries. */
  function KeySet<T(==,!new), K>(s: seq<T>, key: T -> K): set<K>
  {
    set x | x in s :: key(x)
  }

  /** Whether `s[i]` is the first element of `s` with its key. */
  predicate FirstOfKey<T, K(==)>(s: seq<T>, key: T -> K, i: int)
    requires 0 <= i < |s|
  {
    forall j :: 0 <= j < i ==> key(s[j]) != key(s[i])
  }

  /**
   * lodash `uniqBy(s, key)`: the first element of each key, in order of first
   * appearance (see UniqByKeys and UniqByKeepsFirsts).
   */
  function UniqBy<T(==,!new), K(==)>(s: seq<T>, key: T -> K): (r: seq<T>)
    ensures IsSubseq(r, s)
    ensures forall i, j :: 0 <= i < j < |r| ==> key(r[i]) != key(r[j])
  {
    UniqByFrom(s, key, {})
  }

  /** The walk behind UniqBy: `seen` holds the keys already taken. */
  function UniqByFrom<T(==,!new), K(==)>(s: seq<T>, key: T -> K, seen: set<K>): (r: seq<T>)
    ensures IsSubseq(r, s)
    ensures forall y :: y in r ==> key(y) !in seen
    ensures forall i, j :: 0 <= i < j < |r| ==> key(r[i]) != key(r[j])
    decreases |s|
  {
    if s == [] then []
    else if key(s[0]) in seen then UniqByFrom(s[1..], key, seen)
    else
      var rest := UniqByFrom(s[1..], key, seen + {key(s[0])});
      assert forall y :: y in [s[0]] + rest ==> y == s[0] || y in rest;
      [s[0]] + rest
  }

  lemma {:induction false} UniqByFromKeys<T(!new), K>(s: seq<T>, key: T -> K, seen: set<K>)
    ensures KeySet(UniqByFrom(s, key, seen), key) == KeySet(s, key) - seen
    decreases |s|
  {
    if s != [] {
      var seen' := if key(s[0]) in seen then seen else seen + {key(s[0])};
      UniqByFromKeys(s[1..], key, seen');
      assert KeySet(s, key) == {key(s[0])} + KeySet(s[1..], key) by {
        assert forall x :: x in s <==> x == s[0] || x in s[1..];
      }
      if key(s[0]) !in seen {
        var rest := UniqByFrom(s[1..], key, seen');
        assert forall x :: x in [s[0]] + rest <==> x == s[0] || x in rest;
        assert KeySet([s[0]] + rest, key) == {key(s[0])} + KeySet(rest, key);
      }
    }
  }

  lemma {:induction false} UniqByFromFirsts<T(!new), K>(s: seq<T>, key: T -> K, seen: set<K>, i: int)
    requires 0 <= i < |s| && key(s[i]) !in seen && FirstOfKey(s, key, i)
    ensures s[i] in UniqByFrom(s, key, seen)
    decreases |s|
  {
    if i > 0 {
      var seen' := if key(s[0]) in seen then seen else seen + {key(s[0])};
      assert s[1..][i - 1] == s[i];
      UniqByFromFirsts(s[1..], key, seen', i - 1);
    }
  }

  /** Every key of the input is represented in the output, and no other. */
  lemma UniqByKeys<T(!new), K>(s: seq<T>, key: T -> K)
    ensures KeySet(UniqBy(s, key), key) == KeySet(s, key)
  {
    UniqByFromKeys(s, key, {});
  }

  /** Every element's key is the key of some kept element, found at the returned position. */
  lemma UniqByPosition<T(!new), K>(s: seq<T>, key: T -> K, x: T) returns (k: int)
    requires x in s
    ensures 0 <= k < |UniqBy(s, key)| && key(UniqBy(s, key)[k]) == key(x)
  {
    var u := UniqBy(s, key);
    UniqByKeys(s, key);
    assert key(x) in KeySet(s, key);
    var y :| y in u && key(y) == key(x);
    k :| 0 <= k < |u| && u[k] == y;
  }

  /** The element kept for each key is its first occurrence. */
  lemma UniqByKeepsFirsts<T(!new), K>(s: seq<T>, key: T -> K, i: int)
    requires 0 <= i < |s| && FirstOfKey(s, key, i)
    ensures s[i] in UniqBy(s, key)
  {
    UniqByFromFirsts(s, key, {}, i);
  }

  /** The first element of `s` with key `k`. */
  function First<T, K(==)>(s: seq<T>, key: T -> K, k: K): (r: Option<T>)
    ensures r.Some? ==> r.value in s && key(r.value) == k
    ensures r.None? ==> forall x :: x in s ==> key(x) != k
    decreases |s|
  {
    if s == [] then None
    else if key(s[0]) == k then Some(s[0])
    else First(s[1..], key, k)
  }

  lemma {:induction false} UniqByFromFirst<T(!new), K>(s: seq<T>, key: T -> K, seen: set<K>, y: T)
    requires y in UniqByFrom(s, key, seen)
    ensures First(s, key, key(y)) == Some(y)
    decreases |s|
  {
    if key(s[0]) in seen {
      UniqByFromFirst(s[1..], key, seen, y);
    } else if y != s[0] {
      var rest := UniqByFrom(s[1..], key, seen + {key(s[0])});
      assert y in rest;
      UniqByFromFirst(s[1..], key, seen + {key(s[0])}, y);
    }
  }

  /** Every element uniqBy keeps is the first element of the input with its key. */
  lemma UniqByFirst<T(!new), K>(s: seq<T>, key: T -> K, y: T)
    requires y in UniqBy(s, key)
    ensures First(s, key, key(y)) == Some(y)
  {
    UniqByFromFirst(s, key, {}, y);
  }

  /** The first element of each key of the input is kept by uniqBy. */
  lemma UniqByKeepsFirst<T(!new), K>(s: seq<T>, key: T -> K, k: K)
    requires First(s, key, k).Some?
    ensures First(s, key, k).value in UniqBy(s, key)
  {
    var x := First(s, key, k).value;
    UniqByKeys(s, key);
    assert k in KeySet(s, key);
    var y :| y in UniqBy(s, key) && key(y) == k;
    UniqByFirst(s, key, y);
  }

  /** Filtering away only elements of other keys does not change the first element of key `k`. */
  lemma {:induction false} FirstFilter<T(!new), K>(s: seq<T>, p: T -> bool, key: T -> K, k: K)
    requires forall x :: x in s && key(x) == k ==> p(x)
    ensures First(Filter(s, p), key, k) == First(s, key, k)
    decreases |s|
  {
    if s != [] {
      FirstFilter(s[1..], p, key, k);
    }
  }

  /** A second, narrower filter makes the first one redundant. */
  lemma {:induction false} FilterFilter<T(!new)>(s: seq<T>, p: T -> bool, q: T -> bool)
    requires forall x :: x in s && q(x) ==> p(x)
    ensures Filter(Filter(s, p), q) == Filter(s, q)
    decreases |s|
  {
    if s != [] {
      FilterFilter(s[1..], p, q);
    }
  }

  lemma {:induction false} UniqByFromSnoc<T(!new), K>(s: seq<T>, key: T -> K, seen: set<K>, x: T)
    ensures UniqByFrom(s + [x], key, seen) ==
      UniqByFrom(s, key, seen) + (if key(x) in seen || key(x) in KeySet(s, key) then [] else [x])
    decreases |s|
  {
    if s == [] {
      assert [x][1..] == [];
    } else {
      assert (s + [x])[1..] == s[1..] + [x];
      var seen' := if key(s[0]) in seen then seen else seen + {key(s[0])};
      var tail := if key(x) in seen' || key(x) in KeySet(s[1..], key) then [] else [x];
      UniqByFromSnoc(s[1..], key, seen', x);
      assert KeySet(s, key) == {key(s[0])} + KeySet(s[1..], key) by {
        assert forall y :: y in s <==> y == s[0] || y in s[1..];
      }
      assert tail == if key(x) in seen || key(x) in KeySet(s, key) then [] else [x];
      if key(s[0]) !in seen {
        var rest := UniqByFrom(s[1..], key, seen');
        assert [s[0]] + (rest + tail) == [s[0]] + rest + tail;
      }
    }
  }

  /** One more element is kept exactly when its key is new. */
  lemma UniqBySnoc<T(!new), K>(s: seq<T>, key: T -> K, x: T)
    ensures UniqBy(s + [x], key) == UniqBy(s, key) + (if key(x) in KeySet(s, key) then [] else [x])
  {
    UniqByFromSnoc(s, key, {}, x);
  }
}
