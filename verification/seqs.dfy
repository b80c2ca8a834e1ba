/** Generic facts about filtering sequences, shared by the character filter and the publication filter. */
module Seqs {

  /** The elements of `s` that satisfy `p`, in their original order (Python's `filter`). */
  function Filter<T>(s: seq<T>, p: T -> bool): (r: seq<T>)
    ensures |r| <= |s|
    ensures forall i :: 0 <= i < |r| ==> p(r[i])
  {
    if s == [] then []
    else if p(s[0]) then [s[0]] + Filter(s[1..], p)
    else Filter(s[1..], p)
  }

  /** An element survives the filter exactly when it occurs in the input and satisfies the predicate. */
  lemma {:induction false} FilterMembership<T>(s: seq<T>, p: T -> bool, x: T)
    ensures x in Filter(s, p) <==> x in s && p(x)
  {
    if s != [] {
      FilterMembership(s[1..], p, x);
      assert x in s <==> x == s[0] || x in s[1..];
    }
  }

  /** A filter keeps every copy of an element that satisfies the predicate and no copy of one that does not. */
  lemma {:induction false} FilterMultiplicity<T>(s: seq<T>, p: T -> bool, x: T)
    ensures multiset(Filter(s, p))[x] == if p(x) then multiset(s)[x] else 0
  {
    if s != [] {
      FilterMultiplicity(s[1..], p, x);
      assert s == [s[0]] + s[1..];
      assert multiset(s) == multiset{s[0]} + multiset(s[1..]);
      if p(s[0]) {
        assert Filter(s, p) == [s[0]] + Filter(s[1..], p);
        assert multiset(Filter(s, p)) == multiset{s[0]} + multiset(Filter(s[1..], p));
      }
    }
  }

  /** A slice of the second part of an append, read through the whole sequence. */
  lemma SliceOfAppend<T>(a: seq<T>, b: seq<T>, lo: int, hi: int)
    requires 0 <= lo <= hi <= |b|
    ensures (a + b)[|a| + lo..|a| + hi] == b[lo..hi]
  {
    assert forall i :: 0 <= i < hi - lo ==> (a + b)[|a| + lo..|a| + hi][i] == b[lo..hi][i];
  }

  /** A slice of the first part of an append, read through the whole sequence. */
  lemma SliceOfAppendFirst<T>(a: seq<T>, b: seq<T>, lo: int, hi: int)
    requires 0 <= lo <= hi <= |a|
    ensures (a + b)[lo..hi] == a[lo..hi]
  {
    assert forall i :: 0 <= i < hi - lo ==> (a + b)[lo..hi][i] == a[lo..hi][i];
  }

  /** The first part of an append, read through the whole sequence. */
  lemma PrefixOfAppend<T>(a: seq<T>, b: seq<T>)
    ensures (a + b)[0..|a|] == a
  {
    assert forall i :: 0 <= i < |a| ==> (a + b)[0..|a|][i] == a[i];
  }

  /** The parts joined in order. */
  function Concat<T>(ss: seq<seq<T>>): (r: seq<T>) {
    if ss == [] then [] else ss[0] + Concat(ss[1..])
  }

  /** Part `k` of a concatenation sits right after the parts before it. */
  lemma {:induction false} ConcatSlice<T>(ss: seq<seq<T>>, k: int)
    requires 0 <= k < |ss|
    ensures |Concat(ss[..k])| + |ss[k]| == |Concat(ss[..k + 1])| <= |Concat(ss)|
    ensures Concat(ss)[|Concat(ss[..k])|..|Concat(ss[..k + 1])|] == ss[k]
    decreases k
  {
    var rest := Concat(ss[1..]);
    assert Concat(ss) == ss[0] + rest;
    if k == 0 {
      assert ss[..0] == [] && ss[..1] == [ss[0]] && [ss[0]][1..] == [];
      assert Concat(ss[..1]) == ss[0] + Concat([]);
      PrefixOfAppend(ss[0], rest);
    } else {
      ConcatSlice(ss[1..], k - 1);
      assert ss[..k][0] == ss[0] && ss[..k][1..] == ss[1..][..k - 1];
      assert ss[..k + 1][0] == ss[0] && ss[..k + 1][1..] == ss[1..][..k];
      assert ss[1..][k - 1] == ss[k];
      assert Concat(ss[..k]) == ss[0] + Concat(ss[1..][..k - 1]);
      assert Concat(ss[..k + 1]) == ss[0] + Concat(ss[1..][..k]);
      SliceOfAppend(ss[0], rest, |Concat(ss[1..][..k - 1])|, |Concat(ss[1..][..k])|);
    }
  }

  /** `a` can be obtained from `b` by deleting elements (each kept element keeps its relative order). */
  predicate IsSubsequence<T(==)>(a: seq<T>, b: seq<T>)
    decreases |b|
  {
    if b == [] then a == []
    else (a != [] && a[0] == b[0] && IsSubsequence(a[1..], b[1..])) || IsSubsequence(a, b[1..])
  }

  /** Filtering only ever deletes elements. */
  lemma {:induction false} FilterIsSubsequence<T>(s: seq<T>, p: T -> bool)
    ensures IsSubsequence(Filter(s, p), s)
  {
    if s != [] {
      FilterIsSubsequence(s[1..], p);
      if p(s[0]) {
        var r := Filter(s, p);
        assert r[0] == s[0] && r[1..] == Filter(s[1..], p);
      }
    }
  }

  /** Two successive filters keep exactly what one filter by the conjunction keeps. */
  lemma {:induction false} FilterFilter<T>(s: seq<T>, p: T -> bool, q: T -> bool, pq: T -> bool)
    requires forall x :: pq(x) == (p(x) && q(x))
    ensures Filter(Filter(s, p), q) == Filter(s, pq)
  {
    if s != [] {
      FilterFilter(s[1..], p, q, pq);
      if p(s[0]) {
        assert Filter(s, p) == [s[0]] + Filter(s[1..], p);
        var fp := Filter(s, p);
        assert fp[0] == s[0] && fp[1..] == Filter(s[1..], p);
      }
    }
  }

  /** A filter changes nothing exactly when every element already satisfies the predicate. */
  lemma {:induction false} FilterFixedPoint<T>(s: seq<T>, p: T -> bool)
    ensures Filter(s, p) == s <==> forall i :: 0 <= i < |s| ==> p(s[i])
  {
    if forall i :: 0 <= i < |s| ==> p(s[i]) {
      if s != [] {
        assert p(s[0]);
        assert forall i :: 0 <= i < |s[1..]| ==> p(s[1..][i]) by {
          forall i | 0 <= i < |s[1..]| ensures p(s[1..][i]) {
            assert s[1..][i] == s[i + 1];
          }
        }
        FilterFixedPoint(s[1..], p);
        assert s == [s[0]] + s[1..];
      }
    }
  }

  /** Filtering twice by the same predicate is filtering once. */
  lemma FilterIdempotent<T>(s: seq<T>, p: T -> bool)
    ensures Filter(Filter(s, p), p) == Filter(s, p)
  {
    FilterFixedPoint(Filter(s, p), p);
  }
}
