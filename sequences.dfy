/** Order-preserving row filtering, the sequence counterpart of dropping rows from a frame. */
module Sequences {

  /** The elements of `s` that satisfy `p`, in their original order. */
  function Filter<T>(s: seq<T>, p: T -> bool): (r: seq<T>)
    ensures |r| <= |s|
  {
    if s == [] then []
    else if p(s[0]) then [s[0]] + Filter(s[1..], p)
    else Filter(s[1..], p)
  }

  /** A row survives filtering exactly when it was in the input and satisfies `p`. */
  lemma {:induction false} FilterMembers<T>(s: seq<T>, p: T -> bool)
    ensures forall k :: 0 <= k < |Filter(s, p)| ==> Filter(s, p)[k] in s && p(Filter(s, p)[k])
    ensures forall i :: 0 <= i < |s| && p(s[i]) ==> s[i] in Filter(s, p)
  {
    if s != [] {
      FilterMembers(s[1..], p);
      var ft := Filter(s[1..], p);
      forall k | 0 <= k < |Filter(s, p)| ensures Filter(s, p)[k] in s && p(Filter(s, p)[k]) {
        if p(s[0]) && k > 0 {
          assert Filter(s, p)[k] == ft[k - 1];
        }
      }
      forall i | 0 <= i < |s| && p(s[i]) ensures s[i] in Filter(s, p) {
        if i > 0 {
          assert s[1..][i - 1] == s[i];
        }
      }
    }
  }

  /** The positions, counted from `base`, of the elements of `s` that satisfy `p`. */
  function KeptFrom<T>(s: seq<T>, p: T -> bool, base: nat): seq<nat>
  {
    if s == [] then []
    else (if p(s[0]) then [base] else []) + KeptFrom(s[1..], p, base + 1)
  }

  /** The positions of `s` whose element satisfies `p`, in increasing order. */
  function Kept<T>(s: seq<T>, p: T -> bool): seq<nat>
  {
    KeptFrom(s, p, 0)
  }

  lemma {:induction false} KeptFromSurvivors<T>(s: seq<T>, p: T -> bool, base: nat)
    ensures |KeptFrom(s, p, base)| == |Filter(s, p)|
    ensures forall k :: 0 <= k < |KeptFrom(s, p, base)| ==>
      base <= KeptFrom(s, p, base)[k] < base + |s| && Filter(s, p)[k] == s[KeptFrom(s, p, base)[k] - base]
  {
    if s != [] {
      KeptFromSurvivors(s[1..], p, base + 1);
      var tail, ft := KeptFrom(s[1..], p, base + 1), Filter(s[1..], p);
      var kept, f := KeptFrom(s, p, base), Filter(s, p);
      if p(s[0]) {
        assert kept == [base] + tail;
        assert f == [s[0]] + ft;
        forall k | 1 <= k < |kept| ensures base <= kept[k] < base + |s| && f[k] == s[kept[k] - base] {
          assert kept[k] == tail[k-1];
          assert f[k] == ft[k-1];
          assert s[1..][tail[k-1] - base - 1] == s[tail[k-1] - base];
        }
      } else {
        assert kept == tail;
        assert f == ft;
        forall k | 0 <= k < |kept| ensures base <= kept[k] < base + |s| && f[k] == s[kept[k] - base] {
          assert s[1..][tail[k] - base - 1] == s[tail[k] - base];
        }
      }
    }
  }

  lemma {:induction false} KeptFromIncreasing<T>(s: seq<T>, p: T -> bool, base: nat)
    ensures forall k :: 0 <= k < |KeptFrom(s, p, base)| ==> base <= KeptFrom(s, p, base)[k]
    ensures forall k, m :: 0 <= k < m < |KeptFrom(s, p, base)| ==> KeptFrom(s, p, base)[k] < KeptFrom(s, p, base)[m]
  {
    if s != [] {
      KeptFromIncreasing(s[1..], p, base + 1);
    }
  }

  lemma {:induction false} KeptFromComplete<T>(s: seq<T>, p: T -> bool, base: nat)
    ensures forall i :: 0 <= i < |s| && p(s[i]) ==> base + i in KeptFrom(s, p, base)
  {
    if s != [] {
      KeptFromComplete(s[1..], p, base + 1);
      forall i | 0 <= i < |s| && p(s[i]) ensures base + i in KeptFrom(s, p, base) {
        if i > 0 {
          assert s[1..][i - 1] == s[i];
        }
      }
    }
  }

  /** Filtering keeps exactly the positions that satisfy `p`, in input order:
      the k-th survivor is the element at the k-th kept position, the kept
      positions increase strictly, and every position satisfying `p` is kept. */
  lemma FilterKeepsOrder<T>(s: seq<T>, p: T -> bool)
    ensures |Kept(s, p)| == |Filter(s, p)|
    ensures forall k :: 0 <= k < |Kept(s, p)| ==> Kept(s, p)[k] < |s| && Filter(s, p)[k] == s[Kept(s, p)[k]]
    ensures forall k, m :: 0 <= k < m < |Kept(s, p)| ==> Kept(s, p)[k] < Kept(s, p)[m]
    ensures forall i :: 0 <= i < |s| && p(s[i]) ==> i in Kept(s, p)
  {
    KeptFromSurvivors(s, p, 0);
    KeptFromIncreasing(s, p, 0);
    KeptFromComplete(s, p, 0);
  }

  /** Filtering twice is filtering once by the conjunction `pq` of the two tests. */
  lemma {:induction false} FilterTwice<T>(s: seq<T>, p: T -> bool, q: T -> bool, pq: T -> bool)
    requires forall x :: pq(x) == (p(x) && q(x))
    ensures Filter(Filter(s, p), q) == Filter(s, pq)
  {
    if s != [] {
      FilterTwice(s[1..], p, q, pq);
      if p(s[0]) {
        assert Filter(s, p) == [s[0]] + Filter(s[1..], p);
        assert ([s[0]] + Filter(s[1..], p))[1..] == Filter(s[1..], p);
      }
    }
  }

  predicate Distinct<T(==)>(s: seq<T>)
  {
    forall i, j :: 0 <= i < j < |s| ==> s[i] != s[j]
  }

  /** Filtering a sequence without repetitions gives one without repetitions. */
  lemma {:induction false} FilterDistinct<T>(s: seq<T>, p: T -> bool)
    requires Distinct(s)
    ensures Distinct(Filter(s, p))
  {
    if s != [] {
      FilterDistinct(s[1..], p);
      FilterMembers(s[1..], p);
      var ft := Filter(s[1..], p);
      if p(s[0]) {
        forall k | 0 <= k < |ft| ensures ft[k] != s[0] {
          var i :| 0 <= i < |s[1..]| && s[1..][i] == ft[k];
          assert s[i + 1] == ft[k];
        }
      }
    }
  }
}
