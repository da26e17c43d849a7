/** Sequence combinators standing in for JavaScript's `Array.prototype.filter`
    and `Array.prototype.map`, with the facts the pages rely on: a filter keeps
    exactly the passing elements, in their original order. */
module Seqs {

  /** No element occurs twice. */
  predicate Distinct<T(==)>(s: seq<T>) {
    forall i, j :: 0 <= i < j < |s| ==> s[i] != s[j]
  }

  /** `s.filter(p)`: the elements of `s` that pass `p`. */
  function Filter<T>(s: seq<T>, p: T -> bool): (r: seq<T>)
    ensures |r| <= |s|
    ensures forall k :: 0 <= k < |r| ==> r[k] in s && p(r[k])
    ensures forall i :: 0 <= i < |s| && p(s[i]) ==> s[i] in r
  {
    if s == [] then []
    else
      var init := Filter(s[..|s| - 1], p);
      assert s == s[..|s| - 1] + [s[|s| - 1]];
      if p(s[|s| - 1]) then init + [s[|s| - 1]] else init
  }

  /** The indices of `s` whose element passes `p`, in increasing order. */
  function Positions<T>(s: seq<T>, p: T -> bool): (idx: seq<nat>)
    ensures forall k :: 0 <= k < |idx| ==> idx[k] < |s| && p(s[idx[k]])
    ensures forall i :: 0 <= i < |s| && p(s[i]) ==> i in idx
    ensures forall k, l :: 0 <= k < l < |idx| ==> idx[k] < idx[l]
  {
    if s == [] then []
    else
      var init := Positions(s[..|s| - 1], p);
      if p(s[|s| - 1]) then init + [|s| - 1] else init
  }

  /** `r` is `s` at the strictly increasing indices `idx`, and `idx` holds
      exactly the indices whose element passes `p`: a stable selection. */
  ghost predicate IsStableSelection<T>(r: seq<T>, s: seq<T>, idx: seq<nat>, p: T -> bool) {
    && |idx| == |r|
    && (forall k :: 0 <= k < |idx| ==> idx[k] < |s| && r[k] == s[idx[k]])
    && (forall k, l :: 0 <= k < l < |idx| ==> idx[k] < idx[l])
    && (forall i :: 0 <= i < |s| ==> (i in idx <==> p(s[i])))
  }

  lemma FilterSelects<T>(s: seq<T>, p: T -> bool)
    ensures IsStableSelection(Filter(s, p), s, Positions(s, p), p)
  {
    FilterAtPositions(s, p);
    var idx := Positions(s, p);
    forall i | 0 <= i < |s| && i in idx
      ensures p(s[i])
    {
      var k :| 0 <= k < |idx| && idx[k] == i;
    }
  }

  /** The `k`-th element kept by `Filter` is the element at the `k`-th
      passing position. */
  lemma {:induction false} FilterAtPositions<T>(s: seq<T>, p: T -> bool)
    ensures |Filter(s, p)| == |Positions(s, p)|
    ensures forall k :: 0 <= k < |Filter(s, p)| ==> Filter(s, p)[k] == s[Positions(s, p)[k]]
  {
    if s != [] {
      var n := |s| - 1;
      var init := s[..n];
      FilterAtPositions(init, p);
      var r0, idx0 := Filter(init, p), Positions(init, p);
      var r, idx := Filter(s, p), Positions(s, p);
      if p(s[n]) {
        assert r == r0 + [s[n]];
        assert idx == idx0 + [n];
      } else {
        assert r == r0;
        assert idx == idx0;
      }
      forall k | 0 <= k < |r|
        ensures r[k] == s[idx[k]]
      {
        if k < |r0| {
          assert r[k] == r0[k] == init[idx0[k]];
        }
      }
    }
  }

  /** A filter that every element passes is the identity. */
  lemma {:induction false} FilterKeepsAll<T>(s: seq<T>, p: T -> bool)
    requires forall i :: 0 <= i < |s| ==> p(s[i])
    ensures Filter(s, p) == s
  {
    if s != [] {
      var init := s[..|s| - 1];
      FilterKeepsAll(init, p);
      assert init + [s[|s| - 1]] == s;
    }
  }

  /** Filtering the output of a filter again with the same test changes nothing. */
  lemma FilterIdempotent<T>(s: seq<T>, p: T -> bool)
    ensures Filter(Filter(s, p), p) == Filter(s, p)
  {
    var r := Filter(s, p);
    FilterKeepsAll(r, p);
  }

  /** Two tests that agree on every element of `s` select the same elements. */
  lemma {:induction false} FilterCongruent<T>(s: seq<T>, p: T -> bool, q: T -> bool)
    requires forall i :: 0 <= i < |s| ==> p(s[i]) == q(s[i])
    ensures Filter(s, p) == Filter(s, q)
  {
    if s != [] {
      var init := s[..|s| - 1];
      FilterCongruent(init, p, q);
    }
  }

  /** Filtering keeps a duplicate-free sequence duplicate-free. */
  lemma {:induction false} FilterDistinct<T>(s: seq<T>, p: T -> bool)
    requires Distinct(s)
    ensures Distinct(Filter(s, p))
  {
    if s != [] {
      var init := s[..|s| - 1];
      FilterDistinct(init, p);
      var last := s[|s| - 1];
      if p(last) {
        assert last !in init;
      }
    }
  }

  /** `s.map(f)`. */
  function Map<T, U>(s: seq<T>, f: T -> U): (r: seq<U>)
    ensures |r| == |s|
    ensures forall i :: 0 <= i < |s| ==> r[i] == f(s[i])
  {
    if s == [] then [] else Map(s[..|s| - 1], f) + [f(s[|s| - 1])]
  }
}
