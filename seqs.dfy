/** Generic sequence operations: the row filters and column maps of a data frame. */
module Seqs {

  /** The rows of `s` that satisfy `p`, in their original order (a boolean mask). */
  function Filter<T(!new)>(p: T -> bool, s: seq<T>): (r: seq<T>)
    ensures |r| <= |s|
    ensures forall x :: x in r <==> x in s && p(x)
  {
    if s == [] then [] else (if p(s[0]) then [s[0]] else []) + Filter(p, s[1..])
  }

  /** A filter keeps every copy of a row it passes and no copy of one it rejects. */
  lemma {:induction false} FilterMultiset<T(!new)>(p: T -> bool, s: seq<T>)
    ensures forall x :: multiset(Filter(p, s))[x] == if p(x) then multiset(s)[x] else 0
  {
    if s != [] {
      FilterMultiset(p, s[1..]);
      assert s == [s[0]] + s[1..];
    }
  }

  /** `f` applied to every row, in order. */
  function MapSeq<A, B>(f: A -> B, s: seq<A>): (r: seq<B>)
    ensures |r| == |s|
    ensures forall i :: 0 <= i < |s| ==> r[i] == f(s[i])
  {
    if s == [] then [] else [f(s[0])] + MapSeq(f, s[1..])
  }

  /** `r` is obtained from `s` by deleting elements, without reordering or duplicating any. */
  predicate IsSubsequence<T(==)>(r: seq<T>, s: seq<T>)
    decreases |s|
  {
    if r == [] then true
    else if s == [] then false
    else (r[0] == s[0] && IsSubsequence(r[1..], s[1..])) || IsSubsequence(r, s[1..])
  }

  lemma {:induction false} FilterIsSubsequence<T(!new)>(p: T -> bool, s: seq<T>)
    ensures IsSubsequence(Filter(p, s), s)
  {
    if s != [] {
      FilterIsSubsequence(p, s[1..]);
      var rest := Filter(p, s[1..]);
      if p(s[0]) {
        assert Filter(p, s) == [s[0]] + rest;
        assert ([s[0]] + rest)[1..] == rest;
      } else {
        assert Filter(p, s) == rest;
      }
    }
  }

  /** A filter that every row passes keeps the sequence as it is. */
  lemma {:induction false} FilterAll<T(!new)>(p: T -> bool, s: seq<T>)
    requires forall x :: x in s ==> p(x)
    ensures Filter(p, s) == s
  {
    if s != [] {
      assert s[0] in s;
      forall x | x in s[1..] ensures p(x) { assert x in s; }
      FilterAll(p, s[1..]);
      assert s == [s[0]] + s[1..];
    }
  }

  /** Two filters in a row are one filter on the conjunction. */
  lemma {:induction false} FilterFilter<T(!new)>(p: T -> bool, q: T -> bool, pq: T -> bool, s: seq<T>)
    requires forall x :: pq(x) == (q(x) && p(x))
    ensures Filter(p, Filter(q, s)) == Filter(pq, s)
  {
    if s != [] {
      FilterFilter(p, q, pq, s[1..]);
      var rest := Filter(q, s[1..]);
      if q(s[0]) {
        assert Filter(q, s) == [s[0]] + rest;
        assert ([s[0]] + rest)[1..] == rest;
        assert Filter(p, [s[0]] + rest) == (if p(s[0]) then [s[0]] else []) + Filter(p, rest);
      } else {
        assert Filter(q, s) == rest;
        assert !pq(s[0]);
      }
    }
  }

  /** Filtering after a map is mapping after filtering on the composed predicate. */
  lemma {:induction false} FilterMap<A(!new), B(!new)>(p: B -> bool, f: A -> B, pf: A -> bool, s: seq<A>)
    requires forall x :: pf(x) == p(f(x))
    ensures Filter(p, MapSeq(f, s)) == MapSeq(f, Filter(pf, s))
  {
    if s != [] {
      FilterMap(p, f, pf, s[1..]);
      var m := MapSeq(f, s);
      assert m == [f(s[0])] + MapSeq(f, s[1..]);
      assert m[1..] == MapSeq(f, s[1..]);
      var rest := Filter(pf, s[1..]);
      if pf(s[0]) {
        assert Filter(pf, s) == [s[0]] + rest;
        assert ([s[0]] + rest)[1..] == rest;
      }
    }
  }

  /** Strictly ascending: a sequence of distinct keys in sorted order. */
  predicate StrictlyIncreasing(s: seq<int>) {
    forall i, j :: 0 <= i < j < |s| ==> s[i] < s[j]
  }

  /** Adds key `c` to a sorted key list, keeping it sorted and free of repeats. */
  function InsertKey(xs: seq<int>, c: int): (r: seq<int>)
    requires StrictlyIncreasing(xs)
    ensures StrictlyIncreasing(r)
    ensures forall x :: x in r <==> x in xs || x == c
  {
    if xs == [] then [c]
    else if c < xs[0] then [c] + xs
    else if c == xs[0] then xs
    else
      var rest := InsertKey(xs[1..], c);
      assert forall j :: 0 <= j < |rest| ==> rest[j] in rest && xs[0] < rest[j];
      [xs[0]] + rest
  }
}
