/**
 * The two pandas primitives rfm_scoring relies on: `qcut` into five quantile bins with
 * explicit labels, and `rank(method='first')`.
 */
module Binning {
  import opened Wrappers

  // ---------------------------------------------------------------------------
  // Sorting, from which the quantiles are read.

  predicate Sorted(s: seq<int>) {
    forall i, j :: 0 <= i <= j < |s| ==> s[i] <= s[j]
  }

  function Insert(x: int, s: seq<int>): (r: seq<int>)
    requires Sorted(s)
    ensures Sorted(r)
    ensures multiset(r) == multiset(s) + multiset{x}
    ensures |r| == |s| + 1 && (r[0] == x || (s != [] && r[0] == s[0]))
  {
    if s == [] then [x]
    else if x <= s[0] then
      SortedCons(x, s);
      [x] + s
    else
      var rest := Insert(x, s[1..]);
      InsertStep(x, s, rest);
      [s[0]] + rest
  }

  /** A sorted sequence stays sorted under a head no larger than its first element. */
  lemma {:induction false} SortedCons(y: int, rest: seq<int>)
    requires Sorted(rest) && (rest != [] ==> y <= rest[0])
    ensures Sorted([y] + rest)
  {
    var r := [y] + rest;
    forall i, j | 0 <= i <= j < |r| ensures r[i] <= r[j] {
      if 0 < i {
        assert r[i] == rest[i - 1] && r[j] == rest[j - 1];
      } else if 0 < j {
        assert r[j] == rest[j - 1] && rest[0] <= rest[j - 1];
      }
    }
  }

  /** The recursive case of Insert: the head of `s` goes back in front of the insertion into its tail. */
  lemma {:induction false} InsertStep(x: int, s: seq<int>, rest: seq<int>)
    requires Sorted(s) && s != [] && s[0] < x
    requires Sorted(rest) && multiset(rest) == multiset(s[1..]) + multiset{x}
    requires |rest| == |s| && (rest[0] == x || (s[1..] != [] && rest[0] == s[1..][0]))
    ensures Sorted([s[0]] + rest)
    ensures multiset([s[0]] + rest) == multiset(s) + multiset{x}
  {
    assert s == [s[0]] + s[1..];
    SortedCons(s[0], rest);
  }

  function Sort(s: seq<int>): (r: seq<int>)
    ensures Sorted(r)
    ensures multiset(r) == multiset(s)
    ensures |r| == |s|
  {
    if s == [] then []
    else
      assert s == [s[0]] + s[1..];
      Insert(s[0], Sort(s[1..]))
  }

  // ---------------------------------------------------------------------------
  // Quintile edges: the quantiles at 0, 1/5, ..., 5/5, linearly interpolated.

  /** Where the quantile k/5 of n sorted values falls: between index lo and lo + 1. */
  lemma {:induction false} QuantileIndex(n: int, k: int)
    requires n > 0 && 0 <= k <= 5
    ensures 0 <= ((n - 1) * k) / 5 < n
    ensures ((n - 1) * k) % 5 != 0 ==> ((n - 1) * k) / 5 + 1 < n
  {
    var h := (n - 1) * k;
    assert 0 <= h <= (n - 1) * 5 by {
      assert (n - 1) * k <= (n - 1) * 5 by {
        assert (n - 1) * (5 - k) >= 0;
      }
    }
  }

  /** The quantile at fraction k/5 of the sorted values `s`, by linear interpolation. */
  function Quantile(s: seq<int>, k: int): real
    requires |s| > 0 && 0 <= k <= 5
  {
    QuantileIndex(|s|, k);
    var h := (|s| - 1) * k;
    var lo := h / 5;
    if h % 5 == 0 then s[lo] as real
    else s[lo] as real + ((h % 5) as real / 5.0) * ((s[lo + 1] - s[lo]) as real)
  }

  /** The six bin edges `qcut(values, 5)` computes. */
  function Edges(values: seq<int>): (e: seq<real>)
    requires |values| > 0
    ensures |e| == 6
  {
    var s := Sort(values);
    [Quantile(s, 0), Quantile(s, 1), Quantile(s, 2), Quantile(s, 3), Quantile(s, 4), Quantile(s, 5)]
  }

  /**
   * No two elements coincide. On the quintile edges: dropping duplicate edges leaves all six.
   */
  predicate Distinct<T(==)>(s: seq<T>) {
    forall i, j :: 0 <= i < j < |s| ==> s[i] != s[j]
  }

  /** The 1-based bin of `v`: one more than the number of inner edges below it. */
  function Bin(e: seq<real>, v: int): (b: int)
    requires |e| == 6
    ensures 1 <= b <= 5
  {
    var x := v as real;
    1 + (if e[1] < x then 1 else 0) + (if e[2] < x then 1 else 0)
      + (if e[3] < x then 1 else 0) + (if e[4] < x then 1 else 0)
  }

  /**
   * `qcut(values, 5, labels, duplicates='drop')`: each value gets the label of its bin;
   * when edges coincide the labels no longer match the bins and pandas raises (None).
   */
  function QCut(values: seq<int>, labels: seq<int>): (r: Option<seq<int>>)
    requires |values| > 0 && |labels| == 5
    ensures r.Some? <==> Distinct(Edges(values))
    ensures r.Some? ==> |r.value| == |values|
    ensures r.Some? ==> forall i :: 0 <= i < |values| ==> r.value[i] == labels[Bin(Edges(values), values[i]) - 1]
  {
    var e := Edges(values);
    if !Distinct(e) then None
    else Some(seq(|values|, i requires 0 <= i < |values| => labels[Bin(e, values[i]) - 1]))
  }

  // ---------------------------------------------------------------------------
  // Properties of the edges and the bins.

  /** A larger value never falls in a lower bin. */
  lemma {:induction false} BinMonotone(e: seq<real>, v: int, w: int)
    requires |e| == 6 && v <= w
    ensures Bin(e, v) <= Bin(e, w)
  {
  }

  /** The first edge is the smallest value and the last edge the largest. */
  lemma {:induction false} EdgesSpan(values: seq<int>)
    requires |values| > 0
    ensures forall v :: v in values ==> Edges(values)[0] <= v as real <= Edges(values)[5]
    ensures exists v :: v in values && Edges(values)[0] == v as real
    ensures exists v :: v in values && Edges(values)[5] == v as real
  {
    var s := Sort(values);
    QuantileEnds(s);
    SortedSpan(s, values);
    assert Edges(values)[0] == s[0] as real && Edges(values)[5] == s[|s| - 1] as real;
  }

  /** The quantiles at 0 and 5/5 are the first and the last sorted value. */
  lemma {:induction false} QuantileEnds(s: seq<int>)
    requires |s| > 0
    ensures Quantile(s, 0) == s[0] as real
    ensures Quantile(s, 5) == s[|s| - 1] as real
  {
    assert (|s| - 1) * 5 == 5 * (|s| - 1);
  }

  /** A sorted arrangement of `values` starts at their minimum and ends at their maximum. */
  lemma {:induction false} SortedSpan(s: seq<int>, values: seq<int>)
    requires Sorted(s) && multiset(s) == multiset(values) && s != []
    ensures forall v :: v in values ==> s[0] <= v <= s[|s| - 1]
    ensures s[0] in values && s[|s| - 1] in values
  {
    forall v | v in values ensures s[0] <= v <= s[|s| - 1] {
      assert v in multiset(s);
      var j :| 0 <= j < |s| && s[j] == v;
    }
    assert s[0] in multiset(values) && s[|s| - 1] in multiset(values);
  }

  lemma {:induction false} MulMonotone(f: real, g: real, d: real)
    requires 0.0 <= f <= g && 0.0 <= d
    ensures f * d <= g * d
  {
  }

  /** The quantile lies between the two sorted points it interpolates. */
  lemma {:induction false} QuantileBetween(s: seq<int>, k: int)
    requires Sorted(s) && |s| > 0 && 0 <= k <= 5
    ensures var h := (|s| - 1) * k;
      0 <= h / 5 < |s| && s[h / 5] as real <= Quantile(s, k) &&
      (h % 5 == 0 ==> Quantile(s, k) == s[h / 5] as real) &&
      (h % 5 != 0 ==> h / 5 + 1 < |s| && Quantile(s, k) <= s[h / 5 + 1] as real)
  {
    QuantileIndex(|s|, k);
    var h := (|s| - 1) * k;
    var lo, rem := h / 5, h % 5;
    if rem != 0 {
      var f := rem as real / 5.0;
      var d := (s[lo + 1] - s[lo]) as real;
      assert 0.0 <= f <= 1.0 && 0.0 <= d;
      MulMonotone(f, 1.0, d);
      MulMonotone(0.0, f, d);
      assert Quantile(s, k) == s[lo] as real + f * d;
      assert 0.0 <= f * d <= d;
      assert s[lo] as real + d == s[lo + 1] as real;
    }
  }

  /** Quantiles of sorted values do not decrease with the fraction. */
  lemma {:induction false} QuantileMonotone(s: seq<int>, k: int, next: int)
    requires Sorted(s) && |s| > 0 && 0 <= k < 5 && next == k + 1
    ensures Quantile(s, k) <= Quantile(s, next)
  {
    QuantileBetween(s, k);
    QuantileBetween(s, next);
    var n := |s|;
    var h, h' := (n - 1) * k, (n - 1) * next;
    assert h' == h + (n - 1);
    var lo, lo' := h / 5, h' / 5;
    assert lo <= lo';
    if lo == lo' {
      var fr, fr' := h % 5, h' % 5;
      assert fr <= fr';
      if fr != 0 {
        var d := (s[lo + 1] - s[lo]) as real;
        MulMonotone(fr as real / 5.0, fr' as real / 5.0, d);
      }
    } else {
      assert h % 5 != 0 ==> s[lo + 1] <= s[lo'];
      assert s[lo] <= s[lo'];
    }
  }

  /** The edges of `qcut` never decrease. */
  lemma {:induction false} EdgesNonDecreasing(values: seq<int>)
    requires |values| > 0
    ensures var e := Edges(values); e[0] <= e[1] <= e[2] <= e[3] <= e[4] <= e[5]
  {
    var s := Sort(values);
    QuantileChain(s);
    assert Edges(values) == [Quantile(s, 0), Quantile(s, 1), Quantile(s, 2), Quantile(s, 3), Quantile(s, 4), Quantile(s, 5)];
  }

  lemma {:induction false} QuantileChain(s: seq<int>)
    requires Sorted(s) && |s| > 0
    ensures Quantile(s, 0) <= Quantile(s, 1) <= Quantile(s, 2) <= Quantile(s, 3) <= Quantile(s, 4) <= Quantile(s, 5)
  {
    QuantileMonotone(s, 0, 1);
    QuantileMonotone(s, 1, 2);
    QuantileMonotone(s, 2, 3);
    QuantileMonotone(s, 3, 4);
    QuantileMonotone(s, 4, 5);
  }

  /** Unique edges are therefore strictly increasing. */
  lemma {:induction false} EdgesIncreasing(values: seq<int>)
    requires |values| > 0 && Distinct(Edges(values))
    ensures forall i, j :: 0 <= i < j < 6 ==> Edges(values)[i] < Edges(values)[j]
  {
    var e := Edges(values);
    EdgesNonDecreasing(values);
    assert e[0] != e[1] && e[1] != e[2] && e[2] != e[3] && e[3] != e[4] && e[4] != e[5];
  }

  /**
   * The bins are the right-closed intervals between consecutive edges, the first one also
   * holding the lowest edge: bin 1 is [e0, e1] and bin j is (e(j-1), ej] for j = 2..5.
   */
  lemma {:induction false} BinInterval(values: seq<int>, v: int, j: int)
    requires |values| > 0 && Distinct(Edges(values)) && v in values && 1 <= j <= 5
    ensures Bin(Edges(values), v) == j <==>
              (j == 1 || Edges(values)[j - 1] < v as real) && v as real <= Edges(values)[j]
  {
    EdgesIncreasing(values);
    EdgesSpan(values);
  }

  // ---------------------------------------------------------------------------
  // rank(method='first'): distinct ranks 1..n, ties broken by position.

  /** Row i is ranked before row j: smaller value, or equal value and earlier position. */
  predicate Before(values: seq<int>, i: int, j: int)
    requires 0 <= i < |values| && 0 <= j < |values|
  {
    values[i] < values[j] || (values[i] == values[j] && i < j)
  }

  /** The rows ranked before row i. */
  function Preceding(values: seq<int>, i: int): set<int>
    requires 0 <= i < |values|
  {
    set j | 0 <= j < |values| && Before(values, j, i)
  }

  /** The rank of every row: one more than the number of rows ranked before it. */
  function RankFirst(values: seq<int>): (r: seq<int>)
    ensures |r| == |values|
  {
    seq(|values|, i requires 0 <= i < |values| => 1 + |Preceding(values, i)|)
  }

  /** The row positions 0..n-1. */
  function Indices(n: nat): (r: set<int>)
    ensures forall j :: j in r <==> 0 <= j < n
    ensures |r| == n
  {
    if n == 0 then {} else Indices(n - 1) + {n - 1}
  }

  lemma {:induction false} SubsetCard(a: set<int>, b: set<int>)
    requires a <= b
    ensures |a| <= |b|
  {
    assert b == a + (b - a);
  }

  lemma {:induction false} StrictSubsetCard(a: set<int>, b: set<int>, x: int)
    requires a <= b && x in b && x !in a
    ensures |a| < |b|
  {
    assert b == a + (b - a);
    assert x in b - a;
  }

  /** Ranks lie in 1..n. */
  lemma {:induction false} RankFirstBounds(values: seq<int>, i: int)
    requires 0 <= i < |values|
    ensures 1 <= RankFirst(values)[i] <= |values|
  {
    assert Preceding(values, i) <= Indices(|values|) - {i};
    assert |Indices(|values|) - {i}| == |values| - 1;
    SubsetCard(Preceding(values, i), Indices(|values|) - {i});
  }

  /** A row ranked before another gets a strictly smaller rank. */
  lemma {:induction false} RankFirstOrder(values: seq<int>, i: int, j: int)
    requires 0 <= i < |values| && 0 <= j < |values| && Before(values, i, j)
    ensures RankFirst(values)[i] < RankFirst(values)[j]
  {
    assert Preceding(values, i) <= Preceding(values, j);
    assert i in Preceding(values, j) && i !in Preceding(values, i);
    StrictSubsetCard(Preceding(values, i), Preceding(values, j), i);
  }

  /** The ranks are a permutation of 1..n: within 1..n and pairwise distinct. */
  lemma {:induction false} RankFirstPermutation(values: seq<int>)
    ensures forall i :: 0 <= i < |values| ==> 1 <= RankFirst(values)[i] <= |values|
    ensures forall i, j :: 0 <= i < |values| && 0 <= j < |values| && i != j ==>
              RankFirst(values)[i] != RankFirst(values)[j]
  {
    forall i | 0 <= i < |values| ensures 1 <= RankFirst(values)[i] <= |values| {
      RankFirstBounds(values, i);
    }
    forall i, j | 0 <= i < |values| && 0 <= j < |values| && i != j
      ensures RankFirst(values)[i] != RankFirst(values)[j]
    {
      if Before(values, i, j) {
        RankFirstOrder(values, i, j);
      } else {
        RankFirstOrder(values, j, i);
      }
    }
  }

  // ---------------------------------------------------------------------------
  // Sorted, the ranks are exactly 1..n, so for two or more rows their edges never coincide.

  /** The distinct values of a sequence. */
  function Elements(s: seq<int>): set<int> {
    set x | x in s
  }

  /** 1, 2, ..., n. */
  function Iota(n: nat): (r: seq<int>)
    ensures |r| == n && forall i :: 0 <= i < n ==> r[i] == i + 1
  {
    seq(n, i => i + 1)
  }

  /** A sequence without repeats has as many distinct values as elements, each once. */
  lemma {:induction false} DistinctElements(s: seq<int>)
    requires Distinct(s)
    ensures |Elements(s)| == |s|
    ensures multiset(s) == multiset(Elements(s))
  {
    if s != [] {
      var p, x := s[..|s| - 1], s[|s| - 1];
      assert s == p + [x];
      assert Distinct(p);
      DistinctElements(p);
      assert x !in p;
      assert Elements(s) == Elements(p) + {x};
      assert multiset(Elements(s)) == multiset(Elements(p)) + multiset{x};
    }
  }

  /** A subset as large as its superset is the whole superset. */
  lemma {:induction false} SameCardSubset(a: set<int>, b: set<int>)
    requires a <= b && |a| == |b|
    ensures a == b
  {
    forall x | x in b ensures x in a {
      if x !in a {
        StrictSubsetCard(a, b, x);
      }
    }
  }

  /** Two sorted sequences with the same elements, counted with multiplicity, are equal. */
  lemma {:induction false} SortedUnique(s: seq<int>, t: seq<int>)
    requires Sorted(s) && Sorted(t) && multiset(s) == multiset(t)
    ensures s == t
  {
    assert |s| == |multiset(s)| == |t|;
    if s != [] {
      SortedHeads(s, t);
      TailMultiset(s);
      TailMultiset(t);
      SortedUnique(s[1..], t[1..]);
      assert s == [s[0]] + s[1..];
      assert t == [t[0]] + t[1..];
    }
  }

  /** Two sorted arrangements of one multiset start with the same, smallest, element. */
  lemma {:induction false} SortedHeads(s: seq<int>, t: seq<int>)
    requires Sorted(s) && Sorted(t) && multiset(s) == multiset(t) && s != [] && t != []
    ensures s[0] == t[0]
  {
    assert s[0] in multiset(t) && t[0] in multiset(s);
    var k :| 0 <= k < |t| && t[k] == s[0];
    var l :| 0 <= l < |s| && s[l] == t[0];
    assert t[0] <= t[k] && s[0] <= s[l];
  }

  lemma {:induction false} TailMultiset(s: seq<int>)
    requires s != []
    ensures multiset(s[1..]) == multiset(s) - multiset{s[0]}
  {
    assert s == [s[0]] + s[1..];
  }

  /** The ranks are exactly 1..n, each taken once. */
  lemma {:induction false} RanksAreIota(values: seq<int>)
    ensures multiset(RankFirst(values)) == multiset(Iota(|values|))
  {
    var r, n := RankFirst(values), |values|;
    var iota := Iota(n);
    RankFirstPermutation(values);
    assert Distinct(r);
    assert Distinct(iota);
    DistinctElements(r);
    DistinctElements(iota);
    forall x | x in Elements(r) ensures x in Elements(iota) {
      var i :| 0 <= i < n && r[i] == x;
      assert iota[x - 1] == x;
    }
    SameCardSubset(Elements(r), Elements(iota));
  }

  /** Sorting the ranks gives 1, 2, ..., n. */
  lemma {:induction false} SortedRanks(values: seq<int>)
    ensures Sort(RankFirst(values)) == Iota(|values|)
  {
    RanksAreIota(values);
    SortedUnique(Sort(RankFirst(values)), Iota(|values|));
  }

  /** The quantile k/5 of 1..n, interpolated: 1 + (n - 1) * k / 5. */
  lemma {:induction false} QuantileOfIota(n: int, k: int)
    requires n > 0 && 0 <= k <= 5
    ensures Quantile(Iota(n), k) == 1.0 + ((n - 1) * k) as real / 5.0
  {
    QuantileIndex(n, k);
    var h := (n - 1) * k;
    var lo, rem := h / 5, h % 5;
    assert h as real == 5.0 * lo as real + rem as real;
    assert Iota(n)[lo] == lo + 1;
    if rem != 0 {
      assert Iota(n)[lo + 1] - Iota(n)[lo] == 1;
    }
  }

  /** Over 1..n with n >= 2 each quantile lies strictly above the previous one. */
  lemma {:induction false} IotaQuantileStep(n: int, k: int)
    requires n >= 2 && 0 <= k < 5
    ensures Quantile(Iota(n), k) < Quantile(Iota(n), k + 1)
  {
    QuantileOfIota(n, k);
    QuantileOfIota(n, k + 1);
    assert (n - 1) * (k + 1) == (n - 1) * k + (n - 1);
  }

  /** The six quantiles of 1..n are pairwise distinct once n >= 2. */
  lemma {:induction false} IotaQuantilesUnique(n: int)
    requires n >= 2
    ensures Distinct([Quantile(Iota(n), 0), Quantile(Iota(n), 1), Quantile(Iota(n), 2),
                         Quantile(Iota(n), 3), Quantile(Iota(n), 4), Quantile(Iota(n), 5)])
  {
    IotaQuantileStep(n, 0);
    IotaQuantileStep(n, 1);
    IotaQuantileStep(n, 2);
    IotaQuantileStep(n, 3);
    IotaQuantileStep(n, 4);
  }

  /** With two rows or more the edges over the ranks are pairwise distinct: F never raises. */
  lemma {:induction false} RankEdgesUnique(values: seq<int>)
    requires |values| >= 2
    ensures Distinct(Edges(RankFirst(values)))
  {
    SortedRanks(values);
    IotaQuantilesUnique(|values|);
  }
}
