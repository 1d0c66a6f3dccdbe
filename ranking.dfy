/**
 * `sort_values(score, ascending=False).head(n)`: rows ordered by
 * non-increasing score with missing scores last, then the first n. The
 * sort's order among equal scores is not specified, so nothing here
 * depends on it.
 */
module Ranking {
  import opened Wrappers
  import Stats

  datatype Ranked<T> = Ranked(item: T, score: Option<real>)

  /** Items paired with their scores, position by position. */
  function Zip<T>(items: seq<T>, scores: seq<Option<real>>): (r: seq<Ranked<T>>)
    requires |items| == |scores|
    ensures |r| == |items|
    ensures forall i :: 0 <= i < |items| ==> r[i] == Ranked(items[i], scores[i])
  {
    seq(|items|, i requires 0 <= i < |items| => Ranked(items[i], scores[i]))
  }

  /** Every element of a selection from a zipped table carries one of the table's items. */
  lemma SelectionFromZip<T>(top: seq<Ranked<T>>, items: seq<T>, scores: seq<Option<real>>)
    requires |items| == |scores| && multiset(top) <= multiset(Zip(items, scores))
    ensures forall k :: 0 <= k < |top| ==> top[k].item in items
  {
    var ranked := Zip(items, scores);
    forall k | 0 <= k < |top| ensures top[k].item in items {
      assert top[k] in multiset(ranked);
      var j :| 0 <= j < |ranked| && ranked[j] == top[k];
    }
  }

  /** a may come before b in a descending sort that puts missing scores last. */
  predicate RanksAtLeast<T>(a: Ranked<T>, b: Ranked<T>)
  {
    b.score.None? || (a.score.Some? && a.score.value >= b.score.value)
  }

  predicate SortedByScore<T>(xs: seq<Ranked<T>>)
  {
    forall i, j :: 0 <= i < j < |xs| ==> RanksAtLeast(xs[i], xs[j])
  }

  /** A bound that holds for every element of t holds for every element of any s drawn from t. */
  lemma BoundedByMultiset<T>(y: Ranked<T>, s: seq<Ranked<T>>, t: seq<Ranked<T>>)
    requires multiset(s) <= multiset(t)
    requires forall k :: 0 <= k < |t| ==> RanksAtLeast(y, t[k])
    ensures forall k :: 0 <= k < |s| ==> RanksAtLeast(y, s[k])
  {
    forall k | 0 <= k < |s| ensures RanksAtLeast(y, s[k]) {
      assert s[k] in multiset(t);
      var j :| 0 <= j < |t| && t[j] == s[k];
    }
  }

  function Insert<T>(x: Ranked<T>, xs: seq<Ranked<T>>): (r: seq<Ranked<T>>)
    requires SortedByScore(xs)
    ensures SortedByScore(r)
    ensures multiset(r) == multiset(xs) + multiset{x}
    ensures |r| == |xs| + 1
  {
    if |xs| == 0 then [x]
    else if RanksAtLeast(x, xs[0]) then [x] + xs
    else
      var rest := Insert(x, xs[1..]);
      assert xs == [xs[0]] + xs[1..];
      var others := xs[1..] + [x];
      assert multiset(rest) == multiset(others);
      BoundedByMultiset(xs[0], rest, others);
      [xs[0]] + rest
  }

  /** The rows ordered by non-increasing score, missing scores last. */
  function SortByScore<T>(xs: seq<Ranked<T>>): (r: seq<Ranked<T>>)
    ensures SortedByScore(r)
    ensures multiset(r) == multiset(xs)
    ensures |r| == |xs|
  {
    if |xs| == 0 then []
    else
      assert xs == [xs[0]] + xs[1..];
      Insert(xs[0], SortByScore(xs[1..]))
  }

  /** `df_sorted.head(n)`. */
  function Head<T>(xs: seq<T>, n: nat): (r: seq<T>)
    ensures |r| == Stats.MinNat(n, |xs|)
    ensures r == xs[..|r|]
  {
    xs[..Stats.MinNat(n, |xs|)]
  }

  /**
   * top is what `sort_values(..., ascending=False).head(n)` can return for xs:
   * min(n, |xs|) of its elements, in non-increasing score order, none of
   * them ranked below an element left out.
   */
  predicate IsTopN<T(==)>(top: seq<Ranked<T>>, xs: seq<Ranked<T>>, n: nat)
  {
    && |top| == Stats.MinNat(n, |xs|)
    && SortedByScore(top)
    && multiset(top) <= multiset(xs)
    && forall a, b :: a in multiset(top) && b in multiset(xs) - multiset(top) ==> RanksAtLeast(a, b)
  }

  /** In a sorted sequence everything before a cut ranks at least as high as everything after it. */
  lemma SortedSplit<T>(sorted: seq<Ranked<T>>, k: nat)
    requires SortedByScore(sorted) && k <= |sorted|
    ensures forall a, b :: a in sorted[..k] && b in sorted[k..] ==> RanksAtLeast(a, b)
  {
    forall a, b | a in sorted[..k] && b in sorted[k..] ensures RanksAtLeast(a, b) {
      var i :| 0 <= i < k && sorted[..k][i] == a;
      var j :| 0 <= j < |sorted| - k && sorted[k..][j] == b;
      assert sorted[i] == a && sorted[k + j] == b;
    }
  }

  /** The first n rows of a sorted sequence are its n best. */
  lemma HeadOfSorted<T>(sorted: seq<Ranked<T>>, n: nat)
    requires SortedByScore(sorted)
    ensures IsTopN(Head(sorted, n), sorted, n)
  {
    var top := Head(sorted, n);
    var rest := sorted[|top|..];
    assert sorted == top + rest;
    assert multiset(sorted) - multiset(top) == multiset(rest);
    SortedSplit(sorted, |top|);
  }

  /** The n best rows. */
  function TopN<T>(xs: seq<Ranked<T>>, n: nat): (top: seq<Ranked<T>>)
    ensures IsTopN(top, xs, n)
  {
    var sorted := SortByScore(xs);
    HeadOfSorted(sorted, n);
    Head(sorted, n)
  }
}
