/**
 * Default orderings of the back end's tables (`Meta.ordering` with a
 * leading '-', newest or latest first): assets by creation time and
 * warranties by end date, both descending.
 */
module Ordering {
  import opened Lists
  import opened Models

  /** Keys never increase along the list. */
  predicate SortedDesc<T>(xs: seq<T>, key: T -> int) {
    forall i, j | 0 <= i < j < |xs| :: key(xs[i]) >= key(xs[j])
  }

  /** Places `x` before the first element with a smaller key. */
  function InsertDesc<T>(x: T, xs: seq<T>, key: T -> int): (r: seq<T>)
    requires SortedDesc(xs, key)
    ensures SortedDesc(r, key)
    ensures multiset(r) == multiset(xs) + multiset{x}
    ensures forall y | y in r :: y == x || y in xs
    decreases |xs|
  {
    if xs == [] || key(x) >= key(xs[0]) then
      ConsSorted(x, xs, key);
      [x] + xs
    else
      var rest := InsertDesc(x, xs[1..], key);
      assert xs == [xs[0]] + xs[1..];
      ConsSorted(xs[0], rest, key);
      [xs[0]] + rest
  }

  /** A head with a key at least every key of a sorted tail keeps the list sorted. */
  lemma ConsSorted<T>(h: T, xs: seq<T>, key: T -> int)
    requires SortedDesc(xs, key)
    requires xs != [] ==> key(h) >= key(xs[0])
    ensures SortedDesc([h] + xs, key)
  {
  }

  /** Filtering a sorted list leaves it sorted. */
  lemma {:induction false} KeepSorted<T>(xs: seq<T>, p: T -> bool, key: T -> int)
    requires SortedDesc(xs, key)
    ensures SortedDesc(Keep(xs, p), key)
    decreases |xs|
  {
    if xs != [] {
      var front, last := xs[..|xs| - 1], xs[|xs| - 1];
      assert SortedDesc(front, key);
      KeepSorted(front, p, key);
      var kept := Keep(front, p);
      if p(last) {
        forall i | 0 <= i < |kept|
          ensures key(kept[i]) >= key(last)
        {
          assert kept[i] in kept;
          var j :| 0 <= j < |front| && front[j] == kept[i];
          assert xs[j] == kept[i];
        }
        assert Keep(xs, p) == kept + [last];
      }
    }
  }

  /** An ordering by a descending key: a sorted permutation of the rows. */
  function SortDesc<T>(xs: seq<T>, key: T -> int): (r: seq<T>)
    ensures SortedDesc(r, key)
    ensures multiset(r) == multiset(xs)
    decreases |xs|
  {
    if xs == [] then []
    else
      assert xs == [xs[0]] + xs[1..];
      InsertDesc(xs[0], SortDesc(xs[1..], key), key)
  }

  function AssetCreated(a: Asset): int { a.createdAt }
  function WarrantyEnd(w: Warranty): int { w.endDate }

  /** `Asset.Meta.ordering = ['-created_at']` */
  function AssetOrder(assets: seq<Asset>): (r: seq<Asset>)
    ensures SortedDesc(r, AssetCreated) && multiset(r) == multiset(assets)
  {
    SortDesc(assets, AssetCreated)
  }

  /** `Warranty.Meta.ordering = ['-end_date']` */
  function WarrantyOrder(warranties: seq<Warranty>): (r: seq<Warranty>)
    ensures SortedDesc(r, WarrantyEnd) && multiset(r) == multiset(warranties)
  {
    SortDesc(warranties, WarrantyEnd)
  }

  /** The first `n` rows of a list in descending order are the `n` with the largest keys. */
  lemma TakeIsLargest<T>(xs: seq<T>, key: T -> int, n: nat)
    requires SortedDesc(xs, key)
    ensures forall i, j | 0 <= i < |Take(xs, n)| <= j < |xs| :: key(Take(xs, n)[i]) >= key(xs[j])
  {
  }
}
