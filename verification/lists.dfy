/**
 * Order-preserving filtering, counting and truncation of fetched lists:
 * the queryset `filter`, JavaScript's `Array.filter`, `.length` of a
 * filtered list and `.slice(0, n)`.
 */
module Lists {

  /** The elements satisfying `p`, in their original order. */
  function Keep<T>(xs: seq<T>, p: T -> bool): (r: seq<T>)
    ensures |r| <= |xs|
    ensures forall x | x in r :: x in xs && p(x)
    ensures forall x | x in xs && p(x) :: x in r
    decreases |xs|
  {
    if xs == [] then []
    else
      var front := Keep(xs[..|xs| - 1], p);
      var last := xs[|xs| - 1];
      assert forall x | x in xs :: x in xs[..|xs| - 1] || x == last;
      if p(last) then front + [last] else front
  }

  /** Filtering distributes over concatenation, so the relative order of kept elements is the original order. */
  lemma {:induction false} KeepAppend<T>(a: seq<T>, b: seq<T>, p: T -> bool)
    ensures Keep(a + b, p) == Keep(a, p) + Keep(b, p)
    decreases |b|
  {
    if b == [] {
      assert a + b == a;
    } else {
      var b' := b[..|b| - 1];
      assert (a + b)[..|a + b| - 1] == a + b';
      assert (a + b)[|a + b| - 1] == b[|b| - 1];
      KeepAppend(a, b', p);
    }
  }

  /** Filtering keeps every passing element exactly as often as it occurs, and no other element. */
  lemma {:induction false} KeepMultiplicity<T>(xs: seq<T>, p: T -> bool)
    ensures forall x :: multiset(Keep(xs, p))[x] == if p(x) then multiset(xs)[x] else 0
    decreases |xs|
  {
    if xs != [] {
      var front, last := xs[..|xs| - 1], xs[|xs| - 1];
      assert xs == front + [last];
      KeepMultiplicity(front, p);
    }
  }

  /** Filtering by a condition every element meets changes nothing. */
  lemma {:induction false} KeepAll<T>(xs: seq<T>, p: T -> bool)
    requires forall x | x in xs :: p(x)
    ensures Keep(xs, p) == xs
    decreases |xs|
  {
    if xs != [] {
      assert forall x | x in xs[..|xs| - 1] :: x in xs;
      KeepAll(xs[..|xs| - 1], p);
      assert xs[..|xs| - 1] + [xs[|xs| - 1]] == xs;
    }
  }

  /** Filtering by a condition no element meets leaves nothing. */
  lemma KeepNone<T>(xs: seq<T>, p: T -> bool)
    requires forall x | x in xs :: !p(x)
    ensures Keep(xs, p) == []
  {
    if Keep(xs, p) != [] {
      assert Keep(xs, p)[0] in Keep(xs, p);
    }
  }

  /** The number of elements satisfying `p`. */
  function Count<T>(xs: seq<T>, p: T -> bool): (n: nat)
    ensures n <= |xs|
    decreases |xs|
  {
    if xs == [] then 0
    else Count(xs[..|xs| - 1], p) + (if p(xs[|xs| - 1]) then 1 else 0)
  }

  /** Counting is the length of the filtered list. */
  lemma {:induction false} CountIsKeepLength<T>(xs: seq<T>, p: T -> bool)
    ensures Count(xs, p) == |Keep(xs, p)|
    decreases |xs|
  {
    if xs != [] {
      CountIsKeepLength(xs[..|xs| - 1], p);
    }
  }

  /** Two conditions no element meets together count at most the whole list. */
  lemma {:induction false} CountDisjoint<T>(xs: seq<T>, p: T -> bool, q: T -> bool)
    requires forall x | x in xs :: !(p(x) && q(x))
    ensures Count(xs, p) + Count(xs, q) <= |xs|
    decreases |xs|
  {
    if xs != [] {
      assert forall x | x in xs[..|xs| - 1] :: x in xs;
      CountDisjoint(xs[..|xs| - 1], p, q);
    }
  }

  /** `xs.slice(0, n)`: the first `min(n, |xs|)` elements. */
  function Take<T>(xs: seq<T>, n: nat): (r: seq<T>)
    ensures |r| == if n < |xs| then n else |xs|
    ensures forall i | 0 <= i < |r| :: r[i] == xs[i]
    ensures forall x | x in r :: x in xs
  {
    if n < |xs| then xs[..n] else xs
  }

  /** No two elements share a key. */
  predicate UniqueBy<T, K(==)>(xs: seq<T>, key: T -> K) {
    forall i, j | 0 <= i < j < |xs| :: key(xs[i]) != key(xs[j])
  }

  /** The keys present in a list. */
  function KeysOf<T(==), K>(xs: seq<T>, key: T -> K): (r: set<K>)
    ensures forall x | x in xs :: key(x) in r
    ensures forall k | k in r :: exists x | x in xs :: key(x) == k
  {
    set x | x in xs :: key(x)
  }

  /** Filtering keeps keys unique. */
  lemma {:induction false} KeepUnique<T, K>(xs: seq<T>, p: T -> bool, key: T -> K)
    requires UniqueBy(xs, key)
    ensures UniqueBy(Keep(xs, p), key)
    decreases |xs|
  {
    if xs != [] {
      var front, last := xs[..|xs| - 1], xs[|xs| - 1];
      KeepUnique(front, p, key);
      if p(last) {
        var s := Keep(front, p);
        forall y | y in s
          ensures key(y) != key(last)
        {
          var i :| 0 <= i < |front| && front[i] == y;
          assert xs[i] == y;
        }
        assert forall i | 0 <= i < |s| :: s[i] in s;
      }
    }
  }

  /** The rows whose key lies outside `gone`. */
  function Outside<T>(key: T -> int, gone: set<int>): T -> bool {
    x => key(x) !in gone
  }

  /** Dropping the rows whose key is in `gone` removes exactly those keys. */
  lemma KeepOutsideKeys<T>(xs: seq<T>, key: T -> int, gone: set<int>)
    ensures KeysOf(Keep(xs, Outside(key, gone)), key) == KeysOf(xs, key) - gone
  {
    var kept := Keep(xs, Outside(key, gone));
    forall k | k in KeysOf(xs, key) - gone
      ensures k in KeysOf(kept, key)
    {
      var x :| x in xs && key(x) == k;
      assert Outside(key, gone)(x);
    }
  }

  /** Every element passes `ok`. */
  predicate AllOk<T(==)>(xs: seq<T>, ok: T -> bool) {
    forall x | x in xs :: ok(x)
  }

  /** Every element's reference `fk` is one of `ids`. */
  predicate RefsIn<T(==)>(xs: seq<T>, fk: T -> int, ids: set<int>) {
    forall x | x in xs :: fk(x) in ids
  }

  lemma KeepAllOk<T>(xs: seq<T>, p: T -> bool, ok: T -> bool)
    requires AllOk(xs, ok)
    ensures AllOk(Keep(xs, p), ok)
  {
  }

  /** Filtering keeps references valid against any larger set of ids. */
  lemma KeepRefs<T>(xs: seq<T>, p: T -> bool, fk: T -> int, ids: set<int>, ids': set<int>)
    requires RefsIn(xs, fk, ids) && ids <= ids'
    ensures RefsIn(Keep(xs, p), fk, ids')
  {
  }

  /** Dropping the rows that reference a removed id keeps the rest valid against the remaining ids. */
  lemma KeepOutsideRefs<T>(xs: seq<T>, fk: T -> int, ids: set<int>, gone: set<int>)
    requires RefsIn(xs, fk, ids)
    ensures RefsIn(Keep(xs, Outside(fk, gone)), fk, ids - gone)
  {
    forall x | x in Keep(xs, Outside(fk, gone))
      ensures fk(x) in ids - gone
    {
      assert Outside(fk, gone)(x);
    }
  }

  /** Filters that agree on every element keep the same elements. */
  lemma {:induction false} KeepAgree<T>(xs: seq<T>, p: T -> bool, q: T -> bool)
    requires forall x | x in xs :: p(x) == q(x)
    ensures Keep(xs, p) == Keep(xs, q)
    decreases |xs|
  {
    if xs != [] {
      assert forall x | x in xs[..|xs| - 1] :: x in xs;
      KeepAgree(xs[..|xs| - 1], p, q);
    }
  }
}
