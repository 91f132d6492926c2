/** Ranking of counter entries: Python's stable `sorted(items, key=lambda x: x[1], reverse=True)`
    and the top-K cut the report applies to it. */
module Ranking {

  /** Entries with their counts; a counter's `items()` in iteration order. */
  type Entries<K> = seq<(K, nat)>

  /** How many errors the report ranks. */
  const TopErrorCount := 3

  function Min(a: int, b: int): int
  {
    if a <= b then a else b
  }

  /** Counts never increase from left to right. */
  predicate NonIncreasing<K>(s: Entries<K>)
  {
    forall i, j :: 0 <= i < j < |s| ==> s[i].1 >= s[j].1
  }

  /** The entries of `s` whose count is `n`, in their order in `s`. */
  function WithCount<K>(s: Entries<K>, n: nat): Entries<K>
  {
    if s == [] then []
    else (if s[0].1 == n then [s[0]] else []) + WithCount(s[1..], n)
  }

  predicate IsPrefix<T(==)>(a: seq<T>, b: seq<T>)
  {
    |a| <= |b| && b[..|a|] == a
  }

  /** Place `x` before the first entry of `t` whose count is not larger than its own. */
  function Insert<K>(x: (K, nat), t: Entries<K>): (r: Entries<K>)
    ensures |r| == |t| + 1
  {
    if t == [] || t[0].1 <= x.1 then [x] + t else [t[0]] + Insert(x, t[1..])
  }

  /** Sort by count, highest first; entries with equal counts keep their relative order. */
  function SortByCountDesc<K>(s: Entries<K>): (r: Entries<K>)
    ensures |r| == |s|
  {
    if s == [] then [] else Insert(s[0], SortByCountDesc(s[1..]))
  }

  lemma {:induction false} InsertPermutes<K>(x: (K, nat), t: Entries<K>)
    ensures multiset(Insert(x, t)) == multiset([x] + t)
  {
    if t != [] && t[0].1 > x.1 {
      InsertPermutes(x, t[1..]);
      assert t == [t[0]] + t[1..];
    }
  }

  lemma {:induction false} InsertOrdered<K>(x: (K, nat), t: Entries<K>)
    requires NonIncreasing(t)
    ensures NonIncreasing(Insert(x, t))
  {
    if t != [] && t[0].1 > x.1 {
      var r := Insert(x, t[1..]);
      InsertOrdered(x, t[1..]);
      InsertPermutes(x, t[1..]);
      assert Insert(x, t) == [t[0]] + r;
      forall j | 0 <= j < |r|
        ensures t[0].1 >= r[j].1
      {
        assert r[j] in multiset([x] + t[1..]);
        assert r[j] == x || r[j] in t[1..];
      }
    }
  }

  lemma {:induction false} InsertStable<K>(x: (K, nat), t: Entries<K>, n: nat)
    requires NonIncreasing(t)
    ensures WithCount(Insert(x, t), n) == WithCount([x] + t, n)
  {
    if t != [] && t[0].1 > x.1 {
      var r := Insert(x, t[1..]);
      InsertStable(x, t[1..], n);
      assert Insert(x, t) == [t[0]] + r;
      assert ([t[0]] + r)[1..] == r;
      assert ([x] + t)[1..] == t;
      assert ([x] + t[1..])[1..] == t[1..];
    }
  }

  /** The sort orders by count, is a permutation, and is stable: for every count, the entries
      holding it appear in the same order before and after. */
  lemma {:induction false} SortFacts<K>(s: Entries<K>)
    ensures NonIncreasing(SortByCountDesc(s))
    ensures multiset(SortByCountDesc(s)) == multiset(s)
    ensures forall n :: WithCount(SortByCountDesc(s), n) == WithCount(s, n)
  {
    if s != [] {
      var sorted := SortByCountDesc(s[1..]);
      SortFacts(s[1..]);
      InsertOrdered(s[0], sorted);
      InsertPermutes(s[0], sorted);
      assert s == [s[0]] + s[1..];
      forall n
        ensures WithCount(SortByCountDesc(s), n) == WithCount(s, n)
      {
        InsertStable(s[0], sorted, n);
        assert ([s[0]] + sorted)[1..] == sorted;
      }
    }
  }

  /** Filtering a prefix by count gives a prefix of the filtered whole. */
  lemma {:induction false} WithCountPrefix<K>(s: Entries<K>, m: nat, n: nat)
    requires m <= |s|
    ensures IsPrefix(WithCount(s[..m], n), WithCount(s, n))
  {
    if m > 0 {
      assert s[..m][1..] == s[1..][..m - 1];
      WithCountPrefix(s[1..], m - 1, n);
    }
  }

  /** The ranked errors: `sorted(counter.items(), ...)[:min(3, len(counter))]`. */
  function TopErrors<K>(c: Entries<K>): Entries<K>
  {
    SortByCountDesc(c)[..Min(TopErrorCount, |c|)]
  }

  /** The ranking holds min(3, |c|) entries taken from the counter, highest counts first. */
  lemma TopErrorsRanked<K>(c: Entries<K>)
    ensures |TopErrors(c)| == Min(TopErrorCount, |c|)
    ensures multiset(TopErrors(c)) <= multiset(c)
    ensures forall i :: 0 <= i < |TopErrors(c)| ==> TopErrors(c)[i] in c
    ensures NonIncreasing(TopErrors(c))
  {
    var sorted := SortByCountDesc(c);
    var m := Min(TopErrorCount, |c|);
    var top := sorted[..m];
    SortFacts(c);
    assert sorted == top + sorted[m..];
    assert multiset(sorted) == multiset(top) + multiset(sorted[m..]);
    forall i | 0 <= i < |top|
      ensures top[i] in c
    {
      assert top[i] in multiset(sorted);
    }
  }

  /** In a list ordered by count, nothing after position `m` outranks anything before it. */
  lemma PrefixDominates<K>(sorted: Entries<K>, m: nat, x: (K, nat), i: nat)
    requires NonIncreasing(sorted)
    requires m <= |sorted| && i < m
    requires x in sorted && x !in sorted[..m]
    ensures x.1 <= sorted[i].1
  {
    var j :| 0 <= j < |sorted| && sorted[j] == x;
    assert j >= m;
  }

  /** No counter entry that the ranking leaves out has a larger count than one it keeps. */
  lemma TopErrorsMaximal<K>(c: Entries<K>, x: (K, nat), i: nat)
    requires x in c && x !in TopErrors(c) && i < |TopErrors(c)|
    ensures x.1 <= TopErrors(c)[i].1
  {
    var sorted := SortByCountDesc(c);
    SortFacts(c);
    assert x in multiset(sorted);
    PrefixDominates(sorted, Min(TopErrorCount, |c|), x, i);
  }

  /** Ties keep first-seen order: for every count, the ranked entries holding it are the first
      entries of the counter holding it, in the counter's order. */
  lemma TopErrorsStable<K>(c: Entries<K>, n: nat)
    ensures IsPrefix(WithCount(TopErrors(c), n), WithCount(c, n))
  {
    SortFacts(c);
    WithCountPrefix(SortByCountDesc(c), Min(TopErrorCount, |c|), n);
  }
}
