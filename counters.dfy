/** A Python `collections.Counter`, seen through its iteration order: each distinct key once,
    in the order it was first inserted, with the number of times it was counted. */
module Counters {

  type Counter<K> = seq<(K, nat)>

  /** The keys of the counter, in iteration order. */
  function Keys<K>(c: Counter<K>): (ks: seq<K>)
    ensures |ks| == |c|
    ensures forall i :: 0 <= i < |c| ==> ks[i] == c[i].0
  {
    if c == [] then [] else [c[0].0] + Keys(c[1..])
  }

  /** `c[k]`: the count of `k`, zero for a missing key. */
  function Get<K(==)>(c: Counter<K>, k: K): nat
  {
    if c == [] then 0 else if c[0].0 == k then c[0].1 else Get(c[1..], k)
  }

  /** `sum(c.values())` */
  function Total<K>(c: Counter<K>): nat
  {
    if c == [] then 0 else c[0].1 + Total(c[1..])
  }

  /** Dictionary keys are unique. */
  predicate DistinctKeys<K(==)>(c: Counter<K>)
  {
    forall i, j :: 0 <= i < j < |c| ==> c[i].0 != c[j].0
  }

  /** A counter built by counting elements never holds a zero count. */
  predicate PositiveCounts<K>(c: Counter<K>)
  {
    forall i :: 0 <= i < |c| ==> c[i].1 >= 1
  }

  /** `c[k] += 1`: an existing key keeps its place, a new key goes last. */
  function Add<K(==)>(c: Counter<K>, k: K): Counter<K>
  {
    if c == [] then [(k, 1)]
    else if c[0].0 == k then [(k, c[0].1 + 1)] + c[1..]
    else [c[0]] + Add(c[1..], k)
  }

  /** `Counter(xs)`: count the elements of `xs` from first to last. */
  function CounterOf<K(==)>(xs: seq<K>): Counter<K>
  {
    if xs == [] then [] else Add(CounterOf(xs[..|xs| - 1]), xs[|xs| - 1])
  }

  /** The index of the first occurrence of `k` in `xs`. */
  function FirstIndex<K(==)>(xs: seq<K>, k: K): (r: nat)
    requires k in xs
    ensures r < |xs| && xs[r] == k
    ensures forall j :: 0 <= j < r ==> xs[j] != k
  {
    if xs[0] == k then 0 else 1 + FirstIndex(xs[1..], k)
  }

  lemma FirstIndexExtend<K>(ys: seq<K>, x: K, y: K)
    requires y in ys
    ensures FirstIndex(ys + [x], y) == FirstIndex(ys, y)
  {
    var r, r' := FirstIndex(ys, y), FirstIndex(ys + [x], y);
    assert (ys + [x])[r] == y;
    assert r' < |ys| ==> ys[r'] == y;
  }

  lemma FirstIndexNew<K>(ys: seq<K>, x: K)
    requires x !in ys
    ensures FirstIndex(ys + [x], x) == |ys|
  {
  }

  lemma {:induction false} GetMissing<K>(c: Counter<K>, k: K)
    requires k !in Keys(c)
    ensures Get(c, k) == 0
  {
    if c != [] {
      assert Keys(c)[0] == c[0].0;
      assert forall i :: 0 <= i < |c[1..]| ==> Keys(c[1..])[i] == Keys(c)[i + 1];
      GetMissing(c[1..], k);
    }
  }

  /** What `c[k] += 1` does to a well-formed counter. */
  lemma {:induction false} AddFacts<K>(c: Counter<K>, k: K)
    requires DistinctKeys(c) && PositiveCounts(c)
    ensures DistinctKeys(Add(c, k)) && PositiveCounts(Add(c, k))
    ensures Keys(Add(c, k)) == if k in Keys(c) then Keys(c) else Keys(c) + [k]
    ensures forall x :: Get(Add(c, k), x) == Get(c, x) + (if x == k then 1 else 0)
    ensures Total(Add(c, k)) == Total(c) + 1
  {
    if c == [] {
    } else if c[0].0 == k {
      assert Add(c, k)[1..] == c[1..];
      assert k !in Keys(c[1..]);
      GetMissing(c[1..], k);
    } else {
      var rest := Add(c[1..], k);
      AddFacts(c[1..], k);
      assert Add(c, k) == [c[0]] + rest;
      assert Add(c, k)[1..] == rest;
      assert Keys(c) == [c[0].0] + Keys(c[1..]);
      assert k in Keys(c) <==> k in Keys(c[1..]);
      forall j | 0 < j < |Add(c, k)|
        ensures Add(c, k)[0].0 != Add(c, k)[j].0
      {
        assert Add(c, k)[j].0 == Keys(rest)[j - 1];
        assert c[0].0 !in Keys(c[1..]);
      }
    }
  }

  /** `Counter(xs)` holds every distinct element of `xs` once, with its number of occurrences,
      and its counts add up to the length of `xs`. */
  lemma {:induction false} CounterOfFacts<K>(xs: seq<K>)
    ensures DistinctKeys(CounterOf(xs)) && PositiveCounts(CounterOf(xs))
    ensures forall k :: k in Keys(CounterOf(xs)) <==> k in xs
    ensures forall k :: Get(CounterOf(xs), k) == multiset(xs)[k]
    ensures Total(CounterOf(xs)) == |xs|
  {
    if xs != [] {
      var ys, x := xs[..|xs| - 1], xs[|xs| - 1];
      assert xs == ys + [x];
      CounterOfFacts(ys);
      AddFacts(CounterOf(ys), x);
    }
  }

  /** The keys of `Counter(xs)` come in the order of their first occurrence in `xs`. */
  lemma {:induction false} CounterOfFirstSeen<K>(xs: seq<K>)
    ensures forall k :: k in Keys(CounterOf(xs)) ==> k in xs
    ensures forall i, j :: 0 <= i < j < |CounterOf(xs)| ==>
              FirstIndex(xs, CounterOf(xs)[i].0) < FirstIndex(xs, CounterOf(xs)[j].0)
  {
    CounterOfFacts(xs);
    if xs != [] {
      var ys, x := xs[..|xs| - 1], xs[|xs| - 1];
      assert xs == ys + [x];
      CounterOfFirstSeen(ys);
      CounterOfFacts(ys);
      var c', c := CounterOf(ys), CounterOf(xs);
      AddFacts(c', x);
      forall i, j | 0 <= i < j < |c|
        ensures FirstIndex(xs, c[i].0) < FirstIndex(xs, c[j].0)
      {
        assert c[i].0 == Keys(c)[i] && c[j].0 == Keys(c)[j];
        if j < |c'| {
          assert Keys(c)[i] == Keys(c')[i] && Keys(c)[j] == Keys(c')[j];
          FirstIndexExtend(ys, x, c[i].0);
          FirstIndexExtend(ys, x, c[j].0);
        } else {
          assert x !in Keys(c') && Keys(c)[j] == x;
          assert Keys(c)[i] == Keys(c')[i];
          FirstIndexExtend(ys, x, c[i].0);
          FirstIndexNew(ys, x);
        }
      }
    }
  }
}
