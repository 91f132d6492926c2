/** The tail of `HTTPBenchmark.load_test`: the reduction of the gathered `(elapsed, status)`
    pairs into the `results` record, and that record's reset value. */
module Aggregation {
  import opened Wrappers
  import opened Outcomes
  import opened Counters

  /** The `results` dictionary. */
  datatype Results = Results(
    startTime: Option<real>,
    endTime: Option<real>,
    totalRequests: int,
    successfulRequests: int,
    failedRequests: int,
    latencies: seq<real>,
    errorCodeCount: Counter<Status>)

  /** What `__reset_results__` stores: no times, zero counts, no latencies, no errors. */
  const EmptyResults := Results(None, None, 0, 0, 0, [], [])

  /** The statuses of the outcomes, in outcome order. */
  function Statuses(os: seq<Outcome>): seq<Status>
  {
    seq(|os|, i requires 0 <= i < |os| => os[i].status)
  }

  /** `sum(1 for _, status in results if status == 200)` */
  function SuccessCount(os: seq<Outcome>): (n: nat)
    ensures n <= |os|
  {
    if os == [] then 0
    else SuccessCount(os[..|os| - 1]) + (if IsSuccess(os[|os| - 1].status) then 1 else 0)
  }

  /** `[latency for latency, status in results if status == 200]` */
  function Latencies(os: seq<Outcome>): seq<real>
  {
    if os == [] then []
    else Latencies(os[..|os| - 1]) + (if IsSuccess(os[|os| - 1].status) then [os[|os| - 1].elapsed] else [])
  }

  /** `[status for _, status in results if status != 200]` */
  function ErrorStatuses(os: seq<Outcome>): seq<Status>
  {
    if os == [] then []
    else ErrorStatuses(os[..|os| - 1]) + (if IsSuccess(os[|os| - 1].status) then [] else [os[|os| - 1].status])
  }

  /** The positions of the successful outcomes, in increasing order. */
  function SuccessIndices(os: seq<Outcome>): (idx: seq<nat>)
    ensures forall j :: 0 <= j < |idx| ==> idx[j] < |os| && IsSuccess(os[idx[j]].status)
    ensures forall j, k :: 0 <= j < k < |idx| ==> idx[j] < idx[k]
    ensures forall i :: 0 <= i < |os| && IsSuccess(os[i].status) ==> i in idx
  {
    if os == [] then []
    else SuccessIndices(os[..|os| - 1]) + (if IsSuccess(os[|os| - 1].status) then [|os| - 1] else [])
  }

  /** The record `load_test` leaves behind for the gathered outcomes and the window's times. */
  function Aggregate(os: seq<Outcome>, start: real, end: real): Results
  {
    Results(
      Some(start),
      Some(end),
      |os|,
      SuccessCount(os),
      |os| - SuccessCount(os),
      Latencies(os),
      CounterOf(ErrorStatuses(os)))
  }

  /** The relations between the fields that every value of `results` keeps. */
  predicate Consistent(r: Results)
  {
    && r.successfulRequests >= 0
    && r.failedRequests >= 0
    && r.totalRequests == r.successfulRequests + r.failedRequests
    && |r.latencies| == r.successfulRequests
    && DistinctKeys(r.errorCodeCount)
    && PositiveCounts(r.errorCodeCount)
    && Code(200) !in Keys(r.errorCodeCount)
    && Total(r.errorCodeCount) == r.failedRequests
  }

  /** The reset record is consistent and holds nothing. */
  lemma EmptyResultsConsistent()
    ensures Consistent(EmptyResults)
    ensures EmptyResults.totalRequests == 0 && EmptyResults.latencies == []
    ensures EmptyResults.errorCodeCount == []
  {
  }

  lemma {:induction false} FilterFacts(os: seq<Outcome>)
    ensures |Latencies(os)| == SuccessCount(os)
    ensures |ErrorStatuses(os)| == |os| - SuccessCount(os)
    ensures SuccessCount(os) == multiset(Statuses(os))[Code(200)]
    ensures forall s :: s != Code(200) ==> multiset(ErrorStatuses(os))[s] == multiset(Statuses(os))[s]
    ensures Code(200) !in ErrorStatuses(os)
  {
    if os != [] {
      var init := os[..|os| - 1];
      FilterFacts(init);
      assert Statuses(os) == Statuses(init) + [os[|os| - 1].status];
    }
  }

  /** The counts: every outcome is counted once, as a success exactly when its status is the
      integer 200, and the rest are failures. */
  lemma AggregateCounts(os: seq<Outcome>, start: real, end: real)
    ensures Aggregate(os, start, end).totalRequests == |os|
    ensures Aggregate(os, start, end).successfulRequests == multiset(Statuses(os))[Code(200)]
    ensures Aggregate(os, start, end).failedRequests == |os| - multiset(Statuses(os))[Code(200)]
    ensures Consistent(Aggregate(os, start, end))
    ensures Aggregate(os, start, end).startTime == Some(start)
    ensures Aggregate(os, start, end).endTime == Some(end)
  {
    FilterFacts(os);
    CounterOfFacts(ErrorStatuses(os));
    var c := CounterOf(ErrorStatuses(os));
    assert Code(200) !in Keys(c);
  }

  /** A status other than 200 is among the error statuses exactly when some outcome has it. */
  lemma ErrorIsStatus(os: seq<Outcome>, s: Status)
    requires s != Code(200)
    ensures s in ErrorStatuses(os) <==> s in Statuses(os)
  {
    FilterFacts(os);
    assert s in ErrorStatuses(os) <==> multiset(ErrorStatuses(os))[s] > 0;
    assert s in Statuses(os) <==> multiset(Statuses(os))[s] > 0;
  }

  /** Dropping the successes keeps the order in which the error statuses first occur. */
  lemma {:induction false} FirstIndexAfterFilter(os: seq<Outcome>, a: Status, b: Status)
    requires a in ErrorStatuses(os) && b in ErrorStatuses(os)
    requires FirstIndex(ErrorStatuses(os), a) < FirstIndex(ErrorStatuses(os), b)
    ensures a in Statuses(os) && b in Statuses(os)
    ensures FirstIndex(Statuses(os), a) < FirstIndex(Statuses(os), b)
    decreases |os|
  {
    FilterFacts(os);
    ErrorIsStatus(os, a);
    ErrorIsStatus(os, b);
    var init, last := os[..|os| - 1], os[|os| - 1];
    var es, st := ErrorStatuses(init), Statuses(init);
    assert Statuses(os) == st + [last.status];
    if IsSuccess(last.status) {
      assert ErrorStatuses(os) == es;
      FirstIndexAfterFilter(init, a, b);
      FirstIndexExtend(st, last.status, a);
      FirstIndexExtend(st, last.status, b);
    } else {
      assert ErrorStatuses(os) == es + [last.status];
      if a in es {
        FirstIndexExtend(es, last.status, a);
        ErrorIsStatus(init, a);
        FirstIndexExtend(st, last.status, a);
        ErrorIsStatus(init, b);
        if b in es {
          FirstIndexExtend(es, last.status, b);
          FirstIndexAfterFilter(init, a, b);
          FirstIndexExtend(st, last.status, b);
        } else {
          FirstIndexNew(st, b);
        }
      } else {
        assert false;
      }
    }
  }

  /** `error_code_count`: its keys are exactly the distinct statuses other than 200, in the
      order they first occur among the outcomes, and each key counts the outcomes with it. */
  lemma ErrorCounter(os: seq<Outcome>)
    ensures forall s :: s in Keys(CounterOf(ErrorStatuses(os))) <==> s != Code(200) && s in Statuses(os)
    ensures forall s :: s != Code(200) ==> Get(CounterOf(ErrorStatuses(os)), s) == multiset(Statuses(os))[s]
    ensures forall i, j :: 0 <= i < j < |CounterOf(ErrorStatuses(os))| ==>
              FirstIndex(Statuses(os), CounterOf(ErrorStatuses(os))[i].0)
                < FirstIndex(Statuses(os), CounterOf(ErrorStatuses(os))[j].0)
  {
    var es := ErrorStatuses(os);
    var c := CounterOf(es);
    FilterFacts(os);
    CounterOfFacts(es);
    CounterOfFirstSeen(es);
    forall s
      ensures s in Keys(c) <==> s != Code(200) && s in Statuses(os)
    {
      assert s in es <==> multiset(es)[s] > 0;
    }
    forall i, j | 0 <= i < j < |c|
      ensures FirstIndex(Statuses(os), c[i].0) < FirstIndex(Statuses(os), c[j].0)
    {
      assert c[i].0 == Keys(c)[i] && c[j].0 == Keys(c)[j];
      FirstIndexAfterFilter(os, c[i].0, c[j].0);
    }
  }

  /** `latencies` lists the elapsed times of the successful outcomes, in outcome order. */
  lemma {:induction false} LatenciesOfSuccesses(os: seq<Outcome>)
    ensures |Latencies(os)| == |SuccessIndices(os)|
    ensures forall j :: 0 <= j < |Latencies(os)| ==> Latencies(os)[j] == os[SuccessIndices(os)[j]].elapsed
  {
    if os != [] {
      var init := os[..|os| - 1];
      LatenciesOfSuccesses(init);
      forall j | 0 <= j < |SuccessIndices(init)|
        ensures SuccessIndices(init)[j] < |init|
      {
      }
    }
  }

  /** A run in which every request returns 200 has no failures and no error counter. */
  lemma {:induction false} AllSuccessful(os: seq<Outcome>, start: real, end: real)
    requires forall i :: 0 <= i < |os| ==> IsSuccess(os[i].status)
    ensures Aggregate(os, start, end).successfulRequests == |os|
    ensures Aggregate(os, start, end).failedRequests == 0
    ensures Aggregate(os, start, end).errorCodeCount == []
  {
    if os != [] {
      AllSuccessful(os[..|os| - 1], start, end);
    }
  }

  lemma {:induction false} CounterOfCopies(s: Status, n: nat)
    requires n >= 1
    ensures CounterOf(seq(n, _ => s)) == [(s, n)]
  {
    if n > 1 {
      assert seq(n, _ => s)[..n - 1] == seq(n - 1, _ => s);
      CounterOfCopies(s, n - 1);
    }
  }

  /** A run in which every request fails with one status `s` has a single counter entry `(s, n)`. */
  lemma {:induction false} UniformFailure(os: seq<Outcome>, s: Status, start: real, end: real)
    requires |os| >= 1 && !IsSuccess(s)
    requires forall i :: 0 <= i < |os| ==> os[i].status == s
    ensures Aggregate(os, start, end).successfulRequests == 0
    ensures Aggregate(os, start, end).latencies == []
    ensures Aggregate(os, start, end).errorCodeCount == [(s, |os|)]
  {
    UniformFilters(os, s);
    CounterOfCopies(s, |os|);
  }

  lemma {:induction false} UniformFilters(os: seq<Outcome>, s: Status)
    requires !IsSuccess(s)
    requires forall i :: 0 <= i < |os| ==> os[i].status == s
    ensures SuccessCount(os) == 0 && Latencies(os) == []
    ensures ErrorStatuses(os) == seq(|os|, _ => s)
  {
    if os != [] {
      UniformFilters(os[..|os| - 1], s);
    }
  }
}
