/** The `HTTPBenchmark` object: its configuration, set up once by `__init__`, and its mutable
    `results` record, reset by `__reset_results__`, filled by `load_test` and read by
    `pretty_print_results`. The network, the clock and the rate loop are not modelled: the
    gathered outcomes and the window's start and end times are parameters. */
module HttpBenchmark {
  import opened Wrappers
  import opened Strings
  import opened Outcomes
  import opened Aggregation
  import opened Ranking
  import opened Report

  /** The URL names one of the two schemes. */
  predicate HasScheme(url: string)
  {
    StartsWith(url, "http://") || StartsWith(url, "https://")
  }

  /** `__init__`'s URL normalisation: prefix `http://` unless a scheme is already there. */
  function NormalizeUrl(url: string): (r: string)
    ensures HasScheme(r)
    ensures r == url <==> HasScheme(url)
    ensures r == url || r == "http://" + url
  {
    if !StartsWith(url, "http://") && !StartsWith(url, "https://") then "http://" + url else url
  }

  /** Normalising a normalised URL changes nothing. */
  lemma NormalizeIdempotent(url: string)
    ensures NormalizeUrl(NormalizeUrl(url)) == NormalizeUrl(url)
  {
  }

  /** The `AssertionError`s the benchmark raises for its misconfigurations. */
  datatype ConfigFault = NonPositiveQps | NonPositiveTimeout | NonPositiveDuration
  {
    /** The assertion message. */
    function Message(): string
    {
      match this
      case NonPositiveQps => "QPS must be a positive integer"
      case NonPositiveTimeout => "Timeout must be a positive integer"
      case NonPositiveDuration => "Duration must be a positive integer"
    }
  }

  /** The first of `__init__`'s two asserts that fails, if any. */
  function ConfigError(qps: int, timeout: int): (e: Option<ConfigFault>)
    ensures e.None? <==> qps > 0 && timeout > 0
    ensures qps <= 0 ==> e == Some(NonPositiveQps)
    ensures qps > 0 && timeout <= 0 ==> e == Some(NonPositiveTimeout)
  {
    if qps <= 0 then Some(NonPositiveQps)
    else if timeout <= 0 then Some(NonPositiveTimeout)
    else None
  }

  class Benchmark {
    var url: string
    var qps: int
    var timeout: int
    var results: Results

    /** What every constructed benchmark keeps: a positive rate and timeout and a URL with a
        scheme. That `results` is consistent is stated where it is written: the reset record by
        `EmptyResultsConsistent`, the aggregated one by `LoadTest`. */
    ghost predicate Valid()
      reads this
    {
      qps > 0 && timeout > 0 && HasScheme(url)
    }

    /** `__init__` past its asserts. */
    constructor (url: string, qps: int := 10, timeout: int := 10)
      requires qps > 0 && timeout > 0
      ensures Valid()
      ensures this.url == NormalizeUrl(url) && this.qps == qps && this.timeout == timeout
      ensures results == EmptyResults
    {
      this.url := url;
      if !StartsWith(url, "http://") && !StartsWith(url, "https://") {
        this.url := "http://" + url;
      }
      this.qps := qps;
      this.timeout := timeout;
      new;
      ResetResults();
    }

    /** `__reset_results__`: no times, zero counts, no latencies, an empty error counter. */
    method ResetResults()
      modifies this`results
      ensures results.startTime == None && results.endTime == None
      ensures results.totalRequests == 0 && results.successfulRequests == 0 && results.failedRequests == 0
      ensures results.latencies == [] && results.errorCodeCount == []
    {
      results := EmptyResults;
    }

    /** The tail of `load_test`: record the window's times, then overwrite the five aggregate
        fields from the gathered outcomes. */
    method LoadTest(outcomes: seq<Outcome>, start: real, end: real)
      requires Valid()
      modifies this`results
      ensures Valid() && Consistent(results)
      ensures results == Aggregate(outcomes, start, end)
    {
      results := results.(startTime := Some(start));
      results := results.(endTime := Some(end));
      results := results.(totalRequests := |outcomes|);
      results := results.(successfulRequests := SuccessCount(outcomes));
      results := results.(failedRequests := |outcomes| - results.successfulRequests);
      results := results.(latencies := Latencies(outcomes));
      results := results.(errorCodeCount := Counters.CounterOf(ErrorStatuses(outcomes)));
      AggregateCounts(outcomes, start, end);
    }

    /** `start_test`: refuse a non-positive duration before touching `results`; otherwise reset,
        run, and, when `verbose`, produce the table that would be printed. */
    method StartTest(duration: int := 10, verbose: bool := true, outcomes: seq<Outcome>, start: real, end: real, f: FloatTexts)
      returns (r: Result<Option<string>, ConfigFault>)
      requires Valid()
      modifies this`results
      ensures Valid()
      ensures duration <= 0 ==> r == Failure(NonPositiveDuration) && results == old(results)
      ensures duration > 0 ==> results == Aggregate(outcomes, start, end) && Consistent(results)
      ensures duration > 0 ==>
                r == Success(if verbose then Some(Table(ReportParts(url, qps, timeout, results, f))) else None)
    {
      if duration <= 0 {
        return Failure(NonPositiveDuration);
      }
      ResetResults();
      LoadTest(outcomes, start, end);
      if verbose {
        var table := PrettyPrintResults(f);
        r := Success(Some(table));
      } else {
        r := Success(None);
      }
    }

    /** `pretty_print_results` up to the `print`: the fixed parts, the ranked errors appended one
        by one, and the table laid out around them. The window's times must be set, as
        `end_time - start_time` fails on `None`. */
    method PrettyPrintResults(f: FloatTexts) returns (table: string)
      requires results.startTime.Some? && results.endTime.Some?
      ensures table == Table(ReportParts(url, qps, timeout, results, f))
    {
      var res := results;
      var fixed := FixedParts(url, qps, timeout, res, f);
      var parts := fixed;
      if res.errorCodeCount != [] {
        var topK := Min(TopErrorCount, |res.errorCodeCount|);
        parts := parts + ["Top Errors:"];
        var sorted := SortByCountDesc(res.errorCodeCount)[..topK];
        for i := 0 to |sorted|
          invariant parts == fixed + ["Top Errors:"] + ErrorLines(sorted[..i])
        {
          ErrorLinesSnoc(sorted, i);
          parts := parts + [ErrorLine(sorted[i])];
        }
        assert sorted[..|sorted|] == sorted;
      }
      assert parts == fixed + ErrorSection(res.errorCodeCount);
      var maxLen := MaxLen(parts);
      var lineSep := Separator(maxLen);
      var tableLines := Rows(parts);
      table := lineSep + Join(lineSep, tableLines) + lineSep;
      assert table == Table(parts);
    }
  }

  /** `HTTPBenchmark(url, qps, timeout)`: an `AssertionError` for a non-positive rate or timeout,
      otherwise a fresh benchmark with the normalised URL and empty results. */
  method Create(url: string, qps: int := 10, timeout: int := 10) returns (r: Result<Benchmark, ConfigFault>)
    ensures r.Failure? <==> ConfigError(qps, timeout).Some?
    ensures r.Failure? ==> r.error == ConfigError(qps, timeout).value
    ensures r.Success? ==> fresh(r.value) && r.value.Valid() && r.value.url == NormalizeUrl(url)
    ensures r.Success? ==> r.value.qps == qps && r.value.timeout == timeout && r.value.results == EmptyResults
  {
    var e := ConfigError(qps, timeout);
    if e.Some? {
      return Failure(e.value);
    }
    var b := new Benchmark(url, qps, timeout);
    r := Success(b);
  }
}
