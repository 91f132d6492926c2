/** The report of `HTTPBenchmark.pretty_print_results`: the list of parts (`ret_parts`) and the
    table it is laid out in. Printing it is not part of this model. */
module Report {
  import opened Strings
  import opened Outcomes
  import opened Aggregation
  import opened Counters
  import opened Ranking

  /** The text Python gives the four rounded float values of the report. Float arithmetic and
      its formatting are not modelled; these texts are supplied by the caller. */
  datatype FloatTexts = FloatTexts(
    duration: string,
    achievedQps: string,
    successPercent: string,
    averageLatency: string)

  /** `f"{x if present else None}"` */
  function OrNone(present: bool, text: string): string
  {
    if present then text else "None"
  }

  /** `successful_requests / total_requests * 100` is computed only when there are requests. */
  predicate HasSuccessPercentage(r: Results)
  {
    r.totalRequests != 0
  }

  /** `sum(latencies) / len(latencies)` is computed only when there are latencies. */
  predicate HasAverageLatency(r: Results)
  {
    r.latencies != []
  }

  /** `f"  {code}: {count}"` */
  function ErrorLine(e: (Status, nat)): string
  {
    "  " + StatusText(e.0) + ": " + NatToDecimal(e.1)
  }

  function ErrorLines(top: seq<(Status, nat)>): seq<string>
  {
    seq(|top|, i requires 0 <= i < |top| => ErrorLine(top[i]))
  }

  /** The lines of a prefix one longer are the lines of the prefix and one more line. */
  lemma ErrorLinesSnoc(top: seq<(Status, nat)>, i: nat)
    requires i < |top|
    ensures ErrorLines(top[..i + 1]) == ErrorLines(top[..i]) + [ErrorLine(top[i])]
  {
  }

  /** The twelve parts every report has. */
  function FixedParts(url: string, qps: int, timeout: int, r: Results, f: FloatTexts): (parts: seq<string>)
    ensures |parts| == 12
  {
    [ "Config:",
      "  URL: " + url,
      "  QPS: " + IntToDecimal(qps),
      "  Timeout: " + IntToDecimal(timeout) + " seconds",
      "Results:",
      "  Duration: " + f.duration + " seconds",
      "  Achived QPS: " + f.achievedQps,
      "  Num Requests: " + IntToDecimal(r.totalRequests),
      "  Num Successful Requests: " + IntToDecimal(r.successfulRequests),
      "  Num Failed Requests: " + IntToDecimal(r.failedRequests),
      SuccessLine(r, f),
      LatencyLine(r, f) ]
  }

  function SuccessLine(r: Results, f: FloatTexts): string
  {
    "  % Successful Requests: " + OrNone(HasSuccessPercentage(r), f.successPercent)
  }

  function LatencyLine(r: Results, f: FloatTexts): string
  {
    "  Average Latency (ms): " + OrNone(HasAverageLatency(r), f.averageLatency)
  }

  /** The optional error section: a heading and the ranked errors, only for a non-empty counter. */
  function ErrorSection(c: Counter<Status>): seq<string>
  {
    if c == [] then [] else ["Top Errors:"] + ErrorLines(TopErrors(c))
  }

  /** `ret_parts` once the error section is appended. */
  function ReportParts(url: string, qps: int, timeout: int, r: Results, f: FloatTexts): seq<string>
  {
    FixedParts(url, qps, timeout, r, f) + ErrorSection(r.errorCodeCount)
  }

  /** `max(len(part) for part in parts)` */
  function MaxLen(parts: seq<string>): (m: nat)
    requires |parts| >= 1
    ensures forall i :: 0 <= i < |parts| ==> |parts[i]| <= m
    ensures exists i :: 0 <= i < |parts| && |parts[i]| == m
  {
    if |parts| == 1 then |parts[0]|
    else
      var m := MaxLen(parts[1..]);
      if |parts[0]| >= m then |parts[0]| else m
  }

  /** `'| ' + part + ' ' * (width - len(part) + 1) + '|'` */
  function Row(part: string, width: nat): (row: string)
    requires |part| <= width
    ensures |row| == width + 4
    ensures row[..2] == "| " && row[2..2 + |part|] == part && row[width + 3] == '|'
    ensures forall k :: 2 + |part| <= k < width + 3 ==> row[k] == ' '
  {
    "| " + part + Repeat(' ', width - |part| + 1) + "|"
  }

  /** `'\n' + '-' * (width + 4) + '\n'` */
  function Separator(width: nat): (sep: string)
    ensures |sep| == width + 6
    ensures sep[0] == '\n' && sep[width + 5] == '\n'
    ensures forall k :: 1 <= k <= width + 4 ==> sep[k] == '-'
  {
    "\n" + Repeat('-', width + 4) + "\n"
  }

  /** `table_lines`: every part padded to the widest part's width. */
  function Rows(parts: seq<string>): seq<string>
    requires |parts| >= 1
  {
    seq(|parts|, i requires 0 <= i < |parts| => Row(parts[i], MaxLen(parts)))
  }

  /** `line_sep + line_sep.join(table_lines) + line_sep` */
  function Table(parts: seq<string>): string
    requires |parts| >= 1
  {
    var sep := Separator(MaxLen(parts));
    sep + Join(sep, Rows(parts)) + sep
  }

  /** The table has one row per part, and every row is the part framed by `"| "` and `"|"` and
      padded with spaces to the width of the dashes of the separator. */
  lemma TableRows(parts: seq<string>)
    requires |parts| >= 1
    ensures |Rows(parts)| == |parts|
    ensures forall i :: 0 <= i < |parts| ==> Rows(parts)[i] == Row(parts[i], MaxLen(parts))
    ensures forall i :: 0 <= i < |parts| ==>
              |Rows(parts)[i]| == MaxLen(parts) + 4 == |Separator(MaxLen(parts))| - 2
  {
    var w := MaxLen(parts);
    forall i | 0 <= i < |parts|
      ensures |Rows(parts)[i]| == w + 4
    {
      assert Rows(parts)[i] == Row(parts[i], w);
    }
  }

  /** With `n` parts the table is `n + 1` separators around `n` rows, all of one width. */
  lemma TableLength(parts: seq<string>)
    requires |parts| >= 1
    ensures |Table(parts)| == (|parts| + 1) * (MaxLen(parts) + 6) + |parts| * (MaxLen(parts) + 4)
  {
    var w := MaxLen(parts);
    var sep, rows := Separator(w), Rows(parts);
    TableRows(parts);
    JoinUniformLength(sep, rows, w + 4);
    assert Table(parts) == sep + Join(sep, rows) + sep;
    SeparatedLength(|parts|, w, |Join(sep, rows)|);
  }

  lemma SeparatedLength(n: int, w: int, joined: int)
    requires joined == n * (w + 4) + (n - 1) * (w + 6)
    ensures (w + 6) + joined + (w + 6) == (n + 1) * (w + 6) + n * (w + 4)
  {
  }

  /** The report has the twelve fixed parts and, for a non-empty counter only, the heading and
      one line per ranked error. */
  lemma ReportSize(url: string, qps: int, timeout: int, r: Results, f: FloatTexts)
    ensures |ReportParts(url, qps, timeout, r, f)| ==
              12 + (if r.errorCodeCount == [] then 0 else 1 + Min(TopErrorCount, |r.errorCodeCount|))
  {
    TopErrorsRanked(r.errorCodeCount);
  }

  /** The success percentage and the average latency read `None` exactly when their
      denominators are empty. */
  lemma ReportRatios(url: string, qps: int, timeout: int, r: Results, f: FloatTexts)
    requires f.successPercent != "None" && f.averageLatency != "None"
    ensures (ReportParts(url, qps, timeout, r, f)[10] == "  % Successful Requests: None")
              <==> r.totalRequests == 0
    ensures (ReportParts(url, qps, timeout, r, f)[11] == "  Average Latency (ms): None")
              <==> r.latencies == []
  {
    var parts := ReportParts(url, qps, timeout, r, f);
    assert parts[10] == SuccessLine(r, f) && parts[11] == LatencyLine(r, f);
    LabelledNone("  % Successful Requests: ", HasSuccessPercentage(r), f.successPercent);
    LabelledNone("  Average Latency (ms): ", HasAverageLatency(r), f.averageLatency);
  }

  /** A labelled value reads `None` exactly when it is absent, unless its own text is `None`. */
  lemma LabelledNone(name: string, present: bool, text: string)
    requires text != "None"
    ensures name + OrNone(present, text) == name + "None" <==> !present
  {
    if name + OrNone(present, text) == name + "None" {
      assert (name + OrNone(present, text))[|name|..] == OrNone(present, text);
      assert (name + "None")[|name|..] == "None";
    }
  }

  /** After the fixed parts come the heading and the ranked errors, one line each, in rank
      order. */
  lemma ReportErrors(url: string, qps: int, timeout: int, r: Results, f: FloatTexts)
    requires r.errorCodeCount != []
    ensures ReportParts(url, qps, timeout, r, f)[12] == "Top Errors:"
    ensures forall j :: 0 <= j < Min(TopErrorCount, |r.errorCodeCount|) ==>
              ReportParts(url, qps, timeout, r, f)[13 + j] == ErrorLine(TopErrors(r.errorCodeCount)[j])
  {
    TopErrorsRanked(r.errorCodeCount);
  }

  /** A consistent record with no requests reports both ratios as `None` and has no error section. */
  lemma EmptyRunReport(url: string, qps: int, timeout: int, r: Results, f: FloatTexts)
    requires Consistent(r) && r.totalRequests == 0
    ensures ReportParts(url, qps, timeout, r, f)[10] == "  % Successful Requests: None"
    ensures ReportParts(url, qps, timeout, r, f)[11] == "  Average Latency (ms): None"
    ensures |ReportParts(url, qps, timeout, r, f)| == 12
  {
  }
}
