# HTTP benchmark core, modelled in Dafny

This project models the core of a small HTTP load-testing tool.

`HTTPBenchmark` (http_benchmark.py) has four parts:

- **Configuration.** It normalises the target URL and checks the rate and the timeout.
- **Classification.** It turns each request's ending (a response, or one of aiohttp's exceptions) into an `(elapsed, status)` pair.
- **Aggregation.** It reduces the gathered pairs into the `results` record: counts, latencies of the successes, and a `Counter` of error statuses.
- **Report.** It lays the record out as a boxed text table, with the three most frequent errors ranked by a stable sort.

`generate_nginx_conf` (scalabale_http_benchmark.py) builds an upstream server list for `n` worker nodes. It substitutes that list for every `{{servers}}` in a template.

The modules are:

- `Wrappers`: `Option` and `Result`.
- `Strings`: the Python `str` operations used. These are `startswith`, `join`, repetition, left-to-right non-overlapping `replace`, and `str(int)`.
- `Counters`: `collections.Counter` as a sequence of `(key, count)` pairs in insertion order.
- `Outcomes`: request endings and the except-clause classification.
- `Aggregation`: the `results` record and the reduction `load_test` performs.
- `Ranking`: the stable descending sort and the top-3 cut.
- `Report`: `ret_parts` and the table.
- `HttpBenchmark`: the `Benchmark` class. Its methods model `__init__`, `__reset_results__`, the tail of `load_test`, `start_test` and `pretty_print_results`, and those that update `results` do so in place. The loop in `pretty_print_results` appends to `ret_parts` one error at a time.
- `NginxConf`: the server list and the template substitution.

The clock, the network and `asyncio` are parameters of the model:

- `LoadTest` receives the list `asyncio.gather` returns, in task-creation order, together with the window's start and end times.
- `StartTest` receives the same list and the times.
- `PrettyPrintResults` receives the text Python prints for the four rounded float values.

## Model

| member | source | states |
|---|---|---|
| `HttpBenchmark.NormalizeUrl` | http_benchmark.py:40-42 | the result starts with `http://` or `https://`; it equals the input exactly when the input already had one of the schemes, and otherwise is `"http://" + url` |
| `HttpBenchmark.NormalizeIdempotent` | http_benchmark.py:40-42 | normalising a normalised URL changes nothing |
| `HttpBenchmark.ConfigError` | http_benchmark.py:48-49 | no error exactly when `qps > 0` and `timeout > 0`; a bad rate is reported first, before the timeout is looked at |
| `HttpBenchmark.Create` | http_benchmark.py:30-51 | with the defaults `qps = 10` and `timeout = 10`, construction fails exactly when one of the two asserts fails, with that assert's error; otherwise a fresh benchmark with the normalised URL, the given rate and timeout, and the reset record |
| `HttpBenchmark.Benchmark.constructor` | http_benchmark.py:30-51 | `__init__` past its asserts, with the same defaults `qps = 10` and `timeout = 10`: the URL gets its scheme, the rate and timeout are stored, `results` is the reset record |
| `HttpBenchmark.Benchmark.ResetResults` | http_benchmark.py:53-65 | no start or end time, all three counts 0, no latencies, an empty error counter; nothing else changes |
| `HttpBenchmark.Benchmark.LoadTest` | http_benchmark.py:198-213 | `results` becomes the aggregate of the gathered outcomes with the window's times, and that record is consistent (see `Aggregation.AggregateCounts`) |
| `HttpBenchmark.Benchmark.StartTest` | http_benchmark.py:215-230 | with the defaults `duration = 10` and `verbose = True`, a non-positive duration fails with the duration assert and leaves `results` alone; otherwise `results` is reset and then overwritten by the aggregate, and in verbose mode the result is the table of the new record |
| `HttpBenchmark.Benchmark.PrettyPrintResults` | http_benchmark.py:126-155 | the loop appending the ranked errors one by one yields exactly the report table of the current record |
| `Outcomes.Classify` | http_benchmark.py:168-185 | the status is an integer code exactly when a response arrived or a `ClientResponseError` was raised, and it is that code; it is a success exactly when that code is 200; a client error without a code gives `"ClientError: " + str(e)`, and an exception that is neither a client error nor a timeout gives `"Other: " + str(e)`; every text status is one of `"ClientError: …"`, `"Timeout"`, `"Other: …"` |
| `Outcomes.SendRequest` | http_benchmark.py:159-185 | every ending yields a pair holding the measured time; the pair has a code exactly when one was carried and is a success exactly when that code is 200 |
| `Outcomes.TimeoutExactly` | http_benchmark.py:177-182 | `"Timeout"` is reported exactly for a timeout that is not a client error; a timeout that is also a `ClientError` is caught by the earlier clause |
| `Outcomes.ClientErrorExactly` | http_benchmark.py:174-179 | a status starts with `ClientError: ` exactly when the exception is a `ClientError` that is not a `ClientResponseError` |
| `Outcomes.OtherExactly` | http_benchmark.py:174-185 | a status starts with `Other: ` exactly when the exception is neither a client error nor a timeout |
| `Outcomes.MessagesKept` | http_benchmark.py:177-185 | two text statuses from client errors or other exceptions are equal only when they come from the same family and carry the same message |
| `Aggregation.SuccessCount` | http_benchmark.py:210 | the number of integer-200 statuses, never more than the outcomes; its further properties are stated by `FilterFacts` and `AggregateCounts` |
| `Aggregation.Latencies` | http_benchmark.py:212 | the latency filter; `LatenciesOfSuccesses` states that it is the elapsed time of each success, in order |
| `Aggregation.ErrorStatuses` | http_benchmark.py:213 | the list handed to `Counter`; `FilterFacts` and `ErrorIsStatus` state that it holds exactly the non-200 statuses, with their multiplicities |
| `Aggregation.Aggregate` | http_benchmark.py:198-213 | the record `load_test` leaves behind; `AggregateCounts`, `ErrorCounter` and `LatenciesOfSuccesses` state its fields |
| `Aggregation.EmptyResultsConsistent` | http_benchmark.py:57-65 | the reset record satisfies every relation between the fields and holds no requests, latencies or errors |
| `Aggregation.FilterFacts` | http_benchmark.py:210-213 | the successes counted are the outcomes with integer status 200; the latencies are as many as the successes; the error statuses are the rest, with every non-200 status kept as often as it occurs, and 200 never among them |
| `Aggregation.AggregateCounts` | http_benchmark.py:209-211 | `total_requests` is the number of outcomes; `successful_requests` counts the integer-200 statuses; `failed_requests` is the rest; the record is consistent: counts non-negative and summing to the total, as many latencies as successes, distinct positive counter entries without 200, and counter counts adding up to `failed_requests` |
| `Aggregation.SuccessIndices` | http_benchmark.py:212 | the positions of the successful outcomes, strictly increasing, every one successful and every success included |
| `Aggregation.LatenciesOfSuccesses` | http_benchmark.py:212 | `latencies` is the elapsed time of each successful outcome, in outcome order |
| `Aggregation.ErrorIsStatus` | http_benchmark.py:213 | a status other than 200 is among the counted error statuses exactly when some outcome has it |
| `Aggregation.FirstIndexAfterFilter` | http_benchmark.py:213 | dropping the successes keeps the order in which error statuses first occur |
| `Aggregation.ErrorCounter` | http_benchmark.py:211-213 | the counter's keys are exactly the non-200 statuses that occur, in the order they are first seen among the outcomes, and each key's count is its number of occurrences |
| `Aggregation.AllSuccessful` | http_benchmark.py:209-213 | a run where every status is 200 has no failures and an empty counter |
| `Aggregation.UniformFailure` | http_benchmark.py:209-213 | a run of `n ≥ 1` failures with one status `s` has no successes or latencies and the single counter entry `(s, n)` |
| `Counters.Add` | http_benchmark.py:213 | counting one element into a `Counter`; `AddFacts` states its effect |
| `Counters.CounterOf` | http_benchmark.py:213 | `Counter(xs)` built one element at a time; `CounterOfFacts` and `CounterOfFirstSeen` state its contents and order |
| `Counters.AddFacts` | http_benchmark.py:213 | counting one more element keeps keys distinct and counts positive, appends a new key at the end, and adds one to that key's count and to the total |
| `Counters.CounterOfFacts` | http_benchmark.py:213 | `Counter(xs)` has one entry per distinct element of `xs`, holding its number of occurrences, and the counts add up to `len(xs)` |
| `Counters.CounterOfFirstSeen` | http_benchmark.py:213 | the keys of `Counter(xs)` come in the order of their first occurrence in `xs` |
| `Ranking.SortByCountDesc` | http_benchmark.py:144 | `sorted(..., key=lambda x: x[1], reverse=True)` as an insertion sort; `SortFacts` states that it is ordered, a permutation and stable |
| `Ranking.TopErrors` | http_benchmark.py:142-144 | the sorted entries cut to `top_k`; `TopErrorsRanked`, `TopErrorsMaximal` and `TopErrorsStable` state what is kept |
| `Ranking.SortFacts` | http_benchmark.py:144 | `sorted(..., key=count, reverse=True)` orders by count, highest first, is a permutation, and keeps the relative order of entries with the same count |
| `Ranking.TopErrorsRanked` | http_benchmark.py:142-144 | the ranking has `min(3, len(counter))` entries, each taken from the counter, counts non-increasing |
| `Ranking.TopErrorsMaximal` | http_benchmark.py:144 | no entry left out of the ranking has a larger count than one kept |
| `Ranking.TopErrorsStable` | http_benchmark.py:144 | for every count, the ranked entries holding it are the first entries of the counter holding it, in first-seen order |
| `Report.ErrorLine` | http_benchmark.py:146 | `f"  {code}: {count}"`; `ReportErrors` places one per ranked error |
| `Report.ReportParts` | http_benchmark.py:126-146 | `ret_parts`; `ReportSize`, `ReportRatios`, `ReportErrors` and `EmptyRunReport` state its shape |
| `Report.Rows` | http_benchmark.py:153 | `table_lines`; `TableRows` states one padded row per part |
| `Report.Table` | http_benchmark.py:149-155 | the printed table; `TableRows` and `TableLength` state its layout and length |
| `Report.ReportSize` | http_benchmark.py:126-146 | the report has the twelve fixed parts, plus the `Top Errors:` heading and `min(3, len(counter))` lines exactly when the counter is non-empty |
| `Report.ReportRatios` | http_benchmark.py:137-138 | the success percentage reads `None` exactly when there were no requests, and the average latency exactly when there are no latencies |
| `Report.LabelledNone` | http_benchmark.py:137-138 | a labelled value reads `None` exactly when it is absent, unless its own text is `None` |
| `Report.ReportErrors` | http_benchmark.py:141-146 | for a non-empty counter, part 12 is the heading and part `13 + j` is `"  code: count"` of the `j`-th ranked error |
| `Report.EmptyRunReport` | http_benchmark.py:137-141 | a consistent record with no requests reports both ratios as `None` and has no error section |
| `Report.ErrorLinesSnoc` | http_benchmark.py:145-146 | appending one more ranked error appends one more line |
| `Report.MaxLen` | http_benchmark.py:149 | `max_len` bounds the length of every part and is the length of one of them |
| `Report.Row` | http_benchmark.py:153 | a row is `"| "`, the part, spaces, and a closing `|`, `max_len + 4` characters long |
| `Report.Separator` | http_benchmark.py:152 | the separator is a newline, `max_len + 4` dashes and a newline |
| `Report.TableRows` | http_benchmark.py:149-155 | there is one row per part, each the part padded to `max_len`, and each as long as the separator's run of dashes |
| `Report.TableLength` | http_benchmark.py:152-155 | with `n` parts the table is `n + 1` separators and `n` rows long |
| `Strings.ReplaceAll` | scalabale_http_benchmark.py:21 | `str.replace`, scanning left to right over non-overlapping occurrences; the `Replace…` lemmas below state its results |
| `Strings.Join` | scalabale_http_benchmark.py:18 | `sep.join(xs)`; `JoinSnoc` and `JoinUniformLength` state its growth and length |
| `Strings.ReplaceAbsent` | scalabale_http_benchmark.py:21 | `s.replace(pat, rep)` leaves a string without `pat` unchanged |
| `Strings.ReplaceKeepsCleanPrefix` | scalabale_http_benchmark.py:21 | text before the first occurrence is copied through unchanged |
| `Strings.NoStraddle` | scalabale_http_benchmark.py:21 | a pattern that cannot overlap itself cannot straddle a joint in front of one of its occurrences |
| `Strings.ReplaceJoined` | scalabale_http_benchmark.py:21 | replacing in pieces joined by the pattern swaps every joint for the replacement and keeps the pieces in order |
| `Strings.JoinSnoc` | scalabale_http_benchmark.py:18 | joining one more string adds the separator and the string |
| `Strings.JoinUniformLength` | scalabale_http_benchmark.py:18 | joining `n` strings of one length `len` gives `n * len` characters plus `n - 1` separators |
| `NginxConf.Servers` | scalabale_http_benchmark.py:18 | the server list of `generate_nginx_conf`; `ServersEmpty`, `ServersGrow`, `ServersLength` and `ServersNewlines` state its contents |
| `NginxConf.GenerateConfig` | scalabale_http_benchmark.py:21 | the configuration text of `generate_nginx_conf`; the `Template…` lemmas state what replaces each placeholder |
| `NginxConf.ServersEmpty` | scalabale_http_benchmark.py:18 | for `n ≤ 0` the server list is empty |
| `NginxConf.ServersGrow` | scalabale_http_benchmark.py:18 | one node gives one line, and each further node adds a newline and one more line |
| `NginxConf.ServersLength` | scalabale_http_benchmark.py:18 | for `n ≥ 1` the server list has `21 * n - 1` characters |
| `NginxConf.ServersNewlines` | scalabale_http_benchmark.py:18 | for `n ≥ 1` the server list holds exactly `n - 1` newlines |
| `NginxConf.JoinCopiesNewlines` | scalabale_http_benchmark.py:18 | joining newline-free copies with newlines leaves only the separators as newlines |
| `NginxConf.PlaceholderUnbordered` | scalabale_http_benchmark.py:21 | `{{servers}}` cannot overlap itself |
| `NginxConf.TemplateWithoutPlaceholder` | scalabale_http_benchmark.py:21 | a template without `{{servers}}` is written out unchanged |
| `NginxConf.TemplateWithOnePlaceholder` | scalabale_http_benchmark.py:21 | `p + "{{servers}}" + s`, with no placeholder in `p` or `s`, becomes `p + servers + s` |
| `NginxConf.TemplateReplacedEverywhere` | scalabale_http_benchmark.py:21 | every placeholder becomes the server list, and the text between placeholders is kept in order |

The code behaves differently here from what its comments suggest:

- **Timeouts.** The comment at http_benchmark.py:180-181 says timeouts are handled specifically. But aiohttp's `ServerTimeoutError` is both a `ClientError` and an `asyncio.TimeoutError`. The `ClientError` clause is tried first, so such a timeout is reported as `"ClientError: …"`. The model follows the code: `Outcomes.TimeoutExactly`.
- **Outcome order.** `asyncio.gather` returns outcomes in the order the tasks were created, not the order they complete. "First seen" therefore means first among the created requests.
- **The error heading.** The docstring of `pretty_print_results` shows a `Top 3 Error Codes:` heading. The code prints `Top Errors:` (http_benchmark.py:143), and the model uses that.

## Left out

- The network and the clock:
  - `__test_url__` (http_benchmark.py:67-75) sends a HEAD request. It probes the URL before normalisation, and its `raise` of a string would itself fail with a `TypeError`. None of this is modelled.
  - The aiohttp session, `response.read()` and the elapsed-time measurement in `send_request` are not modelled. Each ending and each elapsed time is an input.
  - The exception classes are given as membership flags: `ClientResponseError`, `ClientError` and `TimeoutError`.
- The rate loop of `load_test` (http_benchmark.py:193-205) is not modelled: `time.time()`, `asyncio.sleep`, `create_task` and `gather`. The gathered outcomes and the window's times are parameters.
- `LoadTest` has no `duration` parameter. The duration is used only by the rate loop.
- The nominal `total_requests = qps * duration` (http_benchmark.py:194) is computed but never used, so it is not modelled.
- `gather(..., return_exceptions=True)` can return an exception object if a task dies of something not derived from `Exception` (such as a cancellation). That case is not modelled: every ending is a response or an `Exception`.
- Float arithmetic and rounding are not modelled: the duration, the achieved rate (which also has no guard against a zero-length window), the success percentage and the average latency (http_benchmark.py:132-138). The model keeps only the present/absent guards of the last two. Their printed texts are inputs (`Report.FloatTexts`).
- HttpBenchmark.Benchmark.PrettyPrintResults: requires the window's start and end times to be set. On `None`, the source fails with a `TypeError` at line 132 instead of producing a report.
- HttpBenchmark.Benchmark.StartTest: returns the table that `pretty_print_results` would print. The `print` itself (http_benchmark.py:157) is not modelled. The failed duration assert is returned as a `Failure` value instead of being raised.
- HttpBenchmark.Benchmark.Valid: keeps the configuration (positive rate and timeout, a URL with a scheme) but not the consistency of `results`. Consistency is proved where the record is written: by `EmptyResultsConsistent` for the reset record, and in the postconditions of `LoadTest` and `StartTest` for the aggregate.
- HttpBenchmark.Create: returns a failed `__init__` assert as a `Failure` value instead of raising `AssertionError`. The message of each fault is `ConfigFault.Message`.
- `__str__` and `__repr__` (http_benchmark.py:77-87) are not modelled.
- The argparse `__main__` blocks (http_benchmark.py:232-241, scalabale_http_benchmark.py:25-38) and the `os.system` docker-compose calls are not modelled.
- The template read and the configuration write of `generate_nginx_conf` (scalabale_http_benchmark.py:19-23) are not modelled: the template is a parameter and the configuration is the result.
- http_benchmark_test.py is not part of this model. It is a driver script that sends network traffic, writes a CSV file, and calls a `get_results` method that `HTTPBenchmark` does not define.
- `str(e)` of an exception is an input (`Exception.message`). aiohttp's message texts are not modelled.
