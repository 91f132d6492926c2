/** One request's outcome in `HTTPBenchmark.send_request`: how the request ended, and the
    `(elapsed, status)` pair the except clauses turn that ending into. */
module Outcomes {
  import opened Strings

  /** The status `send_request` reports: the integer HTTP status code, or one of the texts
      `"ClientError: …"`, `"Timeout"`, `"Other: …"`. */
  datatype Status = Code(code: int) | Text(text: string)

  /** An exception that escaped `session.get` or `response.read`, described by the classes it is
      an instance of (`ClientResponseError` derives from `ClientError`; aiohttp's
      `ServerTimeoutError` is both a `ClientError` and an `asyncio.TimeoutError`), the status
      a `ClientResponseError` carries, and `str(e)`. */
  datatype Exception = Exception(
    isClientResponseError: bool,
    isClientError: bool,
    isTimeoutError: bool,
    status: int,
    message: string)

  /** How the request ended: the body was read and the response status is known, or an
      exception derived from `Exception` was raised. */
  datatype Ending = Responded(status: int) | Raised(error: Exception)

  /** One element of the list that `asyncio.gather` returns: `(elapsed, status)`. Elapsed
      seconds are measured by the clock and are never computed with here. */
  datatype Outcome = Outcome(elapsed: real, status: Status)

  /** `status == 200`: only the integer code 200 is a success. */
  predicate IsSuccess(s: Status)
  {
    s == Code(200)
  }

  /** The status code an ending carries, if any: a response's, or a `ClientResponseError`'s. */
  predicate CarriesCode(e: Ending)
  {
    e.Responded? || e.error.isClientResponseError
  }

  function CarriedCode(e: Ending): int
    requires CarriesCode(e)
  {
    if e.Responded? then e.status else e.error.status
  }

  /** The except clauses of `send_request`, tried in their written order. */
  function Classify(e: Ending): (r: Status)
    ensures r.Code? <==> CarriesCode(e)
    ensures r.Code? ==> r.code == CarriedCode(e)
    ensures IsSuccess(r) <==> CarriesCode(e) && CarriedCode(e) == 200
    ensures r.Text? ==> StartsWith(r.text, "ClientError: ") || r.text == "Timeout"
                        || StartsWith(r.text, "Other: ")
    ensures e.Raised? && !e.error.isClientResponseError && e.error.isClientError ==>
              r == Text("ClientError: " + e.error.message)
    ensures e.Raised? && !e.error.isClientResponseError && !e.error.isClientError
              && !e.error.isTimeoutError ==>
              r == Text("Other: " + e.error.message)
  {
    match e
    case Responded(code) => Code(code)
    case Raised(x) =>
      if x.isClientResponseError then Code(x.status)
      else if x.isClientError then Text("ClientError: " + x.message)
      else if x.isTimeoutError then Text("Timeout")
      else Text("Other: " + x.message)
  }

  /** `send_request`, with the measured elapsed time and the ending given: every ending yields
      a pair, and the pair counts as a success exactly when a status code 200 was carried. */
  function SendRequest(elapsed: real, e: Ending): (o: Outcome)
    ensures o.elapsed == elapsed
    ensures o.status.Code? <==> CarriesCode(e)
    ensures IsSuccess(o.status) <==> CarriesCode(e) && CarriedCode(e) == 200
  {
    Outcome(elapsed, Classify(e))
  }

  /** `"Timeout"` is reported exactly for a timeout that is not also a client error: a
      `ServerTimeoutError` is caught by the earlier `ClientError` clause. */
  lemma TimeoutExactly(e: Ending)
    ensures Classify(e) == Text("Timeout") <==>
      e.Raised? && !e.error.isClientResponseError && !e.error.isClientError && e.error.isTimeoutError
  {
    if e.Raised? && !e.error.isClientResponseError {
      var m := e.error.message;
      assert ("ClientError: " + m)[0] == 'C';
      assert ("Other: " + m)[0] == 'O';
    }
  }

  /** A `"ClientError: "` status is reported exactly for a client error that carries no status
      code, `aiohttp.ClientError` being the clause tried after `ClientResponseError`. */
  lemma ClientErrorExactly(e: Ending)
    ensures (Classify(e).Text? && StartsWith(Classify(e).text, "ClientError: ")) <==>
      e.Raised? && !e.error.isClientResponseError && e.error.isClientError
  {
    if e.Raised? && !e.error.isClientResponseError && !e.error.isClientError {
      var t := Classify(e).text;
      assert t[0] != 'C';
    }
  }

  /** An `"Other: "` status is reported exactly for an exception that is neither a client error
      nor a timeout, the last clause `except Exception`. */
  lemma OtherExactly(e: Ending)
    ensures (Classify(e).Text? && StartsWith(Classify(e).text, "Other: ")) <==>
      e.Raised? && !e.error.isClientResponseError && !e.error.isClientError && !e.error.isTimeoutError
  {
    if e.Raised? && !e.error.isClientResponseError && (e.error.isClientError || e.error.isTimeoutError) {
      var t := Classify(e).text;
      assert t[0] != 'O';
    }
  }

  /** Client errors and other exceptions keep their full message, so distinct messages give
      distinct statuses, and the two families never share a status. */
  lemma MessagesKept(e1: Ending, e2: Ending)
    requires e1.Raised? && e2.Raised?
    requires !CarriesCode(e1) && !CarriesCode(e2)
    requires e1.error.isClientError || !e1.error.isTimeoutError
    requires e2.error.isClientError || !e2.error.isTimeoutError
    requires Classify(e1) == Classify(e2)
    ensures e1.error.isClientError == e2.error.isClientError
    ensures e1.error.message == e2.error.message
  {
    var m1, m2 := e1.error.message, e2.error.message;
    var t1, t2 := Classify(e1).text, Classify(e2).text;
    assert t1[0] == if e1.error.isClientError then 'C' else 'O';
    assert t2[0] == if e2.error.isClientError then 'C' else 'O';
    if e1.error.isClientError {
      assert m1 == t1[13..] && m2 == t2[13..];
    } else {
      assert m1 == t1[7..] && m2 == t2[7..];
    }
  }

  /** `f"{status}"`: the decimal code, or the text itself. */
  function StatusText(s: Status): (t: string)
    ensures |t| >= 1 || s.Text?
  {
    match s
    case Code(c) => IntToDecimal(c)
    case Text(x) => x
  }
}
