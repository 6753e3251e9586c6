/**
  The decision logic of `URLSessionDispatcher`: how the outcome of a data task is classified
  (`parseErrors`) and what the completion handler is given.

  The `URLSession` task itself is not modelled; its outcome is the `DataTaskResponse` value.
  Whether a payload decodes as UTF-8 is the parameter `isUtf8`.
 */
module URLSessionDispatcher {
  import opened Wrappers
  import opened URLRequestErrors

  /** What a data task reports: its payload, its transport error and, for an HTTP response,
      the status code. */
  datatype DataTaskResponse = DataTaskResponse(data: Option<Bytes>, error: Option<NSError>, statusCode: Option<int>)

  type Completion = Result<Option<Bytes>, URLRequestError>

  predicate IsSuccessStatus(code: int) {
    200 <= code <= 299
  }

  predicate IsClientErrorStatus(code: int) {
    400 <= code <= 499
  }

  /** `parseErrors(in:)`. No HTTP status is `unknown`; a status in 200...299 is no error, whatever the
      transport error says; `withData` comes out exactly for a 4xx status without transport error
      and with a UTF-8 payload, carrying that payload and no cause; every other error is `unknown`. */
  function ParseErrors(response: DataTaskResponse, isUtf8: Bytes -> bool): (e: Option<URLRequestError>)
    ensures response.statusCode.None? ==> e == Some(Unknown)
    ensures e.None? <==> response.statusCode.Some? && IsSuccessStatus(response.statusCode.value)
    ensures e.Some? && e.value.WithData? <==>
      && response.statusCode.Some? && IsClientErrorStatus(response.statusCode.value)
      && response.error.None? && response.data.Some? && isUtf8(response.data.value)
    ensures e.Some? && e.value.WithData? ==> Some(e.value.data) == response.data && e.value.cause.None?
    ensures e.Some? && !e.value.WithData? ==> e.value == Unknown
  {
    if response.statusCode.None? then Some(Unknown)
    else if !IsSuccessStatus(response.statusCode.value) then
      if response.error.Some? then Some(Unknown)
      else if !IsClientErrorStatus(response.statusCode.value) || response.data.None? || !isUtf8(response.data.value)
      then Some(Unknown)
      else Some(WithData(response.data.value, response.error))
    else None
  }

  /** The completion handler of the data task. `dispatcherAlive` is false when the weakly held
      dispatcher is gone, in which case `self?.parseErrors` yields nil. A parsed error completes
      as a failure; otherwise the payload, possibly nil, completes as a success. */
  function CompleteDataTask(dispatcherAlive: bool, response: DataTaskResponse, isUtf8: Bytes -> bool): (c: Completion)
    ensures dispatcherAlive && ParseErrors(response, isUtf8).Some? ==> c == Failure(ParseErrors(response, isUtf8).value)
    ensures dispatcherAlive && ParseErrors(response, isUtf8).None? ==> c == Success(response.data)
    ensures !dispatcherAlive ==> c == Success(response.data)
    ensures c.Failure? ==> c.error == Unknown || c.error.WithData?
  {
    var parsed := if dispatcherAlive then ParseErrors(response, isUtf8) else None;
    if parsed.Some? then Failure(parsed.value)
    else if response.data.None? then Success(None)
    else Success(response.data)
  }

  /** What `execute(request:completion:)` does before the task completes: a request that cannot be
      built completes at once with `requestBuilderFailed` and gives no token. */
  datatype ExecuteStart = ExecuteStart(immediateCompletion: Option<Completion>, tokenIssued: bool)

  /** A failed build completes with `requestBuilderFailed` and no token; a built request completes
      later, through the data task, and has a token. */
  function StartExecute(requestBuilt: bool): (start: ExecuteStart)
    ensures start.tokenIssued <==> requestBuilt
    ensures start.immediateCompletion.Some? <==> !requestBuilt
    ensures !requestBuilt ==> start.immediateCompletion == Some(Failure(RequestBuilderFailed))
  {
    if requestBuilt then ExecuteStart(None, true) else ExecuteStart(Some(Failure(RequestBuilderFailed)), false)
  }
}
