/**
  `URLRequestError`: the networking library's error, its numeric `code` and its bridge
  to an `NSError` (`rawError`).

  A Swift `Error` is modelled by the `NSError` it bridges to. JSON deserialisation is not
  modelled: it is the parameter `jsonObject`, which gives the string-keyed dictionary a
  payload decodes to, or nothing when it is not a JSON object.
 */
module URLRequestErrors {
  import opened Wrappers

  newtype byte = x: int | 0 <= x < 256

  type Bytes = seq<byte>

  /** The error domain of the errors this library creates. */
  const Domain: string := "URLRequestError"

  /** The user-info key under which `NSError` keeps its localised description. */
  const DescriptionKey: string := "NSLocalizedDescription"

  datatype NSError = NSError(domain: string, code: int, userInfo: map<string, string>)

  datatype URLRequestError =
    | Raw(rawCause: NSError)
    | Unknown
    | RequestBuilderFailed
    | WithData(data: Bytes, cause: Option<NSError>)

  /** `code`: the cause's code where there is one, otherwise the library's own negative code. */
  function Code(e: URLRequestError): (code: int)
    ensures e.Raw? ==> code == e.rawCause.code
    ensures e.WithData? && e.cause.Some? ==> code == e.cause.value.code
    ensures !e.Raw? && !(e.WithData? && e.cause.Some?) ==> -3 <= code <= -1
  {
    match e
    case Raw(cause) => cause.code
    case Unknown => -1
    case RequestBuilderFailed => -2
    case WithData(_, cause) => if cause.Some? then cause.value.code else -3
  }

  /** `NSError(domain:code:description:)`: an error whose user info holds only its description. */
  function Described(code: int, description: string): (err: NSError)
    ensures err.domain == Domain && err.code == code
    ensures err.userInfo == map[DescriptionKey := description]
  {
    NSError(Domain, code, map[DescriptionKey := description])
  }

  /** `rawError` */
  function RawError(e: URLRequestError, jsonObject: Bytes -> Option<map<string, string>>): (err: NSError)
    ensures e.Raw? ==> err == e.rawCause
    ensures !e.Raw? ==> err.domain == Domain
    ensures !e.Raw? && !(e.WithData? && jsonObject(e.data).Some?) ==> DescriptionKey in err.userInfo
    decreases if e.WithData? then 1 else 0
  {
    match e
    case Raw(cause) => cause
    case Unknown => Described(Code(e), "Unknown error.")
    case RequestBuilderFailed => Described(Code(e), "The request builder failed.")
    case WithData(data, _) =>
      var decoded := jsonObject(data);
      if decoded.None? then RawError(Unknown, jsonObject) else NSError(Domain, Code(e), decoded.value)
  }

  /** The codes: -1 for `unknown`, -2 for `requestBuilderFailed`, -3 for `withData` without a
      cause, and the cause's own code otherwise. */
  lemma CodeCases(e: URLRequestError)
    ensures e.Unknown? ==> Code(e) == -1
    ensures e.RequestBuilderFailed? ==> Code(e) == -2
    ensures e.WithData? && e.cause.None? ==> Code(e) == -3
    ensures e.WithData? && e.cause.Some? ==> Code(e) == e.cause.value.code
    ensures e.Raw? ==> Code(e) == e.rawCause.code
  {
  }

  /** The two locally made errors bridge to domain "URLRequestError", their own code and their
      fixed description; a raw error bridges to its cause. */
  lemma RawErrorOfLocalErrors(jsonObject: Bytes -> Option<map<string, string>>, cause: NSError)
    ensures RawError(Unknown, jsonObject) == NSError(Domain, -1, map[DescriptionKey := "Unknown error."])
    ensures RawError(RequestBuilderFailed, jsonObject)
         == NSError(Domain, -2, map[DescriptionKey := "The request builder failed."])
    ensures RawError(Raw(cause), jsonObject) == cause
  {
  }

  /** The bridged error carries the same code as `code`, except for a `withData` error whose payload
      is not a JSON object: that one bridges to the `unknown` error and its code -1. */
  lemma RawErrorCodeAgreesWithCode(e: URLRequestError, jsonObject: Bytes -> Option<map<string, string>>)
    ensures e.WithData? && jsonObject(e.data).None? ==> RawError(e, jsonObject).code == -1
    ensures !(e.WithData? && jsonObject(e.data).None?) ==> RawError(e, jsonObject).code == Code(e)
    ensures e.WithData? && jsonObject(e.data).Some? ==> RawError(e, jsonObject).userInfo == jsonObject(e.data).value
  {
  }
}
