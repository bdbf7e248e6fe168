/** Shared wrappers: an optional value, and the outcome of an HTTP request as the
    frontend's axios calls see it. */
module Common {

  datatype Option<+T> = None | Some(value: T) {
    /** The value, or `default` when there is none (Python's `dict.get(key, default)`). */
    function GetOr(default: T): (r: T) {
      match this
      case Some(v) => v
      case None => default
    }
  }

  /** What a rejected axios request carries: `error.response?.data?.error` (absent
      when there was no response or its body had no `error` key) and `error.message`. */
  datatype HttpError = HttpError(responseError: Option<string>, message: string)

  /** A request's outcome: the response's `data`, or the error it was rejected with. */
  datatype Reply<+T> = Ok(data: T) | Failed(error: HttpError)

  /** JavaScript truthiness of a string-valued expression that may be undefined. */
  predicate Truthy(s: Option<string>) {
    s.Some? && s.value != ""
  }

  /** `error.response?.data?.error || error.message || fallback`: the first
      non-empty of the server's error text, the transport message and the fallback. */
  function ErrorText(e: HttpError, fallback: string): (r: string)
    ensures Truthy(e.responseError) ==> r == e.responseError.value
    ensures !Truthy(e.responseError) && e.message != "" ==> r == e.message
    ensures !Truthy(e.responseError) && e.message == "" ==> r == fallback
    ensures fallback != "" ==> r != ""
  {
    if Truthy(e.responseError) then e.responseError.value
    else if e.message != "" then e.message
    else fallback
  }

  /** The alert after a failed structural request: `${action}: ${errorMsg}`. */
  function FailureAlert(action: string, e: HttpError, fallback: string): (r: string)
    ensures |r| >= |action| + 2 && r[..|action| + 2] == action + ": "
    ensures r[|action| + 2..] == ErrorText(e, fallback)
    ensures fallback != "" ==> |r| > |action| + 2
  {
    action + ": " + ErrorText(e, fallback)
  }
}
