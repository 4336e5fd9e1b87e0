/**
 * The error path of the HTTP client: whether a failed request is retried,
 * which error class a failure becomes, and the order in which a response
 * error is handled (token refresh, then retry, then the mapped error).
 */
module HttpClient {
  import opened Wrappers
  import opened JsValues
  import opened Errors
  import Retry

  /** The statuses the client's own classifier retries. */
  const RetryableStatuses: seq<int> := [408, 429, 500, 502, 503, 504]

  /**
   * `shouldRetry(error, config)`: the configured predicate when there is
   * one, otherwise "no response, or a status in `RetryableStatuses`".
   */
  predicate ShouldRetry(error: Err, config: Option<Retry.RetryConfig>)
    requires error.AxiosError?
  {
    if config.Some? && config.value.shouldRetry.Some? then config.value.shouldRetry.value(error)
    else error.response.None? || error.response.value.status in RetryableStatuses
  }

  /** Without a configured predicate, exactly a missing response or one of the six statuses is retried. */
  lemma DefaultRetryDecision(message: string, response: Option<Response>)
    ensures ShouldRetry(AxiosError(message, response), None)
      <==> response.None? || response.value.status in {408, 429, 500, 502, 503, 504}
  {
  }

  /** 501 and 505 are not retried here, although the retry strategy's own classifier retries every 5xx. */
  lemma NotImplementedDisagrees(message: string, data: Value)
    ensures !ShouldRetry(AxiosError(message, Some(Response(501, data))), None)
    ensures !ShouldRetry(AxiosError(message, Some(Response(505, data))), None)
    ensures Retry.DefaultShouldRetry(AxiosError(message, Some(Response(501, data))))
    ensures Retry.DefaultShouldRetry(AxiosError(message, Some(Response(505, data))))
  {
    Retry.DefaultShouldRetryClassifies(AxiosError(message, Some(Response(501, data))));
    Retry.DefaultShouldRetryClassifies(AxiosError(message, Some(Response(505, data))));
  }

  /**
   * `mapError`: a failure without a response is a `NetworkError`; a
   * response status selects the class, `ValidationError` keeping the
   * response body. (The diagnostic `metadata` the classes also carry is
   * not modelled.)
   */
  function MapError(response: Option<Response>): (r: Err)
    ensures r.HttpError?
    ensures response.None? <==> r.kind == Network
    ensures response.Some? ==> (r.kind == Validation <==> response.value.status == 400)
    ensures response.Some? && response.value.status == 400 ==> r.data == response.value.data
    ensures response.Some? ==> (r.kind == Authentication <==> response.value.status == 401)
    ensures response.Some? ==> (r.kind == Authorization <==> response.value.status == 403)
    ensures response.Some? ==> (r.kind == NotFound <==> response.value.status == 404)
    ensures response.Some? ==> (r.kind == Conflict <==> response.value.status == 409)
    ensures response.Some? ==> (r.kind == RateLimit <==> response.value.status == 429)
    ensures response.Some? && response.value.status !in {400, 401, 403, 404, 409, 429} ==>
      (r.kind == Server <==> response.value.status >= 500)
    ensures response.Some? && response.value.status !in {400, 401, 403, 404, 409, 429} && response.value.status < 500 ==>
      r.kind == Generic
  {
    match response
    case None => HttpError(Network, "Network error", Undefined)
    case Some(Response(status, data)) =>
      if status == 400 then HttpError(Validation, "Invalid request", data)
      else if status == 401 then HttpError(Authentication, "Unauthorized", Undefined)
      else if status == 403 then HttpError(Authorization, "Forbidden", Undefined)
      else if status == 404 then HttpError(NotFound, "Resource not found", Undefined)
      else if status == 409 then HttpError(Conflict, "Resource conflict", Undefined)
      else if status == 429 then HttpError(RateLimit, "Too many requests", Undefined)
      else if status >= 500 then HttpError(Server, "Server error", Undefined)
      else HttpError(Generic, "HTTP error", Undefined)
  }

  /** What the auth manager's `refreshToken()` did: returned a token (possibly empty), or threw. */
  datatype Refresh = Token(token: string) | RefreshFailed

  /** What `handleResponseError` does with a failed request. */
  datatype Handling =
    | Replay(authorization: string) // re-issue the request with this Authorization header
    | RetryRequest                  // run the request again through the retry strategy
    | Throw(error: Err)             // reject with this error

  /**
   * `handleResponseError`: a 401 with an auth manager refreshes the token
   * and replays; a refresh that throws becomes "Session expired"; a refresh
   * without a token falls through to the retry decision, and a request that
   * is not retried rejects with the mapped error. `refresh` is the outcome
   * the auth manager would give (absent without an auth manager); the
   * request's own retry settings, else the configured `api.retry`, are
   * `retryConfig`.
   */
  function HandleResponseError(error: Err, refresh: Option<Refresh>, retryConfig: Option<Retry.RetryConfig>): (r: Handling)
    requires error.AxiosError?
    ensures r.Replay? ==> error.response.Some? && error.response.value.status == 401 && refresh.Some?
    ensures r == RetryRequest ==> ShouldRetry(error, retryConfig)
    ensures r.Throw? && r.error != HttpError(Authentication, "Session expired", Undefined) ==>
      !ShouldRetry(error, retryConfig) && r.error == MapError(error.response)
    ensures error.response.Some? && error.response.value.status == 401 && refresh == Some(RefreshFailed) ==>
      r == Throw(HttpError(Authentication, "Session expired", Undefined))
    ensures r.Replay? ==> refresh.value.Token? && refresh.value.token != "" && r.authorization == "Bearer " + refresh.value.token
    ensures refresh == Some(Token("")) ==>
      r == if ShouldRetry(error, retryConfig) then RetryRequest else Throw(MapError(error.response))
  {
    if error.response.Some? && error.response.value.status == 401 && refresh.Some? && refresh.value == RefreshFailed then
      Throw(HttpError(Authentication, "Session expired", Undefined))
    else if error.response.Some? && error.response.value.status == 401 && refresh.Some? && refresh.value.token != "" then
      Replay("Bearer " + refresh.value.token)
    else if ShouldRetry(error, retryConfig) then RetryRequest
    else Throw(MapError(error.response))
  }

  /** Without a 401 and an auth manager, the decision is "retry if the classifier says so, else throw the mapped error". */
  lemma RetryBeforeMapping(error: Err, refresh: Option<Refresh>, retryConfig: Option<Retry.RetryConfig>)
    requires error.AxiosError?
    requires refresh.None? || error.response.None? || error.response.value.status != 401
    ensures HandleResponseError(error, refresh, retryConfig)
      == if ShouldRetry(error, retryConfig) then RetryRequest else Throw(MapError(error.response))
  {
  }

  /** A 401 with a refreshed token is replayed even when the classifier would retry or map it. */
  lemma RefreshComesFirst(message: string, data: Value, token: string, retryConfig: Option<Retry.RetryConfig>)
    requires token != ""
    ensures HandleResponseError(AxiosError(message, Some(Response(401, data))), Some(Token(token)), retryConfig)
      == Replay("Bearer " + token)
  {
  }
}
