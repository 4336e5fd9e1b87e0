/** The errors the modelled code raises, passes through or reports. */
module Errors {
  import opened Wrappers
  import opened JsValues

  /** One entry of a validator's error list: `{ field, code?, message }`. */
  datatype FieldError = FieldError(field: string, code: Option<string>, message: string)

  /** The part of an HTTP response an error handler looks at. */
  datatype Response = Response(status: int, data: Value)

  /** The subclasses of `HttpError` in src/lib/http/errors.ts. */
  datatype HttpErrorKind =
    | Network | Validation | Authentication | Authorization | NotFound | Conflict | RateLimit | Server | Generic

  /** Instances of `Error` (and its subclasses) that the core can throw or receive. */
  datatype Err =
    | PlainError(message: string)                            // new Error(message)
    | HttpError(kind: HttpErrorKind, message: string, data: Value) // http/errors.ts; `data` is a ValidationError's `errors`
    | AxiosError(message: string, response: Option<Response>) // raised by the HTTP library
    | CacheError(message: string, code: string, key: string) // cache/index.ts CacheError
    | ValidationFailed(errors: seq<FieldError>)               // the executor's validation failure
    | ServiceNotFound(token: string)                          // di/errors.ts ServiceNotFoundError
    | CircularDependency(tokens: seq<string>)                 // di/errors.ts CircularDependencyError
    | DepthExceeded(maxDepth: int, token: string, depth: nat) // the container's DIError on depth
    | CallStackExceeded                                       // the engine's RangeError on runaway recursion
    | TypeError(message: string)                              // the engine's TypeError on a property access it rejects

  /** A thrown JavaScript value: an `Error` instance, or anything else, kept as `String(value)`. */
  datatype Thrown = Error(err: Err) | NonError(text: string)

  /** `error instanceof Error ? error : new Error(String(error))` */
  function AsError(t: Thrown): Err {
    match t
    case Error(e) => e
    case NonError(text) => PlainError(text)
  }
}
