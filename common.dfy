/**
 * Shared vocabulary of both services: identifiers, the abstract clock, money
 * in cents, the optional value, the errors a handler can raise and the HTTP
 * responses of the controllers.
 */
module Common {

  /** A Guid; only equality matters, so a natural number stands for it. */
  type Guid = nat

  /** A reading of the abstract clock that replaces DateTime.UtcNow. */
  type Time = int

  /** A decimal(18,2) amount, as an exact number of cents. */
  type Money = int

  type UserId = string

  datatype Option<T> = None | Some(value: T)

  /** The rows an optional staged row contributes to a table: none or one. */
  function Optional<T>(x: Option<T>): seq<T> {
    if x.Some? then [x.value] else []
  }

  /** The exceptions that can leave a handler or a controller action. */
  datatype Error =
    | DeserializationFailed  // JsonSerializer.Deserialize threw
    | ConcurrencyConflict    // DbUpdateConcurrencyException: stale Version or vanished row
    | KeyViolation           // DbUpdateException: primary key or unique index
    | StoreFailure           // the database could not be reached
    | BrokerUnreachable      // the broker connection or a publish failed

  /** How a call ended: it returned normally, or it threw. */
  datatype Outcome = Returned | Threw(error: Error)

  /** The action results of the two controllers; Failed is an unhandled exception (HTTP 500). */
  datatype Response<T> =
    | Ok(value: T)
    | BadRequest(message: string)
    | NotFound(message: string)
    | Conflict(message: string)
    | Failed(error: Error)

  /** string.IsNullOrEmpty on the X-User-Id header; None is an absent (null) header. */
  predicate IsNullOrEmpty(s: Option<string>) {
    s.None? || s.value == ""
  }

  const UserIdRequired := "User ID is required"
}
