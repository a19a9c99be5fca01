/** Failure-carrying values shared by every module of the meeting pipeline model. */
module Wrappers {

  /** A value that may be absent: JavaScript's `null` / `undefined`. */
  datatype Option<+T> = None | Some(value: T) {
    function GetOr(default: T): T {
      match this
      case Some(v) => v
      case None => default
    }
  }

  /** The outcome of an operation that either yields a value or throws an `Error` with a message. */
  datatype Result<+T> = Ok(value: T) | Err(message: string)

  /**
   * What an agent resolves to: `{success: true, <payload>, metadata: {service}}`
   * or `{success: false, error}`. `service` is absent for agents that do not report one.
   */
  datatype Reply<+P> = Success(payload: P, service: Option<string>) | Failure(error: string)

  /** A JavaScript string that is truthy: present and not empty. */
  predicate Truthy(o: Option<string>) {
    o.Some? && o.value != ""
  }

  /** `value || fallback` for a string. */
  function Or(o: Option<string>, fallback: string): (r: string)
    ensures Truthy(o) ==> r == o.value
    ensures !Truthy(o) ==> r == fallback
  {
    if Truthy(o) then o.value else fallback
  }

  /** `value || null` for a string. */
  function OrNull(o: Option<string>): (r: Option<string>)
    ensures r.None? || Truthy(r)
    ensures Truthy(o) ==> r == o
  {
    if Truthy(o) then o else None
  }
}
