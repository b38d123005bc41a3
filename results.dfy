/** Failure-carrying values shared by every module of the model: JavaScript's
    `undefined`/missing members become `None`, and a thrown `Error` becomes `Err`
    (or `Fail`) carrying the error's `message`. */
module Results {

  datatype Option<+T> = None | Some(value: T) {
    /** `x || fallback` for a member that is either missing or present. */
    function GetOr(default: T): T {
      if Some? then value else default
    }
  }

  /** A computation that either returns a value or throws an Error with a message. */
  datatype Result<+T> = Ok(value: T) | Err(error: string)

  /** A computation that returns nothing or throws an Error with a message. */
  datatype Outcome = Pass | Fail(error: string)

  /** JavaScript truthiness of an optional string: present and non-empty. */
  predicate Truthy(o: Option<string>) {
    o.Some? && o.value != ""
  }
}
