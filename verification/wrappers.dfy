/** Small failure-carrying datatypes used across the model. */
module Wrappers {

  /** A value that may be absent: `undefined`/`null` in the original program. */
  datatype Option<+T> = None | Some(value: T)

  /** Either a value or the message of the error that was thrown instead. */
  datatype Result<+T> = Ok(value: T) | Err(message: string)

  /** JavaScript truthiness of an optional string: present and not empty. */
  predicate Truthy(o: Option<string>)
  {
    o.Some? && |o.value| > 0
  }
}
