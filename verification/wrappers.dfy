/** Optional values: an attribute that is absent from a stored item, a key
    missing from a JSON object, a lookup that found nothing. */
module Wrappers {

  datatype Option<+T> = None | Some(value: T) {

    /** The value, or `default` when there is none (Python's `d.get(k, default)`). */
    function GetOr(default: T): T {
      match this
      case Some(v) => v
      case None => default
    }
  }

  /** Python truthiness of an optional string: present and non-empty. */
  predicate Present(o: Option<string>) {
    o.Some? && o.value != ""
  }

  /** A computation that either produces a value or fails with an error. */
  datatype Result<+T, +E> = Success(value: T) | Failure(error: E)

  /** The outcome of one call into code outside the model (a store write, an
      event-bus publish, an HTTP request): it returns, or it raises an
      exception whose text is `msg`. */
  datatype Call = Ok | Raise(msg: string)
}
