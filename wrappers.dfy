/** Optional values: a field that may be missing from a stored document, or a form input left empty. */
module Wrappers {

  datatype Option<+T> = None | Some(value: T) {

    /** The value if present, `default` otherwise (JavaScript's `x || default` on a present, truthy x). */
    function GetOr(default: T): T
    {
      match this
      case Some(v) => v
      case None => default
    }
  }
}
