/** Optional values: the model's counterpart of a field or lookup that may be
    None (a many-to-one left empty, a search that found nothing). */
module Wrappers {

  datatype Option<+T> = None | Some(value: T) {

    /** The wrapped value, or `default` when there is none. */
    function GetOr(default: T): T {
      match this
      case Some(v) => v
      case None => default
    }

    /** Python's `a or b` on an optional reference: this value when present,
        otherwise `other`. */
    function Or(other: Option<T>): Option<T> {
      match this
      case Some(_) => this
      case None => other
    }
  }
}
