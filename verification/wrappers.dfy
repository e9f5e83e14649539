/** The optional-value type used for absent fields of the upstream chunks,
    for the optional model hint and for the optional fragment a filter step
    produces. */
module Wrappers {

  datatype Option<+T> = None | Some(value: T) {

    /** The value, or `default` when there is none. */
    function GetOr(default: T): T {
      match this
      case Some(v) => v
      case None => default
    }

    /** Zero or one elements: how an optional fragment joins a stream. */
    function ToSeq(): seq<T> {
      match this
      case Some(v) => [v]
      case None => []
    }
  }
}
