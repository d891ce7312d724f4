/** The optional-value datatype used throughout the model. In the aggregation
    script a missing value is a pandas null or a NaN; here it is `None`. */
module Wrappers {

  datatype Option<+T> = None | Some(value: T) {

    /** The value read from a file, or what a missing file stands for: a
        cold start has an empty custom log. */
    function GetOr(default: T): T {
      match this
      case Some(v) => v
      case None => default
    }
  }
}
