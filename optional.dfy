/** The absent-or-present value used for JavaScript's optional fields (`x?: T`, `undefined`, `null`). */
module Optional {

  datatype Option<+T> = None | Some(value: T) {

    /** The value, or `default` when absent: JavaScript's `x ?? default`. */
    function GetOr(default: T): (result: T) {
      match this
      case Some(v) => v
      case None => default
    }
  }
}
