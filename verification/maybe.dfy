/** The absent-or-present value used wherever the source returns `null`,
    `undefined` or `NaN` instead of a value. */
module Maybe {

  datatype Option<+T> = None | Some(value: T) {

    /** The value when present, otherwise `default` (the source's `x || d` on objects). */
    function GetOr(default: T): T {
      match this
      case Some(v) => v
      case None => default
    }
  }
}
