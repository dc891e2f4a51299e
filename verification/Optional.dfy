/** Kotlin's nullable values (`T?`), as an explicit datatype. */
module Optional {

  /** `None` plays the part of Kotlin's `null`. */
  datatype Option<+T> = None | Some(value: T) {

    /** Kotlin's elvis operator `this ?: default`. */
    function GetOr(default: T): T {
      match this
      case Some(v) => v
      case None => default
    }
  }
}
