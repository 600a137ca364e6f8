/** Kotlin's nullable types: a value that may be absent. */
module Optional {

  datatype Option<T> = None | Some(value: T) {

    /** The Elvis operator `this ?: default`. */
    function OrElse(default: T): T {
      if Some? then value else default
    }
  }
}
