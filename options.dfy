/** The optional value the model uses for JavaScript `undefined`/`null`. */
module Options {

  datatype Option<+T> = None | Some(value: T) {

    /** Returns the value held, or the given default when there is none. */
    function GetOr(default: T): T {
      match this
      case Some(v) => v
      case None => default
    }
  }
}
