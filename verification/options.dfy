/** The optional value used throughout the model: a JSON field that may be
    absent, a Python `None`, a JavaScript `null`, or a query that found nothing. */
module Options {

  datatype Option<+T> = None | Some(value: T) {

    /** The encapsulated value, or `default` when there is none. */
    function GetOr(default: T): T {
      match this
      case Some(v) => v
      case None => default
    }
  }
}
