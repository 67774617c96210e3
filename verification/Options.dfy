/** The optional value every other module uses for the source's nullable fields. */
module Options {

  datatype Option<+T> = None | Some(value: T) {

    function GetOr(default: T): T {
      match this
      case Some(v) => v
      case None => default
    }

    /** The first of two optional values that is present. */
    function Or(other: Option<T>): Option<T> {
      if Some? then this else other
    }
  }
}
