/** The optional-value wrapper shared by every module of the model. */
module Options {

  /** `None` stands for SQL `NULL`, a row that a lookup did not find, or an
      absent piece of text. */
  datatype Option<+T> = None | Some(value: T) {

    /** Returns the value in `Some`, or `default` for `None`. */
    function GetOr(default: T): T {
      match this
      case Some(v) => v
      case None => default
    }
  }
}
