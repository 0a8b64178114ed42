/** The one optional-value type the model needs: JavaScript's `undefined`/`null`
    for a field, or "nothing here" for a parse that did not happen. */
module Wrappers {

  datatype Option<+T> = None | Some(value: T) {

    /** The value, or `default` when there is none (JavaScript's `x ?? default`). */
    function GetOr(default: T): T {
      match this
      case Some(v) => v
      case None => default
    }
  }
}
