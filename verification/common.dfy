/** Small shared datatypes: JavaScript's `undefined`/`null` alternatives
    and the three ways a form submission ends. */
module Common {

  /** A value that may be absent (`undefined` or `null` in the source). */
  datatype Option<+T> = None | Some(value: T) {
    function GetOr(default: T): T {
      match this
      case Some(v) => v
      case None => default
    }
  }

  /** How a submit handler ends: stopped by validation before any request,
      or the request was sent and the server accepted or refused it. */
  datatype SubmitOutcome = Blocked | Saved | SaveFailed
}
