/** Small wrapper types shared by the whole model. */
module Common {

  /** An optional value; `None` stands for a JavaScript `undefined`. */
  datatype Option<+T> = None | Some(value: T) {
    function GetOr(default: T): T {
      match this
      case Some(v) => v
      case None => default
    }
  }

  /** The outcome of a step that may throw. Every exception the generator can
      raise once the document is parsed is a `TypeError` (a property read on
      `undefined`), so the failure case carries no payload. */
  datatype Result<+T> = Ok(value: T) | TypeError
}
