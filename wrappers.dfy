/** Option and Result, the two failure-carrying shapes the modelled code uses
    (Rust's `Option`/`Result`, and JavaScript's `undefined`). */
module Wrappers {

  datatype Option<+T> = None | Some(value: T)

  datatype Result<+T, +E> = Ok(value: T) | Err(error: E)

  /** How a JavaScript template literal (or `format`) writes an optional
      string: `undefined` becomes the text "undefined". */
  function Interpolate(s: Option<string>): string {
    match s
    case None => "undefined"
    case Some(text) => text
  }
}
