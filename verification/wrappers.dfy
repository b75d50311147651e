/** Go's `error` result, as the model sees it: nil, or an error with its text. */
module Wrappers {

  /** `None` stands for a nil error, `Some(text)` for a non-nil one whose `Error()` text is `text`. */
  datatype Option<+T> = None | Some(value: T)

  type Error = Option<string>
}
