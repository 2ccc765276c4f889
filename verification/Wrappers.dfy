/** Results that several modules share. */
module Wrappers {
  /** A value that may be missing. */
  datatype Option<T> = None | Some(value: T)

  /** How the replacement of a file turns out: the file is kept, or replaced with or without an error in
      the end, when only its mode could not be set. */
  datatype Replacement = Replaced | KeptWithError | ReplacedWithError
}
