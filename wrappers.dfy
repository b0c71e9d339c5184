/** Option and Result values shared by every module of the model. */
module Wrappers {

  /** A Ruby value that may be nil. */
  datatype Option<T> = None | Some(value: T) {

    /** Ruby's `a || b` when `a` is a String or nil: `a` unless it is nil. */
    function OrElse(other: Option<T>): Option<T> {
      if Some? then this else other
    }
  }

  /** The exceptions the modelled code raises. */
  datatype RubyError = ArgumentError(message: string) | TypeError(message: string)

  /** The value of a call that either returns or raises. */
  datatype Result<T> = Ok(value: T) | Raised(error: RubyError)
}
