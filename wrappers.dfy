/** Optional values and results with an error message, for lookups that can
 *  miss and for the configuration reader's exceptions. */
module Wrappers {

  datatype Option<T> = None | Some(value: T)

  datatype Result<T> = Ok(value: T) | Err(msg: string) {
    predicate IsFailure() {
      Err?
    }
  }
}
