/** Optional values and results shared by every handler of the model. */
module Wrappers {

  /** A value that may be absent: a missing dictionary key or JSON field. */
  datatype Option<+T> = None | Some(value: T)

  /** The outcome of a call that can raise: `Failure` stands for the raised exception. */
  datatype Result<+R, +E> = Success(value: R) | Failure(error: E)

  /** The Python exceptions the handlers let escape. */
  datatype Exception =
    | IndexError                      // a list index past the end, as in `tokens[1]`
    | KeyError(key: string)           // a missing dictionary key, as in `response['Item']`
    | SummarisationError(message: string)  // re-raised failure of the summarisation chain
    | TranslationError(message: string)    // failure of the translation service
}
