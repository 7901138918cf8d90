/** What a `throw` carries in the modelled code: either an `Error` object,
    whose `message` the handlers read, or some other value, which they turn
    into text with `String(e)`. */
module Exceptions {

  datatype Thrown =
    | ErrorObject(message: string)
    | OtherValue(text: string)

  /** `e instanceof Error ? e.message : String(e)`: the text a handler shows. */
  function Text(e: Thrown): string
  {
    match e
    case ErrorObject(m) => m
    case OtherValue(s) => s
  }

  /** `e instanceof Error ? e.message : fallback`. */
  function MessageOr(e: Thrown, fallback: string): string
  {
    match e
    case ErrorObject(m) => m
    case OtherValue(_) => fallback
  }
}
