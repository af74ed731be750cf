/**
 The outcome of a request to the backend, taken as an input of the model
 instead of the network call, and the pages' shared way of turning a
 failure into text: `error.response?.data?.message || fallback`.
 */
module Replies {

  /** What the awaited request produced: a success carrying its payload, or a
      rejection whose response body may carry a `message`. */
  datatype Reply<T> = Succeeded(data: T) | Rejected(message: Option<string>)

  datatype Option<T> = None | Some(value: T)

  /** The text shown for a failed request: the server's message when it is a
      non-empty string (an empty string is falsy for `||`), else the page's fallback. */
  function FailureText(message: Option<string>, fallback: string): (t: string)
    ensures message.Some? && message.value != "" ==> t == message.value
    ensures message.None? || message.value == "" ==> t == fallback
    ensures fallback != "" ==> t != ""
  {
    match message
    case Some(m) => if m != "" then m else fallback
    case None => fallback
  }
}
