/** The list of section-level diagnostics that `parse` threads through the extractors. */
module Diagnostics {
  class ErrorLog {
    var messages: seq<string>

    constructor ()
      ensures messages == []
    {
      messages := [];
    }

    /** `errors.push(message)` */
    method Push(message: string)
      modifies this
      ensures messages == old(messages) + [message]
    {
      messages := messages + [message];
    }
  }
}
