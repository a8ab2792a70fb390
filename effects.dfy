/** What a handler does, as a trace of effects: the audit log entry, the one
    RCON request, and the single terminal outcome the user sees. */
module Effects {
  import opened Registry

  /** A value in the argument dict handed to `log_command`. */
  datatype LogValue = LogText(text: string) | LogInt(number: int) | LogNone

  datatype Effect =
    | Log(commandName: string, args: seq<(string, LogValue)>)  // `log_command`
    | Send(server: ServerDescriptor, command: string)          // `send_pavlov_command`
    | Reply(message: string)                                   // `send_message`
    | Fault(exception: string)                                 // an exception escapes the handler

  /** An effect that ends a handler. */
  predicate Terminal(e: Effect) {
    e.Reply? || e.Fault?
  }

  /** The trace contains an RCON request. */
  predicate Sends(t: seq<Effect>) {
    exists k :: 0 <= k < |t| && t[k].Send?
  }

  /** The shape every handler trace has: the log entry first and only there,
      exactly one terminal effect and it is last, and a send, if any, right
      before it. */
  predicate WellFormed(t: seq<Effect>) {
    && |t| >= 2
    && t[0].Log?
    && Terminal(t[|t| - 1])
    && (forall k :: 0 <= k < |t| - 1 ==> !Terminal(t[k]))
    && (forall k :: 1 <= k < |t| ==> !t[k].Log?)
    && (forall k :: 0 <= k < |t| && t[k].Send? ==> k == |t| - 2)
  }
}
