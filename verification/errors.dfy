/** The dispatcher's error type (lib/Error.ts) and the exceptions the
    component can throw. */
module Errors {
  import opened Wrappers
  import opened Nova
  import Strings

  /** The underlying JavaScript `Error` a dispatcher error wraps, known here
      only by its message. */
  datatype Cause = Cause(message: string)

  /** The `details` record attached to a dispatcher error. */
  datatype Details = Details(command: string)

  /** An instance of `DispatcherError`: the cause handed to the base
      exception, the generated message, and optional details. */
  datatype DispatcherError = DispatcherError(cause: Cause, message: string, details: Option<Details>)

  /** What the component can throw: a built-in `TypeError` with its message,
      or a `DispatcherError`. */
  datatype Exception = TypeError(message: string) | DispatchFailed(error: DispatcherError)

  const MessagePrefix := "Failed to send a message into "
  const MessageSuffix := " queue"

  /** The `DispatcherError` constructor. `command` is `None` when the caller
      passes no command (the validation error in the client). */
  function NewDispatcherError(cause: Cause, queue: string, command: Option<TraceCommand>): (e: DispatcherError)
    ensures e.cause == cause
    ensures e.message == "Failed to send a message into " + queue + " queue"
    ensures QueueOfMessage(e.message) == Some(queue)
    ensures e.details.Some? <==> command.Some?
    ensures command.Some? ==> e.details.value.command == command.value.text
  {
    Strings.UnwrapWrap(MessagePrefix, queue, MessageSuffix);
    var details := match command
      case Some(c) => Some(Details(c.text))
      case None => None;
    DispatcherError(cause, Strings.Wrap(MessagePrefix, queue, MessageSuffix), details)
  }

  /** The queue name a dispatcher error message was generated for, if the
      message has the generated shape. */
  function QueueOfMessage(message: string): Option<string> {
    Strings.Unwrap(message, MessagePrefix, MessageSuffix)
  }

  /** The message identifies the queue: two errors with the same message were
      raised for the same queue, whatever their causes and commands. */
  lemma MessageIdentifiesQueue(c1: Cause, q1: string, k1: Option<TraceCommand>,
                               c2: Cause, q2: string, k2: Option<TraceCommand>)
    requires NewDispatcherError(c1, q1, k1).message == NewDispatcherError(c2, q2, k2).message
    ensures q1 == q2
  {
    Strings.WrapInjective(MessagePrefix, q1, q2, MessageSuffix);
  }
}
