/** The tracing records this component hands to its logger. They belong to
    the host framework; the dispatcher only builds them. */
module Nova {

  /** Who emits a trace event: a friendly name and a kind. */
  datatype TraceSource = TraceSource(name: string, sourceType: string)

  /** What was done: a display name and the command text (the message sent). */
  datatype TraceCommand = TraceCommand(name: string, text: string)

  /** One call of `logger.trace(source, command, duration, success)`. */
  datatype TraceEvent = TraceEvent(source: TraceSource, command: string, durationMs: nat, success: bool)
}
