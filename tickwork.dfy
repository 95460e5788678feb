/** Values shared by the scheduler's event and manager: optional values,
    results carrying the errors the Ruby code raises, times and zones,
    and the manager's configuration. */
module Tickwork {

  datatype Option<+T> = None | Some(value: T) {
    /** The value if present, else the given default (Ruby's `fetch` with a default). */
    function GetOr(default: T): T {
      if Some? then value else default
    }
  }

  /** The outcome of an operation that raises one of the errors below in Ruby. */
  datatype Result<+T> = Ok(value: T) | Err(error: Error)

  /** The exceptions the registration operations raise. */
  datatype Error =
    | NoHandlerDefined              // Manager::NoHandlerDefined
    | DuplicateJobName              // Manager::DuplicateJobName
    | IllegalJobName                // Event::IllegalJobName
    | ArgumentError(message: string) // a non-callable :if option
    | FailedToParse(at: string)     // At::FailedToParse for an :at value
    | UnsupportedCallback(name: string)
    | ConcatFailed                  // `job + '_' + at` on a job that is not a string

  /** A time zone: none configured, or a named zone. */
  datatype Zone = NoZone | Named(name: string)

  /** An instant in integer milliseconds since the epoch, seen in a zone. */
  datatype Time = Time(ms: int, zone: Zone)

  /** Stands for a Ruby block or callable: a job body, a hook, an :if
      predicate or an error handler. What it does is given by an oracle. */
  type CallableId = nat

  /** The manager configuration the core reads: the default thread mode,
      the cap on live threads and the default time zone. */
  datatype Config = Config(thread: bool, maxThreads: int, tz: Zone)

  /** default_configuration: no threads, at most 10 of them, no zone. */
  const DefaultConfiguration: Config := Config(false, 10, NoZone)
}
