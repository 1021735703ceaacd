/**
  `main` of `script/spider.py` after argument parsing: the opening log line,
  the guarded block (configuration, claimer, run), its two handlers and the
  closing "done" log line.  A `Raised` outcome of `Main` is an exception
  that escapes `main` itself.
 */
module Guard {
  import opened Wrappers
  import opened Args
  import opened Trace
  import opened Pipeline

  /** The guarded block, given the behaviour `run` of its last statement:
      load the configuration, log, create the claimer, then `run`. */
  function Enter(args: RunArgs, f: Faults, run: Behaviour): Behaviour
  {
    Attempt(f, ConfigFile, LoadConfig,
      Log(LogGetting,
        Attempt(f, PackpubNew, CreateClaimer(args.dev), run)))
  }

  /** The guarded block: load the configuration, create the claimer, run. */
  function Body(ed: Edition, args: RunArgs, f: Faults): Behaviour
  {
    Enter(args, f, Run(ed, args, f))
  }

  /** The handlers for an outcome `o` of the guarded block; `configBound`
      tells whether `config` was assigned before the block raised. As
      written, the error notification reads `config` whatever happened; the
      corrected handler skips the notification when there is no
      configuration to build the notifier from. */
  function Handle(ed: Edition, args: RunArgs, f: Faults, o: Outcome, configBound: bool): (r: Behaviour)
    ensures r.outcome.Raised? ==> o.Raised? && o.exc.Exception? && args.notify.Some?
    ensures o.Raised? && o.exc.KeyboardInterrupt? ==> r.outcome.Returned?
  {
    match o
    case Returned => Finish
    case Raised(KeyboardInterrupt(_)) => Log(LogInterrupted, Finish)
    case Raised(Exception(e)) =>
      Log(LogDebug(e),
        match args.notify
        case None => Finish
        case Some(ch) =>
          if configBound then Attempt(f, NotifySendError, SendError(ch, e, "global"), Finish)
          else if ed == AsWritten then Throw(ConfigUnbound)
          else Finish)
  }

  /** What follows the guarded block, given its behaviour `body`: the
      handlers for its outcome and, when they return, the "done" line. */
  function Conclude(ed: Edition, args: RunArgs, f: Faults, body: Behaviour, configBound: bool): Behaviour
  {
    var handled := Handle(ed, args, f, body.outcome, configBound);
    var done := if handled.outcome.Returned? then [LogDone] else [];
    Behaviour(body.trace + handled.trace + done, handled.outcome)
  }

  /** `main`: the whole invocation. */
  function Main(ed: Edition, args: RunArgs, f: Faults): (r: Behaviour)
    ensures r.trace != [] && r.trace[0] == LogFetching
    ensures r.outcome.Returned? ==> r.trace[|r.trace| - 1] == LogDone
    ensures r.outcome.Raised? ==> args.notify.Some?
  {
    Log(LogFetching, Conclude(ed, args, f, Body(ed, args, f), ConfigFile !in f))
  }
}
