/**
  Properties of `main` (lines 79-100 of `script/spider.py`): the guard
  around configuration, claimer and run, its two handlers, and the final
  "done" log line.
 */
module GuardFacts {
  import opened Wrappers
  import opened Args
  import opened Trace
  import opened Pipeline
  import opened PipelineFacts
  import opened Guard

  /** The guarded block stops at the configuration or at the claimer when
      they raise, and otherwise is its last statement after three effects. */
  lemma EnterShape(args: RunArgs, f: Faults, run: Behaviour)
    ensures ConfigFile in f ==>
      Enter(args, f, run) == Behaviour([LoadConfig], Raised(Raise(ConfigFile, f[ConfigFile])))
    ensures ConfigFile !in f && PackpubNew in f ==>
      Enter(args, f, run)
        == Behaviour([LoadConfig, LogGetting, CreateClaimer(args.dev)], Raised(Raise(PackpubNew, f[PackpubNew])))
    ensures ConfigFile !in f && PackpubNew !in f ==>
      Enter(args, f, run) == Behaviour([LoadConfig, LogGetting, CreateClaimer(args.dev)] + run.trace, run.outcome)
  {
    if ConfigFile !in f && PackpubNew !in f {
      assert [LoadConfig] + ([LogGetting] + ([CreateClaimer(args.dev)] + run.trace))
          == [LoadConfig, LogGetting, CreateClaimer(args.dev)] + run.trace;
    }
  }

  /** Once the configuration and the claimer are created, the guarded block
      shows as many effects of a class as its last statement, when the
      class holds none of the three effects before it. */
  lemma EnterCount(args: RunArgs, f: Faults, run: Behaviour, p: Effect -> bool)
    requires ConfigFile !in f && PackpubNew !in f
    requires !p(LoadConfig) && !p(LogGetting) && !p(CreateClaimer(args.dev))
    ensures Count(Enter(args, f, run).trace, p) == Count(run.trace, p)
    ensures Enter(args, f, run).outcome == run.outcome
  {
    EnterShape(args, f, run);
    var pre := [LoadConfig, LogGetting, CreateClaimer(args.dev)];
    CountAppend(pre, run.trace, p);
    CountZero(pre, p);
  }

  /** The guarded block sends at most one notification and no error
      notification; when it has notified it raises only because that
      notification raised. */
  lemma BodyNotices(ed: Edition, args: RunArgs, f: Faults)
    ensures Count(Body(ed, args, f).trace, IsNotice) <= 1
    ensures Count(Body(ed, args, f).trace, IsErrorNotice) == 0
    ensures Count(Body(ed, args, f).trace, IsNotice) == 1 && Body(ed, args, f).outcome.Raised? ==>
      NotifyRun in f
  {
    EnterShape(args, f, Run(ed, args, f));
    var pre := [LoadConfig, LogGetting, CreateClaimer(args.dev)];
    CountSingle(LoadConfig, IsNotice);
    CountSingle(LoadConfig, IsErrorNotice);
    CountZero(pre, IsNotice);
    CountZero(pre, IsErrorNotice);
    if ConfigFile !in f && PackpubNew !in f {
      RunNoticeBound(ed, args, f);
      CountAppend(pre, Run(ed, args, f).trace, IsNotice);
      CountAppend(pre, Run(ed, args, f).trace, IsErrorNotice);
      if Count(Run(ed, args, f).trace, IsNotice) == 1 && Run(ed, args, f).outcome.Raised? {
        NoticeIsLastCall(ed, args, f);
      }
    }
  }

  /** The handlers notify at most once, only for an exception, and send an
      error notification exactly when the exception comes with `-n` and a
      loaded configuration. */
  lemma HandlerNotices(ed: Edition, args: RunArgs, f: Faults, o: Outcome, configBound: bool)
    ensures Count(Handle(ed, args, f, o, configBound).trace, IsNotice)
         <= Bit(o.Raised? && o.exc.Exception?)
    ensures Count(Handle(ed, args, f, o, configBound).trace, IsErrorNotice)
         == Bit(o.Raised? && o.exc.Exception? && args.notify.Some? && configBound)
    ensures Count(Handle(ed, args, f, o, configBound).trace, IsNotice)
         == Count(Handle(ed, args, f, o, configBound).trace, IsErrorNotice)
  {
    var h := Handle(ed, args, f, o, configBound).trace;
    if o.Raised? {
      CountCons(h[0], h[1..], IsNotice);
      CountCons(h[0], h[1..], IsErrorNotice);
      assert h == [h[0]] + h[1..];
      if |h| > 1 {
        assert h[1..] == [h[1]];
        CountSingle(h[1], IsNotice);
        CountSingle(h[1], IsErrorNotice);
      }
    }
  }

  /** Counting a class of effects that excludes "done" over what follows
      the guarded block. */
  lemma ConcludeCount(ed: Edition, args: RunArgs, f: Faults, body: Behaviour, configBound: bool, p: Effect -> bool)
    requires !p(LogDone)
    ensures Count(Conclude(ed, args, f, body, configBound).trace, p)
         == Count(body.trace, p) + Count(Handle(ed, args, f, body.outcome, configBound).trace, p)
  {
    var h := Handle(ed, args, f, body.outcome, configBound);
    var done := if h.outcome.Returned? then [LogDone] else [];
    CountAppend(body.trace, h.trace, p);
    CountAppend(body.trace + h.trace, done, p);
    if done != [] {
      CountSingle(LogDone, p);
    }
  }

  /** Counting a class of effects that excludes the opening and closing
      log lines over `main`. */
  lemma MainCount(ed: Edition, args: RunArgs, f: Faults, p: Effect -> bool)
    requires !p(LogDone) && !p(LogFetching)
    ensures Count(Main(ed, args, f).trace, p)
         == Count(Body(ed, args, f).trace, p)
          + Count(Handle(ed, args, f, Body(ed, args, f).outcome, ConfigFile !in f).trace, p)
  {
    var body := Body(ed, args, f);
    CountLog(LogFetching, Conclude(ed, args, f, body, ConfigFile !in f), p);
    ConcludeCount(ed, args, f, body, ConfigFile !in f, p);
  }

  /** The interrupt handler logs the interrupt, and "done" follows. */
  lemma ConcludeInterrupt(ed: Edition, args: RunArgs, f: Faults, body: Behaviour, configBound: bool)
    requires body.outcome.Raised? && body.outcome.exc.KeyboardInterrupt?
    ensures Conclude(ed, args, f, body, configBound)
         == Behaviour(body.trace + [LogInterrupted, LogDone], Returned)
  {
  }

  /** The exception handler, once the configuration is loaded: the debug
      line, the error notification under `-n`, and "done" unless that
      notification raised. */
  lemma ConcludeError(ed: Edition, args: RunArgs, f: Faults, body: Behaviour)
    requires body.outcome.Raised? && body.outcome.exc.Exception?
    ensures var e := body.outcome.exc.err;
      var c := Conclude(ed, args, f, body, true);
      c.trace
        == body.trace + [LogDebug(e)]
         + (if args.notify.Some? then [SendError(args.notify.value, e, "global")] else [])
         + (if c.outcome.Returned? then [LogDone] else [])
    ensures Conclude(ed, args, f, body, true).outcome.Returned?
        <==> args.notify.None? || NotifySendError !in f
  {
  }

  /** An interrupt is logged as such and never notified; "done" follows. */
  lemma InterruptIsNotNotified(ed: Edition, args: RunArgs, f: Faults)
    requires Body(ed, args, f).outcome.Raised? && Body(ed, args, f).outcome.exc.KeyboardInterrupt?
    ensures Main(ed, args, f)
         == Behaviour([LogFetching] + Body(ed, args, f).trace + [LogInterrupted, LogDone], Returned)
    ensures Count(Main(ed, args, f).trace, IsErrorNotice) == 0
  {
    var body := Body(ed, args, f);
    ConcludeInterrupt(ed, args, f, body, ConfigFile !in f);
    assert Main(ed, args, f) == Log(LogFetching, Conclude(ed, args, f, body, ConfigFile !in f));
    assert [LogFetching] + (body.trace + [LogInterrupted, LogDone])
        == [LogFetching] + body.trace + [LogInterrupted, LogDone];
    BodyNotices(ed, args, f);
    MainCount(ed, args, f, IsErrorNotice);
    HandlerNotices(ed, args, f, body.outcome, ConfigFile !in f);
  }

  /** Any other failure after the configuration loaded is debug-logged and,
      with `-n`, reported by exactly one error notification labelled
      "global" that carries the exception; "done" follows unless that
      notification raises. */
  lemma ErrorIsNotified(ed: Edition, args: RunArgs, f: Faults)
    requires Body(ed, args, f).outcome.Raised? && Body(ed, args, f).outcome.exc.Exception?
    requires ConfigFile !in f
    ensures var e := Body(ed, args, f).outcome.exc.err;
      Main(ed, args, f).trace
        == [LogFetching] + Body(ed, args, f).trace + [LogDebug(e)]
         + (if args.notify.Some? then [SendError(args.notify.value, e, "global")] else [])
         + (if Main(ed, args, f).outcome.Returned? then [LogDone] else [])
    ensures Main(ed, args, f).outcome.Returned? <==> args.notify.None? || NotifySendError !in f
  {
    var body := Body(ed, args, f);
    var e := body.outcome.exc.err;
    var c := Conclude(ed, args, f, body, true);
    ConcludeError(ed, args, f, body);
    assert Main(ed, args, f) == Log(LogFetching, c);
    LeadingAssoc(LogFetching, body.trace, [LogDebug(e)],
      if args.notify.Some? then [SendError(args.notify.value, e, "global")] else [],
      if c.outcome.Returned? then [LogDone] else []);
  }

  /** Regrouping a trace behind its first effect. */
  lemma LeadingAssoc(x: Effect, a: seq<Effect>, b: seq<Effect>, c: seq<Effect>, d: seq<Effect>)
    ensures [x] + (a + b + c + d) == [x] + a + b + c + d
  {
  }

  /** Such a failure leads to exactly one error notification under `-n`
      and to none without it. */
  lemma ErrorNotifiedOnce(ed: Edition, args: RunArgs, f: Faults)
    requires Body(ed, args, f).outcome.Raised? && Body(ed, args, f).outcome.exc.Exception?
    requires ConfigFile !in f
    ensures Count(Main(ed, args, f).trace, IsErrorNotice) == Bit(args.notify.Some?)
  {
    BodyNotices(ed, args, f);
    MainCount(ed, args, f, IsErrorNotice);
    HandlerNotices(ed, args, f, Body(ed, args, f).outcome, true);
  }

  /** As written, when the configuration fails to load under `-n` the
      handler itself raises: `config` was never assigned. Nothing is
      notified and "done" is never logged. */
  lemma AsWrittenConfigFailureEscapes(args: RunArgs, f: Faults)
    requires ConfigFile in f && f[ConfigFile] == Kind.Failure && args.notify.Some?
    ensures Main(AsWritten, args, f)
         == Behaviour([LogFetching, LoadConfig, LogDebug(CallFailed(ConfigFile))],
                      Raised(Exception(ConfigUnbound)))
  {
  }

  /** Corrected, a configuration failure is debug-logged, nothing is
      notified, and "done" is logged. */
  lemma CorrectedConfigFailureHandled(args: RunArgs, f: Faults)
    requires ConfigFile in f && f[ConfigFile] == Kind.Failure
    ensures Main(Corrected, args, f)
         == Behaviour([LogFetching, LoadConfig, LogDebug(CallFailed(ConfigFile)), LogDone], Returned)
  {
  }

  /** `main` ends with "done" exactly when it returns, and an exception
      escapes it exactly when the guarded block failed with an exception
      under `-n` and the handler failed too: by reading the unassigned
      `config` (as written, after a configuration failure) or because the
      error notification raised. */
  lemma DoneUnlessHandlerFails(ed: Edition, args: RunArgs, f: Faults)
    ensures var t := Main(ed, args, f).trace;
      Main(ed, args, f).outcome.Returned? <==> |t| > 0 && t[|t| - 1] == LogDone
    ensures var o := Body(ed, args, f).outcome;
      Main(ed, args, f).outcome.Raised? <==>
        && o.Raised? && o.exc.Exception? && args.notify.Some?
        && (if ConfigFile in f then ed == AsWritten else NotifySendError in f)
  {
  }

  /** When the success notification does not raise, `main` sends at most
      one notification in all; otherwise at most two (the failed success
      notification and the error notification reporting it). */
  lemma AtMostOneNotice(ed: Edition, args: RunArgs, f: Faults)
    ensures Count(Main(ed, args, f).trace, IsNotice) <= 2
    ensures NotifyRun !in f ==> Count(Main(ed, args, f).trace, IsNotice) <= 1
  {
    var body := Body(ed, args, f);
    BodyNotices(ed, args, f);
    MainCount(ed, args, f, IsNotice);
    HandlerNotices(ed, args, f, body.outcome, ConfigFile !in f);
  }

  /** With `-a` (and without `-o`), once claiming and downloading succeed,
      the guarded block raises "not implemented" without notifying. */
  lemma ArchiveBodyRaises(ed: Edition, args: RunArgs, f: Faults)
    requires args.archive && !args.claimOnly
    requires ConfigFile !in f && PackpubNew !in f && PackpubRun !in f && DownloadEbooks !in f
    requires args.extras ==> DownloadExtras !in f
    ensures Body(ed, args, f).outcome == Raised(Exception(NotImplemented))
    ensures Count(Body(ed, args, f).trace, IsNotice) == 0
  {
    var run := Run(ed, args, f);
    ArchiveNotImplemented(ed, args, f);
    ArchiveSkipsTheRest(ed, args, f);
    EnterCount(args, f, run, IsNotice);
  }

  /** With `-a` (and without `-o`), once claiming and downloading succeed,
      `main` reports "not implemented" through one error notification under
      `-n` and sends no other notification. */
  lemma ArchiveNotifiesOnce(ed: Edition, args: RunArgs, f: Faults)
    requires args.archive && !args.claimOnly
    requires ConfigFile !in f && PackpubNew !in f && PackpubRun !in f && DownloadEbooks !in f
    requires args.extras ==> DownloadExtras !in f
    ensures Count(Main(ed, args, f).trace, IsNotice) == Bit(args.notify.Some?)
    ensures args.notify.Some? ==>
      SendError(args.notify.value, NotImplemented, "global") in Main(ed, args, f).trace
    ensures Main(ed, args, f).outcome.Returned? <==> args.notify.None? || NotifySendError !in f
  {
    ArchiveBodyRaises(ed, args, f);
    MainCount(ed, args, f, IsNotice);
    HandlerNotices(ed, args, f, Raised(Exception(NotImplemented)), true);
    ErrorIsNotified(ed, args, f);
  }

  /** `--type epub --upload dropbox --notify gmail` with every collaborator
      succeeding: one claim, the EPUB download, the upload, the warning
      that skips storing, the success notification with upload details,
      and "done". Both editions agree here. */
  lemma DropboxEpubScenario(ed: Edition)
    ensures var args := RunArgs(false, false, Some(Dropbox), false, Some(Gmail), None, false, Epub, None);
      Main(ed, args, map[])
        == Behaviour([LogFetching, LoadConfig, LogGetting, CreateClaimer(false), ClaimBook, ClaimedLog,
                      DownloadBooks([Epub]), UploadFiles(Dropbox, Paths([Epub], false)), WarnSkipStore,
                      SendNotification(Gmail, true), LogDone],
                     Returned)
  {
  }

  /** `--upload drive --store firebase` with every collaborator
      succeeding: as written, the identity test against the service name
      sends even a Drive upload down the warning branch, and nothing is
      stored. */
  lemma AsWrittenDriveUploadNotStored()
    ensures var args := RunArgs(false, false, Some(Drive), false, None, Some(Firebase), false, Pdf, None);
      Main(AsWritten, args, map[])
        == Behaviour([LogFetching, LoadConfig, LogGetting, CreateClaimer(false), ClaimBook, ClaimedLog,
                      DownloadBooks([Pdf]), UploadFiles(Drive, Paths([Pdf], false)), WarnSkipStore, LogDone],
                     Returned)
  {
  }

  /** The same invocation corrected: the Drive upload's details are
      stored. */
  lemma CorrectedDriveUploadStored()
    ensures var args := RunArgs(false, false, Some(Drive), false, None, Some(Firebase), false, Pdf, None);
      Main(Corrected, args, map[])
        == Behaviour([LogFetching, LoadConfig, LogGetting, CreateClaimer(false), ClaimBook, ClaimedLog,
                      DownloadBooks([Pdf]), UploadFiles(Drive, Paths([Pdf], false)), StoreRecord(Firebase, Drive),
                      LogDone],
                     Returned)
  {
  }
}
