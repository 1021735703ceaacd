/**
  The body of `run(packpub, args, config)` in `script/spider.py`: claim,
  optional development log, the claim-only exit, download, extras, the
  unimplemented archive stage, upload, the store decision and the success
  notification.

  The code takes its store decision with an identity test of an `Upload`
  object against a service name, which never holds; `Edition` selects
  between that decision as written and the decision the code evidently intends,
  which the findings of this model compare.
 */
module Pipeline {
  import opened Wrappers
  import opened Args
  import opened Trace

  datatype Edition = AsWritten | Corrected

  /** The Python values the store decision compares with `is`: an `Upload`
      instance and a service-name string are never the same object. */
  datatype PyObj = UploadObj(svc: UploadSvc) | Str(s: string)

  /** Stands for `SERVICE_DRIVE`, which line 45 compares with and whose
      value is defined outside this file. An `UploadObj` is never identical
      to any `Str`, so the string chosen here does not affect the decision. */
  const DriveName: string := "drive"

  /** Python's `a is b` on the values above. */
  predicate Identical(a: PyObj, b: PyObj)
  {
    a == b
  }

  /** What the store stage does. */
  datatype StoreAction =
    | SkipWarn                            // log "skip store info"
    | SkipSilently                        // neither branch applies
    | Record(db: DbSvc, svc: UploadSvc)   // Database(...).store()
    | DerefNone                           // `upload.info` with `upload` None

  /** The store decision, given the upload performed (if any) and `-s`.
      As written, line 45 tests the upload object for identity with the
      service name; the corrected decision compares the requested service
      by value and warns instead of reading `None.info` when `-s` comes
      without an upload. */
  function StoreDecision(ed: Edition, upload: Option<UploadSvc>, store: Option<DbSvc>): (r: StoreAction)
    ensures r.Record? ==> upload == Some(r.svc) && store == Some(r.db)
    ensures r.DerefNone? ==> ed == AsWritten && upload.None? && store.Some?
  {
    match ed
    case AsWritten =>
      (match upload
      case None =>
        if store.Some? then DerefNone else SkipSilently
      case Some(svc) =>
        if !Identical(UploadObj(svc), Str(DriveName)) then SkipWarn
        else (match store
          case Some(db) => Record(db, svc)
          case None => SkipSilently))
    case Corrected =>
      if upload.Some? && upload != Some(Drive) then SkipWarn
      else (match store
        case None => SkipSilently
        case Some(db) => if upload.Some? then Record(db, Drive) else SkipWarn)
  }

  /** As written, every upload leads to the warning and `-s` without an
      upload reads `None.info`: nothing is ever recorded. */
  lemma AsWrittenStoreDecision(upload: Option<UploadSvc>, store: Option<DbSvc>)
    ensures StoreDecision(AsWritten, upload, store) == SkipWarn <==> upload.Some?
    ensures StoreDecision(AsWritten, upload, store) == DerefNone <==> upload.None? && store.Some?
    ensures StoreDecision(AsWritten, upload, store) == SkipSilently <==> upload.None? && store.None?
    ensures !StoreDecision(AsWritten, upload, store).Record?
  {
  }

  /** Corrected, exactly the Drive uploads under `-s` are recorded, with the
      database `-s` names; every other upload, and `-s` without an upload,
      leads to the warning; `None.info` is never read. */
  lemma CorrectedStoreDecision(upload: Option<UploadSvc>, store: Option<DbSvc>)
    ensures StoreDecision(Corrected, upload, store).Record? <==> upload == Some(Drive) && store.Some?
    ensures StoreDecision(Corrected, upload, store).Record? ==>
      StoreDecision(Corrected, upload, store) == Record(store.value, Drive)
    ensures StoreDecision(Corrected, upload, store) == SkipWarn <==>
      upload != Some(Drive) && (upload.Some? || store.Some?)
    ensures !StoreDecision(Corrected, upload, store).DerefNone?
  {
  }

  /** `run`: the claim, then either the claim-only exit or the transfer. */
  function Run(ed: Edition, args: RunArgs, f: Faults): (r: Behaviour)
    ensures r.trace != [] && r.trace[0] == ClaimBook
  {
    var rest := if args.claimOnly then Report(args, f, None) else Transfer(ed, args, f);
    Attempt(f, PackpubRun, ClaimBook, Behaviour(ClaimedLogs(args) + rest.trace, rest.outcome))
  }

  /** The log lines that follow a successful claim. */
  function ClaimedLogs(args: RunArgs): seq<Effect>
  {
    if args.dev then [DevLog, ClaimedLog] else [ClaimedLog]
  }

  /** Download, extras and the archive stop, then upload onwards. */
  function Transfer(ed: Edition, args: RunArgs, f: Faults): Behaviour
  {
    var types := ParseTypes(args);
    var afterArchive :=
      if args.archive then Throw(NotImplemented)
      else UploadStage(ed, args, f, Paths(types, args.extras));
    var afterExtras :=
      if args.extras then Attempt(f, DownloadExtras, FetchExtras, afterArchive)
      else afterArchive;
    Attempt(f, DownloadEbooks, DownloadBooks(types), afterExtras)
  }

  /** The upload, when `-u` names a service, then the store stage. */
  function UploadStage(ed: Edition, args: RunArgs, f: Faults, paths: Paths): Behaviour
  {
    match args.upload
    case Some(svc) => Attempt(f, UploadRun, UploadFiles(svc, paths), StoreStage(ed, args, f, Some(svc)))
    case None => StoreStage(ed, args, f, None)
  }

  /** The store decision carried out, then the success notification. */
  function StoreStage(ed: Edition, args: RunArgs, f: Faults, upload: Option<UploadSvc>): Behaviour
  {
    match StoreDecision(ed, upload, args.store)
    case SkipWarn => Log(WarnSkipStore, Report(args, f, upload))
    case SkipSilently => Report(args, f, upload)
    case DerefNone => Throw(NoneHasNoInfo)
    case Record(db, svc) => Attempt(f, DatabaseStore, StoreRecord(db, svc), Report(args, f, upload))
  }

  /** The success notification, carrying the upload info only when an
      upload happened. */
  function Report(args: RunArgs, f: Faults, upload: Option<UploadSvc>): Behaviour
  {
    match args.notify
    case Some(ch) => Attempt(f, NotifyRun, SendNotification(ch, upload.Some?), Finish)
    case None => Finish
  }
}
