/**
  Properties of `run` (lines 18-54 of `script/spider.py`) under every
  choice of arguments and of raising collaborators.
 */
module PipelineFacts {
  import opened Wrappers
  import opened Args
  import opened Trace
  import opened Pipeline

  // The run when no collaborator raises: the stages that execute, as one
  // flat sequence, and how that run ends.

  /** The claim and the log lines that follow it. */
  function ClaimSteps(args: RunArgs): seq<Effect>
  {
    [ClaimBook] + (if args.dev then [DevLog] else []) + [ClaimedLog]
  }

  /** The ebook download and, with `-e`, the extras. */
  function FetchSteps(args: RunArgs): seq<Effect>
  {
    [DownloadBooks(ParseTypes(args))] + (if args.extras then [FetchExtras] else [])
  }

  /** The upload of every downloaded file, with `-u`. */
  function UploadSteps(args: RunArgs): seq<Effect>
  {
    match args.upload
    case Some(svc) => [UploadFiles(svc, Paths(ParseTypes(args), args.extras))]
    case None => []
  }

  /** The success notification, with `-n`. */
  function NoticeSteps(args: RunArgs, upload: Option<UploadSvc>): seq<Effect>
  {
    match args.notify
    case Some(ch) => [SendNotification(ch, upload.Some?)]
    case None => []
  }

  /** The store stage's own effect: the warning, the store call, or none. */
  function StoreHead(ed: Edition, args: RunArgs): seq<Effect>
  {
    match StoreDecision(ed, args.upload, args.store)
    case SkipWarn => [WarnSkipStore]
    case Record(db, svc) => [StoreRecord(db, svc)]
    case _ => []
  }

  /** The store stage and the notification after it, and how they end:
      reading `None.info` raises before the notification. */
  function StoreSteps(ed: Edition, args: RunArgs): Behaviour
  {
    if StoreDecision(ed, args.upload, args.store).DerefNone? then Throw(NoneHasNoInfo)
    else Behaviour(StoreHead(ed, args) + NoticeSteps(args, args.upload), Returned)
  }

  /** Everything after the claim. */
  function AfterClaim(ed: Edition, args: RunArgs): Behaviour
  {
    if args.claimOnly then
      Behaviour(NoticeSteps(args, None), Returned)
    else if args.archive then
      Behaviour(FetchSteps(args), Raised(Exception(NotImplemented)))
    else
      var store := StoreSteps(ed, args);
      Behaviour(FetchSteps(args) + UploadSteps(args) + store.trace, store.outcome)
  }

  /** The run when no collaborator raises. */
  function Plan(ed: Edition, args: RunArgs): Behaviour
  {
    var rest := AfterClaim(ed, args);
    Behaviour(ClaimSteps(args) + rest.trace, rest.outcome)
  }

  /** The ending of `b` alone, as the continuation `Exec` runs after a plan. */
  function Ending(b: Behaviour): Behaviour
  {
    Behaviour([], b.outcome)
  }

  /** The plan of a run that neither stops after the claim nor archives. */
  lemma PlanTransfers(ed: Edition, args: RunArgs)
    requires !args.claimOnly && !args.archive
    ensures Plan(ed, args).trace
         == ClaimSteps(args) + FetchSteps(args) + UploadSteps(args) + StoreSteps(ed, args).trace
    ensures Plan(ed, args).outcome == StoreSteps(ed, args).outcome
  {
  }

  lemma ReportIsExec(args: RunArgs, f: Faults, upload: Option<UploadSvc>)
    ensures Report(args, f, upload) == Exec(NoticeSteps(args, upload), Finish, f)
  {
  }

  lemma StoreStageIsExec(ed: Edition, args: RunArgs, f: Faults)
    ensures StoreStage(ed, args, f, args.upload)
         == Exec(StoreSteps(ed, args).trace, Ending(StoreSteps(ed, args)), f)
  {
    ReportIsExec(args, f, args.upload);
    if !StoreDecision(ed, args.upload, args.store).DerefNone? {
      ExecAppend(StoreHead(ed, args), NoticeSteps(args, args.upload), Finish, f);
    }
  }

  lemma UploadStageIsExec(ed: Edition, args: RunArgs, f: Faults)
    ensures UploadStage(ed, args, f, Paths(ParseTypes(args), args.extras))
         == Exec(UploadSteps(args) + StoreSteps(ed, args).trace, Ending(StoreSteps(ed, args)), f)
  {
    StoreStageIsExec(ed, args, f);
    ExecAppend(UploadSteps(args), StoreSteps(ed, args).trace, Ending(StoreSteps(ed, args)), f);
  }

  lemma FetchIsExec(args: RunArgs, f: Faults, k: Behaviour)
    ensures Exec(FetchSteps(args), k, f)
         == Attempt(f, DownloadEbooks, DownloadBooks(ParseTypes(args)),
                    if args.extras then Attempt(f, DownloadExtras, FetchExtras, k) else k)
  {
    var fetch := FetchSteps(args);
    assert fetch[1..] == if args.extras then [FetchExtras] else [];
    if args.extras {
      assert fetch[1..][1..] == [];
      assert Exec(fetch[1..], k, f) == Attempt(f, DownloadExtras, FetchExtras, Exec([], k, f));
    }
  }

  /** What follows the downloads: the archive stop, or the upload stage
      onwards. */
  lemma AfterFetchIsExec(ed: Edition, args: RunArgs, f: Faults)
    requires !args.claimOnly
    ensures var tail := if args.archive then [] else UploadSteps(args) + StoreSteps(ed, args).trace;
      Exec(tail, Ending(AfterClaim(ed, args)), f)
        == if args.archive then Throw(NotImplemented)
           else UploadStage(ed, args, f, Paths(ParseTypes(args), args.extras))
  {
    if !args.archive {
      UploadStageIsExec(ed, args, f);
    }
  }

  lemma TransferIsExec(ed: Edition, args: RunArgs, f: Faults)
    requires !args.claimOnly
    ensures Transfer(ed, args, f) == Exec(AfterClaim(ed, args).trace, Ending(AfterClaim(ed, args)), f)
  {
    var fetch := FetchSteps(args);
    var tail := if args.archive then [] else UploadSteps(args) + StoreSteps(ed, args).trace;
    var k := Ending(AfterClaim(ed, args));
    AfterFetchIsExec(ed, args, f);
    assert AfterClaim(ed, args).trace == fetch + tail;
    FetchIsExec(args, f, Exec(tail, k, f));
    ExecAppend(fetch, tail, k, f);
  }

  /** The claim and its log lines, executed before any continuation. */
  lemma ClaimIsExec(args: RunArgs, f: Faults, t: seq<Effect>, k: Behaviour)
    ensures Exec(ClaimSteps(args) + t, k, f)
         == Attempt(f, PackpubRun, ClaimBook,
                    Behaviour(ClaimedLogs(args) + Exec(t, k, f).trace, Exec(t, k, f).outcome))
  {
    ExecLogs(ClaimedLogs(args), t, k, f);
    assert ClaimSteps(args) + t == [ClaimBook] + (ClaimedLogs(args) + t);
    assert (ClaimSteps(args) + t)[1..] == ClaimedLogs(args) + t;
  }

  /** `run` is the planned run executed fail-stop: every planned stage
      in order, stopping at the first collaborator that raises. */
  lemma RunIsExec(ed: Edition, args: RunArgs, f: Faults)
    ensures Run(ed, args, f) == Exec(Plan(ed, args).trace, Ending(Plan(ed, args)), f)
  {
    var rest := AfterClaim(ed, args);
    if args.claimOnly {
      ReportIsExec(args, f, None);
    } else {
      TransferIsExec(ed, args, f);
    }
    ClaimIsExec(args, f, rest.trace, Ending(rest));
  }

  /** Fail-stop: when no collaborator raises, `run` performs exactly the
      plan; otherwise it performs the plan up to and including the first
      raising call, and ends with that call's exception. */
  lemma RunFailStop(ed: Edition, args: RunArgs, f: Faults)
    ensures FirstRaising(Plan(ed, args).trace, f).None? ==> Run(ed, args, f) == Plan(ed, args)
    ensures FirstRaising(Plan(ed, args).trace, f).Some? ==>
      var plan := Plan(ed, args).trace;
      var i := FirstRaising(plan, f).value;
      var c := CallOf(plan[i]).value;
      Run(ed, args, f) == Behaviour(plan[..i + 1], Raised(Raise(c, f[c])))
  {
    RunIsExec(ed, args, f);
    ExecFailStop(Plan(ed, args).trace, Ending(Plan(ed, args)), f);
    assert Plan(ed, args).trace + [] == Plan(ed, args).trace;
  }

  /** Every effect of a run is planned, in the planned order. */
  lemma RunIsPrefix(ed: Edition, args: RunArgs, f: Faults)
    ensures Run(ed, args, f).trace <= Plan(ed, args).trace
    ensures forall e :: e in Run(ed, args, f).trace ==> e in Plan(ed, args).trace
  {
    RunFailStop(ed, args, f);
  }

  /** The planned effects up to a point are all performed when none of
      them but the last raises (a call that raises is still performed). */
  lemma RunReaches(ed: Edition, args: RunArgs, f: Faults, safe: seq<Effect>, last: seq<Effect>)
    requires |last| <= 1
    requires safe + last <= Plan(ed, args).trace
    requires forall e :: e in safe ==> !Raises(e, f)
    ensures safe + last <= Run(ed, args, f).trace
  {
    RunIsExec(ed, args, f);
    ExecReaches(Plan(ed, args).trace, Ending(Plan(ed, args)), f, safe, last);
  }

  /** A run never shows more effects of a class than its plan, and shows
      exactly as many when no collaborator raises. */
  lemma RunCount(ed: Edition, args: RunArgs, f: Faults, p: Effect -> bool)
    ensures Count(Run(ed, args, f).trace, p) <= Count(Plan(ed, args).trace, p)
    ensures FirstRaising(Plan(ed, args).trace, f).None? ==>
      Count(Run(ed, args, f).trace, p) == Count(Plan(ed, args).trace, p)
  {
    RunIsExec(ed, args, f);
    ExecCount(Plan(ed, args).trace, Ending(Plan(ed, args)), f, p);
  }

  function Bit(b: bool): nat { if b then 1 else 0 }

  /** The count of a class of effects from the upload stage onwards. */
  function TransferCount(ed: Edition, args: RunArgs, p: Effect -> bool): nat
  {
    Count(UploadSteps(args), p) + Count(StoreSteps(ed, args).trace, p)
  }

  /** The plan's count of a class of effects, stage by stage. */
  lemma PlanCountSplit(ed: Edition, args: RunArgs, p: Effect -> bool)
    ensures Count(Plan(ed, args).trace, p)
         == Count(ClaimSteps(args), p)
          + (if args.claimOnly then Count(NoticeSteps(args, None), p)
             else Count(FetchSteps(args), p) + (if args.archive then 0 else TransferCount(ed, args, p)))
  {
    var rest := AfterClaim(ed, args);
    CountAppend(ClaimSteps(args), rest.trace, p);
    if !args.claimOnly && !args.archive {
      var store := StoreSteps(ed, args);
      CountAppend(FetchSteps(args) + UploadSteps(args), store.trace, p);
      CountAppend(FetchSteps(args), UploadSteps(args), p);
    }
  }

  lemma ClaimStepsCount(args: RunArgs, p: Effect -> bool)
    ensures Count(ClaimSteps(args), p)
         == Bit(p(ClaimBook)) + Bit(args.dev && p(DevLog)) + Bit(p(ClaimedLog))
  {
    var dev := if args.dev then [DevLog] else [];
    CountAppend([ClaimBook] + dev, [ClaimedLog], p);
    CountAppend([ClaimBook], dev, p);
    CountSingle(ClaimBook, p);
    CountSingle(DevLog, p);
    CountSingle(ClaimedLog, p);
  }

  lemma FetchStepsCount(args: RunArgs, p: Effect -> bool)
    ensures Count(FetchSteps(args), p)
         == Bit(p(DownloadBooks(ParseTypes(args)))) + Bit(args.extras && p(FetchExtras))
  {
    CountAppend([DownloadBooks(ParseTypes(args))], if args.extras then [FetchExtras] else [], p);
    CountSingle(DownloadBooks(ParseTypes(args)), p);
    CountSingle(FetchExtras, p);
  }

  lemma UploadStepsCount(args: RunArgs, p: Effect -> bool)
    ensures Count(UploadSteps(args), p)
         == Bit(args.upload.Some? && p(UploadFiles(args.upload.value, Paths(ParseTypes(args), args.extras))))
  {
    if args.upload.Some? {
      CountSingle(UploadFiles(args.upload.value, Paths(ParseTypes(args), args.extras)), p);
    }
  }

  lemma NoticeStepsCount(args: RunArgs, upload: Option<UploadSvc>, p: Effect -> bool)
    ensures Count(NoticeSteps(args, upload), p)
         == Bit(args.notify.Some? && p(SendNotification(args.notify.value, upload.Some?)))
  {
    if args.notify.Some? {
      CountSingle(SendNotification(args.notify.value, upload.Some?), p);
    }
  }

  lemma StoreHeadCount(ed: Edition, args: RunArgs, p: Effect -> bool)
    ensures Count(StoreHead(ed, args), p)
         == (match StoreDecision(ed, args.upload, args.store)
             case SkipWarn => Bit(p(WarnSkipStore))
             case Record(db, svc) => Bit(p(StoreRecord(db, svc)))
             case _ => 0)
  {
    var head := StoreHead(ed, args);
    if head != [] {
      CountSingle(head[0], p);
      assert head == [head[0]];
    }
  }

  lemma StoreStepsCount(ed: Edition, args: RunArgs, p: Effect -> bool)
    ensures Count(StoreSteps(ed, args).trace, p)
         == if StoreDecision(ed, args.upload, args.store).DerefNone? then 0
            else Count(StoreHead(ed, args), p) + Count(NoticeSteps(args, args.upload), p)
  {
    CountAppend(StoreHead(ed, args), NoticeSteps(args, args.upload), p);
  }

  /** All the stage counts of the plan for the class `p`. */
  lemma PlanCountOf(ed: Edition, args: RunArgs, p: Effect -> bool)
    ensures Count(Plan(ed, args).trace, p)
         == Count(ClaimSteps(args), p)
          + (if args.claimOnly then Count(NoticeSteps(args, None), p)
             else Count(FetchSteps(args), p) + (if args.archive then 0 else TransferCount(ed, args, p)))
    ensures Count(ClaimSteps(args), p)
         == Bit(p(ClaimBook)) + Bit(args.dev && p(DevLog)) + Bit(p(ClaimedLog))
    ensures Count(FetchSteps(args), p)
         == Bit(p(DownloadBooks(ParseTypes(args)))) + Bit(args.extras && p(FetchExtras))
    ensures Count(UploadSteps(args), p)
         == Bit(args.upload.Some? && p(UploadFiles(args.upload.value, Paths(ParseTypes(args), args.extras))))
    ensures Count(NoticeSteps(args, None), p)
         == Bit(args.notify.Some? && p(SendNotification(args.notify.value, false)))
    ensures Count(NoticeSteps(args, args.upload), p)
         == Bit(args.notify.Some? && p(SendNotification(args.notify.value, args.upload.Some?)))
    ensures Count(StoreHead(ed, args), p)
         == (match StoreDecision(ed, args.upload, args.store)
             case SkipWarn => Bit(p(WarnSkipStore))
             case Record(db, svc) => Bit(p(StoreRecord(db, svc)))
             case _ => 0)
    ensures Count(StoreSteps(ed, args).trace, p)
         == if StoreDecision(ed, args.upload, args.store).DerefNone? then 0
            else Count(StoreHead(ed, args), p) + Count(NoticeSteps(args, args.upload), p)
  {
    PlanCountSplit(ed, args, p);
    ClaimStepsCount(args, p);
    FetchStepsCount(args, p);
    UploadStepsCount(args, p);
    NoticeStepsCount(args, None, p);
    NoticeStepsCount(args, args.upload, p);
    StoreHeadCount(ed, args, p);
    StoreStepsCount(ed, args, p);
  }

  /** The run, when no collaborator raises, claims exactly once and never
      sends an error notification. */
  lemma PlanClaimsOnce(ed: Edition, args: RunArgs)
    ensures Count(Plan(ed, args).trace, IsClaim) == 1
    ensures Count(Plan(ed, args).trace, IsErrorNotice) == 0
  {
    PlanCountOf(ed, args, IsClaim);
    PlanCountOf(ed, args, IsErrorNotice);
  }

  /** The planned run uploads once exactly when it neither stops after the
      claim nor at the archive stage and `-u` is given. */
  lemma PlanUploads(ed: Edition, args: RunArgs)
    ensures Count(Plan(ed, args).trace, IsUpload)
         == Bit(!args.claimOnly && !args.archive && args.upload.Some?)
  {
    PlanCountOf(ed, args, IsUpload);
  }

  lemma PlanStores(ed: Edition, args: RunArgs)
    ensures Count(Plan(ed, args).trace, IsStore)
         == Bit(!args.claimOnly && !args.archive && StoreDecision(ed, args.upload, args.store).Record?)
  {
    PlanCountOf(ed, args, IsStore);
  }

  lemma PlanWarns(ed: Edition, args: RunArgs)
    ensures Count(Plan(ed, args).trace, IsWarn)
         == Bit(!args.claimOnly && !args.archive && StoreDecision(ed, args.upload, args.store) == SkipWarn)
  {
    PlanCountOf(ed, args, IsWarn);
  }

  /** Every upload the plan holds goes to the service `-u` names and
      carries every file the download stages recorded. */
  lemma PlanUploadTargets(ed: Edition, args: RunArgs)
    ensures forall e :: e in Plan(ed, args).trace && e.UploadFiles? ==>
      && !args.claimOnly && !args.archive
      && args.upload == Some(e.svc)
      && e.paths == Paths(ParseTypes(args), args.extras)
  {
    assert forall e :: e in ClaimSteps(args) ==> !e.UploadFiles?;
    assert forall e :: e in FetchSteps(args) ==> !e.UploadFiles?;
    assert forall e :: e in NoticeSteps(args, None) ==> !e.UploadFiles?;
    assert forall e :: e in StoreSteps(ed, args).trace ==> !e.UploadFiles?;
  }

  lemma PlanClaimOnly(ed: Edition, args: RunArgs)
    requires args.claimOnly
    ensures Count(Plan(ed, args).trace, IsTransfer) == 0
  {
    assert Plan(ed, args).trace == ClaimSteps(args) + NoticeSteps(args, None);
    ClaimStepsCount(args, IsTransfer);
    NoticeStepsCount(args, None, IsTransfer);
    CountAppend(ClaimSteps(args), NoticeSteps(args, None), IsTransfer);
  }

  // Properties of `run` under every choice of raising collaborators.

  /** The claim is the first effect of `run` and is made exactly once. */
  lemma ClaimFirstAndOnce(ed: Edition, args: RunArgs, f: Faults)
    ensures var t := Run(ed, args, f).trace;
      |t| > 0 && t[0] == ClaimBook && Count(t, IsClaim) == 1
  {
    RunCount(ed, args, f, IsClaim);
    PlanClaimsOnce(ed, args);
  }

  /** When the claim raises, `run` does nothing else and raises the same. */
  lemma ClaimFailureStops(ed: Edition, args: RunArgs, f: Faults)
    requires PackpubRun in f
    ensures Run(ed, args, f) == Behaviour([ClaimBook], Raised(Raise(PackpubRun, f[PackpubRun])))
  {
  }

  /** After a successful claim, the development log (with `-d`) and the
      "claimed" log come next, and every transfer and notification of the
      run comes after them. */
  lemma ClaimedLogComesNext(ed: Edition, args: RunArgs, f: Faults)
    requires PackpubRun !in f
    ensures [ClaimBook] + (if args.dev then [DevLog] else []) + [ClaimedLog] <= Run(ed, args, f).trace
    ensures var t := Run(ed, args, f).trace;
      forall i :: 0 <= i < |t| && (IsTransfer(t[i]) || IsNotice(t[i])) ==> i >= |ClaimSteps(args)|
  {
    var claim := ClaimSteps(args);
    assert claim + [] <= Plan(ed, args).trace;
    RunReaches(ed, args, f, claim, []);
    assert forall i :: 0 <= i < |claim| ==> !IsTransfer(claim[i]) && !IsNotice(claim[i]);
  }


  /** With `-o`, `run` downloads, uploads, warns and stores nothing. */
  lemma ClaimOnlyTransfersNothing(ed: Edition, args: RunArgs, f: Faults)
    requires args.claimOnly
    ensures Count(Run(ed, args, f).trace, IsTransfer) == 0
  {
    RunCount(ed, args, f, IsTransfer);
    PlanClaimOnly(ed, args);
  }

  /** With `-o`, `run` raises only when the claim or the notification does:
      never "not implemented", never by reading `None.info`. */
  lemma ClaimOnlyRaisesOnlyFromCalls(ed: Edition, args: RunArgs, f: Faults)
    requires args.claimOnly
    ensures Run(ed, args, f).outcome.Raised? ==>
      Run(ed, args, f).outcome.exc in {Raise(PackpubRun, Kind.Failure), Raise(PackpubRun, Interrupt),
                                       Raise(NotifyRun, Kind.Failure), Raise(NotifyRun, Interrupt)}
  {
    RunFailStop(ed, args, f);
  }

  /** With `-o` and a successful claim, `run` sends exactly one notification
      with `-n`, without upload info, and nothing else after the logs. */
  lemma ClaimOnlyNotifies(ed: Edition, args: RunArgs, f: Faults)
    requires args.claimOnly && PackpubRun !in f
    ensures Run(ed, args, f).trace
         == [ClaimBook] + (if args.dev then [DevLog] else []) + [ClaimedLog]
          + (if args.notify.Some? then [SendNotification(args.notify.value, false)] else [])
    ensures Count(Run(ed, args, f).trace, IsNotice) == Bit(args.notify.Some?)
  {
    RunIsPrefix(ed, args, f);
    RunReaches(ed, args, f, ClaimSteps(args), NoticeSteps(args, None));
    RunCount(ed, args, f, IsNotice);
    PlanNotifies(ed, args);
    assert Plan(ed, args).trace == ClaimSteps(args) + NoticeSteps(args, None);
  }

  /** With `-a` and without `-o`, `run` always raises. */
  lemma ArchiveAlwaysRaises(ed: Edition, args: RunArgs, f: Faults)
    requires args.archive && !args.claimOnly
    ensures Run(ed, args, f).outcome.Raised?
  {
    RunFailStop(ed, args, f);
  }

  /** With `-a` and without `-o`, `run` never uploads, stores, warns or
      notifies. */
  lemma ArchiveSkipsTheRest(ed: Edition, args: RunArgs, f: Faults)
    requires args.archive && !args.claimOnly
    ensures var t := Run(ed, args, f).trace;
      Count(t, IsUpload) == 0 && Count(t, IsStore) == 0 && Count(t, IsWarn) == 0 && Count(t, IsNotice) == 0
  {
    RunCount(ed, args, f, IsUpload);
    RunCount(ed, args, f, IsStore);
    RunCount(ed, args, f, IsWarn);
    RunCount(ed, args, f, IsNotice);
    PlanUploads(ed, args);
    PlanStores(ed, args);
    PlanWarns(ed, args);
    PlanNotifies(ed, args);
  }

  /** With `-a` and without `-o`, once the downloads return `run` raises
      "not implemented" right after them. */
  lemma ArchiveNotImplemented(ed: Edition, args: RunArgs, f: Faults)
    requires args.archive && !args.claimOnly
    requires PackpubRun !in f && DownloadEbooks !in f && (args.extras ==> DownloadExtras !in f)
    ensures Run(ed, args, f)
         == Behaviour([ClaimBook] + (if args.dev then [DevLog] else []) + [ClaimedLog]
                      + [DownloadBooks(ParseTypes(args))] + (if args.extras then [FetchExtras] else []),
                      Raised(Exception(NotImplemented)))
  {
    RunFailStop(ed, args, f);
    assert Plan(ed, args).trace == ClaimSteps(args) + FetchSteps(args);
  }

  /** `run` uploads at most once, to the service `-u` names, every file the
      download stages recorded, and only without `-o` and `-a`. */
  lemma UploadAtMostOnce(ed: Edition, args: RunArgs, f: Faults)
    ensures Count(Run(ed, args, f).trace, IsUpload) <= 1
    ensures forall e :: e in Run(ed, args, f).trace && e.UploadFiles? ==>
      && !args.claimOnly && !args.archive
      && args.upload == Some(e.svc)
      && e.paths == Paths(ParseTypes(args), args.extras)
  {
    RunCount(ed, args, f, IsUpload);
    PlanUploads(ed, args);
    RunIsPrefix(ed, args, f);
    PlanUploadTargets(ed, args);
  }

  /** When the claim and the downloads return, a transferring run gets as
      far as the upload. */
  lemma ReachesUpload(ed: Edition, args: RunArgs, f: Faults)
    requires PackpubRun !in f && DownloadEbooks !in f && DownloadExtras !in f
    requires !args.claimOnly && !args.archive
    ensures ClaimSteps(args) + FetchSteps(args) + UploadSteps(args) <= Run(ed, args, f).trace
  {
    var pre := ClaimSteps(args) + FetchSteps(args) + UploadSteps(args);
    PlanTransfers(ed, args);
    assert pre <= pre + StoreSteps(ed, args).trace;
    assert forall e :: e in ClaimSteps(args) + FetchSteps(args) ==> !Raises(e, f);
    RunReaches(ed, args, f, ClaimSteps(args) + FetchSteps(args), UploadSteps(args));
  }

  /** When the claim and the downloads return, `run` uploads exactly when
      neither `-o` nor `-a` is given and `-u` is. */
  lemma UploadIff(ed: Edition, args: RunArgs, f: Faults)
    requires PackpubRun !in f && DownloadEbooks !in f && DownloadExtras !in f
    ensures Count(Run(ed, args, f).trace, IsUpload) == 1 <==>
      !args.claimOnly && !args.archive && args.upload.Some?
  {
    var t := Run(ed, args, f).trace;
    RunCount(ed, args, f, IsUpload);
    PlanUploads(ed, args);
    if !args.claimOnly && !args.archive && args.upload.Some? {
      ReachesUpload(ed, args, f);
      CountPrefix(ClaimSteps(args) + FetchSteps(args) + UploadSteps(args), t, IsUpload);
      CountAppend(ClaimSteps(args) + FetchSteps(args), UploadSteps(args), IsUpload);
      UploadStepsCount(args, IsUpload);
    }
  }

  /** As written, `run` never stores: the store call is unreachable. */
  lemma AsWrittenNeverStores(args: RunArgs, f: Faults)
    ensures Count(Run(AsWritten, args, f).trace, IsStore) == 0
  {
    RunCount(AsWritten, args, f, IsStore);
    PlanStores(AsWritten, args);
    AsWrittenStoreDecision(args.upload, args.store);
  }

  /** As written, once an upload returns `run` always logs the "skip store
      info" warning next, whatever the service and whether or not `-s` is
      given, never stores, and then notifies (with upload info) under
      `-n`; it raises only when that notification does. */
  lemma AsWrittenUploadSkipsStore(args: RunArgs, f: Faults)
    requires !args.claimOnly && !args.archive && args.upload.Some?
    requires PackpubRun !in f && DownloadEbooks !in f && DownloadExtras !in f && UploadRun !in f
    ensures Run(AsWritten, args, f).trace
         == ClaimSteps(args) + FetchSteps(args) + [UploadFiles(args.upload.value, Paths(ParseTypes(args), args.extras))]
          + [WarnSkipStore]
          + (if args.notify.Some? then [SendNotification(args.notify.value, true)] else [])
    ensures Run(AsWritten, args, f).outcome.Raised? <==> args.notify.Some? && NotifyRun in f
  {
    var safe := ClaimSteps(args) + FetchSteps(args) + UploadSteps(args) + [WarnSkipStore];
    AsWrittenUploadPlan(args);
    UpToStoreReturns(args, f);
    assert forall j :: 0 <= j < |safe| ==> !Raises(safe[j], f);
    RunIsExec(AsWritten, args, f);
    ExecLastOnly(safe, NoticeSteps(args, args.upload), f);
  }

  /** As written, the plan of a transferring run with `-u` holds the
      warning right after the upload, then the notification, and ends
      normally. */
  lemma AsWrittenUploadPlan(args: RunArgs)
    requires !args.claimOnly && !args.archive && args.upload.Some?
    ensures Plan(AsWritten, args).trace
         == ClaimSteps(args) + FetchSteps(args) + UploadSteps(args) + [WarnSkipStore] + NoticeSteps(args, args.upload)
    ensures Ending(Plan(AsWritten, args)) == Finish
  {
    AsWrittenStoreDecision(args.upload, args.store);
    PlanTransfers(AsWritten, args);
  }


  /** As written, `run` raises by reading `None.info` exactly when it
      transfers with `-s` but without `-u`, and the claim and downloads
      return; it then never notifies. */
  lemma AsWrittenStoreWithoutUpload(args: RunArgs, f: Faults)
    ensures Run(AsWritten, args, f).outcome == Raised(Exception(NoneHasNoInfo)) ==>
      !args.claimOnly && !args.archive && args.upload.None? && args.store.Some?
    ensures !args.claimOnly && !args.archive && args.upload.None? && args.store.Some?
            && PackpubRun !in f && DownloadEbooks !in f && DownloadExtras !in f ==>
      Run(AsWritten, args, f)
        == Behaviour(ClaimSteps(args) + FetchSteps(args), Raised(Exception(NoneHasNoInfo)))
  {
    RunFailStop(AsWritten, args, f);
    AsWrittenStoreDecision(args.upload, args.store);
    if !args.claimOnly && !args.archive {
      PlanTransfers(AsWritten, args);
    }
    if !args.claimOnly && !args.archive && args.upload.None? && args.store.Some? {
      assert Plan(AsWritten, args).trace == ClaimSteps(args) + FetchSteps(args);
    }
  }

  /** Without `-u` and `-s`, neither store branch acts, in either edition:
      no warning and no store. */
  lemma NoUploadNoStore(ed: Edition, args: RunArgs, f: Faults)
    requires !args.claimOnly && !args.archive && args.upload.None? && args.store.None?
    ensures Count(Run(ed, args, f).trace, IsStore) == 0
    ensures Count(Run(ed, args, f).trace, IsWarn) == 0
  {
    RunCount(ed, args, f, IsStore);
    RunCount(ed, args, f, IsWarn);
    PlanStores(ed, args);
    PlanWarns(ed, args);
  }

  /** Without `-u` and `-s`, once the downloads return the notification
      (without upload info) follows them directly. */
  lemma NoUploadNoStoreNotifies(ed: Edition, args: RunArgs, f: Faults)
    requires !args.claimOnly && !args.archive && args.upload.None? && args.store.None?
    requires PackpubRun !in f && DownloadEbooks !in f && DownloadExtras !in f
    ensures Run(ed, args, f).trace == ClaimSteps(args) + FetchSteps(args) + NoticeSteps(args, None)
  {
    PlanTransfers(ed, args);
    assert Plan(ed, args).trace == ClaimSteps(args) + FetchSteps(args) + NoticeSteps(args, None);
    assert forall e :: e in ClaimSteps(args) + FetchSteps(args) ==> !Raises(e, f);
    RunReaches(ed, args, f, ClaimSteps(args) + FetchSteps(args), NoticeSteps(args, None));
    RunIsPrefix(ed, args, f);
  }

  /** The effects before the store stage are planned, and so is the first
      effect of the store stage. */
  lemma StoreStagePlanned(ed: Edition, args: RunArgs)
    requires !args.claimOnly && !args.archive
    ensures var store := StoreSteps(ed, args).trace;
      ClaimSteps(args) + FetchSteps(args) + UploadSteps(args) + (if store == [] then [] else store[..1])
        <= Plan(ed, args).trace
  {
    var store := StoreSteps(ed, args).trace;
    var safe := ClaimSteps(args) + FetchSteps(args) + UploadSteps(args);
    PlanTransfers(ed, args);
    assert safe + (if store == [] then [] else store[..1]) <= safe + store;
  }

  /** When the claim, the downloads and the upload return, none of the
      effects before the store stage raises. */
  lemma UpToStoreReturns(args: RunArgs, f: Faults)
    requires PackpubRun !in f && DownloadEbooks !in f && DownloadExtras !in f && UploadRun !in f
    ensures forall e :: e in ClaimSteps(args) + FetchSteps(args) + UploadSteps(args) ==> !Raises(e, f)
  {
  }

  /** Once the upload (if any) returns, a transferring run performs the
      first effect of its store stage. */
  lemma ReachesStoreStage(ed: Edition, args: RunArgs, f: Faults)
    requires !args.claimOnly && !args.archive
    requires PackpubRun !in f && DownloadEbooks !in f && DownloadExtras !in f && UploadRun !in f
    ensures var store := StoreSteps(ed, args).trace;
      ClaimSteps(args) + FetchSteps(args) + UploadSteps(args) + (if store == [] then [] else store[..1])
        <= Run(ed, args, f).trace
  {
    var store := StoreSteps(ed, args).trace;
    StoreStagePlanned(ed, args);
    UpToStoreReturns(args, f);
    RunReaches(ed, args, f, ClaimSteps(args) + FetchSteps(args) + UploadSteps(args),
               if store == [] then [] else store[..1]);
  }

  /** The store stage starts with its own effect, when it has one. */
  lemma StoreStageHead(ed: Edition, args: RunArgs)
    requires !StoreDecision(ed, args.upload, args.store).DerefNone?
    requires StoreHead(ed, args) != []
    ensures StoreSteps(ed, args).trace[..1] == StoreHead(ed, args)
  {
  }

  /** Corrected, `run` stores exactly once when it uploads to Drive with
      `-s`, recording that upload. */
  lemma CorrectedStoreIff(args: RunArgs, f: Faults)
    requires !args.claimOnly && !args.archive
    requires PackpubRun !in f && DownloadEbooks !in f && DownloadExtras !in f && UploadRun !in f
    ensures Count(Run(Corrected, args, f).trace, IsStore)
         == Bit(args.upload == Some(Drive) && args.store.Some?)
    ensures args.upload == Some(Drive) && args.store.Some? ==>
      StoreRecord(args.store.value, Drive) in Run(Corrected, args, f).trace
  {
    var t := Run(Corrected, args, f).trace;
    RunCount(Corrected, args, f, IsStore);
    PlanStores(Corrected, args);
    CorrectedStoreDecision(args.upload, args.store);
    if args.upload == Some(Drive) && args.store.Some? {
      var pre := ClaimSteps(args) + FetchSteps(args) + UploadSteps(args);
      ReachesStoreStage(Corrected, args, f);
      StoreStageHead(Corrected, args);
      var head := [StoreRecord(args.store.value, Drive)];
      CountPrefix(pre + head, t, IsStore);
      CountAppend(pre, head, IsStore);
      CountSingle(head[0], IsStore);
      assert (pre + head)[|pre|] in t;
    }
  }

  /** Corrected, `run` logs the "skip store info" warning exactly when it
      uploads to a service other than Drive, or when `-s` is given without
      an upload. */
  lemma CorrectedWarnIff(args: RunArgs, f: Faults)
    requires !args.claimOnly && !args.archive
    requires PackpubRun !in f && DownloadEbooks !in f && DownloadExtras !in f && UploadRun !in f
    ensures Count(Run(Corrected, args, f).trace, IsWarn)
         == Bit(args.upload != Some(Drive) && (args.upload.Some? || args.store.Some?))
  {
    var t := Run(Corrected, args, f).trace;
    RunCount(Corrected, args, f, IsWarn);
    PlanWarns(Corrected, args);
    CorrectedStoreDecision(args.upload, args.store);
    if args.upload != Some(Drive) && (args.upload.Some? || args.store.Some?) {
      var pre := ClaimSteps(args) + FetchSteps(args) + UploadSteps(args);
      ReachesStoreStage(Corrected, args, f);
      StoreStageHead(Corrected, args);
      CountPrefix(pre + [WarnSkipStore], t, IsWarn);
      CountAppend(pre, [WarnSkipStore], IsWarn);
      CountSingle(WarnSkipStore, IsWarn);
    }
  }

  /** Corrected, `run` never reads `None.info`. */
  lemma CorrectedNeverDerefsNone(args: RunArgs, f: Faults)
    ensures Run(Corrected, args, f).outcome != Raised(Exception(NoneHasNoInfo))
  {
    RunFailStop(Corrected, args, f);
    CorrectedStoreDecision(args.upload, args.store);
    if !args.claimOnly && !args.archive {
      PlanTransfers(Corrected, args);
    }
  }

  /** The planned effects before the success notification. */
  function QuietSteps(ed: Edition, args: RunArgs): seq<Effect>
  {
    if args.claimOnly then ClaimSteps(args)
    else ClaimSteps(args) + FetchSteps(args) + UploadSteps(args) + StoreHead(ed, args)
  }

  /** Nothing before the success notification notifies. */
  lemma QuietStepsAreQuiet(ed: Edition, args: RunArgs)
    ensures Count(QuietSteps(ed, args), IsNotice) == 0
  {
    ClaimStepsCount(args, IsNotice);
    if !args.claimOnly {
      FetchStepsCount(args, IsNotice);
      UploadStepsCount(args, IsNotice);
      StoreHeadCount(ed, args, IsNotice);
      CountAppend(ClaimSteps(args) + FetchSteps(args) + UploadSteps(args), StoreHead(ed, args), IsNotice);
      CountAppend(ClaimSteps(args) + FetchSteps(args), UploadSteps(args), IsNotice);
      CountAppend(ClaimSteps(args), FetchSteps(args), IsNotice);
    }
  }

  /** The plan ends normally exactly when it stops after the claim or gets
      past the archive and store stages. */
  lemma PlanEnds(ed: Edition, args: RunArgs)
    ensures Plan(ed, args).outcome.Returned? <==>
      args.claimOnly || (!args.archive && !StoreDecision(ed, args.upload, args.store).DerefNone?)
  {
  }

  /** A plan that ends normally is its quiet part and then the success
      notification (under `-n`). */
  lemma PlanReturnedShape(ed: Edition, args: RunArgs)
    requires Plan(ed, args).outcome.Returned?
    ensures Plan(ed, args).trace
         == QuietSteps(ed, args) + NoticeSteps(args, if args.claimOnly then None else args.upload)
  {
    if !args.claimOnly {
      PlanTransfers(ed, args);
    }
  }

  /** A plan that raises holds no notification. */
  lemma PlanRaisedQuiet(ed: Edition, args: RunArgs)
    requires Plan(ed, args).outcome.Raised?
    ensures Count(Plan(ed, args).trace, IsNotice) == 0
  {
    var pre := ClaimSteps(args) + FetchSteps(args);
    if args.archive {
      assert Plan(ed, args).trace == pre;
    } else {
      PlanTransfers(ed, args);
      assert StoreDecision(ed, args.upload, args.store).DerefNone?;
      assert Plan(ed, args).trace == pre + UploadSteps(args);
      UploadStepsCount(args, IsNotice);
      CountAppend(pre, UploadSteps(args), IsNotice);
    }
    FetchStepsCount(args, IsNotice);
    ClaimStepsCount(args, IsNotice);
    CountAppend(ClaimSteps(args), FetchSteps(args), IsNotice);
  }

  /** The planned run ends normally exactly when it stops after the claim
      or passes the archive and store stages; it then notifies once when
      `-n` is given, and otherwise never. */
  lemma PlanNotifies(ed: Edition, args: RunArgs)
    ensures Plan(ed, args).outcome.Returned? <==>
      args.claimOnly || (!args.archive && !StoreDecision(ed, args.upload, args.store).DerefNone?)
    ensures Count(Plan(ed, args).trace, IsSuccessNotice)
         == Bit(args.notify.Some? && Plan(ed, args).outcome.Returned?)
    ensures Count(Plan(ed, args).trace, IsNotice)
         == Bit(args.notify.Some? && Plan(ed, args).outcome.Returned?)
  {
    var upload := if args.claimOnly then None else args.upload;
    PlanEnds(ed, args);
    if Plan(ed, args).outcome.Returned? {
      PlanReturnedShape(ed, args);
    } else {
      PlanRaisedQuiet(ed, args);
      CountZero(Plan(ed, args).trace, IsNotice);
      CountZero(Plan(ed, args).trace, IsSuccessNotice);
    }
    QuietStepsAreQuiet(ed, args);
    CountZero(QuietSteps(ed, args), IsNotice);
    CountZero(QuietSteps(ed, args), IsSuccessNotice);
    CountAppend(QuietSteps(ed, args), NoticeSteps(args, upload), IsNotice);
    CountAppend(QuietSteps(ed, args), NoticeSteps(args, upload), IsSuccessNotice);
    NoticeStepsCount(args, upload, IsNotice);
    NoticeStepsCount(args, upload, IsSuccessNotice);
  }

  /** When the planned run ends normally with `-n`, its last effect is the
      success notification and nothing before it notifies. */
  lemma PlanNoticeIsLast(ed: Edition, args: RunArgs)
    requires args.notify.Some? && Plan(ed, args).outcome.Returned?
    ensures var plan := Plan(ed, args).trace;
      && |plan| > 0
      && CallOf(plan[|plan| - 1]) == Some(NotifyRun)
      && Count(plan[..|plan| - 1], IsNotice) == 0
  {
    var plan := Plan(ed, args).trace;
    var upload := if args.claimOnly then None else args.upload;
    var notice := SendNotification(args.notify.value, upload.Some?);
    PlanReturnedShape(ed, args);
    QuietStepsAreQuiet(ed, args);
    assert NoticeSteps(args, upload) == [notice];
    SnocParts(QuietSteps(ed, args), notice);
  }

  /** The parts of a sequence with one element appended. */
  lemma SnocParts(a: seq<Effect>, e: Effect)
    ensures |a + [e]| > 0
    ensures (a + [e])[|a + [e]| - 1] == e
    ensures (a + [e])[..|a + [e]| - 1] == a
  {
  }

  /** `run` sends at most one notification, and never an error
      notification. */
  lemma RunNoticeBound(ed: Edition, args: RunArgs, f: Faults)
    ensures Count(Run(ed, args, f).trace, IsNotice) <= 1
    ensures Count(Run(ed, args, f).trace, IsErrorNotice) == 0
  {
    RunCount(ed, args, f, IsNotice);
    RunCount(ed, args, f, IsErrorNotice);
    PlanNotifies(ed, args);
    PlanClaimsOnce(ed, args);
  }

  /** Once `run` has notified, it raises only because the notification
      itself raised: the notification is its last call. */
  lemma NoticeIsLastCall(ed: Edition, args: RunArgs, f: Faults)
    requires Count(Run(ed, args, f).trace, IsNotice) == 1 && Run(ed, args, f).outcome.Raised?
    ensures NotifyRun in f
  {
    var plan := Plan(ed, args).trace;
    NotifiedThenRaised(ed, args, f);
    PlanNoticeIsLast(ed, args);
    RunIsExec(ed, args, f);
    ExecRaisesAtLast(plan, Ending(Plan(ed, args)), f, IsNotice);
  }

  /** A run that notified and raised had a raising call, and its plan
      notifies and ends normally. */
  lemma NotifiedThenRaised(ed: Edition, args: RunArgs, f: Faults)
    requires Count(Run(ed, args, f).trace, IsNotice) == 1 && Run(ed, args, f).outcome.Raised?
    ensures FirstRaising(Plan(ed, args).trace, f).Some?
    ensures args.notify.Some? && Plan(ed, args).outcome.Returned?
  {
    RunCount(ed, args, f, IsNotice);
    PlanNotifies(ed, args);
    RunFailStop(ed, args, f);
  }
}
