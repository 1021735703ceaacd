/**
  What one invocation of the spider does, as a trace of observable effects:
  log lines and calls into the collaborators (`Packpub`, `Upload`,
  `Database`, `Notify`, `config_file`), plus how the invocation ends.

  The collaborators are not modelled; each call is an effect that either
  returns or raises.  Which calls raise, and whether with a
  `KeyboardInterrupt` or an ordinary exception, is the `Faults` input.
 */
module Trace {
  import opened Wrappers
  import opened Args

  /** The collaborator calls the run can make, each at most once. */
  datatype Call =
    | ConfigFile        // config_file(args.config)
    | PackpubNew        // Packpub(config, args.dev)
    | PackpubRun        // packpub.run(): the claim
    | DownloadEbooks    // packpub.download_ebooks(types)
    | DownloadExtras    // packpub.download_extras()
    | UploadRun         // Upload(config, args.upload).run(paths)
    | DatabaseStore     // Database(...).store()
    | NotifyRun         // Notify(...).run()
    | NotifySendError   // Notify(...).sendError(e, 'global')

  /** How a raising call raises. */
  datatype Kind = Interrupt | Failure

  /** The calls that raise; every other call returns. */
  type Faults = map<Call, Kind>

  /** What an `Exception` caught by the guard stands for. */
  datatype Err =
    | CallFailed(call: Call)   // a collaborator raised
    | NotImplemented           // the archive stage
    | NoneHasNoInfo            // `upload.info` read while `upload` is None
    | ConfigUnbound            // `config` read before it was assigned

  /** A raised Python exception: `KeyboardInterrupt` is not an `Exception`. */
  datatype Exc = KeyboardInterrupt(at: Call) | Exception(err: Err)

  datatype Outcome = Returned | Raised(exc: Exc)

  /** The local files the download stages record in `packpub.info['paths']`:
      one entry per requested format, plus the extras when fetched. */
  datatype Paths = Paths(ebooks: seq<Format>, extras: bool)

  datatype Effect =
    | LogFetching                                   // "Fetching today's books"
    | LoadConfig                                    // config_file
    | LogGetting                                    // "getting daily free ebook"
    | CreateClaimer(dev: bool)                      // Packpub(...)
    | ClaimBook                                     // packpub.run()
    | DevLog                                        // log_json(packpub.info)
    | ClaimedLog                                    // "book successfully claimed"
    | DownloadBooks(types: seq<Format>)             // download_ebooks
    | FetchExtras                                   // download_extras
    | UploadFiles(svc: UploadSvc, paths: Paths)     // Upload(...).run(paths)
    | WarnSkipStore                                 // "skip store info"
    | StoreRecord(db: DbSvc, svc: UploadSvc)        // Database(...).store()
    | SendNotification(channel: NotifySvc, withUploadInfo: bool)  // Notify(...).run()
    | LogInterrupted                                // "interrupted manually"
    | LogDebug(err: Err)                            // log_debug(e)
    | SendError(channel: NotifySvc, err: Err, stage: string)      // sendError(e, stage)
    | LogDone                                       // "done"

  /** The effects of a piece of code, in order, and how it ended. */
  datatype Behaviour = Behaviour(trace: seq<Effect>, outcome: Outcome)

  /** The exception a call raises with the given kind. */
  function Raise(c: Call, k: Kind): Exc
  {
    if k == Interrupt then KeyboardInterrupt(c) else Exception(CallFailed(c))
  }

  /** A collaborator call `c`, observed as `e`, followed by `k` when it returns. */
  function Attempt(f: Faults, c: Call, e: Effect, k: Behaviour): Behaviour
  {
    if c in f then Behaviour([e], Raised(Raise(c, f[c])))
    else Behaviour([e] + k.trace, k.outcome)
  }

  /** A log line `e` (loggers never raise) followed by `k`. */
  function Log(e: Effect, k: Behaviour): Behaviour
  {
    Behaviour([e] + k.trace, k.outcome)
  }

  /** Normal completion with no further effect. */
  const Finish: Behaviour := Behaviour([], Returned)

  /** An exception raised by the code itself, with no further effect. */
  function Throw(e: Err): Behaviour
  {
    Behaviour([], Raised(Exception(e)))
  }

  // Classes of effects that the properties talk about.

  predicate IsClaim(e: Effect) { e.ClaimBook? }

  predicate IsUpload(e: Effect) { e.UploadFiles? }

  predicate IsStore(e: Effect) { e.StoreRecord? }

  predicate IsWarn(e: Effect) { e.WarnSkipStore? }

  predicate IsSuccessNotice(e: Effect) { e.SendNotification? }

  predicate IsErrorNotice(e: Effect) { e.SendError? }

  /** Any outbound notification, success or error. */
  predicate IsNotice(e: Effect) { e.SendNotification? || e.SendError? }

  /** Anything that moves or records files: the stages claim-only skips. */
  predicate IsTransfer(e: Effect)
  {
    e.DownloadBooks? || e.FetchExtras? || e.UploadFiles? || e.WarnSkipStore? || e.StoreRecord?
  }

  /** The number of effects of `t` in the class `p`. */
  function Count(t: seq<Effect>, p: Effect -> bool): (n: nat)
    ensures n <= |t|
  {
    if t == [] then 0 else (if p(t[0]) then 1 else 0) + Count(t[1..], p)
  }

  /** No effect of `t` is in the class exactly when the count is zero. */
  lemma {:induction false} CountZero(t: seq<Effect>, p: Effect -> bool)
    ensures Count(t, p) == 0 <==> forall i :: 0 <= i < |t| ==> !p(t[i])
    decreases |t|
  {
    if t != [] {
      CountZero(t[1..], p);
      assert forall i :: 1 <= i < |t| ==> t[i] == t[1..][i - 1];
    }
  }

  lemma {:induction false} CountCons(e: Effect, t: seq<Effect>, p: Effect -> bool)
    ensures Count([e] + t, p) == (if p(e) then 1 else 0) + Count(t, p)
  {
    assert ([e] + t)[1..] == t;
  }

  /** Counting distributes over concatenation of traces. */
  lemma {:induction false} CountAppend(a: seq<Effect>, b: seq<Effect>, p: Effect -> bool)
    ensures Count(a + b, p) == Count(a, p) + Count(b, p)
    decreases |a|
  {
    if a == [] {
      assert a + b == b;
    } else {
      assert a + b == [a[0]] + (a[1..] + b);
      CountCons(a[0], a[1..] + b, p);
      CountAppend(a[1..], b, p);
      assert a == [a[0]] + a[1..];
      CountCons(a[0], a[1..], p);
    }
  }

  /** A call contributes its own effect, and its continuation's only when it returns. */
  lemma CountAttempt(f: Faults, c: Call, e: Effect, k: Behaviour, p: Effect -> bool)
    ensures Count(Attempt(f, c, e, k).trace, p)
         == (if p(e) then 1 else 0) + (if c in f then 0 else Count(k.trace, p))
  {
    if c in f {
      CountCons(e, [], p);
      assert [e] + [] == [e];
    } else {
      CountCons(e, k.trace, p);
    }
  }

  lemma CountLog(e: Effect, k: Behaviour, p: Effect -> bool)
    ensures Count(Log(e, k).trace, p) == (if p(e) then 1 else 0) + Count(k.trace, p)
  {
    CountCons(e, k.trace, p);
  }

  /** The collaborator call behind an effect; log lines have none. */
  function CallOf(e: Effect): Option<Call>
  {
    match e
    case LoadConfig => Some(ConfigFile)
    case CreateClaimer(_) => Some(PackpubNew)
    case ClaimBook => Some(PackpubRun)
    case DownloadBooks(_) => Some(DownloadEbooks)
    case FetchExtras => Some(DownloadExtras)
    case UploadFiles(_, _) => Some(UploadRun)
    case StoreRecord(_, _) => Some(DatabaseStore)
    case SendNotification(_, _) => Some(NotifyRun)
    case SendError(_, _, _) => Some(NotifySendError)
    case _ => None
  }

  /** The effect `e` raises under `f`. */
  predicate Raises(e: Effect, f: Faults)
  {
    CallOf(e).Some? && CallOf(e).value in f
  }

  /** The effects of `plan` performed in order, each call raising as `f`
      says, followed by `k` when none raises. */
  function Exec(plan: seq<Effect>, k: Behaviour, f: Faults): Behaviour
    decreases |plan|
  {
    if plan == [] then k
    else match CallOf(plan[0])
      case Some(c) => Attempt(f, c, plan[0], Exec(plan[1..], k, f))
      case None => Log(plan[0], Exec(plan[1..], k, f))
  }

  /** The position of the first effect of `t` that raises under `f`. */
  function FirstRaising(t: seq<Effect>, f: Faults): (r: Option<nat>)
    ensures r.Some? ==> r.value < |t| && Raises(t[r.value], f)
    ensures r.Some? ==> forall j :: 0 <= j < r.value ==> !Raises(t[j], f)
    ensures r.None? <==> forall j :: 0 <= j < |t| ==> !Raises(t[j], f)
    decreases |t|
  {
    if t == [] then None
    else if Raises(t[0], f) then Some(0)
    else match FirstRaising(t[1..], f)
      case None => None
      case Some(i) => Some(i + 1)
  }

  /** Executing a concatenation is executing its parts in turn. */
  lemma {:induction false} ExecAppend(a: seq<Effect>, b: seq<Effect>, k: Behaviour, f: Faults)
    ensures Exec(a + b, k, f) == Exec(a, Exec(b, k, f), f)
    decreases |a|
  {
    if a == [] {
      assert a + b == b;
    } else {
      assert (a + b)[0] == a[0];
      assert (a + b)[1..] == a[1..] + b;
      ExecAppend(a[1..], b, k, f);
    }
  }

  /** With no raising call, an execution performs the whole plan and then
      its continuation. */
  lemma {:induction false} ExecClean(plan: seq<Effect>, k: Behaviour, f: Faults)
    requires forall j :: 0 <= j < |plan| ==> !Raises(plan[j], f)
    ensures Exec(plan, k, f) == Behaviour(plan + k.trace, k.outcome)
    decreases |plan|
  {
    if plan == [] {
      assert plan + k.trace == k.trace;
    } else {
      var e, rest := plan[0], plan[1..];
      assert forall j :: 0 <= j < |rest| ==> rest[j] == plan[j + 1];
      ExecClean(rest, k, f);
      assert plan + k.trace == [e] + (rest + k.trace);
    }
  }

  /** An execution stops right after the first raising call, with that
      call's exception. */
  lemma {:induction false} ExecStops(plan: seq<Effect>, k: Behaviour, f: Faults)
    requires FirstRaising(plan, f).Some?
    ensures var i := FirstRaising(plan, f).value;
      var c := CallOf(plan[i]).value;
      Exec(plan, k, f) == Behaviour(plan[..i + 1], Raised(Raise(c, f[c])))
    decreases |plan|
  {
    var e, rest := plan[0], plan[1..];
    if Raises(e, f) {
      assert plan[..1] == [e];
    } else {
      var i := FirstRaising(rest, f).value;
      ExecStops(rest, k, f);
      assert plan[..i + 2] == [e] + rest[..i + 1];
    }
  }

  /** Fail-stop execution: with no raising call, `Exec` performs the whole
      plan and then `k`; otherwise it performs the plan up to and including
      the first raising call, and ends with that call's exception. */
  lemma ExecFailStop(plan: seq<Effect>, k: Behaviour, f: Faults)
    ensures FirstRaising(plan, f).None? ==>
      Exec(plan, k, f) == Behaviour(plan + k.trace, k.outcome)
    ensures FirstRaising(plan, f).Some? ==>
      var i := FirstRaising(plan, f).value;
      var c := CallOf(plan[i]).value;
      Exec(plan, k, f) == Behaviour(plan[..i + 1], Raised(Raise(c, f[c])))
  {
    if FirstRaising(plan, f).None? {
      ExecClean(plan, k, f);
    } else {
      ExecStops(plan, k, f);
    }
  }

  /** Executing a plan never shows more effects of a class than the plan
      and its continuation hold. */
  lemma {:induction false} ExecCount(plan: seq<Effect>, k: Behaviour, f: Faults, p: Effect -> bool)
    ensures Count(Exec(plan, k, f).trace, p) <= Count(plan, p) + Count(k.trace, p)
    ensures FirstRaising(plan, f).None? ==>
      Count(Exec(plan, k, f).trace, p) == Count(plan, p) + Count(k.trace, p)
    decreases |plan|
  {
    if plan != [] {
      ExecCount(plan[1..], k, f, p);
      CountCons(plan[0], plan[1..], p);
      assert plan == [plan[0]] + plan[1..];
      match CallOf(plan[0])
      case Some(c) =>
        CountAttempt(f, c, plan[0], Exec(plan[1..], k, f), p);
      case None =>
        CountLog(plan[0], Exec(plan[1..], k, f), p);
    } else {
    }
  }

  lemma CountSingle(e: Effect, p: Effect -> bool)
    ensures Count([e], p) == if p(e) then 1 else 0
  {
    CountCons(e, [], p);
    assert [e] + [] == [e];
  }

  /** A prefix never holds more effects of a class than the whole trace. */
  lemma CountPrefix(a: seq<Effect>, b: seq<Effect>, p: Effect -> bool)
    requires a <= b
    ensures Count(a, p) <= Count(b, p)
  {
    assert b == a + b[|a|..];
    CountAppend(a, b[|a|..], p);
  }

  /** A prefix of `t` that holds an effect of a class that only the last
      effect of `t` is in reaches the end of `t`. */
  lemma PrefixHoldingLast(t: seq<Effect>, n: nat, p: Effect -> bool)
    requires 0 < n <= |t|
    requires Count(t[..|t| - 1], p) == 0
    requires Count(t[..n], p) > 0
    ensures n == |t|
  {
    if n < |t| {
      CountPrefix(t[..n], t[..|t| - 1], p);
    }
  }

  /** When the only effect of class `p` a plan holds is its last call, an
      execution that shows that effect and raises raised in that call. */
  lemma ExecRaisesAtLast(plan: seq<Effect>, k: Behaviour, f: Faults, p: Effect -> bool)
    requires |plan| > 0 && CallOf(plan[|plan| - 1]).Some?
    requires Count(plan[..|plan| - 1], p) == 0
    requires k.outcome.Returned?
    requires Count(Exec(plan, k, f).trace, p) > 0 && Exec(plan, k, f).outcome.Raised?
    ensures CallOf(plan[|plan| - 1]).value in f
  {
    ExecFailStop(plan, k, f);
    var i := FirstRaising(plan, f).value;
    PrefixHoldingLast(plan, i + 1, p);
  }

  /** An execution performs a prefix `safe + last` of its plan when no
      effect of `safe` raises and `last` is at most one effect (which is
      performed even when it raises). */
  lemma ExecReaches(plan: seq<Effect>, k: Behaviour, f: Faults, safe: seq<Effect>, last: seq<Effect>)
    requires |last| <= 1
    requires safe + last <= plan
    requires forall e :: e in safe ==> !Raises(e, f)
    ensures safe + last <= Exec(plan, k, f).trace
  {
    ExecFailStop(plan, k, f);
    match FirstRaising(plan, f)
    case None =>
    case Some(i) =>
      assert forall j :: 0 <= j < |safe| ==> plan[j] == safe[j] && !Raises(plan[j], f);
  }

  /** Effects that are not collaborator calls never raise: executing them
      just records them. */
  lemma {:induction false} ExecLogs(logs: seq<Effect>, t: seq<Effect>, k: Behaviour, f: Faults)
    requires forall i :: 0 <= i < |logs| ==> CallOf(logs[i]).None?
    ensures Exec(logs + t, k, f) == Behaviour(logs + Exec(t, k, f).trace, Exec(t, k, f).outcome)
    decreases |logs|
  {
    if logs == [] {
      assert logs + t == t;
      assert logs + Exec(t, k, f).trace == Exec(t, k, f).trace;
    } else {
      assert (logs + t)[1..] == logs[1..] + t;
      ExecLogs(logs[1..], t, k, f);
      assert CallOf((logs + t)[0]).None?;
      assert logs + Exec(t, k, f).trace == [logs[0]] + (logs[1..] + Exec(t, k, f).trace);
    }
  }

  /** A plan whose only possibly raising effect is its last one, followed
      by a continuation with no effects that returns: the execution shows
      the whole plan, and raises exactly when that last effect does. */
  lemma ExecLastOnly(safe: seq<Effect>, last: seq<Effect>, f: Faults)
    requires |last| <= 1
    requires forall j :: 0 <= j < |safe| ==> !Raises(safe[j], f)
    ensures Exec(safe + last, Finish, f).trace == safe + last
    ensures Exec(safe + last, Finish, f).outcome.Raised? <==> last != [] && Raises(last[0], f)
  {
    ExecAppend(safe, last, Finish, f);
    ExecClean(safe, Exec(last, Finish, f), f);
    if last != [] {
      assert last[1..] == [];
    }
  }
}
