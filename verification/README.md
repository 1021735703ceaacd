# packtpub-crawler: the daily run pipeline

A model of the decision logic of `script/spider.py` in packtpub-crawler. The script claims the free e-book of the day and, depending on its command-line flags, does some of the following:

- downloads the book in the requested formats, and the extras;
- uploads the files to a cloud service;
- is meant to store the upload's details in a database (as written it never does; see Findings);
- sends a notification.

`main` wraps the whole run in one `try` block. The `KeyboardInterrupt` handler logs the interruption. The `Exception` handler debug-logs the failure and, with `-n`, sends one error notification labelled "global".

The model is a set of pure functions. Each one maps the parsed flags (`Args.RunArgs`) and a choice of failing collaborator calls (`Trace.Faults`) to a `Trace.Behaviour`: the ordered list of observable effects and how the code ended.

- **Effects** are log lines and collaborator calls.
- **Endings** are a normal return, or a raised `KeyboardInterrupt` or `Exception`.
- **Failing calls.** A collaborator call that raises is still recorded in the trace, and then the code stops.

The modules follow the program's structure:

| module | file | what it holds |
|---|---|---|
| `Wrappers` | wrappers.dfy | `Option` |
| `Args` | args.dfy | formats and services, `RunArgs`, `-t`/`--all`, `parse_types` (lines 12-16, 71-75) |
| `Trace` | trace.dfy | collaborator calls, faults, effects, behaviours, counting, and the fail-stop executor `Exec` with its lemmas |
| `Pipeline` | pipeline.dfy | `run` (lines 18-54) and the store decision of lines 45-48 |
| `Guard` | guard.dfy | `main` after parsing: the opening log line, the `try` block, both handlers and "done" (lines 79-100) |
| `PipelineFacts` | pipeline_facts.dfy | properties of `run` |
| `GuardFacts` | guard_facts.dfy | properties of `main` |

`run` is related to an independent reference: `PipelineFacts.Plan` is the flat list of stages that runs when nothing raises. The central theorem, `RunIsExec`, says that `run` is that plan executed fail-stop. Most other `run` properties are counts over the plan, carried to every fault choice through the prefix lemmas.

Three lines of the source behave differently from what they evidently intend (see Findings). The type `Pipeline.Edition` selects between them:

- `AsWritten` follows the code as written. Every property stated for "as written" is about this edition.
- `Corrected` is the minimal fix.

Everything not specific to those three lines is proved for both editions.

## Model

| member | source | states |
|---|---|---|
| Args.TypeGroup | script/spider.py:71-75 | `-t` and `--all` form a mutually exclusive group: giving both is a usage error and nothing else is. Every accepted pair is a valid selection that keeps the given `-t` and has a list of types exactly when `--all` was given. |
| Args.ParseTypes | script/spider.py:12-16 | Without a types list the result is the one requested type. For a selection argparse can produce, the result is never empty, and it is the full list pdf, epub, mobi exactly when `--all` was given. |
| Args.SelectedFormats | script/spider.py:12-16 | For every flag combination argparse accepts: `-t t` downloads `[t]`, no flag downloads `[pdf]`, and `--all` downloads pdf, epub and mobi in that order. |
| Pipeline.StoreDecision | script/spider.py:45-48 | The store step records only the upload that happened, into the database `-s` names, and only the code as written ever reads `None.info`, when `-s` comes without an upload. The AsWritten/CorrectedStoreDecision lemmas characterise it fully. |
| Pipeline.Run | script/spider.py:18-54 | `run` always starts with the claim. It is the function the PipelineFacts lemmas state their properties of. |
| Pipeline.AsWrittenStoreDecision | script/spider.py:45-48 | As written, the store step warns exactly when an upload happened, whatever the service. It reads `None.info` exactly when `-s` comes without an upload, does nothing exactly when neither is given, and never records. |
| Pipeline.CorrectedStoreDecision | script/spider.py:45-48 | Corrected, the store step records exactly Drive uploads under `-s`, as `(db, Drive)`. It warns exactly for other uploads, or for `-s` without an upload, and never reads `None.info`. |
| PipelineFacts.RunIsExec | script/spider.py:18-54 | `run` equals the planned stage list executed fail-stop: every stage in order, stopping at the first collaborator call that raises. |
| PipelineFacts.RunFailStop | script/spider.py:18-54 | With no raising call, `run` performs exactly the plan. Otherwise it performs the plan up to and including the first raising call and raises that call's exception. |
| PipelineFacts.RunIsPrefix | script/spider.py:18-54 | Every trace of `run` is a prefix of its plan, so every effect is planned and in planned order. |
| PipelineFacts.RunCount | script/spider.py:18-54 | No class of effects occurs more often in a run than in its plan, and exactly as often when nothing raises. |
| PipelineFacts.PlanNotifies | script/spider.py:50-54 | The plan ends normally exactly when it stops after the claim or gets past the archive and store stages. It then holds one success notification under `-n` and none otherwise, and it never holds an error notification. |
| PipelineFacts.PlanUploadTargets | script/spider.py:41-43 | Every planned upload goes to the `-u` service with the paths the downloads recorded, and only without `-o` and `-a`. |
| PipelineFacts.ClaimFirstAndOnce | script/spider.py:19 | The claim is the first effect of `run` under every fault choice, and it happens exactly once. |
| PipelineFacts.ClaimFailureStops | script/spider.py:19 | A raising claim ends `run` at once with that exception. |
| PipelineFacts.ClaimedLogComesNext | script/spider.py:19-24 | After a successful claim come the development log (with `-d`) and the "claimed" log, and every transfer and notification comes after them. |
| PipelineFacts.ClaimOnlyTransfersNothing | script/spider.py:30 | With `-o`, `run` never downloads, fetches extras, uploads, warns or stores. |
| PipelineFacts.ClaimOnlyRaisesOnlyFromCalls | script/spider.py:30 | With `-o`, `run` raises only the exception of the claim or of the notification, never "not implemented" and never the `None.info` error. |
| PipelineFacts.ClaimOnlyNotifies | script/spider.py:50-54 | With `-o` and a successful claim, the trace is the claim, the logs, and under `-n` exactly one notification without upload info. |
| PipelineFacts.ArchiveAlwaysRaises | script/spider.py:38-39 | With `-a` and without `-o`, `run` raises under every fault choice. |
| PipelineFacts.ArchiveSkipsTheRest | script/spider.py:38-39 | With `-a` and without `-o`, `run` never uploads, stores, warns or notifies. |
| PipelineFacts.ArchiveNotImplemented | script/spider.py:33-39 | With `-a` and without `-o`, once the claim and the downloads return, `run` raises "not implemented" right after the download (and the extras, with `-e`). |
| PipelineFacts.UploadAtMostOnce | script/spider.py:41-43 | `run` uploads at most once, to the `-u` service, with the downloaded paths, and only without `-o` and `-a`. |
| PipelineFacts.UploadIff | script/spider.py:41-43 | Once the claim and downloads return, `run` uploads exactly once if and only if there is no `-o`, no `-a`, and there is a `-u`. |
| PipelineFacts.AsWrittenNeverStores | script/spider.py:45-48 | As written, `run` never calls the database under any flags or faults. |
| PipelineFacts.AsWrittenUploadSkipsStore | script/spider.py:45-46 | As written, once an upload returns, the skip-store warning always follows, whatever the service and with or without `-s`. Then comes the notification with upload info under `-n`. The run raises only when that notification raises. |
| PipelineFacts.AsWrittenStoreWithoutUpload | script/spider.py:47-48 | As written, `run` fails on `None.info` only without `-o`, `-a` and `-u` and with `-s`. Then, once the claim and the downloads return, it always does so, right after them and with no notification. |
| PipelineFacts.NoUploadNoStore | script/spider.py:45-48 | Without `-u` and `-s`, neither store branch acts: no warning and no store. |
| PipelineFacts.NoUploadNoStoreNotifies | script/spider.py:45-54 | Without `-o`, `-a`, `-u` and `-s`, once the claim and the downloads return, the notification without upload info directly follows the downloads. |
| PipelineFacts.CorrectedStoreIff | script/spider.py:45-48 | Corrected, without `-o` and `-a`, once the claim, the downloads and the upload return, `run` stores exactly once if and only if it uploads to Drive under `-s`, and it records that Drive upload. |
| PipelineFacts.CorrectedWarnIff | script/spider.py:45-46 | Corrected, without `-o` and `-a`, once the claim, the downloads and the upload return, `run` warns exactly once if and only if it uploads to a non-Drive service, or `-s` comes without `-u`. |
| PipelineFacts.CorrectedNeverDerefsNone | script/spider.py:47-48 | Corrected, `run` never fails on `None.info`. |
| PipelineFacts.RunNoticeBound | script/spider.py:50-54 | `run` sends at most one notification and never an error notification. |
| PipelineFacts.NoticeIsLastCall | script/spider.py:50-54 | A run that notified and still raised did so because the notification itself raised. |
| Guard.Handle | script/spider.py:92-98 | The handlers themselves raise only while reporting an `Exception` under `-n`, and an interrupt is always handled. GuardFacts.HandlerNotices counts their notifications. |
| Guard.Main | script/spider.py:79-100 | `main` first logs the fetching line and, whenever it returns, logs "done" last. An exception escapes `main` only under `-n`. The GuardFacts lemmas state the rest. |
| GuardFacts.EnterShape | script/spider.py:84-90 | The `try` block stops at a raising `config_file` or `Packpub(...)`. Otherwise it is the two calls and the log line, followed by its last statement. |
| GuardFacts.BodyNotices | script/spider.py:84-90 | The `try` block sends at most one notification, never an error notification. If it notified and raised, the notification raised. |
| GuardFacts.HandlerNotices | script/spider.py:92-98 | The handlers send only error notifications. They send one exactly for an `Exception` under `-n` with the configuration loaded, and none for an interrupt. |
| GuardFacts.InterruptIsNotNotified | script/spider.py:92-93 | An interrupt is logged as such with no error notification, and "done" follows. |
| GuardFacts.ErrorIsNotified | script/spider.py:95-98 | After the configuration loaded, an exception is debug-logged. Under `-n` the one "global" error notification follows, carrying that exception. "done" follows exactly when that notification does not raise. |
| GuardFacts.ErrorNotifiedOnce | script/spider.py:95-98 | After the configuration loaded, an exception leads to exactly one error notification under `-n` and to none without it. |
| GuardFacts.AsWrittenConfigFailureEscapes | script/spider.py:85-98 | As written, a failing `config_file` under `-n` makes the handler itself raise (`config` is unbound). Nothing is notified and "done" is never logged. |
| GuardFacts.CorrectedConfigFailureHandled | script/spider.py:85-100 | Corrected, a failing `config_file` is debug-logged, nothing is notified, and "done" follows. |
| GuardFacts.DoneUnlessHandlerFails | script/spider.py:84-100 | `main` ends with "done" if and only if it returns. An exception escapes `main` if and only if the `try` block raised an `Exception` under `-n` and the handler failed too: as written after a configuration failure, or because the error notification raised. |
| GuardFacts.AtMostOneNotice | script/spider.py:84-100 | `main` sends at most one notification when the success notification does not raise, and at most two in all. |
| GuardFacts.ArchiveNotifiesOnce | script/spider.py:38-39 | With `-a` and without `-o`, once the configuration, claim and downloads succeed, `main` sends exactly one notification under `-n`: the "global" error notification carrying "not implemented". It sends none without `-n`. |
| GuardFacts.DropboxEpubScenario | script/spider.py:79-100 | `--type epub --upload dropbox --notify gmail` with no failure gives, in both editions, exactly this trace: claim, EPUB download, Dropbox upload, skip-store warning, success notification with upload info, "done". |
| GuardFacts.AsWrittenDriveUploadNotStored | script/spider.py:45-46 | As written, `--upload drive --store firebase` with no failure: the run uploads to Drive, then logs the skip-store warning instead of storing, then "done". |
| GuardFacts.CorrectedDriveUploadStored | script/spider.py:45-48 | Corrected, the same invocation stores the Drive upload's details in Firebase. |

## Left out

- Argument parsing (lines 57-77) is not modelled, apart from the `-t`/`--all` group, which `Args.TypeGroup` states. `RunArgs` holds values argparse has already checked. `-c` is not a field, because the configuration file is read only by the `config_file` call.
- The timestamp in the opening log line and the banner printed at start-up are not modelled, because they are cosmetic output.
- The unused `packtpub = None` assignment and the commented-out `ip_address()` call are not modelled, because they have no effect.
- The internals of `Packpub`, `Upload`, `Database`, `Notify` and `config_file` are not modelled, because they live outside this file. Each call is an effect that either returns or raises, as `Trace.Faults` chooses. Each call is made at most once per invocation, so a map from call to failure kind covers every case.
- Loggers never raise in the model. The log lines are recorded as effects.
- `KeyboardInterrupt` is raised only at collaborator calls, never between two statements.
- A collaborator raises only `KeyboardInterrupt` or an `Exception`, as `Trace.Kind` chooses. A `BaseException` that is neither, such as `SystemExit`, would pass both handlers and skip "done"; the model cannot express it.
- What a collaborator records in `packpub.info` and `upload.info` is not modelled. The model keeps only what the decisions depend on: the requested formats and extras as `Paths`, and whether upload info reaches the notification.
- The process exit code is not modelled. One might expect exit status 0 after every run; in the code, an exception raised inside the `except Exception` handler escapes `main`. That happens as written after a configuration failure under `-n`, and in both editions when the error notification raises. Python then exits with status 1. `GuardFacts.DoneUnlessHandlerFails` states exactly when this happens.
- A run can send two notifications: when the success notification itself raises, that failure is reported again by the error notification. `GuardFacts.AtMostOneNotice` states the bound the code keeps.

## Findings

| source | as written | input that shows it | evidently intended | confidence | as-written member | corrected member |
|---|---|---|---|---|---|---|
| script/spider.py:45 | `upload is not SERVICE_DRIVE` compares the `Upload` object with the service-name string by identity. So every upload takes the warning branch and the store call is unreachable. | `--upload drive --store firebase` with every call succeeding: the warning is logged and nothing is stored | test the requested service: store the details of a Drive upload, warn for other services | not executed | PipelineFacts.AsWrittenUploadSkipsStore | PipelineFacts.CorrectedStoreIff |
| script/spider.py:47-48 | with `-s` and no `-u`, `upload` is `None` and `upload.info` raises `AttributeError` | `--store firebase` alone, with every call succeeding: the run fails after the download and skips the success notification | treat a store without upload info like the warning case | not executed | PipelineFacts.AsWrittenStoreWithoutUpload | PipelineFacts.CorrectedNeverDerefsNone |
| script/spider.py:98 | when `config_file` raised, `config` is unbound and the handler's own `Notify(config, ...)` raises `UnboundLocalError` | `-n gmail` with a configuration file that fails to load: no "done", and the exception escapes `main` | skip the notification when no configuration was loaded, and still log "done" | not executed | GuardFacts.AsWrittenConfigFailureEscapes | GuardFacts.CorrectedConfigFailureHandled |

`GuardFacts.AsWrittenDriveUploadNotStored` and `GuardFacts.CorrectedDriveUploadStored` show the first row on one concrete input.
