# A verified model of the WinSCP / Far-NetBox session engine and directory synchroniser

This project models in Dafny two parts of the WinSCP session engine (as
packaged by Far-NetBox):

* the terminal, `TTerminal` in `src/core/Terminal.cpp`. The model covers:
  - its transaction and deferred-refresh state machine;
  - the exception-on-fail counter;
  - the per-file batch driver `ProcessFiles`;
  - the sticky "skip all" answers and the overwrite-confirmation policies;
  - reconnect counting, the tunnel port search and the callback guard;
  - the remote path helpers;
  - the directory synchronisation itself:
    - collecting and classifying a checklist of actions from a local and a remote listing;
    - sorting the checklist;
    - applying it in batches;
* the "keep remote directory up to date" controller, `TSynchronizeController`
  in `Common/SynchronizeController.cpp`, which turns local change
  notifications into synchronisation calls.

## Modules

| file | module | what it holds |
|---|---|---|
| `text.dfy` | `Text` | case-insensitive comparison (`AnsiCompareText`) and its order laws |
| `paths.dfy` | `Paths` | Windows and Unix path helpers, `IsAbsolutePath`, `ExpandFileName`, `TranslateLockedPath` |
| `checklist.dfy` | `Checklist` | checklist items, `GetFileName`, `Compare`, the sort, the class `SynchronizeChecklist`; the timestamp precisions |
| `collect.dfy` | `Collect` | `SynchronizeCollect`, `DoSynchronizeCollectDirectory`, `SynchronizeCollectFile`: recursive functions, and methods with the source's loops proved equal to them |
| `collect_props.dfy` | `CollectProperties` | what every collected item satisfies, the classification rules, worked examples |
| `apply.dfy` | `Apply` | `SynchronizeApply`: the run/bucket walk as a nested-loop method proved equal to a recursive function |
| `apply_props.dfy` | `ApplyProperties` | bucket contents, batch order and presence, stopping at the first failure, directory progress, abort and transaction bracketing |
| `session.dfy` | `Session` | the class `Terminal`: its fields, one method per operation, each proved equal to a transition function on a `TerminalState` value |
| `session_props.dfy` | `SessionProperties` | transaction deferral and flush, `ProcessFiles` outcomes |
| `policies.dfy` | `Policies` | `OperationProgress` (the sticky fields), `FileOperationLoopQuery`, `CommandError`, `EffectiveBatchOverwrite`, `ConfirmFileOverwrite` |
| `connection.dfy` | `Connection` | `DoQueryReopen`/`QueryReopen`, the `OpenTunnel` port loop, `TCallbackGuard` |
| `controller.dfy` | `Controller` | the class `SynchronizeController` |
| `controller_props.dfy` | `ControllerProperties` | remote path mapping, error routing, start/stop, the directory filter |

### How stateful code is modelled

An object whose methods update its fields is a Dafny `class`:

* `Terminal`, `OperationProgress`, `SynchronizeChecklist`, `CallbackGuard`, `SynchronizeController`.
* Each class has a `State()` function that collects its fields into a datatype value.
* Each method ensures that the new `State()` equals a transition function applied to the old one.
* The properties are lemmas about those transition functions.

Loops in the source are loops in the model:

* `ProcessFiles`;
* the nested run/bucket loops of `SynchronizeApply`;
* the listing loops of the collector;
* the port loop of `OpenTunnel`;
* the reconnect loop of `QueryReopen`;
* the checklist scan of `SynchronizeChange`.

Each loop is proved equal to a recursive function, and the lemmas are stated over that function.

### Inputs that stand in for what the model does not see

The back end, the user and the clock become parameters:

* Directory reads are events appended to a session log.
* A file operation's outcome (success, skip, failure, cancel) is a function of the file name.
* User replies are `QueryAnswer` arguments.
* The reconnect attempts and timeout are functions of the attempt number.
* Whether a port is free is `isListenerFree`.
* The transfer mask and the name mangling of the copy parameters are functions in `CopyParam`.
* Local and remote listings are trees of `LocalFile` and `RemoteFile`.
* Batch operations are recorded as `BatchCall` events. Whether one returns true, and whether it raises instead (an abort the user chose, a fatal error), are functions of the call (`batchSucceeds`, `batchRaises`).
* The directory-progress callback of `SynchronizeApply` is assumed to be installed: a `DirectoryStarted` event marks the point where `DoSynchronizeProgress` calls it and its answer, `continueDirectory`, is consulted (`src/core/Terminal.cpp:4727-4741`). Without a callback the source calls nothing there and goes on.
* The synchronize callback's answer is a `SynchronizeResponse` argument.
* Timestamps are integer seconds. `CompareFileTime` lives in `Common.cpp`, which is not part of this model. The model follows that routine's rule: times less than two seconds apart compare equal (the FAT file system keeps times to two seconds).
* A precision (`ModificationFmt`) truncates to the minute (`MDHM`) or the day (`MDY`); `Full` keeps the second and `None` keeps nothing.

### Where the model follows the code rather than the description

* **Flushed listing read.** An outermost `EndTransaction` on an active session reads the pending current directory first, then the pending listing (`src/core/Terminal.cpp:1789-1819`). `ReadCurrentDirectory` clears `FReadCurrentDirectoryPending` before the listing read's argument `!FReadCurrentDirectoryPending` is evaluated. So the flushed listing read is always a reload-only read (`DirectoryRead(true)`).
* **Callback guard error.** `TCallbackGuard::FatalError` replaces an error remembered earlier (`src/core/Terminal.cpp:446-464`). `Verify` therefore raises the last fatal error of the guarded region, not the first.
* **"Newer only" without file details.** `EffectiveBatchOverwrite` with `cpNewerOnly` yields `boOlder` whether or not file details are given. So in `ConfirmFileOverwrite` without details, the fallback policy equals the one it replaces, and the debug-only assertion `BatchOverwrite != ABatchOverwrite` does not hold (`src/core/Terminal.cpp:2040-2045`). The model follows a release build: the policy stays `boOlder` and the answer is No (`src/core/Terminal.cpp:2105-2113`).
* **A null progress object.** `CommandError` with a reply of `qaAll` and no operation progress would dereference a null pointer (`src/core/Terminal.cpp:1939-1944`). The model answers Skip and sets no sticky flag.
* **Precision order.** `LessDateTimePrecision` takes the precision declared earlier in `TModificationFmt` (`src/core/Terminal.cpp:2107-2111`), and the declaration order is not the order of fineness. Minute precision (`mfMDHM`) against day precision (`mfMDY`) therefore gives minute precision, and the "newer only" comparison then compares a day precise time to the minute. The model keeps this (`LessPrecisionOfMinuteAndDay`).
* **Root prefix in SynchronizeChange.** The prefix assertion on the changed directory is debug-only (`Common/SynchronizeController.cpp:114-123`). The model, like the code, takes the characters after the length of the root, whatever they are.

## Model

| member | source | states |
|---|---|---|
| Text.CompareText | src/core/Terminal.cpp:185-207 | the comparison used by the checklist is -1, 0 or 1, and 0 exactly when the two strings are equal after upper-casing |
| Text.CompareTextAntisymmetric | src/core/Terminal.cpp:185-207 | swapping the arguments negates the comparison |
| Text.CompareTextTransitive | src/core/Terminal.cpp:185-207 | "not greater" is transitive |
| Text.CompareTextIgnoresCase | src/core/Terminal.cpp:185-207 | strings that differ only in letter case compare equal |
| Text.CompareSeqAntisymmetric | src/core/Terminal.cpp:185-207 | the ordinal comparison underneath is antisymmetric |
| Text.CompareSeqTransitive | src/core/Terminal.cpp:185-207 | the ordinal comparison underneath is transitive |
| Checklist.ReduceDateTimePrecision | src/core/Terminal.cpp:4397-4403 | full precision keeps the time; no precision gives 0; any other precision rounds down to a multiple of its granularity, by less than one granule |
| Checklist.ReduceIdempotent | src/core/Terminal.cpp:4397-4403 | reducing twice is reducing once |
| Checklist.ReduceMonotone | src/core/Terminal.cpp:2095-2128 | reduction preserves the order of times, so it can hide a difference but never reverse it |
| Checklist.LessDateTimePrecision | src/core/Terminal.cpp:2095-2128 | the result is one of the two precisions, the one declared earlier in `TModificationFmt` |
| Checklist.LessPrecisionOfMinuteAndDay | src/core/Terminal.cpp:2107-2111 | minute precision against day precision gives minute precision in either order, although minutes are finer than days |
| Checklist.NewItem | src/core/Terminal.cpp:136-145 | a new item has no action, is checked, is not a directory, and has empty local and remote records |
| Checklist.GetFileName | src/core/Terminal.cpp:152-163 | the remote file name when it is non-empty, otherwise the local one |
| Checklist.Compare | src/core/Terminal.cpp:185-207 | items compare by local directory (or, with no local directory, by remote directory), case-insensitively; on equal directories they compare by file name |
| Checklist.CompareAntisymmetric | src/core/Terminal.cpp:185-207 | the item order is antisymmetric when both items have a local directory |
| Checklist.CompareTransitive | src/core/Terminal.cpp:185-207 | the item order is transitive when the items have a local directory |
| Checklist.Insert | src/core/Terminal.cpp:209-212 | inserting adds exactly one occurrence of the item |
| Checklist.SortItems | src/core/Terminal.cpp:209-212 | sorting keeps the same items with the same multiplicities |
| Checklist.InsertSorted | src/core/Terminal.cpp:209-212 | inserting into a sorted list keeps it sorted |
| Checklist.SortItemsSorted | src/core/Terminal.cpp:209-212 | the sorted checklist is in `Compare` order when every item has a local directory |
| Checklist.SortItemsPermutes | src/core/Terminal.cpp:209-212 | the sorted checklist is a permutation of the input, with the same members |
| Checklist.SortItemsKeepsSorted | src/core/Terminal.cpp:209-212 | an already sorted checklist is left unchanged |
| Checklist.SynchronizeChecklist.constructor | src/core/Terminal.cpp:166-169 | a new checklist is empty |
| Checklist.SynchronizeChecklist.Count | src/core/Terminal.cpp:214-217 | the count is the number of items |
| Checklist.SynchronizeChecklist.Add | src/core/Terminal.cpp:180-183 | the item is appended at the end |
| Checklist.SynchronizeChecklist.Sort | src/core/Terminal.cpp:209-212 | the items are replaced by their sorted permutation, which is in order when every item has a local directory |
| Collect.NewFileData | src/core/Terminal.cpp:4207-4219 | a freshly listed local entry is new, not modified, and records its directory |
| Collect.IndexOfText | src/core/Terminal.cpp:4380-4388 | the first entry whose name equals the given name case-insensitively, or -1 when none does |
| Collect.CompareFileTime | src/core/Terminal.cpp:4410-4413 | -1, 0 or 1: negative exactly when the first time is two seconds or more earlier, positive exactly when it is two seconds or more later, 0 when they are less than two seconds apart |
| Collect.AddIfAction | src/core/Terminal.cpp:4525-4530 | an item is appended to the checklist exactly when it has an action |
| Collect.MakeDirData | src/core/Terminal.cpp:4143-4144 | both directories of a pair end in their delimiter, so neither is empty |
| Collect.BuildLocalFileList | src/core/Terminal.cpp:4165-4238 | the loop over the local listing builds exactly the list of included entries, the first of case-insensitive duplicates winning |
| Collect.CollectDirectory | src/core/Terminal.cpp:4134-4345 | collecting one directory pair (progress check, local list, remote pass, local sweep) yields what the recursive definition does |
| Collect.ProcessRemoteDirectory | src/core/Terminal.cpp:4250-4252 | the walk over the remote listing, skipping "." and "..", yields what the recursive definition does |
| Collect.CollectFile | src/core/Terminal.cpp:4347-4539 | classifying one remote entry, and recursing into a matched directory, yields what the recursive definition does |
| Collect.SweepLocalFileList | src/core/Terminal.cpp:4254-4328 | the loop over the local list appends exactly the items the sweep defines |
| Collect.SynchronizeCollect | src/core/Terminal.cpp:4112-4132 | the checklist holds the collected items, sorted, unless collection was cancelled |
| CollectProperties.AddOk | src/core/Terminal.cpp:4314-4318 | adding a well-formed item keeps the checklist well formed |
| CollectProperties.BuildLocalListOk | src/core/Terminal.cpp:4165-4238 | every entry of the local list belongs to the current local directory |
| CollectProperties.SweepItemClassified | src/core/Terminal.cpp:4261-4314 | a local entry gets UploadUpdate exactly when it is modified in mode Both or Remote; otherwise UploadNew exactly when it is new in mode Both or Remote outside timestamp mode, DeleteLocal exactly when it is new in mode Local outside timestamp mode, and no action in every other case; the check mark is the directory rule, additionally "not existing only" for UploadNew and "delete" for DeleteLocal |
| CollectProperties.SweptMembers | src/core/Terminal.cpp:4254-4328 | an item is swept exactly when it is the item of some entry of the local list and has an action; at most one item per entry |
| CollectProperties.SweepAppendsSwept | src/core/Terminal.cpp:4254-4328 | the sweep appends to the collected items exactly the items of the entries that get an action, in list order |
| CollectProperties.SweepOk | src/core/Terminal.cpp:4254-4328 | every item the sweep adds is allowed by the mode, has both directories, and carries its default check mark: UploadNew (unless existing only), DeleteLocal (only with delete), UploadUpdate |
| CollectProperties.RemotePassOk | src/core/Terminal.cpp:4250-4252 | the remote pass keeps the checklist well formed and the local list consistent |
| CollectProperties.CollectFileOk | src/core/Terminal.cpp:4496-4530 | every item proposed for a remote entry is allowed by the mode and carries its default check mark: DownloadNew/DownloadUpdate, or DeleteRemote only checked with delete; directories only checked when descended into |
| CollectProperties.CollectDirOk | src/core/Terminal.cpp:4134-4345 | collecting a directory tree keeps the checklist well formed |
| CollectProperties.CollectedChecklistOk | src/core/Terminal.cpp:4112-4132 | the final checklist is well formed and sorted by directory, then by file name |
| CollectProperties.RemoteModeDirectoryActions | src/core/Terminal.cpp:4496-4530 | in mode Remote a directory is only ever uploaded as new or deleted remotely |
| CollectProperties.RemoteOnlyEntryIsNew | src/core/Terminal.cpp:4489-4530 | a remote entry absent locally becomes DownloadNew, or DeleteRemote in mode Remote, with its default check mark; timestamp mode proposes nothing for it |
| CollectProperties.KindMismatchYieldsNoItem | src/core/Terminal.cpp:4381-4394 | a file against a directory of the same name clears the local entry's New flag and proposes nothing |
| CollectProperties.MatchedFileIsNeverNew | src/core/Terminal.cpp:4397-4530 | a file present on both sides is never new: it becomes a checked DownloadUpdate exactly when the verdict says the remote copy should travel and the mode is not Remote; otherwise nothing is proposed for it; the local entry is marked modified exactly when the verdict says so |
| CollectProperties.VerdictBothOnlyBySize | src/core/Terminal.cpp:4397-4449 | both directions are flagged only for times less than two seconds apart (or ignored) with different sizes under by-size without timestamp mode |
| CollectProperties.NewerWinsInBoth | src/core/Terminal.cpp:4397-4449 | in mode Both the copy newer by two seconds or more wins |
| CollectProperties.CloseTimesAreEqual | src/core/Terminal.cpp:4410-4449 | times less than two seconds apart are no difference in any mode: both directions are flagged exactly when by-size without timestamp mode sees different sizes, otherwise neither |
| CollectProperties.MirrorUploadsOnAnyDifference | src/core/Terminal.cpp:4397-4449 | in mode Remote, mirroring uploads on any time difference of two seconds or more; without it only a local copy newer by that much is uploaded |
| CollectProperties.NotByTimeIgnoresTime | src/core/Terminal.cpp:4397-4449 | without time comparison the times do not matter, and equal sizes mean no difference |
| CollectProperties.ReducedPrecisionHidesSubMinute | src/core/Terminal.cpp:4397-4403 | a local time within the minute of a minute-precise remote time is not a difference |
| CollectProperties.LocalOnlyFileIsUploaded | src/core/Terminal.cpp:4254-4328 | a file that exists only locally is proposed as a checked UploadNew |
| CollectProperties.NewerRemoteFileIsDownloaded | src/core/Terminal.cpp:4397-4530 | a newer remote copy is proposed as a checked DownloadUpdate and nothing is uploaded |
| Apply.SyncTransferOptions | src/core/Terminal.cpp:4550-4559 | transfers keep the no-confirmation flag and preserve times unless synchronising without time comparison |
| Apply.RunEnd | src/core/Terminal.cpp:4588-4592 | a run is the maximal stretch of items with the same local and remote directories |
| Apply.RunEndIsFirstChange | src/core/Terminal.cpp:4588-4592 | the run ends exactly at the first item whose directories differ |
| Apply.CollectRun | src/core/Terminal.cpp:4588-4661 | the inner loop stops at the end of the run and fills the buckets exactly as the definition of the run's lists does |
| Apply.IssueRunBatches | src/core/Terminal.cpp:4670-4711 | the batches of one run are issued in their fixed order, stopping at the first one that raises, and outside timestamp mode at the first one that returns false |
| Apply.IssueCalls | src/core/Terminal.cpp:4670-4711 | issuing the batches one by one, stopping after one that raises (in either mode) or returns false (outside timestamp mode), gives exactly the log and completion of the batch-by-batch definition |
| Apply.SynchronizeApply | src/core/Terminal.cpp:4541-4725 | the nested loops over runs and buckets produce exactly the event log of the run-by-run definition, inside one transaction that is ended also when an operation raises or the walk aborts |
| ApplyProperties.PickMembers | src/core/Terminal.cpp:4594-4659 | a path is in a bucket exactly when some item wants that bucket and maps to that path |
| ApplyProperties.ListsArePicks | src/core/Terminal.cpp:4622-4658 | outside timestamp mode the four buckets hold exactly the checked items of each action, in checklist order |
| ApplyProperties.TimestampListsArePicks | src/core/Terminal.cpp:4599-4621 | in timestamp mode the two buckets hold exactly the checked updates of each side |
| ApplyProperties.DownloadListMembers | src/core/Terminal.cpp:4624-4632 | a checked download item's remote path is in the download bucket |
| ApplyProperties.NoneCheckedCountsZero | src/core/Terminal.cpp:4588-4668 | a run with no checked item has no checked count |
| ApplyProperties.BatchOrder | src/core/Terminal.cpp:4670-4711 | batches come in the order download, delete remote, upload, delete local (then the two timestamp kinds); each kind occurs exactly when the mode issues it and its list is not empty; each works on its own list (downloads and local timestamps on the download list, remote deletions on the remote-delete list, uploads and remote timestamps on the upload list, local deletions on the local-delete list), and the copies target the run's directories |
| ApplyProperties.BatchPresence | src/core/Terminal.cpp:4670-4711 | an operation kind occurs in a run exactly when timestamp mode matches its kind and its list is not empty |
| ApplyProperties.IssueBatchesStopAtFailure | src/core/Terminal.cpp:4670-4710 | in either mode a run logs only operations; they complete exactly when none stopped the walk (raised, or returned false outside timestamp mode), and such an operation is the last logged |
| ApplyProperties.ApplyRunsStopAtFailure | src/core/Terminal.cpp:4570-4712 | in either mode, from a log without failures, the walk completes exactly when no cancelled directory or stopping operation is logged, and such an event is the last one logged |
| ApplyProperties.FailureEndsApply | src/core/Terminal.cpp:4541-4725 | in either mode a cancelled directory, an operation that raises, or (outside timestamp mode) one that returns false ends the apply and is the last event before the transaction ends; the apply completes exactly when no event failed |
| ApplyProperties.TimestampRaiseEndsApply | src/core/Terminal.cpp:4670-4683 | in timestamp mode an operation that raises is the last event before the transaction ends, and the apply does not complete |
| ApplyProperties.ApplyRunsStarts | src/core/Terminal.cpp:4570-4712 | the walk adds to the announcements already logged a prefix of the reference announcements of the remaining runs, and all of them when it completes |
| ApplyProperties.ProgressOncePerCheckedRun | src/core/Terminal.cpp:4663-4668 | a completed apply announces exactly one directory pair per maximal run with a checked item, in checklist order, with trailing delimiters added; an aborted apply announces a prefix of those |
| ApplyProperties.IssueBatchesPrefix | src/core/Terminal.cpp:4688-4710 | a failing batch only cuts the sequence of batches short |
| ApplyProperties.ApplyRunsPrefix | src/core/Terminal.cpp:4570-4712 | an aborted walk's log is a prefix of the log of the walk in which everything succeeds |
| ApplyProperties.ApplyRunsExtends | src/core/Terminal.cpp:4570-4712 | the walk only appends to the log |
| ApplyProperties.AbortIsPrefixOfFullApply | src/core/Terminal.cpp:4541-4725 | an aborted apply issues a prefix of what the successful apply would issue and still ends the transaction |
| ApplyProperties.TransactionBracketsApply | src/core/Terminal.cpp:4541-4725 | the log starts with the transaction's begin and ends with its end |
| ApplyProperties.TimestampRunsIgnoreFailures | src/core/Terminal.cpp:4670-4683 | in timestamp mode the results the operations return are not consulted: the walk is the same whatever they return |
| ApplyProperties.TimestampBatchesIgnoreResults | src/core/Terminal.cpp:4670-4683 | the timestamp batches of one run are the same whatever the operations return |
| ApplyProperties.TimestampBatchesComplete | src/core/Terminal.cpp:4670-4683 | the timestamp batches of a run complete exactly when none of them raises |
| ApplyProperties.NothingCheckedDoesNothing | src/core/Terminal.cpp:4570-4668 | with nothing checked no batch and no progress call is issued |
| Session.Terminal.constructor | src/core/Terminal.cpp:494-505 | a new session is closed, outside any transaction, with no pending read and an exception-on-fail level of 0, and reads directories automatically |
| Session.Terminal.GetExceptionOnFail | src/core/Terminal.cpp:1840-1843 | true exactly when the counter is positive |
| Session.Terminal.HandleException | src/core/Terminal.cpp:1950-1961 | an error is swallowed exactly when exception-on-fail is off |
| Session.Terminal.ReadCurrentDirectory | src/core/Terminal.cpp:2310-2350 | reading the current directory clears its pending flag and records the read |
| Session.Terminal.ReadDirectory | src/core/Terminal.cpp:2352-2423 | the listing is read and the read is recorded; the pending flag is left as it was, for the end of the transaction to clear |
| Session.Terminal.ReactOnCommand | src/core/Terminal.cpp:1296-1356 | the session's new state is the command's reaction: pending flags inside a transaction, immediate reads outside |
| Session.Terminal.BeginTransaction | src/core/Terminal.cpp:1774-1787 | the depth increases; the pending flags are reset only at the outermost level |
| Session.Terminal.EndTransaction | src/core/Terminal.cpp:1789-1819 | the depth decreases, with an error at depth 0; the outermost end on an active session flushes the pending reads |
| Session.Terminal.SetExceptionOnFail | src/core/Terminal.cpp:1821-1838 | the counter moves by one, with an error when it would go below zero |
| Session.Terminal.DoStartup | src/core/Terminal.cpp:2279-2308 | startup runs in a transaction that ends by reading the current directory and the listing |
| Session.Terminal.ReactOnCommands | src/core/Terminal.cpp:1296-1356 | reacting to a sequence of commands is reacting to each in turn |
| Session.Terminal.ProcessFiles | src/core/Terminal.cpp:2711-2812 | the loop over the files reaches exactly the state and outcome of the per-file definition |
| Session.Terminal.ProcessFile | src/core/Terminal.cpp:2741-2771 | one file: its commands are reacted to, a fatal error closes the session, a finish event is logged, and the skip exception is raised only when errors are to be raised |
| SessionProperties.AnyOfConcat | src/core/Terminal.cpp:1296-1356 | a concatenation of commands changes the directory (or modifies files) exactly when one part does |
| SessionProperties.InTransactionDefers | src/core/Terminal.cpp:1296-1356 | inside a transaction no read happens: the commands only set the pending flags |
| SessionProperties.DeferredConcat | src/core/Terminal.cpp:1296-1356 | deferring two command sequences is deferring their concatenation |
| SessionProperties.OutsideTransactionReadsAtOnce | src/core/Terminal.cpp:1296-1356 | outside a transaction a directory change reads the current directory and then the listing at once |
| SessionProperties.OutermostEndFlushes | src/core/Terminal.cpp:1789-1819 | the outermost end reads the current directory first (if pending), then the listing (if pending), and clears both flags |
| SessionProperties.NestedEndDefers | src/core/Terminal.cpp:1789-1819 | a nested end only decreases the depth |
| SessionProperties.ClosedSessionEndDoesNotRead | src/core/Terminal.cpp:1789-1819 | on a closed session nothing is read |
| SessionProperties.EndWithoutTransactionFails | src/core/Terminal.cpp:1789-1792 | an end at depth 0 is an error and changes nothing |
| SessionProperties.TransactionReadsOnce | src/core/Terminal.cpp:1769-1819 | a whole transaction performs each owed read exactly once, at its end |
| SessionProperties.StartupReadsLast | src/core/Terminal.cpp:2279-2308 | startup from an idle session reads the current directory, then (when directories are read automatically) the listing, once each |
| SessionProperties.ExceptionOnFailBalanced | src/core/Terminal.cpp:1821-1838 | raising and then lowering the counter restores the state |
| SessionProperties.FinishesConcat | src/core/Terminal.cpp:2711-2812 | the finish events of a concatenated log are those of its parts |
| SessionProperties.ReactOnlyReads | src/core/Terminal.cpp:1296-1356 | reacting to a command adds no finish event and leaves the counters alone |
| SessionProperties.ReactAllOnlyReads | src/core/Terminal.cpp:1296-1356 | the same for any sequence of commands |
| SessionProperties.ProcessedCount | src/core/Terminal.cpp:2737-2775 | the number of files handed over stops at the first file that cancels or raises, or is the whole list |
| SessionProperties.ProcessFromFinishes | src/core/Terminal.cpp:2737-2775 | every file handed over gets exactly one finish event, in list order |
| SessionProperties.ProcessFromFlags | src/core/Terminal.cpp:2739-2771 | the loop keeps the counters; it ends raised exactly when the last file handed over raised, and cancelled exactly when that file asked to cancel |
| SessionProperties.ProcessFromInTransaction | src/core/Terminal.cpp:2737-2775 | inside a transaction the files' commands only set the pending flags |
| SessionProperties.EndOnlyReads | src/core/Terminal.cpp:1789-1819 | ending a transaction adds no finish event |
| SessionProperties.ProcessFilesFinishes | src/core/Terminal.cpp:2711-2812 | one finish per file handed over, and the transaction depth is restored |
| SessionProperties.ProcessFilesResultMeaning | src/core/Terminal.cpp:2711-2812 | the batch raises exactly when the last file handed over raised, and returns true exactly when no file cancelled or raised |
| SessionProperties.ProcessFilesOutcome | src/core/Terminal.cpp:2711-2812 | the two results above together |
| SessionProperties.SkipsAreSwallowed | src/core/Terminal.cpp:2740-2789 | with exception-on-fail off, skips never end the batch, and without cancellation every file is finished |
| SessionProperties.RemoteBatchReadsOnceAtEnd | src/core/Terminal.cpp:2711-2812 | a remote batch is bracketed by one transaction, so the reads happen once, after the last file and before the progress stops |
| SessionProperties.ThreeFilesCount | src/core/Terminal.cpp:2737-2775 | a worked example: a skipped second file stops the batch only when exceptions are raised |
| SessionProperties.ThreeFilesTrace | src/core/Terminal.cpp:2737-2775 | the finish events and commands of that example |
| SessionProperties.SkippedUploadExample | src/core/Terminal.cpp:2711-2812 | the example's whole outcome with exception-on-fail off |
| SessionProperties.SkippedUploadRaisesExample | src/core/Terminal.cpp:2711-2812 | the example's whole outcome with exception-on-fail on |
| Policies.LoopQueryAnswers | src/core/Terminal.cpp:1463-1465 | the error prompt always offers Retry and Abort, offers Skip and Skip all exactly when skipping is allowed, and offers Yes when there is a special retry |
| Policies.LoopQuery | src/core/Terminal.cpp:1457-1521 | no question once Skip all is in force; Skip all sets the sticky flag; Abort cancels; Retry retries; any other answer raises as a skip when skipping is allowed, as an error otherwise |
| Policies.FileOperationLoopQuery | src/core/Terminal.cpp:1449-1524 | the progress object's sticky flag and cancel state are updated as the decision says |
| Policies.LoopQueries | src/core/Terminal.cpp:1457-1521 | one decision per error of a batch |
| Policies.SkipToAllAnswersAll | src/core/Terminal.cpp:1457-1521 | once Skip all is set, every later error is skipped without a question |
| Policies.SkipAllIsSticky | src/core/Terminal.cpp:1457-1521 | a Skip all reply to one error skips all later errors of the batch |
| Policies.CommandError | src/core/Terminal.cpp:1890-1948 | fatal and abort errors propagate; with exception-on-fail the error propagates; with no answers the error is reported without a question; otherwise the user is asked, Skip all becoming Skip and setting the sticky flag |
| Policies.CommandErrorAnswers | src/core/Terminal.cpp:1921-1937 | the offered answers gain Skip all exactly when Skip is offered within an operation |
| Policies.CommandErrorSkipToAllIsSticky | src/core/Terminal.cpp:1921-1944 | after Skip all, a later command error is skipped without a question |
| Policies.EffectiveBatchOverwrite | src/core/Terminal.cpp:1972-2005 | Resume (special only), then Append, then Newer only (Older), then no confirmation (All), otherwise the current policy, with the detail-dependent policies dropped to No when not special |
| Policies.PlainPolicyNeedsNoDetails | src/core/Terminal.cpp:1972-2005 | without details the policy is never one that needs them |
| Policies.SpecialDiffersOnlyOnDetails | src/core/Terminal.cpp:1972-2005 | the detailed and plain policies differ only where the plain one gives up a detail-dependent policy |
| Policies.CheckRemoteFile | src/core/Terminal.cpp:2007-2010 | the remote file is examined exactly when the effective policy is not All, in particular with resume, append or newer only |
| Policies.OlderAnswer | src/core/Terminal.cpp:2095-2128 | "newer only" answers Yes exactly when the source is newer by two seconds or more after both times are reduced to the precision of the two declared earlier in `TModificationFmt` |
| Policies.ConfirmFileOverwrite | src/core/Terminal.cpp:2012-2132 | the progress object's policy and the confirmation setting are updated as the decision says |
| Policies.AskedOnlyWithoutPolicy | src/core/Terminal.cpp:2012-2132 | the user is asked exactly when no policy applies to this file |
| Policies.OlderNeverOverwritesNewer | src/core/Terminal.cpp:2095-2128 | "newer only" never overwrites a destination that is as new as the source |
| Policies.NoConfirmationOverwrites | src/core/Terminal.cpp:1972-2132 | with confirmations off and no other flag, every file is overwritten without a question |
| Policies.NewerOnlyWithoutDetails | src/core/Terminal.cpp:1972-2132 | newer only without details stays Older and answers No without a question |
| Policies.ToAllRepliesAreSticky | src/core/Terminal.cpp:2047-2128 | "Yes to all" and "No to all" give the next file the same answer without a question |
| Policies.NeverAskAgainTurnsConfirmationsOff | src/core/Terminal.cpp:2047-2128 | "never ask again" overwrites and turns confirmations off for the rest of the batch |
| Connection.DoQueryReopen | src/core/Terminal.cpp:1368-1408 | the user is asked only about a new error with retries left; the answer is retry exactly when the user retries; asking uses up a retry; the error is marked as asked about afterwards |
| Connection.SecondQueryIsSilent | src/core/Terminal.cpp:1372-1405 | asking again about the same error neither asks nor reconnects, and uses up no retry |
| Connection.QueryReopen | src/core/Terminal.cpp:1410-1447 | the reconnect loop reaches exactly the outcome of its recursive definition |
| Connection.ReopenLoopBounded | src/core/Terminal.cpp:1410-1447 | the loop asks no more than the remaining retries, never counts past the maximum, and a success resets the count |
| Connection.QueryReopenBounded | src/core/Terminal.cpp:1368-1447 | the same bound for the whole reconnect |
| Connection.NoReopenWithoutQuestion | src/core/Terminal.cpp:1368-1447 | an error already asked about, or one with no retries left, does not reconnect and asks nothing |
| Connection.SelectTunnelPort | src/core/Terminal.cpp:939-959 | the configured port if any, else the first free port from the low end of the range; if none in range is free, port 0 and failure |
| Connection.GuardSlot.constructor | src/core/Terminal.cpp:543 | the session starts with no callback guard |
| Connection.CallbackGuard.constructor | src/core/Terminal.cpp:424-433 | a guard registers, and guards, exactly when no other guard is in force |
| Connection.CallbackGuard.FatalError | src/core/Terminal.cpp:446-464 | a fatal error other than the guard's own abort is remembered, replacing an earlier one; the call always ends by raising the silent abort, which is left to the caller |
| Connection.CallbackGuard.Dismiss | src/core/Terminal.cpp:466-470 | a dismissed guard stops guarding |
| Connection.CallbackGuard.Verify | src/core/Terminal.cpp:472-486 | a guarding guard unregisters and raises the remembered error |
| Connection.CallbackGuard.Release | src/core/Terminal.cpp:435-444 | the destructor unregisters a guarding guard |
| Paths.LastDelimiter | src/core/Terminal.cpp:649-667 | the last delimiter's index, with no delimiter after it |
| Paths.IncludeTrailingBackslash | Common/SynchronizeController.cpp:114-123 | the result ends in '\\', extends the input by at most one character, and is the input when it already ends so |
| Paths.ExcludeTrailingBackslash | Common/SynchronizeController.cpp:125-126 | one trailing '\\' is removed, and only that |
| Paths.ExtractFilePath | Common/SynchronizeController.cpp:226-240 | a prefix of the path ending in a delimiter, or empty |
| Paths.ExtractFileName | Common/SynchronizeController.cpp:226-240 | the name contains no delimiter |
| Paths.SplitLocalPath | Common/SynchronizeController.cpp:226-240 | the path is its directory part followed by its name |
| Paths.ToUnixPath | Common/SynchronizeController.cpp:114-123 | every '\\' becomes '/', nothing else changes |
| Paths.UnixIncludeTrailingBackslash | src/core/Terminal.cpp:649-667 | the result ends in '/', extends the input by at most one character, and is the input when it already ends so |
| Paths.UnixExcludeTrailingBackslash | src/core/Terminal.cpp:649-667 | one trailing '/' is removed, except from the root "/" |
| Paths.UnixExtractFilePath | src/core/Terminal.cpp:649-667 | a prefix of the path ending in '/', non-empty when the path has a '/' |
| Paths.ExpandAbsolute | src/core/Terminal.cpp:644-667 | an absolute path is only normalised, whatever the base |
| Paths.ExpandUnderAbsoluteBase | src/core/Terminal.cpp:644-667 | under an absolute base every path expands to an absolute path |
| Paths.ExpandParentIsPrefixOfBase | src/core/Terminal.cpp:649-667 | ".." expands to a prefix of the base directory |
| Paths.ExpandRelativeAppends | src/core/Terminal.cpp:649-667 | any other relative name is appended below the base directory |
| Paths.TranslateWithoutLockIsIdentity | src/core/Terminal.cpp:1541-1559 | without the home lock paths are not translated |
| Paths.UnlockStaysInHome | src/core/Terminal.cpp:1541-1559 | a shown absolute path translates to a real path below the home directory |
| Paths.LockAfterUnlock | src/core/Terminal.cpp:1541-1559 | showing a translated path gives back the shown path, up to its trailing '/' |
| Paths.UnlockAfterLock | src/core/Terminal.cpp:1541-1559 | a real path below the home survives translation out and back, up to its trailing '/' |
| Controller.LogEntryFor | Common/SynchronizeController.cpp:193-215 | a delete logs as a deletion; every other operation, upload included, logs as an upload |
| Controller.RemoteDirectoryFor | Common/SynchronizeController.cpp:114-123 | the remote counterpart starts with the remote root and its '/', contains no '\\' after it, and ends in '/' when the local path ends in '\\' |
| Controller.ChangeCall | Common/SynchronizeController.cpp:114-136 | the synchronize call is partial, for the changed directory with its '\\'; it carries options only for the root, and the root gets the controller's options and the remote root |
| Controller.ScanSubdirsChanged | Common/SynchronizeController.cpp:141-168 | true exactly when some directory item of the checklist is a new upload or a remote deletion |
| Controller.SynchronizeController.constructor | Common/SynchronizeController.cpp:17-28 | no options, no monitor, nothing logged, and the handlers as given |
| Controller.SynchronizeController.StartStop | Common/SynchronizeController.cpp:35-105 | starting installs the options and log sink, runs the initial full synchronisation, and opens the monitor, raising (with no monitor) when a step fails; stopping forgets the options and destroys the monitor |
| Controller.SynchronizeController.Start | Common/SynchronizeController.cpp:41-99 | the start branch reaches exactly the state and the raised flag of the start definition |
| Controller.SynchronizeController.OpenMonitor | Common/SynchronizeController.cpp:63-92 | with the parameters stored, a recursive watch logs its scan, then the monitor opens and the start is logged, or the monitor fails and is absent |
| Controller.SynchronizeController.Stop | Common/SynchronizeController.cpp:100-104 | stopping forgets the options and destroys the monitor |
| Controller.SynchronizeController.SynchronizeChange | Common/SynchronizeController.cpp:107-181 | a change is logged, synchronised against its remote counterpart, and decides the subdirectories flag; an error in the callback aborts |
| Controller.SynchronizeController.SynchronizeAbort | Common/SynchronizeController.cpp:183-191 | the monitor, if any, is closed before the abort callback is called |
| Controller.SynchronizeController.LogOperation | Common/SynchronizeController.cpp:193-215 | the operation is logged under its entry with the file name |
| Controller.SynchronizeController.SynchronizeLog | Common/SynchronizeController.cpp:217-224 | a message is logged exactly when a log sink is installed |
| Controller.SynchronizeController.SynchronizeDirectoriesChange | Common/SynchronizeController.cpp:262-266 | the number of watched directories is logged |
| Controller.SynchronizeController.SynchronizeInvalid | Common/SynchronizeController.cpp:242-251 | the invalid handler, if any, is told, then the synchronisation aborts without closing |
| Controller.SynchronizeController.SynchronizeFilter | Common/SynchronizeController.cpp:226-240 | watching a directory needs the transfer mask; a direct child of the root is watched when the filter lists its name, any other directory as the monitor proposed |
| ControllerProperties.ToUnixPathConcat | Common/SynchronizeController.cpp:114-123 | converting to Unix form distributes over concatenation |
| ControllerProperties.MapsRelativePath | Common/SynchronizeController.cpp:114-123 | a directory below the local root maps to the remote root followed by its relative path in Unix form; the root maps to the remote root |
| ControllerProperties.SubdirectoryMapsBelow | Common/SynchronizeController.cpp:114-123 | extending the local path extends the remote path by the same extension in Unix form |
| ControllerProperties.AbortClosesMonitorFirst | Common/SynchronizeController.cpp:183-191 | aborting closes the monitor, if present, before the abort callback, and changes nothing else |
| ControllerProperties.InvalidAbortsWithoutClosing | Common/SynchronizeController.cpp:242-251 | an invalid monitor is reported, if a handler is set, then aborted with Close = false, leaving no open monitor |
| ControllerProperties.ChangeErrorAborts | Common/SynchronizeController.cpp:177-180 | an error in the synchronize callback aborts with Close = "the error is fatal", after the log and the call, and leaves the subdirectories flag |
| ControllerProperties.ChangeKeepsSettings | Common/SynchronizeController.cpp:107-181 | handling a change only appends events and possibly closes the monitor |
| ControllerProperties.ChangeDecidesSubdirs | Common/SynchronizeController.cpp:137-168 | with recursion the flag says whether a directory is new or gone; without it the flag is false; without a checklist it is left alone |
| ControllerProperties.StartOutcome | Common/SynchronizeController.cpp:41-99 | starting raises exactly when a step fails; a failure leaves no monitor, success an open one; options and log sink are installed either way; the parameters only after the initial synchronisation |
| ControllerProperties.StartLogsWatchedDirectories | Common/SynchronizeController.cpp:88-92 | a successful start ends by logging the number of watched directories |
| ControllerProperties.StopForgets | Common/SynchronizeController.cpp:100-104 | stopping clears the options and destroys the monitor, and nothing else |
| ControllerProperties.StartedRootChangeGetsOptions | Common/SynchronizeController.cpp:132-133 | after a successful start the root directory's change is synchronised with the start options against the remote root |
| ControllerProperties.LastDelimiterPastName | Common/SynchronizeController.cpp:226-240 | the last delimiter of a path followed by a plain name is the one before the name |
| ControllerProperties.SplitAfterDelimiter | Common/SynchronizeController.cpp:226-240 | a directory ending in '\\' followed by a plain name splits back into the two |
| ControllerProperties.FirstLevelDirectoryIsFiltered | Common/SynchronizeController.cpp:226-240 | with a filter, a direct child of the root is watched exactly when the filter lists its name and the mask allows it |
| ControllerProperties.DeeperDirectoryIgnoresFilter | Common/SynchronizeController.cpp:226-240 | below the first level the monitor's proposal stands, subject only to the mask |

## Left out

- Opening and reopening the connection (`Open`, `Reopen`), the tunnel thread and its UI, and the forwarding operations (`CopyToRemote`, `CopyToLocal`, ...): they are plumbing to the back end. `QueryReopen` takes the attempt results as an input.
- The reconnect timeout (`Now()` against TDateTime doubles): it is an input, `withinTimeout`.
- Socket probing in `IsListenerFree`: it is an input predicate.
- Local Win32 file I/O and the FindFirst/FindNext traversal: local listings are input trees.
- Locale collation of `AnsiCompareText`: the model compares ordinally after upper-casing ASCII letters.
- The VCL list sort: it is not part of this model. The model sorts by stable insertion, and only the order and the permutation are stated.
- The sorted order of the `TStringList` holding the local listing: the model keeps listing order, with the first of case-insensitive duplicates winning. The checklist is sorted at the end anyway.
- Date formatting and precision: timestamps are integer seconds, and `ReduceDateTimePrecision` truncates to the minute or the day.
- Directory-cache internals: whether a cached listing exists is an input of collection.
- Listing errors during collection, which take the file-operation loop: a listing is always available in the model.
- Logging and the action log of both files: their only role is side output. The controller's log is an event list, and a formatted message is modelled by its argument.
- Password encryption.
- `CloseOnCompletion`.
- Session forwarding to the secondary command session in `BeginTransaction`, `EndTransaction` and `SetExceptionOnFail`.
- `ReactOnCommand(fsCurrentDirectory)` from `ReadCurrentDirectory`: it changes nothing and is not modelled.
- Session.Terminal.ReadCurrentDirectory: the read always succeeds in the model. In the code a failing read goes to `CommandError` (`src/core/Terminal.cpp:2346-2349`).
- Session.Terminal.ReadDirectory: the listing read always succeeds in the model; a failing read is not modelled.
- Session.Terminal.EndTransaction: the flushed reads always succeed in the model. In the code the `finally` block clears both pending flags even when a flushed read raises (`src/core/Terminal.cpp:1801-1810`); that path is not modelled.
- Checklist.LessDateTimePrecision: states which of the two precisions is chosen (the one declared earlier), not that it is the coarser one, because the code does not choose the coarser one.
- Identity of the operation-progress object: whether one is in force is a boolean argument of `CommandError`.
- `TDiscMonitor` setup in `StartStop` (watcher threads, filters, change delay): the number of watched directories is an input. The monitor is open, closed or absent.
- `SynchronizeTooManyDirectories` (Common/SynchronizeController.cpp:253-260): it only forwards to a callback.
- Exceptions raised by the log sinks of the controller: only errors of the synchronize callback are modelled.
- The controller's abort handler is assumed to be installed, as the source asserts.
- Controller.SynchronizeController.StartStop: when the start fails, the options and the log sink stay installed, as in the code. The contract states this but does not say what the caller must do next.
- Connection.QueryReopen: the reconnect loop passes the attempt number to its inputs instead of running the real reconnect, so it does not capture what a reopen does to the session.
