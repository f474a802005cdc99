// Applying a checklist (TTerminal::SynchronizeApply).
//
// The checklist is walked in maximal runs of items that share both the
// local and the remote directory.  Within a run the checked items are
// sorted into four lists; then, if the run has any checked item, the
// per-directory progress callback runs and the lists are handed to the
// transfer and delete operations in a fixed order.  An operation that
// raises, one that returns false outside timestamp mode, or a declined
// progress callback ends the rest; the whole walk is one session
// transaction, ended even then.
//
// The progress callback and the four batch operations are parameters: the
// model records that they were called, and with what.

module Apply {
  import opened Paths
  import opened Checklist

  datatype BatchKind =
    | CopyToLocal
    | DeleteRemoteFiles
    | CopyToRemote
    | DeleteLocalFiles
    | SetLocalTimestamps
    | SetRemoteTimestamps

  /** The copy flags handed to CopyToLocal / CopyToRemote. */
  datatype TransferOptions = TransferOptions(noConfirmation: bool, preserveTime: bool)

  datatype BatchCall = BatchCall(kind: BatchKind, files: seq<string>, target: string, options: TransferOptions)

  datatype ApplyEvent =
    | TransactionBegun
    | DirectoryStarted(localDirectory: string, remoteDirectory: string)
    | Batch(call: BatchCall)
    | TransactionEnded

  datatype ApplyOutcome = ApplyOutcome(log: seq<ApplyEvent>, completed: bool)

  /** The sp* flags SynchronizeApply reads, and the user's PreserveTime. */
  datatype ApplyParams = ApplyParams(timestamp: bool, notByTime: bool, noConfirmation: bool, preserveTime: bool)

  /** What the session does when asked: whether the progress callback lets
      a directory go on, whether an operation returns true, and whether it
      raises (an abort the user chose, a fatal error) instead of returning. */
  datatype Environment = Environment(
    continueDirectory: (string, string) -> bool,
    batchSucceeds: BatchCall -> bool,
    batchRaises: BatchCall -> bool)

  /** An operation ends the walk when it raises, or, outside timestamp
      mode, when it returns false (SynchronizeApply then aborts); the
      timestamp operations' results are not consulted. */
  predicate BatchStops(c: BatchCall, timestamp: bool, env: Environment)
  {
    env.batchRaises(c) || (!timestamp && !env.batchSucceeds(c))
  }

  /** Synchronising by time always preserves the timestamp of a copy. */
  function SyncTransferOptions(p: ApplyParams): (o: TransferOptions)
    ensures o.noConfirmation == p.noConfirmation
    ensures !p.notByTime ==> o.preserveTime
    ensures p.notByTime ==> o.preserveTime == p.preserveTime
  {
    TransferOptions(p.noConfirmation, p.preserveTime || !p.notByTime)
  }

  function RemotePath(it: Item): string
  {
    UnixIncludeTrailingBackslash(it.remote.directory) + it.remote.fileName
  }

  function LocalPath(it: Item): string
  {
    IncludeTrailingBackslash(it.local.directory) + it.local.fileName
  }

  /** The four lists of one run, and the number of checked items in it. */
  datatype Lists = Lists(download: seq<string>, deleteRemote: seq<string>,
                         upload: seq<string>, deleteLocal: seq<string>, count: nat)

  const EmptyLists := Lists([], [], [], [], 0)

  predicate IsDownload(a: Action) { a == DownloadNew || a == DownloadUpdate }
  predicate IsUpload(a: Action) { a == UploadNew || a == UploadUpdate }

  function AddToLists(l: Lists, it: Item, timestamp: bool): Lists
  {
    if !it.checked then l
    else
      var c := l.(count := l.count + 1);
      if timestamp then
        if it.action == DownloadUpdate then c.(download := c.download + [RemotePath(it)])
        else if it.action == UploadUpdate then c.(upload := c.upload + [LocalPath(it)])
        else c
      else if IsDownload(it.action) then c.(download := c.download + [RemotePath(it)])
      else if it.action == DeleteRemote then c.(deleteRemote := c.deleteRemote + [RemotePath(it)])
      else if IsUpload(it.action) then c.(upload := c.upload + [LocalPath(it)])
      else if it.action == DeleteLocal then c.(deleteLocal := c.deleteLocal + [LocalPath(it)])
      else c
  }

  function ListsOf(s: seq<Item>, timestamp: bool): Lists
  {
    if s == [] then EmptyLists
    else AddToLists(ListsOf(s[..|s| - 1], timestamp), s[|s| - 1], timestamp)
  }

  predicate SameDirectories(a: Item, b: Item)
  {
    a.local.directory == b.local.directory && a.remote.directory == b.remote.directory
  }

  /** The end of the run that starts at `i`, scanning from `j`. */
  function RunEnd(items: seq<Item>, i: nat, j: nat): (e: nat)
    requires i < j <= |items|
    ensures j <= e <= |items|
    ensures forall k :: j <= k < e ==> SameDirectories(items[k], items[i])
    ensures e < |items| ==> !SameDirectories(items[e], items[i])
    decreases |items| - j
  {
    if j == |items| || !SameDirectories(items[j], items[i]) then j
    else RunEnd(items, i, j + 1)
  }

  /** The operations a run hands its lists to, in the order they run. */
  function Batches(l: Lists, p: ApplyParams, localDirectory: string, remoteDirectory: string): seq<BatchCall>
  {
    var o := SyncTransferOptions(p);
    if p.timestamp then
      (if |l.download| > 0 then [BatchCall(SetLocalTimestamps, l.download, "", o)] else [])
      + (if |l.upload| > 0 then [BatchCall(SetRemoteTimestamps, l.upload, "", o)] else [])
    else
      (if |l.download| > 0 then [BatchCall(CopyToLocal, l.download, localDirectory, o)] else [])
      + (if |l.deleteRemote| > 0 then [BatchCall(DeleteRemoteFiles, l.deleteRemote, "", o)] else [])
      + (if |l.upload| > 0 then [BatchCall(CopyToRemote, l.upload, remoteDirectory, o)] else [])
      + (if |l.deleteLocal| > 0 then [BatchCall(DeleteLocalFiles, l.deleteLocal, "", o)] else [])
  }

  /** Run the batches in order; an operation that stops the walk is the
      last one run. */
  function IssueBatches(calls: seq<BatchCall>, timestamp: bool, env: Environment): ApplyOutcome
  {
    if calls == [] then ApplyOutcome([], true)
    else if BatchStops(calls[0], timestamp, env) then ApplyOutcome([Batch(calls[0])], false)
    else
      var r := IssueBatches(calls[1..], timestamp, env);
      ApplyOutcome([Batch(calls[0])] + r.log, r.completed)
  }

  function ApplyRuns(items: seq<Item>, i: nat, p: ApplyParams, env: Environment, log: seq<ApplyEvent>): ApplyOutcome
    decreases |items| - i
  {
    if i >= |items| then ApplyOutcome(log, true)
    else
      var e := RunEnd(items, i, i + 1);
      var l := ListsOf(items[i..e], p.timestamp);
      if l.count == 0 then ApplyRuns(items, e, p, env, log)
      else
        var ld := IncludeTrailingBackslash(items[i].local.directory);
        var rd := UnixIncludeTrailingBackslash(items[i].remote.directory);
        var log1 := log + [DirectoryStarted(ld, rd)];
        if !env.continueDirectory(ld, rd) then ApplyOutcome(log1, false)
        else
          var r := IssueBatches(Batches(l, p, ld, rd), p.timestamp, env);
          if !r.completed then ApplyOutcome(log1 + r.log, false)
          else ApplyRuns(items, e, p, env, log1 + r.log)
  }

  function SynchronizeApplySpec(items: seq<Item>, p: ApplyParams, env: Environment): ApplyOutcome
  {
    var r := ApplyRuns(items, 0, p, env, [TransactionBegun]);
    ApplyOutcome(r.log + [TransactionEnded], r.completed)
  }

  // ----- the imperative walk ----------------------------------------------

  /** Issue the calls in order, stopping at the first one that raises, and
      outside timestamp mode at the first one that returns false. */
  method IssueCalls(calls: seq<BatchCall>, timestamp: bool, env: Environment)
    returns (events: seq<ApplyEvent>, completed: bool)
    ensures ApplyOutcome(events, completed) == IssueBatches(calls, timestamp, env)
  {
    ghost var target := IssueBatches(calls, timestamp, env);
    events := [];
    var k := 0;
    completed := true;
    while k < |calls|
      invariant 0 <= k <= |calls|
      invariant target.log == events + IssueBatches(calls[k..], timestamp, env).log
      invariant target.completed == IssueBatches(calls[k..], timestamp, env).completed
    {
      IssueBatchesStep(calls, k, timestamp, env, events);
      var stops := BatchStops(calls[k], timestamp, env);
      events := events + [Batch(calls[k])];
      if stops {
        // the exception, or the Abort that follows a false result, leaves the loop
        completed := false;
        return;
      }
      k := k + 1;
    }
    assert calls[k..] == [];
  }

  /** One call of IssueCalls, seen from the log built so far. */
  lemma IssueBatchesStep(calls: seq<BatchCall>, k: nat, timestamp: bool, env: Environment, events: seq<ApplyEvent>)
    requires k < |calls|
    ensures var here := IssueBatches(calls[k..], timestamp, env);
            var next := IssueBatches(calls[k + 1..], timestamp, env);
            var events' := events + [Batch(calls[k])];
            if BatchStops(calls[k], timestamp, env) then events + here.log == events' && !here.completed
            else events + here.log == events' + next.log && here.completed == next.completed
  {
    assert calls[k..][0] == calls[k];
    assert calls[k..][1..] == calls[k + 1..];
    var next := IssueBatches(calls[k + 1..], timestamp, env);
    assert events + ([Batch(calls[k])] + next.log) == (events + [Batch(calls[k])]) + next.log;
  }

  method IssueRunBatches(l: Lists, p: ApplyParams, env: Environment, localDirectory: string, remoteDirectory: string)
    returns (events: seq<ApplyEvent>, completed: bool)
    ensures ApplyOutcome(events, completed) == IssueBatches(Batches(l, p, localDirectory, remoteDirectory), p.timestamp, env)
  {
    events, completed := IssueCalls(Batches(l, p, localDirectory, remoteDirectory), p.timestamp, env);
  }

  /** One run: the items from `start` on that share its directories, and
      their lists. */
  method CollectRun(items: seq<Item>, start: nat, timestamp: bool) returns (end: nat, lists: Lists)
    requires start < |items|
    ensures start < end <= |items| && end == RunEnd(items, start, start + 1)
    ensures lists == ListsOf(items[start..end], timestamp)
  {
    var first := items[start];
    end := start;
    lists := EmptyLists;
    while end < |items| && SameDirectories(items[end], first)
      invariant start <= end <= |items|
      invariant forall k :: start <= k < end ==> SameDirectories(items[k], first)
      invariant lists == ListsOf(items[start..end], timestamp)
    {
      assert items[start..end + 1][..end - start] == items[start..end];
      lists := AddToLists(lists, items[end], timestamp);
      end := end + 1;
    }
    RunEndIsFirstChange(items, start, start + 1, end);
  }

  method SynchronizeApply(checklist: SynchronizeChecklist, p: ApplyParams, env: Environment)
    returns (log: seq<ApplyEvent>, completed: bool)
    ensures ApplyOutcome(log, completed) == SynchronizeApplySpec(checklist.items, p, env)
  {
    var items := checklist.items;
    ghost var target := ApplyRuns(items, 0, p, env, [TransactionBegun]);
    log := [TransactionBegun];
    completed := true;
    var index := 0;
    while index < |items|
      invariant 0 <= index <= |items|
      invariant target == ApplyRuns(items, index, p, env, log)
    {
      var start := index;
      var lists;
      index, lists := CollectRun(items, start, p.timestamp);
      ghost var log0 := log;
      ApplyRunsUnfold(items, start, p, env, log0);
      if lists.count > 0 {
        var ld := IncludeTrailingBackslash(items[start].local.directory);
        var rd := UnixIncludeTrailingBackslash(items[start].remote.directory);
        log := log + [DirectoryStarted(ld, rd)];
        if !env.continueDirectory(ld, rd) {
          completed := false;
          break;
        }
        var events, ok := IssueRunBatches(lists, p, env, ld, rd);
        log := log + events;
        if !ok {
          completed := false;
          break;
        }
      }
    }
    assert target == ApplyOutcome(log, completed);
    log := log + [TransactionEnded];
  }

  /** ApplyRuns at a run's start, written in terms of that run. */
  lemma ApplyRunsUnfold(items: seq<Item>, i: nat, p: ApplyParams, env: Environment, log: seq<ApplyEvent>)
    requires i < |items|
    ensures var e := RunEnd(items, i, i + 1);
            var l := ListsOf(items[i..e], p.timestamp);
            var ld := IncludeTrailingBackslash(items[i].local.directory);
            var rd := UnixIncludeTrailingBackslash(items[i].remote.directory);
            var log1 := log + [DirectoryStarted(ld, rd)];
            var r := IssueBatches(Batches(l, p, ld, rd), p.timestamp, env);
            ApplyRuns(items, i, p, env, log)
            == if l.count == 0 then ApplyRuns(items, e, p, env, log)
               else if !env.continueDirectory(ld, rd) then ApplyOutcome(log1, false)
               else if !r.completed then ApplyOutcome(log1 + r.log, false)
               else ApplyRuns(items, e, p, env, log1 + r.log)
  {
  }

  lemma {:induction false} RunEndIsFirstChange(items: seq<Item>, i: nat, j: nat, e: nat)
    requires i < j <= e <= |items|
    requires forall k :: j <= k < e ==> SameDirectories(items[k], items[i])
    requires e == |items| || !SameDirectories(items[e], items[i])
    ensures RunEnd(items, i, j) == e
    decreases e - j
  {
    if j < e {
      RunEndIsFirstChange(items, i, j + 1, e);
    }
  }
}
