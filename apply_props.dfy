// Properties of applying a checklist.

module ApplyProperties {
  import opened Paths
  import opened Checklist
  import opened Apply

  // ----- what goes into a run's lists ---------------------------------------

  /** The paths of the items `want` selects, in checklist order. */
  function Pick(s: seq<Item>, want: Item -> bool, path: Item -> string): seq<string>
  {
    if s == [] then []
    else Pick(s[..|s| - 1], want, path) + (if want(s[|s| - 1]) then [path(s[|s| - 1])] else [])
  }

  lemma {:induction false} PickMembers(s: seq<Item>, want: Item -> bool, path: Item -> string, x: string)
    ensures x in Pick(s, want, path) <==> exists k :: 0 <= k < |s| && want(s[k]) && path(s[k]) == x
    decreases |s|
  {
    if s != [] {
      var init := s[..|s| - 1];
      PickMembers(init, want, path, x);
      assert forall k :: 0 <= k < |init| ==> init[k] == s[k];
    }
  }

  function CheckedCount(s: seq<Item>): nat
  {
    if s == [] then 0 else CheckedCount(s[..|s| - 1]) + (if s[|s| - 1].checked then 1 else 0)
  }

  predicate ForDownload(it: Item) { it.checked && IsDownload(it.action) }
  predicate ForDeleteRemote(it: Item) { it.checked && it.action == DeleteRemote }
  predicate ForUpload(it: Item) { it.checked && IsUpload(it.action) }
  predicate ForDeleteLocal(it: Item) { it.checked && it.action == DeleteLocal }
  predicate ForLocalTimestamp(it: Item) { it.checked && it.action == DownloadUpdate }
  predicate ForRemoteTimestamp(it: Item) { it.checked && it.action == UploadUpdate }

  /** Outside timestamp mode each list holds the paths of exactly the
      checked items of its actions, in checklist order, and the count is
      the number of checked items. */
  lemma {:induction false} ListsArePicks(s: seq<Item>)
    ensures ListsOf(s, false)
         == Lists(Pick(s, ForDownload, RemotePath), Pick(s, ForDeleteRemote, RemotePath),
                  Pick(s, ForUpload, LocalPath), Pick(s, ForDeleteLocal, LocalPath), CheckedCount(s))
    decreases |s|
  {
    if s != [] {
      ListsArePicks(s[..|s| - 1]);
    }
  }

  /** In timestamp mode only checked updates are stamped, in checklist
      order, and nothing is deleted. */
  lemma {:induction false} TimestampListsArePicks(s: seq<Item>)
    ensures ListsOf(s, true)
         == Lists(Pick(s, ForLocalTimestamp, RemotePath), [], Pick(s, ForRemoteTimestamp, LocalPath), [], CheckedCount(s))
    decreases |s|
  {
    if s != [] {
      TimestampListsArePicks(s[..|s| - 1]);
    }
  }

  /** Membership in the download list, as a consequence. */
  lemma DownloadListMembers(s: seq<Item>, x: string)
    ensures x in ListsOf(s, false).download
            <==> exists k :: 0 <= k < |s| && s[k].checked && IsDownload(s[k].action) && RemotePath(s[k]) == x
  {
    ListsArePicks(s);
    PickMembers(s, ForDownload, RemotePath, x);
  }

  lemma {:induction false} NoneCheckedCountsZero(s: seq<Item>)
    requires forall k :: 0 <= k < |s| ==> !s[k].checked
    ensures CheckedCount(s) == 0
    decreases |s|
  {
    if s != [] {
      NoneCheckedCountsZero(s[..|s| - 1]);
    }
  }

  // ----- the order of the operations ---------------------------------------

  function KindRank(k: BatchKind): int
  {
    match k
    case CopyToLocal => 0
    case DeleteRemoteFiles => 1
    case CopyToRemote => 2
    case DeleteLocalFiles => 3
    case SetLocalTimestamps => 4
    case SetRemoteTimestamps => 5
  }

  predicate Ascending(b: seq<BatchCall>)
  {
    forall i, j :: 0 <= i < j < |b| ==> KindRank(b[i].kind) < KindRank(b[j].kind)
  }

  predicate RanksBelow(b: seq<BatchCall>, n: int)
  {
    forall i :: 0 <= i < |b| ==> KindRank(b[i].kind) < n
  }

  /** The list of a run an operation of the given kind works on. */
  function KindFiles(k: BatchKind, l: Lists): seq<string>
  {
    match k
    case CopyToLocal => l.download
    case DeleteRemoteFiles => l.deleteRemote
    case CopyToRemote => l.upload
    case DeleteLocalFiles => l.deleteLocal
    case SetLocalTimestamps => l.download
    case SetRemoteTimestamps => l.upload
  }

  /** Whether a run issues an operation of the given kind: the timestamp
      kinds in timestamp synchronisation and the four transfer kinds
      otherwise, each when its list is not empty. */
  predicate Issued(k: BatchKind, l: Lists, p: ApplyParams)
  {
    KindFiles(k, l) != [] && (p.timestamp <==> KindRank(k) >= 4)
  }

  predicate Has(b: seq<BatchCall>, k: BatchKind)
  {
    exists i :: 0 <= i < |b| && b[i].kind == k
  }

  /** What BatchOrder says of each single operation of a run. */
  predicate CallFits(c: BatchCall, l: Lists, p: ApplyParams, ld: string, rd: string)
  {
    c.files != []
    && c.files == KindFiles(c.kind, l)
    && (c.kind == CopyToLocal ==> c.target == ld)
    && (c.kind == CopyToRemote ==> c.target == rd)
    && (p.timestamp <==> KindRank(c.kind) >= 4)
  }

  predicate AllFit(b: seq<BatchCall>, l: Lists, p: ApplyParams, ld: string, rd: string)
  {
    forall i :: 0 <= i < |b| ==> CallFits(b[i], l, p, ld, rd)
  }

  /** Appending an operation of a higher rank, or nothing, keeps the
      operations ascending. */
  lemma AppendRanked(b: seq<BatchCall>, present: bool, c: BatchCall, l: Lists, p: ApplyParams, ld: string, rd: string)
    requires Ascending(b) && RanksBelow(b, KindRank(c.kind)) && AllFit(b, l, p, ld, rd)
    requires present ==> CallFits(c, l, p, ld, rd)
    ensures var b' := b + (if present then [c] else []);
            Ascending(b') && RanksBelow(b', KindRank(c.kind) + 1) && AllFit(b', l, p, ld, rd)
  {
    var b' := b + (if present then [c] else []);
    forall i | 0 <= i < |b'|
      ensures KindRank(b'[i].kind) < KindRank(c.kind) + 1 && CallFits(b'[i], l, p, ld, rd)
    {
      if i < |b| {
        assert b'[i] == b[i];
      }
    }
    forall i, j | 0 <= i < j < |b'|
      ensures KindRank(b'[i].kind) < KindRank(b'[j].kind)
    {
      if j < |b| {
        assert b'[i] == b[i] && b'[j] == b[j];
      } else {
        assert b'[i] == b[i] && b'[j] == c;
      }
    }
  }

  lemma TimestampBatchOrder(l: Lists, p: ApplyParams, ld: string, rd: string)
    requires p.timestamp
    ensures var b := Batches(l, p, ld, rd);
            Ascending(b) && AllFit(b, l, p, ld, rd)
  {
    var o := SyncTransferOptions(p);
    var b1 := if |l.download| > 0 then [BatchCall(SetLocalTimestamps, l.download, "", o)] else [];
    assert Ascending(b1) && RanksBelow(b1, 5) && AllFit(b1, l, p, ld, rd);
    AppendRanked(b1, |l.upload| > 0, BatchCall(SetRemoteTimestamps, l.upload, "", o), l, p, ld, rd);
    assert Batches(l, p, ld, rd) == b1 + (if |l.upload| > 0 then [BatchCall(SetRemoteTimestamps, l.upload, "", o)] else []);
  }

  lemma TransferBatchOrder(l: Lists, p: ApplyParams, ld: string, rd: string)
    requires !p.timestamp
    ensures var b := Batches(l, p, ld, rd);
            Ascending(b) && AllFit(b, l, p, ld, rd)
  {
    var o := SyncTransferOptions(p);
    var c1 := BatchCall(CopyToLocal, l.download, ld, o);
    var b1 := if |l.download| > 0 then [c1] else [];
    assert Ascending(b1) && RanksBelow(b1, 1) && AllFit(b1, l, p, ld, rd);
    var c2 := BatchCall(DeleteRemoteFiles, l.deleteRemote, "", o);
    AppendRanked(b1, |l.deleteRemote| > 0, c2, l, p, ld, rd);
    var b2 := b1 + (if |l.deleteRemote| > 0 then [c2] else []);
    var c3 := BatchCall(CopyToRemote, l.upload, rd, o);
    AppendRanked(b2, |l.upload| > 0, c3, l, p, ld, rd);
    var b3 := b2 + (if |l.upload| > 0 then [c3] else []);
    var c4 := BatchCall(DeleteLocalFiles, l.deleteLocal, "", o);
    AppendRanked(b3, |l.deleteLocal| > 0, c4, l, p, ld, rd);
    assert Batches(l, p, ld, rd) == b3 + (if |l.deleteLocal| > 0 then [c4] else []);
  }

  /** The operation at index i of a run witnesses its kind. */
  lemma HasAt(b: seq<BatchCall>, i: nat, k: BatchKind)
    requires i < |b| && b[i].kind == k
    ensures Has(b, k)
  {
  }

  lemma TimestampBatchesPresent(l: Lists, p: ApplyParams, ld: string, rd: string)
    requires p.timestamp
    ensures var b := Batches(l, p, ld, rd);
            (l.download != [] ==> Has(b, SetLocalTimestamps)) && (l.upload != [] ==> Has(b, SetRemoteTimestamps))
  {
    var o := SyncTransferOptions(p);
    var b := Batches(l, p, ld, rd);
    var b1 := if |l.download| > 0 then [BatchCall(SetLocalTimestamps, l.download, "", o)] else [];
    assert b == b1 + (if |l.upload| > 0 then [BatchCall(SetRemoteTimestamps, l.upload, "", o)] else []);
    if l.download != [] {
      HasAt(b, 0, SetLocalTimestamps);
    }
    if l.upload != [] {
      HasAt(b, |b1|, SetRemoteTimestamps);
    }
  }

  lemma TransferBatchesPresent(l: Lists, p: ApplyParams, ld: string, rd: string)
    requires !p.timestamp
    ensures var b := Batches(l, p, ld, rd);
            (l.download != [] ==> Has(b, CopyToLocal)) && (l.deleteRemote != [] ==> Has(b, DeleteRemoteFiles))
            && (l.upload != [] ==> Has(b, CopyToRemote)) && (l.deleteLocal != [] ==> Has(b, DeleteLocalFiles))
  {
    var o := SyncTransferOptions(p);
    var b := Batches(l, p, ld, rd);
    var b1 := if |l.download| > 0 then [BatchCall(CopyToLocal, l.download, ld, o)] else [];
    var b2 := b1 + (if |l.deleteRemote| > 0 then [BatchCall(DeleteRemoteFiles, l.deleteRemote, "", o)] else []);
    var b3 := b2 + (if |l.upload| > 0 then [BatchCall(CopyToRemote, l.upload, rd, o)] else []);
    assert b == b3 + (if |l.deleteLocal| > 0 then [BatchCall(DeleteLocalFiles, l.deleteLocal, "", o)] else []);
    if l.download != [] {
      assert b[0] == b1[0];
      HasAt(b, 0, CopyToLocal);
    }
    if l.deleteRemote != [] {
      assert b[|b1|] == b2[|b1|];
      HasAt(b, |b1|, DeleteRemoteFiles);
    }
    if l.upload != [] {
      assert b[|b2|] == b3[|b2|];
      HasAt(b, |b2|, CopyToRemote);
    }
    if l.deleteLocal != [] {
      HasAt(b, |b3|, DeleteLocalFiles);
    }
  }

  lemma AllBatchesFit(l: Lists, p: ApplyParams, ld: string, rd: string)
    ensures var b := Batches(l, p, ld, rd);
            Ascending(b) && AllFit(b, l, p, ld, rd)
  {
    if p.timestamp {
      TimestampBatchOrder(l, p, ld, rd);
    } else {
      TransferBatchOrder(l, p, ld, rd);
    }
  }

  /** An operation that fits the run is one the run issues. */
  lemma FitIsIssued(b: seq<BatchCall>, l: Lists, p: ApplyParams, ld: string, rd: string, k: BatchKind)
    requires AllFit(b, l, p, ld, rd) && Has(b, k)
    ensures Issued(k, l, p)
  {
    var i :| 0 <= i < |b| && b[i].kind == k;
    assert CallFits(b[i], l, p, ld, rd);
  }

  /** An operation kind occurs in a run exactly when the run issues it. */
  lemma BatchPresence(l: Lists, p: ApplyParams, ld: string, rd: string)
    ensures var b := Batches(l, p, ld, rd);
            forall k :: Has(b, k) <==> Issued(k, l, p)
  {
    var b := Batches(l, p, ld, rd);
    AllBatchesFit(l, p, ld, rd);
    if p.timestamp {
      TimestampBatchesPresent(l, p, ld, rd);
    } else {
      TransferBatchesPresent(l, p, ld, rd);
    }
    forall k
      ensures Has(b, k) <==> Issued(k, l, p)
    {
      if Has(b, k) {
        FitIsIssued(b, l, p, ld, rd, k);
      }
    }
  }

  /** Downloads, then remote deletions, then uploads, then local deletions;
      each operation at most once per run, present exactly when the mode
      issues it and its list is not empty, and working on that list. */
  lemma BatchOrder(l: Lists, p: ApplyParams, ld: string, rd: string)
    ensures var b := Batches(l, p, ld, rd);
            forall i, j :: 0 <= i < j < |b| ==> KindRank(b[i].kind) < KindRank(b[j].kind)
    ensures var b := Batches(l, p, ld, rd);
            forall i :: 0 <= i < |b| ==> b[i].files != [] && (p.timestamp <==> KindRank(b[i].kind) >= 4)
    ensures var b := Batches(l, p, ld, rd);
            forall i :: 0 <= i < |b| ==>
              b[i].files == KindFiles(b[i].kind, l)
              && (b[i].kind == CopyToLocal ==> b[i].target == ld)
              && (b[i].kind == CopyToRemote ==> b[i].target == rd)
    ensures var b := Batches(l, p, ld, rd);
            forall k :: Has(b, k) <==> Issued(k, l, p)
  {
    var b := Batches(l, p, ld, rd);
    AllBatchesFit(l, p, ld, rd);
    assert forall i :: 0 <= i < |b| ==> CallFits(b[i], l, p, ld, rd);
    BatchPresence(l, p, ld, rd);
  }

  // ----- aborting ----------------------------------------------------------

  /** An environment in which every callback agrees and every operation
      succeeds without raising. */
  function AllSucceed(): Environment
  {
    Environment((l: string, r: string) => true, (c: BatchCall) => true, (c: BatchCall) => false)
  }

  predicate IsPrefix(a: seq<ApplyEvent>, b: seq<ApplyEvent>)
  {
    |a| <= |b| && b[..|a|] == a
  }

  lemma {:induction false} IssueBatchesPrefix(calls: seq<BatchCall>, timestamp: bool, env: Environment)
    ensures var r := IssueBatches(calls, timestamp, env);
            var full := IssueBatches(calls, timestamp, AllSucceed());
            full.completed && IsPrefix(r.log, full.log) && (r.completed ==> r.log == full.log)
    decreases |calls|
  {
    if calls != [] {
      IssueBatchesPrefix(calls[1..], timestamp, env);
    }
  }

  lemma {:induction false} ApplyRunsPrefix(items: seq<Item>, i: nat, p: ApplyParams, env: Environment, log: seq<ApplyEvent>)
    ensures var r := ApplyRuns(items, i, p, env, log);
            var full := ApplyRuns(items, i, p, AllSucceed(), log);
            full.completed && IsPrefix(r.log, full.log) && (r.completed ==> r.log == full.log)
    decreases |items| - i
  {
    if i < |items| {
      var e := RunEnd(items, i, i + 1);
      var l := ListsOf(items[i..e], p.timestamp);
      if l.count == 0 {
        ApplyRunsPrefix(items, e, p, env, log);
      } else {
        var ld := IncludeTrailingBackslash(items[i].local.directory);
        var rd := UnixIncludeTrailingBackslash(items[i].remote.directory);
        var log1 := log + [DirectoryStarted(ld, rd)];
        var calls := Batches(l, p, ld, rd);
        ApplyRunsUnfold(items, i, p, env, log);
        ApplyRunsUnfold(items, i, p, AllSucceed(), log);
        IssueBatchesPrefix(calls, p.timestamp, env);
        var fr := IssueBatches(calls, p.timestamp, AllSucceed());
        ApplyRunsPrefix(items, e, p, AllSucceed(), log1 + fr.log);
        var full := ApplyRuns(items, e, p, AllSucceed(), log1 + fr.log);
        ApplyRunsExtends(items, e, p, AllSucceed(), log1 + fr.log);
        if env.continueDirectory(ld, rd) {
          var r := IssueBatches(calls, p.timestamp, env);
          if r.completed {
            ApplyRunsPrefix(items, e, p, env, log1 + r.log);
          } else {
            assert (log1 + r.log) == (log1 + fr.log)[..|log1 + r.log|];
          }
        } else {
          assert log1 == (log1 + fr.log)[..|log1|];
        }
      }
    }
  }

  /** ApplyRuns only appends to the log it is given. */
  lemma {:induction false} ApplyRunsExtends(items: seq<Item>, i: nat, p: ApplyParams, env: Environment, log: seq<ApplyEvent>)
    ensures IsPrefix(log, ApplyRuns(items, i, p, env, log).log)
    decreases |items| - i
  {
    if i < |items| {
      var e := RunEnd(items, i, i + 1);
      var l := ListsOf(items[i..e], p.timestamp);
      if l.count == 0 {
        ApplyRunsExtends(items, e, p, env, log);
      } else {
        var ld := IncludeTrailingBackslash(items[i].local.directory);
        var rd := UnixIncludeTrailingBackslash(items[i].remote.directory);
        var log1 := log + [DirectoryStarted(ld, rd)];
        var r := IssueBatches(Batches(l, p, ld, rd), p.timestamp, env);
        if env.continueDirectory(ld, rd) && r.completed {
          ApplyRunsExtends(items, e, p, env, log1 + r.log);
          var out := ApplyRuns(items, e, p, env, log1 + r.log).log;
          assert out[..|log|] == out[..|log1 + r.log|][..|log|];
        }
      }
    }
  }

  /** An aborted apply does a prefix of what an unhindered apply would do
      (and then still ends the transaction); a completed one does all of it. */
  lemma AbortIsPrefixOfFullApply(items: seq<Item>, p: ApplyParams, env: Environment)
    ensures var r := SynchronizeApplySpec(items, p, env);
            var full := SynchronizeApplySpec(items, p, AllSucceed());
            full.completed
            && IsPrefix(r.log[..|r.log| - 1], full.log)
            && r.log[|r.log| - 1] == TransactionEnded
            && (r.completed ==> r.log == full.log)
  {
    ApplyRunsPrefix(items, 0, p, env, [TransactionBegun]);
    var r := ApplyRuns(items, 0, p, env, [TransactionBegun]);
    var f := ApplyRuns(items, 0, p, AllSucceed(), [TransactionBegun]);
    assert (r.log + [TransactionEnded])[..|r.log|] == r.log;
    assert (f.log + [TransactionEnded])[..|r.log|] == f.log[..|r.log|];
  }

  /** The walk opens one transaction and, aborted or not, closes it. */
  lemma TransactionBracketsApply(items: seq<Item>, p: ApplyParams, env: Environment)
    ensures var log := SynchronizeApplySpec(items, p, env).log;
            |log| >= 2 && log[0] == TransactionBegun && log[|log| - 1] == TransactionEnded
  {
    ApplyRunsExtends(items, 0, p, env, [TransactionBegun]);
  }

  /** Timestamp synchronisation does not consult the results of its
      operations: whatever they return, the walk is the same.  Only the
      progress callback and a raising operation can stop it. */
  lemma {:induction false} TimestampRunsIgnoreFailures(items: seq<Item>, i: nat, p: ApplyParams, env: Environment,
                                                      log: seq<ApplyEvent>, results: BatchCall -> bool)
    requires p.timestamp
    ensures ApplyRuns(items, i, p, env, log) == ApplyRuns(items, i, p, env.(batchSucceeds := results), log)
    decreases |items| - i
  {
    var env' := env.(batchSucceeds := results);
    if i < |items| {
      var e := RunEnd(items, i, i + 1);
      var l := ListsOf(items[i..e], p.timestamp);
      var ld := IncludeTrailingBackslash(items[i].local.directory);
      var rd := UnixIncludeTrailingBackslash(items[i].remote.directory);
      var calls := Batches(l, p, ld, rd);
      ApplyRunsUnfold(items, i, p, env, log);
      ApplyRunsUnfold(items, i, p, env', log);
      TimestampBatchesIgnoreResults(calls, env, results);
      var r := IssueBatches(calls, p.timestamp, env);
      if l.count == 0 {
        TimestampRunsIgnoreFailures(items, e, p, env, log, results);
      } else {
        TimestampRunsIgnoreFailures(items, e, p, env, log + [DirectoryStarted(ld, rd)] + r.log, results);
      }
    }
  }

  lemma {:induction false} TimestampBatchesIgnoreResults(calls: seq<BatchCall>, env: Environment, results: BatchCall -> bool)
    ensures IssueBatches(calls, true, env) == IssueBatches(calls, true, env.(batchSucceeds := results))
    decreases |calls|
  {
    if calls != [] {
      TimestampBatchesIgnoreResults(calls[1..], env, results);
    }
  }

  /** The timestamp operations of a run complete exactly when none of them
      raises. */
  lemma {:induction false} TimestampBatchesComplete(calls: seq<BatchCall>, env: Environment)
    ensures IssueBatches(calls, true, env).completed <==> forall k :: 0 <= k < |calls| ==> !env.batchRaises(calls[k])
    decreases |calls|
  {
    if calls != [] {
      TimestampBatchesComplete(calls[1..], env);
      assert forall k :: 1 <= k < |calls| ==> calls[1..][k - 1] == calls[k];
    }
  }

  /** A checklist with nothing checked does nothing but open and close the
      transaction. */
  lemma {:induction false} NothingCheckedDoesNothing(items: seq<Item>, i: nat, p: ApplyParams, env: Environment, log: seq<ApplyEvent>)
    requires forall k :: 0 <= k < |items| ==> !items[k].checked
    ensures ApplyRuns(items, i, p, env, log) == ApplyOutcome(log, true)
    decreases |items| - i
  {
    if i < |items| {
      var e := RunEnd(items, i, i + 1);
      NoneCheckedCountsZero(items[i..e]);
      if p.timestamp { TimestampListsArePicks(items[i..e]); } else { ListsArePicks(items[i..e]); }
      NothingCheckedDoesNothing(items, e, p, env, log);
    }
  }

  // ----- stopping at the first failure --------------------------------------

  /** An event at which the walk is told to stop: a directory the user
      cancelled, an operation that raised, or, outside timestamp mode, an
      operation that returned false. */
  predicate Fails(ev: ApplyEvent, timestamp: bool, env: Environment)
  {
    (ev.DirectoryStarted? && !env.continueDirectory(ev.localDirectory, ev.remoteDirectory))
    || (ev.Batch? && BatchStops(ev.call, timestamp, env))
  }

  predicate Clean(log: seq<ApplyEvent>, timestamp: bool, env: Environment)
  {
    forall k :: 0 <= k < |log| ==> !Fails(log[k], timestamp, env)
  }

  /** A failing event of a log is its last one. */
  predicate FailsOnlyLast(log: seq<ApplyEvent>, timestamp: bool, env: Environment)
  {
    forall k :: 0 <= k < |log| && Fails(log[k], timestamp, env) ==> k == |log| - 1
  }

  lemma CleanConcat(a: seq<ApplyEvent>, b: seq<ApplyEvent>, timestamp: bool, env: Environment)
    requires Clean(a, timestamp, env)
    ensures Clean(a + b, timestamp, env) <==> Clean(b, timestamp, env)
    ensures FailsOnlyLast(b, timestamp, env) ==> FailsOnlyLast(a + b, timestamp, env)
  {
    if !Clean(b, timestamp, env) {
      var k :| 0 <= k < |b| && Fails(b[k], timestamp, env);
      assert (a + b)[|a| + k] == b[k];
    }
    if FailsOnlyLast(b, timestamp, env) {
      forall k | 0 <= k < |a + b| && Fails((a + b)[k], timestamp, env)
        ensures k == |a + b| - 1
      {
        if k >= |a| {
          assert (a + b)[k] == b[k - |a|];
        }
      }
    }
  }

  /** The operations of a run stop at the first one that stops the walk:
      the run completes exactly when none did, and such an operation is
      the last one logged. */
  lemma {:induction false} IssueBatchesStopAtFailure(calls: seq<BatchCall>, timestamp: bool, env: Environment)
    ensures var r := IssueBatches(calls, timestamp, env);
            (forall k :: 0 <= k < |r.log| ==> r.log[k].Batch?)
            && (r.completed <==> Clean(r.log, timestamp, env)) && FailsOnlyLast(r.log, timestamp, env)
    decreases |calls|
  {
    if calls != [] && !BatchStops(calls[0], timestamp, env) {
      IssueBatchesStopAtFailure(calls[1..], timestamp, env);
      var r := IssueBatches(calls[1..], timestamp, env);
      assert Clean([Batch(calls[0])], timestamp, env);
      CleanConcat([Batch(calls[0])], r.log, timestamp, env);
      var log := [Batch(calls[0])] + r.log;
      forall k | 0 <= k < |log|
        ensures log[k].Batch?
      {
        if k > 0 {
          assert log[k] == r.log[k - 1];
        }
      }
    } else if calls != [] {
      assert Fails(IssueBatches(calls, timestamp, env).log[0], timestamp, env);
    }
  }

  lemma {:induction false} ApplyRunsStopAtFailure(items: seq<Item>, i: nat, p: ApplyParams, env: Environment, log: seq<ApplyEvent>)
    requires Clean(log, p.timestamp, env)
    ensures var r := ApplyRuns(items, i, p, env, log);
            (r.completed <==> Clean(r.log, p.timestamp, env)) && FailsOnlyLast(r.log, p.timestamp, env)
    decreases |items| - i
  {
    if i < |items| {
      var e := RunEnd(items, i, i + 1);
      var l := ListsOf(items[i..e], p.timestamp);
      ApplyRunsUnfold(items, i, p, env, log);
      if l.count == 0 {
        ApplyRunsStopAtFailure(items, e, p, env, log);
      } else {
        var ld := IncludeTrailingBackslash(items[i].local.directory);
        var rd := UnixIncludeTrailingBackslash(items[i].remote.directory);
        var started := [DirectoryStarted(ld, rd)];
        var log1 := log + started;
        CleanConcat(log, started, p.timestamp, env);
        if env.continueDirectory(ld, rd) {
          var r := IssueBatches(Batches(l, p, ld, rd), p.timestamp, env);
          IssueBatchesStopAtFailure(Batches(l, p, ld, rd), p.timestamp, env);
          CleanConcat(log1, r.log, p.timestamp, env);
          if r.completed {
            ApplyRunsStopAtFailure(items, e, p, env, log1 + r.log);
          }
        } else {
          assert Fails(started[0], p.timestamp, env);
        }
      }
    }
  }

  /** A cancelled directory, a raising operation or, outside timestamp
      mode, an operation returning false ends the walk: it is the last
      event before the transaction ends, and the walk completes exactly
      when no event failed. */
  lemma FailureEndsApply(items: seq<Item>, p: ApplyParams, env: Environment)
    ensures var r := SynchronizeApplySpec(items, p, env);
            (r.completed <==> Clean(r.log, p.timestamp, env))
            && (forall k :: 0 <= k < |r.log| && Fails(r.log[k], p.timestamp, env) ==> !r.completed && k == |r.log| - 2)
  {
    var a := ApplyRuns(items, 0, p, env, [TransactionBegun]);
    assert Clean([TransactionBegun], p.timestamp, env);
    ApplyRunsStopAtFailure(items, 0, p, env, [TransactionBegun]);
    var ended := [TransactionEnded];
    assert Clean(ended, p.timestamp, env);
    var log := a.log + ended;
    forall k | 0 <= k < |a.log|
      ensures log[k] == a.log[k]
    {
    }
    assert log[|a.log|] == TransactionEnded;
  }

  /** In timestamp mode a raising operation ends the walk, however the
      earlier operations' results came out. */
  lemma TimestampRaiseEndsApply(items: seq<Item>, p: ApplyParams, env: Environment, k: nat)
    requires p.timestamp
    requires var r := SynchronizeApplySpec(items, p, env);
             k < |r.log| && r.log[k].Batch? && env.batchRaises(r.log[k].call)
    ensures var r := SynchronizeApplySpec(items, p, env);
            !r.completed && k == |r.log| - 2
  {
    FailureEndsApply(items, p, env);
    assert Fails(SynchronizeApplySpec(items, p, env).log[k], p.timestamp, env);
  }

  // ----- progress of the walk -----------------------------------------------

  /** The directory announcements of a log, in order. */
  function Starts(log: seq<ApplyEvent>): seq<ApplyEvent>
    decreases |log|
  {
    if log == [] then []
    else (if log[0].DirectoryStarted? then [log[0]] else []) + Starts(log[1..])
  }

  lemma {:induction false} StartsConcat(a: seq<ApplyEvent>, b: seq<ApplyEvent>)
    ensures Starts(a + b) == Starts(a) + Starts(b)
    decreases |a|
  {
    if a != [] {
      StartsConcat(a[1..], b);
      assert (a + b)[0] == a[0];
      assert (a + b)[1..] == a[1..] + b;
    } else {
      assert a + b == b;
    }
  }

  lemma {:induction false} IssueBatchesStartsNothing(calls: seq<BatchCall>, timestamp: bool, env: Environment)
    ensures Starts(IssueBatches(calls, timestamp, env).log) == []
    decreases |calls|
  {
    if calls != [] {
      IssueBatchesStartsNothing(calls[1..], timestamp, env);
      var r := IssueBatches(calls[1..], timestamp, env);
      StartsConcat([Batch(calls[0])], r.log);
    }
  }

  /** One announcement per maximal run of items sharing their directories
      and holding a checked item, with the run's directories delimited. */
  function StartedRuns(items: seq<Item>, i: nat): seq<ApplyEvent>
    decreases |items| - i
  {
    if i >= |items| then []
    else
      var e := RunEnd(items, i, i + 1);
      (if CheckedCount(items[i..e]) > 0
       then [DirectoryStarted(IncludeTrailingBackslash(items[i].local.directory),
                              UnixIncludeTrailingBackslash(items[i].remote.directory))]
       else [])
      + StartedRuns(items, e)
  }

  lemma ListsCount(s: seq<Item>, timestamp: bool)
    ensures ListsOf(s, timestamp).count == CheckedCount(s)
  {
    if timestamp { TimestampListsArePicks(s); } else { ListsArePicks(s); }
  }

  lemma StartedRunsUnfold(items: seq<Item>, i: nat)
    requires i < |items|
    ensures var e := RunEnd(items, i, i + 1);
            StartedRuns(items, i)
            == (if CheckedCount(items[i..e]) > 0
                then [DirectoryStarted(IncludeTrailingBackslash(items[i].local.directory),
                                       UnixIncludeTrailingBackslash(items[i].remote.directory))]
                else [])
               + StartedRuns(items, e)
  {
  }

  /** An announced run adds its announcement, and its operations add none. */
  lemma StartsOfRun(log: seq<ApplyEvent>, ev: ApplyEvent, ops: seq<ApplyEvent>)
    requires ev.DirectoryStarted? && Starts(ops) == []
    ensures Starts(log + [ev]) == Starts(log) + [ev]
    ensures Starts(log + [ev] + ops) == Starts(log) + [ev]
  {
    StartsConcat(log, [ev]);
    StartsConcat(log + [ev], ops);
    assert Starts([ev]) == [ev];
  }

  lemma PrefixOfConcat(a: seq<ApplyEvent>, b: seq<ApplyEvent>)
    ensures IsPrefix(a, a + b)
  {
    assert (a + b)[..|a|] == a;
  }

  lemma Regroup(a: seq<ApplyEvent>, b: seq<ApplyEvent>, c: seq<ApplyEvent>)
    ensures a + (b + c) == (a + b) + c
  {
  }

  lemma {:induction false} ApplyRunsStarts(items: seq<Item>, i: nat, p: ApplyParams, env: Environment, log: seq<ApplyEvent>)
    ensures var r := ApplyRuns(items, i, p, env, log);
            var all := Starts(log) + StartedRuns(items, i);
            IsPrefix(Starts(r.log), all) && (r.completed ==> Starts(r.log) == all)
    decreases |items| - i
  {
    if i >= |items| {
      assert StartedRuns(items, i) == [];
      PrefixOfConcat(Starts(log), []);
    } else {
      var e := RunEnd(items, i, i + 1);
      var l := ListsOf(items[i..e], p.timestamp);
      ListsCount(items[i..e], p.timestamp);
      ApplyRunsUnfold(items, i, p, env, log);
      StartedRunsUnfold(items, i);
      if l.count == 0 {
        assert StartedRuns(items, i) == [] + StartedRuns(items, e);
        assert [] + StartedRuns(items, e) == StartedRuns(items, e);
        ApplyRunsStarts(items, e, p, env, log);
      } else {
        var ld := IncludeTrailingBackslash(items[i].local.directory);
        var rd := UnixIncludeTrailingBackslash(items[i].remote.directory);
        ApplyRunsStartsRun(items, i, e, p, env, log, l, ld, rd);
      }
    }
  }

  /** ApplyRunsStarts for a run that is announced. */
  lemma {:induction false} ApplyRunsStartsRun(items: seq<Item>, i: nat, e: nat, p: ApplyParams, env: Environment,
                                             log: seq<ApplyEvent>, l: Lists, ld: string, rd: string)
    requires i < e <= |items| && e == RunEnd(items, i, i + 1)
    requires StartedRuns(items, i) == [DirectoryStarted(ld, rd)] + StartedRuns(items, e)
    requires var r := IssueBatches(Batches(l, p, ld, rd), p.timestamp, env);
             ApplyRuns(items, i, p, env, log)
             == if !env.continueDirectory(ld, rd) then ApplyOutcome(log + [DirectoryStarted(ld, rd)], false)
                else if !r.completed then ApplyOutcome(log + [DirectoryStarted(ld, rd)] + r.log, false)
                else ApplyRuns(items, e, p, env, log + [DirectoryStarted(ld, rd)] + r.log)
    ensures var r := ApplyRuns(items, i, p, env, log);
            var all := Starts(log) + StartedRuns(items, i);
            IsPrefix(Starts(r.log), all) && (r.completed ==> Starts(r.log) == all)
    decreases |items| - i, 0
  {
    var ev := DirectoryStarted(ld, rd);
    var r := IssueBatches(Batches(l, p, ld, rd), p.timestamp, env);
    IssueBatchesStartsNothing(Batches(l, p, ld, rd), p.timestamp, env);
    StartsOfRun(log, ev, r.log);
    var head := Starts(log) + [ev];
    Regroup(Starts(log), [ev], StartedRuns(items, e));
    if !env.continueDirectory(ld, rd) || !r.completed {
      PrefixOfConcat(head, StartedRuns(items, e));
    } else {
      ApplyRunsStarts(items, e, p, env, log + [ev] + r.log);
    }
  }

  /** Each run with a checked item is announced once, in checklist order,
      before its operations: all of them on a completed walk, the first
      ones on an aborted walk. */
  lemma ProgressOncePerCheckedRun(items: seq<Item>, p: ApplyParams, env: Environment)
    ensures var r := SynchronizeApplySpec(items, p, env);
            IsPrefix(Starts(r.log), StartedRuns(items, 0))
            && (r.completed ==> Starts(r.log) == StartedRuns(items, 0))
  {
    var a := ApplyRuns(items, 0, p, env, [TransactionBegun]);
    ApplyRunsStarts(items, 0, p, env, [TransactionBegun]);
    assert Starts([TransactionBegun]) == [];
    assert Starts([TransactionEnded]) == [];
    StartsConcat(a.log, [TransactionEnded]);
  }
}
