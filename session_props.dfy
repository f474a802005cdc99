// Properties of the session's transactions and of its per-file loop.

module SessionProperties {
  import opened Checklist
  import opened Session

  // ----- commands inside and outside a transaction -------------------------

  predicate AnyChangesDirectory(cmds: seq<FsCommand>)
  {
    exists k :: 0 <= k < |cmds| && ChangesDirectory(cmds[k])
  }

  predicate AnyModifiesFiles(cmds: seq<FsCommand>)
  {
    exists k :: 0 <= k < |cmds| && ModifiesFiles(cmds[k])
  }

  /** The state a transaction is in after the commands: no read yet, only
      the record of which reads are owed. */
  function Deferred(s: TerminalState, cmds: seq<FsCommand>): TerminalState
  {
    s.(readCurrentDirectoryPending := s.readCurrentDirectoryPending || AnyChangesDirectory(cmds),
       readDirectoryPending := s.readDirectoryPending
         || (s.autoReadDirectory && (AnyChangesDirectory(cmds) || (s.autoReadDirectoryAfterOp && AnyModifiesFiles(cmds)))))
  }

  lemma AnyOfCons(cmds: seq<FsCommand>)
    requires cmds != []
    ensures AnyChangesDirectory(cmds) <==> ChangesDirectory(cmds[0]) || AnyChangesDirectory(cmds[1..])
    ensures AnyModifiesFiles(cmds) <==> ModifiesFiles(cmds[0]) || AnyModifiesFiles(cmds[1..])
  {
    assert forall k :: 0 <= k < |cmds| - 1 ==> cmds[1..][k] == cmds[k + 1];
    if AnyChangesDirectory(cmds) && !ChangesDirectory(cmds[0]) {
      var k :| 0 <= k < |cmds| && ChangesDirectory(cmds[k]);
      assert ChangesDirectory(cmds[1..][k - 1]);
    }
    if AnyModifiesFiles(cmds) && !ModifiesFiles(cmds[0]) {
      var k :| 0 <= k < |cmds| && ModifiesFiles(cmds[k]);
      assert ModifiesFiles(cmds[1..][k - 1]);
    }
  }

  lemma AnyOfConcat(a: seq<FsCommand>, b: seq<FsCommand>)
    ensures AnyChangesDirectory(a + b) <==> AnyChangesDirectory(a) || AnyChangesDirectory(b)
    ensures AnyModifiesFiles(a + b) <==> AnyModifiesFiles(a) || AnyModifiesFiles(b)
  {
    assert forall k :: 0 <= k < |a| ==> (a + b)[k] == a[k];
    assert forall k :: 0 <= k < |b| ==> (a + b)[|a| + k] == b[k];
    if AnyChangesDirectory(a + b) && !AnyChangesDirectory(a) {
      var k :| 0 <= k < |a + b| && ChangesDirectory((a + b)[k]);
      assert ChangesDirectory(b[k - |a|]);
    }
    if AnyModifiesFiles(a + b) && !AnyModifiesFiles(a) {
      var k :| 0 <= k < |a + b| && ModifiesFiles((a + b)[k]);
      assert ModifiesFiles(b[k - |a|]);
    }
  }

  /** Inside a transaction no command reads anything: a change of
      directory owes both reads, a change to files owes the listing. */
  lemma {:induction false} InTransactionDefers(s: TerminalState, cmds: seq<FsCommand>)
    requires InTransactionSpec(s)
    ensures ReactAll(s, cmds) == Deferred(s, cmds)
    decreases |cmds|
  {
    if cmds != [] {
      AnyOfCons(cmds);
      InTransactionDefers(ReactSpec(s, cmds[0]), cmds[1..]);
    }
  }

  lemma DeferredConcat(s: TerminalState, a: seq<FsCommand>, b: seq<FsCommand>, log1: seq<SessionEvent>, log2: seq<SessionEvent>)
    ensures Deferred(Deferred(s, a).(log := log1), b).(log := log2) == Deferred(s, a + b).(log := log2)
  {
    AnyOfConcat(a, b);
  }

  /** Outside a transaction a change of directory reads both at once, the
      listing in full. */
  lemma OutsideTransactionReadsAtOnce(s: TerminalState)
    requires !InTransactionSpec(s) && s.autoReadDirectory
    ensures ReactSpec(s, FsChangeDirectory).log == s.log + [CurrentDirectoryRead, DirectoryRead(false)]
  {
  }

  /** The reads the outermost EndTransaction performs.  The listing is read
      with reloadOnly set whether or not the current directory was reread
      first: the flag is tested after the reread has already cleared it. */
  function FlushEvents(currentPending: bool, listingPending: bool): seq<SessionEvent>
  {
    (if currentPending then [CurrentDirectoryRead] else [])
    + (if listingPending then [DirectoryRead(true)] else [])
  }

  lemma OutermostEndFlushes(s: TerminalState)
    requires s.inTransaction == 1 && s.active
    ensures EndSpec(s) == EndResult(
              s.(inTransaction := 0, readCurrentDirectoryPending := false, readDirectoryPending := false,
                 log := s.log + FlushEvents(s.readCurrentDirectoryPending, s.readDirectoryPending)),
              true)
  {
  }

  lemma NestedEndDefers(s: TerminalState)
    requires s.inTransaction > 1
    ensures EndSpec(s) == EndResult(s.(inTransaction := s.inTransaction - 1), true)
  {
  }

  lemma ClosedSessionEndDoesNotRead(s: TerminalState)
    requires s.inTransaction > 0 && !s.active
    ensures EndSpec(s) == EndResult(s.(inTransaction := s.inTransaction - 1), true)
  {
  }

  lemma EndWithoutTransactionFails(s: TerminalState)
    requires s.inTransaction == 0
    ensures EndSpec(s) == EndResult(s, false)
  {
  }

  /** A whole transaction: the reads its commands owe happen once, at its end. */
  lemma TransactionReadsOnce(s: TerminalState, cmds: seq<FsCommand>)
    requires s.inTransaction == 0 && !s.suspendTransaction && s.active
    ensures var r := EndSpec(ReactAll(BeginSpec(s), cmds));
            r.ok
            && r.state == s.(readCurrentDirectoryPending := false, readDirectoryPending := false,
                             log := s.log + FlushEvents(AnyChangesDirectory(cmds),
                                      s.autoReadDirectory && (AnyChangesDirectory(cmds)
                                        || (s.autoReadDirectoryAfterOp && AnyModifiesFiles(cmds)))))
  {
    InTransactionDefers(BeginSpec(s), cmds);
  }

  /** DoStartup from an idle session: the current directory, then (when
      directories are read automatically) the listing, each exactly once. */
  lemma StartupReadsLast(s: TerminalState, initialDirectory: string)
    requires s.inTransaction == 0 && !s.suspendTransaction && s.active
    ensures StartupSpec(s, initialDirectory)
         == s.(readCurrentDirectoryPending := false, readDirectoryPending := false,
               log := s.log + [CurrentDirectoryRead] + (if s.autoReadDirectory then [DirectoryRead(true)] else []))
  {
  }

  lemma ExceptionOnFailBalanced(s: TerminalState)
    ensures SetExceptionOnFailSpec(SetExceptionOnFailSpec(s, true).state, false) == CounterResult(s, true)
    ensures SetExceptionOnFailSpec(s, true).state.exceptionOnFail > 0
  {
  }

  // ----- the per-file loop ---------------------------------------------------

  /** The FileFinished events of a log, in order. */
  function Finishes(log: seq<SessionEvent>): seq<SessionEvent>
  {
    if log == [] then []
    else Finishes(log[..|log| - 1]) + (if log[|log| - 1].FileFinished? then [log[|log| - 1]] else [])
  }

  lemma {:induction false} FinishesConcat(a: seq<SessionEvent>, b: seq<SessionEvent>)
    ensures Finishes(a + b) == Finishes(a) + Finishes(b)
    decreases |b|
  {
    if b == [] {
      assert a + b == a;
    } else {
      var b' := b[..|b| - 1];
      assert (a + b)[..|a + b| - 1] == a + b';
      FinishesConcat(a, b');
    }
  }

  lemma AppendOther(log: seq<SessionEvent>, e: SessionEvent)
    requires !e.FileFinished?
    ensures Finishes(log + [e]) == Finishes(log)
  {
    assert (log + [e])[..|log|] == log;
  }

  lemma AppendFinish(log: seq<SessionEvent>, e: SessionEvent)
    requires e.FileFinished?
    ensures Finishes(log + [e]) == Finishes(log) + [e]
  {
    assert (log + [e])[..|log|] == log;
  }

  /** The fields that neither a command nor a read touches. */
  predicate SameCounters(r: TerminalState, s: TerminalState)
  {
    r.inTransaction == s.inTransaction && r.suspendTransaction == s.suspendTransaction
    && r.exceptionOnFail == s.exceptionOnFail
  }

  lemma ReactOnlyReads(s: TerminalState, c: FsCommand)
    ensures Finishes(ReactSpec(s, c).log) == Finishes(s.log)
    ensures SameCounters(ReactSpec(s, c), s)
  {
    if ChangesDirectory(c) && !InTransactionSpec(s) {
      AppendOther(s.log, CurrentDirectoryRead);
      AppendOther(s.log + [CurrentDirectoryRead], DirectoryRead(false));
    } else if ModifiesFiles(c) && s.autoReadDirectory && s.autoReadDirectoryAfterOp && !InTransactionSpec(s) {
      AppendOther(s.log, DirectoryRead(true));
    }
  }

  /** ReactOnCommand only ever appends reads and changes no counter. */
  lemma {:induction false} ReactAllOnlyReads(s: TerminalState, cmds: seq<FsCommand>)
    ensures Finishes(ReactAll(s, cmds).log) == Finishes(s.log)
    ensures SameCounters(ReactAll(s, cmds), s)
    decreases |cmds|
  {
    if cmds != [] {
      ReactOnlyReads(s, cmds[0]);
      ReactAllOnlyReads(ReactSpec(s, cmds[0]), cmds[1..]);
    }
  }

  predicate Raises(step: FileStep, exceptionOnFail: nat)
  {
    step.completion.Failed? || (step.completion == SkipRaised && exceptionOnFail > 0)
  }

  predicate Stops(step: FileStep, exceptionOnFail: nat)
  {
    step.cancel || Raises(step, exceptionOnFail)
  }

  /** How many files the loop hands to ProcessFile, starting at `i`: up to
      and including the first that is cancelled or raises. */
  function ProcessedCount(files: seq<string>, process: string -> FileStep, exceptionOnFail: nat, i: nat): (n: nat)
    requires i <= |files|
    ensures i <= n <= |files|
    ensures (n == |files| && forall k :: i <= k < |files| ==> !Stops(process(files[k]), exceptionOnFail))
         || (i < n && Stops(process(files[n - 1]), exceptionOnFail)
             && forall k :: i <= k < n - 1 ==> !Stops(process(files[k]), exceptionOnFail))
    decreases |files| - i
  {
    if i == |files| then i
    else if Stops(process(files[i]), exceptionOnFail) then i + 1
    else ProcessedCount(files, process, exceptionOnFail, i + 1)
  }

  /** The finish events of files i..n-1, one per file, in order. */
  function Expected(files: seq<string>, process: string -> FileStep, i: nat, n: nat): seq<SessionEvent>
    requires n <= |files|
    decreases n - i
  {
    if i >= n then []
    else [FileFinished(files[i], process(files[i]).completion == Completed)] + Expected(files, process, i + 1, n)
  }

  /** The commands the back end reports while files i..n-1 are processed. */
  function CommandsFrom(files: seq<string>, process: string -> FileStep, i: nat, n: nat): seq<FsCommand>
    requires n <= |files|
    decreases n - i
  {
    if i >= n then [] else process(files[i]).commands + CommandsFrom(files, process, i + 1, n)
  }

  /** One step of the loop: the step's flags, and the counters kept. */
  lemma StepFlags(ps: ProcessState, fileName: string, step: FileStep)
    ensures var r := StepSpec(ps, fileName, step);
            SameCounters(r.term, ps.term)
            && r.cancelled == (ps.cancelled || step.cancel)
            && r.raised == Raises(step, ps.term.exceptionOnFail)
  {
    ReactAllOnlyReads(ps.term, step.commands);
  }

  /** One step of the loop: one finish event. */
  lemma StepFacts(ps: ProcessState, fileName: string, step: FileStep)
    ensures var r := StepSpec(ps, fileName, step);
            Finishes(r.term.log) == Finishes(ps.term.log) + [FileFinished(fileName, step.completion == Completed)]
            && SameCounters(r.term, ps.term)
  {
    var t1 := ReactAll(ps.term, step.commands);
    ReactAllOnlyReads(ps.term, step.commands);
    var t2 := if step.completion == Failed(true) then t1.(active := false) else t1;
    AppendFinish(t2.log, FileFinished(fileName, step.completion == Completed));
  }

  /** How the loop ends: it raises exactly when the last file handed over
      raised, and is cancelled exactly when that file asked to cancel. */
  lemma {:induction false} ProcessFromFlags(ps: ProcessState, files: seq<string>, process: string -> FileStep, i: nat)
    requires !ps.cancelled && !ps.raised && i <= |files|
    ensures var eof := ps.term.exceptionOnFail;
            var n := ProcessedCount(files, process, eof, i);
            var r := ProcessFrom(ps, files, process, i);
            SameCounters(r.term, ps.term)
            && (r.raised <==> i < n && Raises(process(files[n - 1]), eof))
            && (r.cancelled <==> i < n && process(files[n - 1]).cancel)
    decreases |files| - i
  {
    if i < |files| {
      var step := process(files[i]);
      StepFlags(ps, files[i], step);
      if !Stops(step, ps.term.exceptionOnFail) {
        ProcessFromFlags(StepSpec(ps, files[i], step), files, process, i + 1);
      }
    }
  }

  /** The loop adds one finish event per file handed over, in order. */
  lemma {:induction false} ProcessFromFinishes(ps: ProcessState, files: seq<string>, process: string -> FileStep, i: nat)
    requires !ps.cancelled && !ps.raised && i <= |files|
    ensures var n := ProcessedCount(files, process, ps.term.exceptionOnFail, i);
            var r := ProcessFrom(ps, files, process, i);
            Finishes(r.term.log) == Finishes(ps.term.log) + Expected(files, process, i, n)
            && SameCounters(r.term, ps.term)
    decreases |files| - i
  {
    if i < |files| {
      var step := process(files[i]);
      StepFacts(ps, files[i], step);
      StepFlags(ps, files[i], step);
      if !Stops(step, ps.term.exceptionOnFail) {
        ProcessFromFinishes(StepSpec(ps, files[i], step), files, process, i + 1);
      }
    }
  }

  /** Inside a transaction and with no fatal error the loop adds nothing
      to the log but the finish events, and owes the reads of all the
      commands it reported. */
  lemma StepInTransaction(ps: ProcessState, fileName: string, step: FileStep)
    requires InTransactionSpec(ps.term) && step.completion != Failed(true)
    ensures StepSpec(ps, fileName, step).term
            == Deferred(ps.term, step.commands).(log := ps.term.log + [FileFinished(fileName, step.completion == Completed)])
  {
    InTransactionDefers(ps.term, step.commands);
  }

  /** The case of ProcessFromInTransaction where file i ends the loop. */
  lemma LastInTransaction(ps: ProcessState, files: seq<string>, process: string -> FileStep, i: nat)
    requires !ps.cancelled && !ps.raised && i < |files|
    requires InTransactionSpec(ps.term) && process(files[i]).completion != Failed(true)
    requires Stops(process(files[i]), ps.term.exceptionOnFail)
    ensures ProcessFrom(ps, files, process, i).term
            == Deferred(ps.term, CommandsFrom(files, process, i, i + 1)).(log := ps.term.log + Expected(files, process, i, i + 1))
  {
    var step := process(files[i]);
    var ps' := StepSpec(ps, files[i], step);
    StepFlags(ps, files[i], step);
    assert ps'.cancelled || ps'.raised;
    assert ProcessFrom(ps, files, process, i) == ProcessFrom(ps', files, process, i + 1) == ps';
    StepInTransaction(ps, files[i], step);
    assert CommandsFrom(files, process, i + 1, i + 1) == [];
    assert CommandsFrom(files, process, i, i + 1) == step.commands + [] == step.commands;
    assert Expected(files, process, i + 1, i + 1) == [];
    assert Expected(files, process, i, i + 1) == [FileFinished(files[i], step.completion == Completed)];
  }

  /** The case of ProcessFromInTransaction where file i does not end the
      loop, given the result for the files after it. */
  lemma ContinueInTransaction(ps: ProcessState, files: seq<string>, process: string -> FileStep, i: nat)
    requires !ps.cancelled && !ps.raised && i < |files|
    requires InTransactionSpec(ps.term) && process(files[i]).completion != Failed(true)
    requires !Stops(process(files[i]), ps.term.exceptionOnFail)
    requires var ps' := StepSpec(ps, files[i], process(files[i]));
             var n := ProcessedCount(files, process, ps.term.exceptionOnFail, i + 1);
             ProcessFrom(ps', files, process, i + 1).term
             == Deferred(ps'.term, CommandsFrom(files, process, i + 1, n)).(log := ps'.term.log + Expected(files, process, i + 1, n))
    ensures var n := ProcessedCount(files, process, ps.term.exceptionOnFail, i);
            ProcessFrom(ps, files, process, i).term
            == Deferred(ps.term, CommandsFrom(files, process, i, n)).(log := ps.term.log + Expected(files, process, i, n))
  {
    var step := process(files[i]);
    var n := ProcessedCount(files, process, ps.term.exceptionOnFail, i + 1);
    var fin := [FileFinished(files[i], step.completion == Completed)];
    StepInTransaction(ps, files[i], step);
    var rest := CommandsFrom(files, process, i + 1, n);
    var exp := ps.term.log + Expected(files, process, i, n);
    assert ps.term.log + fin + Expected(files, process, i + 1, n) == exp;
    DeferredConcat(ps.term, step.commands, rest, ps.term.log + fin, exp);
  }

  lemma {:induction false} ProcessFromInTransaction(ps: ProcessState, files: seq<string>, process: string -> FileStep, i: nat)
    requires !ps.cancelled && !ps.raised && i <= |files|
    requires InTransactionSpec(ps.term)
    requires forall k :: i <= k < |files| ==> process(files[k]).completion != Failed(true)
    ensures var n := ProcessedCount(files, process, ps.term.exceptionOnFail, i);
            ProcessFrom(ps, files, process, i).term
            == Deferred(ps.term, CommandsFrom(files, process, i, n)).(log := ps.term.log + Expected(files, process, i, n))
    decreases |files| - i
  {
    if i == |files| {
      assert Deferred(ps.term, []) == ps.term;
    } else {
      var step := process(files[i]);
      if Stops(step, ps.term.exceptionOnFail) {
        LastInTransaction(ps, files, process, i);
      } else {
        StepInTransaction(ps, files[i], step);
        StepFlags(ps, files[i], step);
        ProcessFromInTransaction(StepSpec(ps, files[i], step), files, process, i + 1);
        ContinueInTransaction(ps, files, process, i);
      }
    }
  }

  lemma EndOnlyReads(s: TerminalState)
    ensures Finishes(EndSpec(s).state.log) == Finishes(s.log)
    ensures EndSpec(s).state.inTransaction == if s.inTransaction == 0 then 0 else s.inTransaction - 1
  {
    if s.inTransaction > 0 && s.active && s.inTransaction == 1 {
      var d := s.(inTransaction := 0);
      var a := if d.readCurrentDirectoryPending then ReadCurrentDirectorySpec(d) else d;
      if d.readCurrentDirectoryPending {
        AppendOther(d.log, CurrentDirectoryRead);
      }
      if a.readDirectoryPending {
        AppendOther(a.log, DirectoryRead(!a.readCurrentDirectoryPending));
      }
    }
  }

  /** The loop runs to the end without stopping exactly when no file stops it. */
  lemma RunsThrough(files: seq<string>, process: string -> FileStep, eof: nat, i: nat)
    requires i <= |files|
    ensures var n := ProcessedCount(files, process, eof, i);
            !(i < n && Stops(process(files[n - 1]), eof))
            <==> forall k :: i <= k < |files| ==> !Stops(process(files[k]), eof)
  {
  }

  /** Opening keeps the counters but one more transaction for remote files. */
  lemma OpeningFacts(s: TerminalState, files: seq<string>, side: OperationSide)
    ensures var t := ProcessOpening(s, files, side);
            Finishes(t.log) == Finishes(s.log)
            && t.exceptionOnFail == s.exceptionOnFail
            && t.inTransaction == if side == RemoteSide then s.inTransaction + 1 else s.inTransaction
  {
    AppendOther(s.log, ProgressStarted(|files|));
  }

  /** Closing adds no finish event and ends the transaction opening began. */
  lemma ClosingFacts(t: TerminalState, side: OperationSide)
    ensures Finishes(ProcessClosing(t, side).log) == Finishes(t.log)
    ensures side == RemoteSide && t.inTransaction > 0 ==> ProcessClosing(t, side).inTransaction == t.inTransaction - 1
    ensures side != RemoteSide ==> ProcessClosing(t, side).inTransaction == t.inTransaction
  {
    EndOnlyReads(t);
    var t2 := if side == RemoteSide then EndSpec(t).state else t;
    AppendOther(t2.log, ProgressStopped);
  }

  lemma ProcessFilesFinishes(s: TerminalState, files: seq<string>, side: OperationSide, process: string -> FileStep)
    ensures var r := ProcessFilesSpec(s, files, side, process);
            Finishes(r.state.log) == Finishes(s.log) + Expected(files, process, 0, ProcessedCount(files, process, s.exceptionOnFail, 0))
            && r.state.inTransaction == s.inTransaction
  {
    var t1 := ProcessOpening(s, files, side);
    OpeningFacts(s, files, side);
    var ps := ProcessFrom(ProcessState(t1, false, false), files, process, 0);
    ProcessFromFinishes(ProcessState(t1, false, false), files, process, 0);
    ClosingFacts(ps.term, side);
  }

  lemma ProcessFilesResultMeaning(s: TerminalState, files: seq<string>, side: OperationSide, process: string -> FileStep)
    ensures var r := ProcessFilesSpec(s, files, side, process);
            var eof := s.exceptionOnFail;
            var n := ProcessedCount(files, process, eof, 0);
            (r.outcome == Raised <==> 0 < n && Raises(process(files[n - 1]), eof))
            && (r.outcome == Returned(true) <==> forall k :: 0 <= k < |files| ==> !Stops(process(files[k]), eof))
  {
    var t1 := ProcessOpening(s, files, side);
    OpeningFacts(s, files, side);
    RunsThrough(files, process, s.exceptionOnFail, 0);
    ProcessFromFlags(ProcessState(t1, false, false), files, process, 0);
  }

  /** ProcessFiles: one finish event per file handed over, in order; the
      transaction depth is restored; the run raises exactly when the last
      file handed over raised, and returns true exactly when no file was
      cancelled or raised. */
  lemma ProcessFilesOutcome(s: TerminalState, files: seq<string>, side: OperationSide, process: string -> FileStep)
    ensures var r := ProcessFilesSpec(s, files, side, process);
            var eof := s.exceptionOnFail;
            var n := ProcessedCount(files, process, eof, 0);
            Finishes(r.state.log) == Finishes(s.log) + Expected(files, process, 0, n)
            && r.state.inTransaction == s.inTransaction
            && (r.outcome == Raised <==> 0 < n && Raises(process(files[n - 1]), eof))
            && (r.outcome == Returned(true) <==> forall k :: 0 <= k < |files| ==> !Stops(process(files[k]), eof))
  {
    ProcessFilesFinishes(s, files, side, process);
    ProcessFilesResultMeaning(s, files, side, process);
  }

  /** With errors not raised and no other failure, a skipped file never
      ends the run; with nothing cancelled either, every file is finished. */
  lemma SkipsAreSwallowed(s: TerminalState, files: seq<string>, side: OperationSide, process: string -> FileStep)
    requires s.exceptionOnFail == 0
    requires forall k :: 0 <= k < |files| ==> !process(files[k]).completion.Failed?
    ensures var r := ProcessFilesSpec(s, files, side, process);
            r.outcome.Returned?
            && ((forall k :: 0 <= k < |files| ==> !process(files[k]).cancel)
                ==> r.outcome == Returned(true)
                    && Finishes(r.state.log) == Finishes(s.log) + Expected(files, process, 0, |files|))
  {
    ProcessFilesOutcome(s, files, side, process);
  }

  /** A remote batch started outside any transaction reads directories only
      once, after the last file and before the progress stops. */
  lemma RemoteBatchReadsOnceAtEnd(s: TerminalState, files: seq<string>, process: string -> FileStep)
    requires s.inTransaction == 0 && !s.suspendTransaction && s.active
    requires forall k :: 0 <= k < |files| ==> process(files[k]).completion != Failed(true)
    ensures var n := ProcessedCount(files, process, s.exceptionOnFail, 0);
            var cmds := CommandsFrom(files, process, 0, n);
            ProcessFilesSpec(s, files, RemoteSide, process).state
            == s.(readCurrentDirectoryPending := false, readDirectoryPending := false,
                  log := s.log + [ProgressStarted(|files|)] + Expected(files, process, 0, n)
                         + FlushEvents(AnyChangesDirectory(cmds),
                             s.autoReadDirectory && (AnyChangesDirectory(cmds)
                               || (s.autoReadDirectoryAfterOp && AnyModifiesFiles(cmds))))
                         + [ProgressStopped])
  {
    var n := ProcessedCount(files, process, s.exceptionOnFail, 0);
    var cmds := CommandsFrom(files, process, 0, n);
    var t0 := s.(log := s.log + [ProgressStarted(|files|)]);
    var t1 := BeginSpec(t0);
    ProcessFromInTransaction(ProcessState(t1, false, false), files, process, 0);
    var ps := ProcessFrom(ProcessState(t1, false, false), files, process, 0);
    assert ps.term == Deferred(t1, cmds).(log := t1.log + Expected(files, process, 0, n));
    OutermostEndFlushes(ps.term);
    assert ProcessFilesSpec(s, files, RemoteSide, process).state
        == EndSpec(ps.term).state.(log := EndSpec(ps.term).state.log + [ProgressStopped]);
  }

  // ----- a worked example ----------------------------------------------------

  function Upload(completion: Completion): FileStep
  {
    FileStep([FsCopyToRemote], completion, false)
  }

  function ThreeFiles(name: string): FileStep
  {
    if name == "b" then Upload(SkipRaised) else Upload(Completed)
  }

  const IdleSession := TerminalState(0, false, false, false, true, true, 0, true, [])

  lemma {:induction false} ThreeFilesCount(eof: nat)
    ensures ProcessedCount(["a", "b", "c"], ThreeFiles, eof, 0) == if eof == 0 then 3 else 2
  {
    var files := ["a", "b", "c"];
    assert ThreeFiles(files[0]) == Upload(Completed);
    assert ThreeFiles(files[1]) == Upload(SkipRaised);
    assert ThreeFiles(files[2]) == Upload(Completed);
  }

  lemma ThreeFilesTrace(n: nat)
    requires 2 <= n <= 3
    ensures Expected(["a", "b", "c"], ThreeFiles, 0, n)
         == [FileFinished("a", true), FileFinished("b", false)] + (if n == 3 then [FileFinished("c", true)] else [])
    ensures var cmds := CommandsFrom(["a", "b", "c"], ThreeFiles, 0, n);
            AnyModifiesFiles(cmds) && !AnyChangesDirectory(cmds)
  {
    var files := ["a", "b", "c"];
    assert ThreeFiles(files[0]) == Upload(Completed);
    assert ThreeFiles(files[1]) == Upload(SkipRaised);
    assert ThreeFiles(files[2]) == Upload(Completed);
    var cmds := CommandsFrom(files, ThreeFiles, 0, n);
    assert cmds == if n == 3 then [FsCopyToRemote, FsCopyToRemote, FsCopyToRemote] else [FsCopyToRemote, FsCopyToRemote];
    assert ModifiesFiles(cmds[0]);
  }

  /** Three uploads, the second skipped: all three are finished, the run
      returns true and the listing is reread once, at the end. */
  lemma SkippedUploadExample()
    ensures ProcessFilesSpec(IdleSession, ["a", "b", "c"], RemoteSide, ThreeFiles)
         == ProcessFilesResult(
              IdleSession.(log := [ProgressStarted(3), FileFinished("a", true), FileFinished("b", false),
                                   FileFinished("c", true), DirectoryRead(true), ProgressStopped]),
              Returned(true))
  {
    var files := ["a", "b", "c"];
    ThreeFilesCount(0);
    ThreeFilesTrace(3);
    RemoteBatchReadsOnceAtEnd(IdleSession, files, ThreeFiles);
    ProcessFilesResultMeaning(IdleSession, files, RemoteSide, ThreeFiles);
    assert ThreeFiles(files[2]) == Upload(Completed);
  }

  /** The same run with errors to be raised stops at the skipped file. */
  lemma SkippedUploadRaisesExample()
    ensures ProcessFilesSpec(IdleSession.(exceptionOnFail := 1), ["a", "b", "c"], RemoteSide, ThreeFiles)
         == ProcessFilesResult(
              IdleSession.(exceptionOnFail := 1,
                           log := [ProgressStarted(3), FileFinished("a", true), FileFinished("b", false),
                                   DirectoryRead(true), ProgressStopped]),
              Raised)
  {
    var s := IdleSession.(exceptionOnFail := 1);
    var files := ["a", "b", "c"];
    ThreeFilesCount(1);
    ThreeFilesTrace(2);
    RemoteBatchReadsOnceAtEnd(s, files, ThreeFiles);
    ProcessFilesResultMeaning(s, files, RemoteSide, ThreeFiles);
    assert ThreeFiles(files[1]) == Upload(SkipRaised);
  }
}
