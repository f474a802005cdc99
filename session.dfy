// The session object (TTerminal): its transaction state, the directory
// reads it performs or defers after each command, the exception-on-fail
// counter, the startup conversation and the per-file operation loop
// (ProcessFiles).
//
// The back end is not modelled: a command is reported to the session by
// the back end through ReactOnCommand, and reading the current directory
// or a listing is recorded as an event in the session log.

module Session {
  import opened Checklist

  /** TFSCommand, as far as ReactOnCommand distinguishes commands. */
  datatype FsCommand =
    | FsChangeDirectory
    | FsHomeDirectory
    | FsCopyToRemote
    | FsDeleteFile
    | FsRenameFile
    | FsMoveFile
    | FsCopyFile
    | FsCreateDirectory
    | FsChangeMode
    | FsChangeGroup
    | FsChangeOwner
    | FsChangeProperties
    | FsAnyCommand
    | FsCurrentDirectory
    | FsListDirectory
    | FsCopyToLocal
    | FsOtherCommand

  predicate ChangesDirectory(c: FsCommand)
  {
    c == FsChangeDirectory || c == FsHomeDirectory || c == FsAnyCommand
  }

  predicate ModifiesFiles(c: FsCommand)
  {
    c == FsCopyToRemote || c == FsDeleteFile || c == FsRenameFile || c == FsMoveFile
    || c == FsCopyFile || c == FsCreateDirectory || c == FsChangeMode || c == FsChangeGroup
    || c == FsChangeOwner || c == FsChangeProperties || c == FsAnyCommand
  }

  datatype SessionEvent =
    | CurrentDirectoryRead
    | DirectoryRead(reloadOnly: bool)
    | ProgressStarted(count: nat)
    | FileFinished(fileName: string, success: bool)
    | ProgressStopped

  predicate IsRead(e: SessionEvent)
  {
    e.CurrentDirectoryRead? || e.DirectoryRead?
  }

  /** The fields of TTerminal this model follows. */
  datatype TerminalState = TerminalState(
    inTransaction: nat,
    suspendTransaction: bool,
    readCurrentDirectoryPending: bool,
    readDirectoryPending: bool,
    autoReadDirectory: bool,
    autoReadDirectoryAfterOp: bool,
    exceptionOnFail: nat,
    active: bool,
    log: seq<SessionEvent>)

  predicate InTransactionSpec(s: TerminalState)
  {
    s.inTransaction > 0 && !s.suspendTransaction
  }

  function ReadCurrentDirectorySpec(s: TerminalState): TerminalState
  {
    s.(readCurrentDirectoryPending := false, log := s.log + [CurrentDirectoryRead])
  }

  function ReadDirectorySpec(s: TerminalState, reloadOnly: bool): TerminalState
  {
    s.(log := s.log + [DirectoryRead(reloadOnly)])
  }

  function ReactSpec(s: TerminalState, c: FsCommand): TerminalState
  {
    if ChangesDirectory(c) then
      if !InTransactionSpec(s) then
        var a := ReadCurrentDirectorySpec(s);
        if s.autoReadDirectory then ReadDirectorySpec(a, false) else a
      else
        s.(readCurrentDirectoryPending := true,
           readDirectoryPending := s.readDirectoryPending || s.autoReadDirectory)
    else if ModifiesFiles(c) && s.autoReadDirectory && s.autoReadDirectoryAfterOp then
      if !InTransactionSpec(s) then ReadDirectorySpec(s, true)
      else s.(readDirectoryPending := true)
    else s
  }

  /** The effect of a sequence of commands, one ReactOnCommand each. */
  function ReactAll(s: TerminalState, cmds: seq<FsCommand>): TerminalState
    decreases |cmds|
  {
    if cmds == [] then s else ReactAll(ReactSpec(s, cmds[0]), cmds[1..])
  }

  function BeginSpec(s: TerminalState): TerminalState
  {
    var t := if s.inTransaction == 0
             then s.(readCurrentDirectoryPending := false, readDirectoryPending := false) else s;
    t.(inTransaction := t.inTransaction + 1)
  }

  datatype EndResult = EndResult(state: TerminalState, ok: bool)

  /** EndTransaction: the outermost end flushes the deferred reads unless
      the connection was lost meanwhile; ending with no transaction open is
      an error and changes nothing. */
  function EndSpec(s: TerminalState): EndResult
  {
    if s.inTransaction == 0 then EndResult(s, false)
    else
      var d := s.(inTransaction := s.inTransaction - 1);
      if d.active && d.inTransaction == 0 then
        var a := if d.readCurrentDirectoryPending then ReadCurrentDirectorySpec(d) else d;
        var b := if a.readDirectoryPending then ReadDirectorySpec(a, !a.readCurrentDirectoryPending) else a;
        EndResult(b.(readCurrentDirectoryPending := false, readDirectoryPending := false), true)
      else EndResult(d, true)
  }

  datatype CounterResult = CounterResult(state: TerminalState, ok: bool)

  function SetExceptionOnFailSpec(s: TerminalState, value: bool): CounterResult
  {
    if value then CounterResult(s.(exceptionOnFail := s.exceptionOnFail + 1), true)
    else if s.exceptionOnFail == 0 then CounterResult(s, false)
    else CounterResult(s.(exceptionOnFail := s.exceptionOnFail - 1), true)
  }

  /** DoStartup: inside one transaction, ask for both reads and change to
      the configured initial directory, so that the reads happen once, last. */
  function StartupSpec(s: TerminalState, initialDirectory: string): TerminalState
  {
    var b := BeginSpec(s);
    var p := b.(readCurrentDirectoryPending := true, readDirectoryPending := b.autoReadDirectory);
    var c := if initialDirectory != [] then ReactSpec(p, FsChangeDirectory) else p;
    EndSpec(c).state
  }

  // ----- ProcessFiles ------------------------------------------------------

  /** How ProcessFile ended for one file: normally, by raising the skip
      exception, or by another exception (fatal ones close the session). */
  datatype Completion = Completed | SkipRaised | Failed(fatal: bool)

  /** What processing one file does: the commands the back end reports,
      how it ends, and whether the user asked to cancel meanwhile. */
  datatype FileStep = FileStep(commands: seq<FsCommand>, completion: Completion, cancel: bool)

  datatype ProcessState = ProcessState(term: TerminalState, cancelled: bool, raised: bool)

  datatype ProcessOutcome = Returned(result: bool) | Raised

  function StepSpec(ps: ProcessState, fileName: string, step: FileStep): ProcessState
  {
    var t1 := ReactAll(ps.term, step.commands);
    var t2 := if step.completion == Failed(true) then t1.(active := false) else t1;
    var t3 := t2.(log := t2.log + [FileFinished(fileName, step.completion == Completed)]);
    var raised := match step.completion
                  case Completed => false
                  case SkipRaised => t3.exceptionOnFail > 0
                  case Failed(_) => true;
    ProcessState(t3, ps.cancelled || step.cancel, raised)
  }

  function ProcessFrom(ps: ProcessState, files: seq<string>, process: string -> FileStep, i: nat): ProcessState
    decreases |files| - i
  {
    if i >= |files| || ps.cancelled || ps.raised then ps
    else ProcessFrom(StepSpec(ps, files[i], process(files[i])), files, process, i + 1)
  }

  datatype ProcessFilesResult = ProcessFilesResult(state: TerminalState, outcome: ProcessOutcome)

  /** Before the first file: the progress starts and, for remote files, a
      transaction is opened. */
  function ProcessOpening(s: TerminalState, files: seq<string>, side: OperationSide): TerminalState
  {
    var t0 := s.(log := s.log + [ProgressStarted(|files|)]);
    if side == RemoteSide then BeginSpec(t0) else t0
  }

  /** After the last file: the transaction, if any, is closed and the
      progress stops. */
  function ProcessClosing(t: TerminalState, side: OperationSide): TerminalState
  {
    var t2 := if side == RemoteSide then EndSpec(t).state else t;
    t2.(log := t2.log + [ProgressStopped])
  }

  function ProcessFilesSpec(s: TerminalState, files: seq<string>, side: OperationSide, process: string -> FileStep): ProcessFilesResult
  {
    var ps := ProcessFrom(ProcessState(ProcessOpening(s, files, side), false, false), files, process, 0);
    ProcessFilesResult(ProcessClosing(ps.term, side), if ps.raised then Raised else Returned(!ps.cancelled))
  }

  // ----- the session object ------------------------------------------------

  class Terminal {
    var inTransaction: nat
    var suspendTransaction: bool
    var readCurrentDirectoryPending: bool
    var readDirectoryPending: bool
    var autoReadDirectory: bool
    var autoReadDirectoryAfterOp: bool
    var exceptionOnFail: nat
    var active: bool
    var log: seq<SessionEvent>

    function State(): TerminalState
      reads this
    {
      TerminalState(inTransaction, suspendTransaction, readCurrentDirectoryPending, readDirectoryPending,
                    autoReadDirectory, autoReadDirectoryAfterOp, exceptionOnFail, active, log)
    }

    /** TTerminal::Init: closed, outside any transaction, reading
        directories automatically. */
    constructor(autoReadDirectoryAfterOp: bool)
      ensures State() == TerminalState(0, false, false, false, true, autoReadDirectoryAfterOp, 0, false, [])
    {
      inTransaction := 0;
      suspendTransaction := false;
      readCurrentDirectoryPending := false;
      readDirectoryPending := false;
      autoReadDirectory := true;
      this.autoReadDirectoryAfterOp := autoReadDirectoryAfterOp;
      exceptionOnFail := 0;
      active := false;
      log := [];
    }

    /** The successful end of Open: the session is active. */
    method Opened()
      modifies this
      ensures State() == old(State()).(active := true)
    {
      active := true;
    }

    predicate InTransaction()
      reads this
    {
      InTransactionSpec(State())
    }

    function GetExceptionOnFail(): (b: bool)
      reads this
      ensures b <==> exceptionOnFail > 0
    {
      exceptionOnFail > 0
    }

    /** HandleException: a skip is swallowed (and logged) unless errors
        are to be raised. */
    function HandleException(): (swallowed: bool)
      reads this
      ensures swallowed <==> !GetExceptionOnFail()
    {
      exceptionOnFail == 0
    }

    method ReadCurrentDirectory()
      modifies this
      ensures State() == ReadCurrentDirectorySpec(old(State()))
    {
      readCurrentDirectoryPending := false;
      log := log + [CurrentDirectoryRead];
    }

    method ReadDirectory(reloadOnly: bool)
      modifies this
      ensures State() == ReadDirectorySpec(old(State()), reloadOnly)
    {
      log := log + [DirectoryRead(reloadOnly)];
    }

    method ReactOnCommand(c: FsCommand)
      modifies this
      ensures State() == ReactSpec(old(State()), c)
    {
      ghost var s0 := State();
      var deferring := InTransaction();
      if ChangesDirectory(c) {
        if !deferring {
          assert ReactSpec(s0, c) == (var a := ReadCurrentDirectorySpec(s0);
                                      if s0.autoReadDirectory then ReadDirectorySpec(a, false) else a);
          ReadCurrentDirectory();
          if autoReadDirectory {
            ReadDirectory(false);
          }
        } else {
          readCurrentDirectoryPending := true;
          if autoReadDirectory {
            readDirectoryPending := true;
          }
        }
      } else if ModifiesFiles(c) && autoReadDirectory && autoReadDirectoryAfterOp {
        if !deferring {
          ReadDirectory(true);
        } else {
          readDirectoryPending := true;
        }
      }
    }

    method BeginTransaction()
      modifies this
      ensures State() == BeginSpec(old(State()))
    {
      if inTransaction == 0 {
        readCurrentDirectoryPending := false;
        readDirectoryPending := false;
      }
      inTransaction := inTransaction + 1;
    }

    method EndTransaction() returns (ok: bool)
      modifies this
      ensures EndResult(State(), ok) == EndSpec(old(State()))
    {
      if inTransaction == 0 {
        return false;
      }
      inTransaction := inTransaction - 1;
      if active && inTransaction == 0 {
        if readCurrentDirectoryPending {
          ReadCurrentDirectory();
        }
        if readDirectoryPending {
          ReadDirectory(!readCurrentDirectoryPending);
        }
        readCurrentDirectoryPending := false;
        readDirectoryPending := false;
      }
      return true;
    }

    method SetExceptionOnFail(value: bool) returns (ok: bool)
      modifies this
      ensures CounterResult(State(), ok) == SetExceptionOnFailSpec(old(State()), value)
    {
      if value {
        exceptionOnFail := exceptionOnFail + 1;
      } else {
        if exceptionOnFail == 0 {
          return false;
        }
        exceptionOnFail := exceptionOnFail - 1;
      }
      return true;
    }

    method DoStartup(initialDirectory: string)
      modifies this
      ensures State() == StartupSpec(old(State()), initialDirectory)
    {
      BeginTransaction();
      readCurrentDirectoryPending := true;
      readDirectoryPending := autoReadDirectory;
      if initialDirectory != [] {
        ReactOnCommand(FsChangeDirectory);
      }
      var _ := EndTransaction();
    }

    method ReactOnCommands(cmds: seq<FsCommand>)
      modifies this
      ensures State() == ReactAll(old(State()), cmds)
    {
      var k := 0;
      while k < |cmds|
        invariant 0 <= k <= |cmds|
        invariant ReactAll(old(State()), cmds) == ReactAll(State(), cmds[k..])
      {
        assert cmds[k..][1..] == cmds[k + 1..];
        ReactOnCommand(cmds[k]);
        k := k + 1;
      }
    }

    /** One file of the ProcessFiles loop: the commands it reports, the
        fatal-error close, its finish event, and whether it raises. */
    method ProcessFile(fileName: string, step: FileStep) returns (raised: bool)
      modifies this
      ensures StepSpec(ProcessState(old(State()), false, false), fileName, step) == ProcessState(State(), step.cancel, raised)
    {
      ReactOnCommands(step.commands);
      if step.completion == Failed(true) {
        // FatalError closes the connection before raising
        active := false;
      }
      log := log + [FileFinished(fileName, step.completion == Completed)];
      raised := false;
      match step.completion {
        case Completed =>
        case SkipRaised =>
          if !HandleException() {
            raised := true;
          }
        case Failed(_) =>
          raised := true;
      }
    }

    method ProcessFiles(files: seq<string>, side: OperationSide, process: string -> FileStep)
      returns (outcome: ProcessOutcome)
      modifies this
      ensures ProcessFilesResult(State(), outcome) == ProcessFilesSpec(old(State()), files, side, process)
    {
      log := log + [ProgressStarted(|files|)];
      if side == RemoteSide {
        BeginTransaction();
      }
      ghost var target := ProcessFrom(ProcessState(State(), false, false), files, process, 0);
      var index := 0;
      var cancelled := false;
      var raised := false;
      while index < |files| && !cancelled && !raised
        invariant 0 <= index <= |files|
        invariant target == ProcessFrom(ProcessState(State(), cancelled, raised), files, process, index)
      {
        var fileName := files[index];
        var step := process(fileName);
        ghost var before := ProcessState(State(), false, false);
        assert ProcessFrom(before, files, process, index)
            == ProcessFrom(StepSpec(before, fileName, step), files, process, index + 1);
        raised := ProcessFile(fileName, step);
        if step.cancel {
          cancelled := true;
        }
        index := index + 1;
      }
      assert target == ProcessState(State(), cancelled, raised);
      if side == RemoteSide {
        var _ := EndTransaction();
      }
      log := log + [ProgressStopped];
      outcome := if raised then Raised else Returned(!cancelled);
    }
  }
}
