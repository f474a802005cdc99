// The "keep remote directory up to date" controller
// (TSynchronizeController): it starts and stops a change monitor over a
// local directory tree, maps every changed local directory to its remote
// counterpart, asks the synchronize callback to bring it over, decides
// whether the watched subdirectories changed, filters which directories
// are watched and routes errors to the abort callback.
//
// The disc monitor, the synchronize, invalid and abort callbacks and the
// log sink are outside the model: what the controller hands to them is
// recorded as events, and what they hand back is an input.

module Controller {
  import opened Paths
  import opened Checklist
  import opened Collect

  /** The parts of TSynchronizeParamType the controller reads: the two
      root directories and the soRecurse and soSynchronize flags. */
  datatype ControllerParams = ControllerParams(
    localDirectory: string,
    remoteDirectory: string,
    recurse: bool,
    synchronize: bool)

  /** The controller's TDiscMonitor: none, open, or closed by an abort. */
  datatype MonitorState = NoMonitor | MonitorOpen | MonitorClosed

  /** TSynchronizeLogEntry. */
  datatype LogEntry = SlScan | SlStart | SlChange | SlUpload | SlDelete | SlDirChange

  /** The argument of a formatted log message. */
  datatype LogMessage = PathMessage(path: string) | CountMessage(count: nat)

  /** What the controller hands to the code around it. */
  datatype ControllerEvent =
    | Logged(entry: LogEntry, message: LogMessage)
    | SynchronizeCalled(local: string, remote: string, options: OptionalOptions, full: bool)
    | MonitorClosedEvent
    | AbortCalled(close: bool)
    | InvalidReported(directory: string, error: string)

  datatype ControllerState = ControllerState(
    hasOnSynchronize: bool,
    hasOnInvalid: bool,
    options: OptionalOptions,
    params: ControllerParams,
    copyParam: CopyParam,
    monitor: MonitorState,
    hasLog: bool,
    events: seq<ControllerEvent>)

  /** A default-constructed copy parameter: every transfer allowed, names kept. */
  function DefaultCopyParam(): CopyParam
  {
    CopyParam((name: string, side: OperationSide, isDirectory: bool, size: int, modification: int) => true,
              (name: string, side: OperationSide) => name)
  }

  function InitialState(hasOnSynchronize: bool, hasOnInvalid: bool): ControllerState
  {
    ControllerState(hasOnSynchronize, hasOnInvalid, NoOptions, ControllerParams([], [], false, false),
                    DefaultCopyParam(), NoMonitor, false, [])
  }

  // ----- SynchronizeLog / LogOperation --------------------------------------

  /** A message reaches the log only when a log sink is installed. */
  function LogSpec(s: ControllerState, entry: LogEntry, message: LogMessage): ControllerState
  {
    if s.hasLog then s.(events := s.events + [Logged(entry, message)]) else s
  }

  /** TSynchronizeOperation. */
  datatype SynchronizeOperation = SoUpload | SoDelete

  /** Deletions are logged as deletions, everything else as uploads. */
  function LogEntryFor(op: SynchronizeOperation): (e: LogEntry)
    ensures e == SlDelete <==> op == SoDelete
    ensures e == SlUpload <==> op != SoDelete
  {
    match op
    case SoDelete => SlDelete
    case SoUpload => SlUpload
  }

  // ----- SynchronizeAbort / SynchronizeInvalid ------------------------------

  /** The monitor, if there is one, is closed; then the abort callback runs. */
  function AbortSpec(s: ControllerState, close: bool): ControllerState
  {
    var closed := if s.monitor.NoMonitor? then s
                  else s.(monitor := MonitorClosed, events := s.events + [MonitorClosedEvent]);
    closed.(events := closed.events + [AbortCalled(close)])
  }

  /** The events of an abort: closing the monitor when there is one, then
      the abort callback. */
  function AbortEvents(monitor: MonitorState, close: bool): seq<ControllerEvent>
  {
    (if monitor.NoMonitor? then [] else [MonitorClosedEvent]) + [AbortCalled(close)]
  }

  /** A monitor found invalid is reported, when a handler is installed, and
      the synchronisation is aborted without closing the session. */
  function InvalidSpec(s: ControllerState, directory: string, error: string): ControllerState
  {
    var reported := if s.hasOnInvalid then s.(events := s.events + [InvalidReported(directory, error)]) else s;
    AbortSpec(reported, false)
  }

  // ----- SynchronizeChange --------------------------------------------------

  /** The remote directory of a changed local directory: the remote root
      with a trailing '/', followed by the part of the local path past the
      local root in Unix form.  (A path shorter than the root takes
      nothing past it.) */
  function RemoteDirectoryFor(rootLocal: string, remoteRoot: string, local: string): (r: string)
    ensures IsPrefix(UnixIncludeTrailingBackslash(remoteRoot), r)
    ensures forall k :: |UnixIncludeTrailingBackslash(remoteRoot)| <= k < |r| ==> r[k] != Backslash
    ensures EndsWith(local, Backslash) ==> EndsWith(r, Slash)
  {
    var rest := if |local| >= |rootLocal| then local[|rootLocal|..] else [];
    UnixIncludeTrailingBackslash(remoteRoot) + ToUnixPath(rest)
  }

  /** The call made to the synchronize callback for a changed directory:
      the synchronize options go only with the root directory itself. */
  function ChangeCall(s: ControllerState, directory: string): (c: ControllerEvent)
    ensures c.SynchronizeCalled? && !c.full
    ensures c.local == IncludeTrailingBackslash(directory)
    ensures c.options != NoOptions ==> c.local == IncludeTrailingBackslash(s.params.localDirectory)
    ensures c.local == IncludeTrailingBackslash(s.params.localDirectory) ==> c.options == s.options
    ensures c.local == IncludeTrailingBackslash(s.params.localDirectory)
            ==> c.remote == UnixIncludeTrailingBackslash(s.params.remoteDirectory)
  {
    var rootLocal := IncludeTrailingBackslash(s.params.localDirectory);
    var local := IncludeTrailingBackslash(directory);
    var options := if local == rootLocal then s.options else NoOptions;
    SynchronizeCalled(local, RemoteDirectoryFor(rootLocal, s.params.remoteDirectory, local), options, false)
  }

  /** The checklist the synchronize callback hands back, if any. */
  datatype ChecklistResult = NoChecklist | WithChecklist(items: seq<Item>)

  /** How the synchronize callback ends: it raises (fatally or not) or it
      returns. */
  datatype SynchronizeResponse = SynchronizeRaised(fatal: bool) | SynchronizeReturned(checklist: ChecklistResult)

  /** Some directory of the checklist is new locally or gone locally. */
  predicate SubdirsChangedIn(items: seq<Item>)
  {
    exists k :: 0 <= k < |items| && items[k].isDirectory && (items[k].action == UploadNew || items[k].action == DeleteRemote)
  }

  datatype ChangeResult = ChangeResult(state: ControllerState, subdirsChanged: bool)

  function ChangeSpec(s: ControllerState, directory: string, response: SynchronizeResponse, subdirsChanged: bool): ChangeResult
  {
    var local := IncludeTrailingBackslash(directory);
    var logged := LogSpec(s, SlChange, PathMessage(ExcludeTrailingBackslash(local)));
    if !s.hasOnSynchronize then ChangeResult(logged, subdirsChanged)
    else
      var called := logged.(events := logged.events + [ChangeCall(s, directory)]);
      match response
      case SynchronizeRaised(fatal) => ChangeResult(AbortSpec(called, fatal), subdirsChanged)
      case SynchronizeReturned(NoChecklist) => ChangeResult(called, subdirsChanged)
      case SynchronizeReturned(WithChecklist(items)) => ChangeResult(called, s.params.recurse && SubdirsChangedIn(items))
  }

  /** The loop over the returned checklist: stops at the first directory
      item that is new locally or gone locally. */
  method ScanSubdirsChanged(items: seq<Item>) returns (changed: bool)
    ensures changed <==> SubdirsChangedIn(items)
  {
    var index := 0;
    while index < |items|
      invariant 0 <= index <= |items|
      invariant forall k :: 0 <= k < index
                  ==> !(items[k].isDirectory && (items[k].action == UploadNew || items[k].action == DeleteRemote))
    {
      var item := items[index];
      if item.isDirectory {
        if item.action == UploadNew || item.action == DeleteRemote {
          return true;
        }
      }
      index := index + 1;
    }
    return false;
  }

  // ----- StartStop ----------------------------------------------------------

  /** Where starting fails, if it does: in the initial full synchronisation
      or while setting up and opening the monitor. */
  datatype StartFailure = StartSucceeds | InitialSynchronizeFails | MonitorFails

  datatype StartStopResult = StartStopResult(state: ControllerState, raised: bool)

  function StartSpec(s: ControllerState, params: ControllerParams, copyParam: CopyParam, options: OptionalOptions,
                     hasLog: bool, watched: nat, failure: StartFailure): StartStopResult
  {
    var s1 := s.(hasLog := hasLog, options := options);
    var callsFull := params.synchronize && s.hasOnSynchronize;
    var s2 := if callsFull
              then s1.(events := s1.events + [SynchronizeCalled(params.localDirectory, params.remoteDirectory, options, true)])
              else s1;
    if callsFull && failure.InitialSynchronizeFails? then StartStopResult(s2.(monitor := NoMonitor), true)
    else OpenMonitorSpec(s2.(copyParam := copyParam, params := params), watched, failure)
  }

  /** The second half of a start, once the parameters are stored: log the
      scan of a recursive watch, then open the monitor or fail. */
  function OpenMonitorSpec(s: ControllerState, watched: nat, failure: StartFailure): StartStopResult
  {
    var s1 := if s.params.recurse then LogSpec(s, SlScan, PathMessage(s.params.localDirectory)) else s;
    if failure.MonitorFails? then StartStopResult(s1.(monitor := NoMonitor), true)
    else StartStopResult(LogSpec(s1.(monitor := MonitorOpen), SlStart, CountMessage(watched)), false)
  }

  /** Stopping forgets the options and destroys the monitor. */
  function StopSpec(s: ControllerState): ControllerState
  {
    s.(options := NoOptions, monitor := NoMonitor)
  }

  // ----- the controller object ----------------------------------------------

  class SynchronizeController {
    const hasOnSynchronize: bool
    const hasOnInvalid: bool
    var options: OptionalOptions
    var params: ControllerParams
    var copyParam: CopyParam
    var monitor: MonitorState
    var hasLog: bool
    var events: seq<ControllerEvent>

    function State(): ControllerState
      reads this
    {
      ControllerState(hasOnSynchronize, hasOnInvalid, options, params, copyParam, monitor, hasLog, events)
    }

    constructor(hasOnSynchronize: bool, hasOnInvalid: bool)
      ensures State() == InitialState(hasOnSynchronize, hasOnInvalid)
    {
      this.hasOnSynchronize := hasOnSynchronize;
      this.hasOnInvalid := hasOnInvalid;
      options := NoOptions;
      params := ControllerParams([], [], false, false);
      copyParam := DefaultCopyParam();
      monitor := NoMonitor;
      hasLog := false;
      events := [];
    }

    /** Start: install the log sink and the options, run the initial full
        synchronisation when asked to, remember the parameters, and open
        the monitor; a failure destroys the monitor and propagates.  Stop:
        forget the options and destroy the monitor. */
    method StartStop(start: bool, params: ControllerParams, copyParam: CopyParam, options: OptionalOptions,
                     hasLog: bool, watched: nat, failure: StartFailure)
      returns (raised: bool)
      modifies this
      ensures start ==> StartStopResult(State(), raised)
                        == StartSpec(old(State()), params, copyParam, options, hasLog, watched, failure)
      ensures !start ==> State() == StopSpec(old(State())) && !raised
    {
      if start {
        raised := Start(params, copyParam, options, hasLog, watched, failure);
      } else {
        Stop();
        raised := false;
      }
    }

    /** The start branch of StartStop. */
    method Start(params: ControllerParams, copyParam: CopyParam, options: OptionalOptions,
                 hasLog: bool, watched: nat, failure: StartFailure)
      returns (raised: bool)
      modifies this
      ensures StartStopResult(State(), raised) == StartSpec(old(State()), params, copyParam, options, hasLog, watched, failure)
    {
      this.hasLog := hasLog;
      this.options := options;
      if params.synchronize && hasOnSynchronize {
        events := events + [SynchronizeCalled(params.localDirectory, params.remoteDirectory, options, true)];
        if failure.InitialSynchronizeFails? {
          monitor := NoMonitor;
          return true;
        }
      }
      this.copyParam := copyParam;
      this.params := params;
      raised := OpenMonitor(watched, failure);
    }

    /** Log the scan, create and open the monitor, log the start. */
    method OpenMonitor(watched: nat, failure: StartFailure) returns (raised: bool)
      modifies this
      ensures StartStopResult(State(), raised) == OpenMonitorSpec(old(State()), watched, failure)
    {
      if params.recurse {
        SynchronizeLog(SlScan, PathMessage(params.localDirectory));
      }
      if failure.MonitorFails? {
        monitor := NoMonitor;
        return true;
      }
      monitor := MonitorOpen;
      SynchronizeLog(SlStart, CountMessage(watched));
      raised := false;
    }

    /** The stop branch of StartStop. */
    method Stop()
      modifies this
      ensures State() == StopSpec(old(State()))
    {
      this.options := NoOptions;
      monitor := NoMonitor;
    }

    /** A change in a watched directory. */
    method SynchronizeChange(directory: string, response: SynchronizeResponse, subdirsChangedIn: bool)
      returns (subdirsChanged: bool)
      modifies this
      ensures ChangeResult(State(), subdirsChanged) == ChangeSpec(old(State()), directory, response, subdirsChangedIn)
    {
      ghost var s0 := State();
      var rootLocal := IncludeTrailingBackslash(params.localDirectory);
      var remote := UnixIncludeTrailingBackslash(params.remoteDirectory);
      var local := IncludeTrailingBackslash(directory);
      remote := RemoteDirectoryFor(rootLocal, params.remoteDirectory, local);
      SynchronizeLog(SlChange, PathMessage(ExcludeTrailingBackslash(local)));
      subdirsChanged := subdirsChangedIn;
      if hasOnSynchronize {
        var passed := if local == rootLocal then options else NoOptions;
        events := events + [SynchronizeCalled(local, remote, passed, false)];
        assert events == LogSpec(s0, SlChange, PathMessage(ExcludeTrailingBackslash(local))).events + [ChangeCall(s0, directory)];
        match response {
          case SynchronizeRaised(fatal) =>
            SynchronizeAbort(fatal);
          case SynchronizeReturned(checklist) =>
            if checklist.WithChecklist? {
              if params.recurse {
                subdirsChanged := ScanSubdirsChanged(checklist.items);
              } else {
                subdirsChanged := false;
              }
            }
        }
      }
    }

    method SynchronizeAbort(close: bool)
      modifies this
      ensures State() == AbortSpec(old(State()), close)
    {
      if !monitor.NoMonitor? {
        monitor := MonitorClosed;
        events := events + [MonitorClosedEvent];
      }
      events := events + [AbortCalled(close)];
    }

    method LogOperation(operation: SynchronizeOperation, fileName: string)
      modifies this
      ensures State() == LogSpec(old(State()), LogEntryFor(operation), PathMessage(fileName))
    {
      SynchronizeLog(LogEntryFor(operation), PathMessage(fileName));
    }

    method SynchronizeLog(entry: LogEntry, message: LogMessage)
      modifies this
      ensures State() == LogSpec(old(State()), entry, message)
    {
      if hasLog {
        events := events + [Logged(entry, message)];
      }
    }

    /** The monitor now watches a different number of directories. */
    method SynchronizeDirectoriesChange(directories: nat)
      modifies this
      ensures State() == LogSpec(old(State()), SlDirChange, CountMessage(directories))
    {
      SynchronizeLog(SlDirChange, CountMessage(directories));
    }

    method SynchronizeInvalid(directory: string, error: string)
      modifies this
      ensures State() == InvalidSpec(old(State()), directory, error)
    {
      if hasOnInvalid {
        events := events + [InvalidReported(directory, error)];
      }
      SynchronizeAbort(false);
    }

    /** A filter list is in force. */
    predicate FilterPresent()
      reads this
    {
      options.WithOptions? && options.options.filter.Filter?
    }

    /** Whether the monitor should watch a directory: a direct child of the
        root is watched only when the filter, if there is one, lists its
        name; every directory must also pass the transfer masks. */
    function SynchronizeFilter(directoryName: string, add: bool): (r: bool)
      reads this
      ensures r ==> copyParam.allowTransfer(directoryName, LocalSide, true, 0, 0)
      ensures FilterPresent() && IsDirectChild(params.localDirectory, directoryName)
              ==> (r <==> MatchesFilter(options.options, ExtractFileName(directoryName))
                          && copyParam.allowTransfer(directoryName, LocalSide, true, 0, 0))
      ensures !(FilterPresent() && IsDirectChild(params.localDirectory, directoryName))
              ==> (r <==> add && copyParam.allowTransfer(directoryName, LocalSide, true, 0, 0))
    {
      var add' := if FilterPresent() && IsDirectChild(params.localDirectory, directoryName)
                  then MatchesFilter(options.options, ExtractFileName(directoryName))
                  else add;
      add' && copyParam.allowTransfer(directoryName, LocalSide, true, 0, 0)
    }
  }

  /** The directory part of `directoryName` is the root directory. */
  predicate IsDirectChild(root: string, directoryName: string)
  {
    IncludeTrailingBackslash(ExtractFilePath(directoryName)) == IncludeTrailingBackslash(root)
  }
}
