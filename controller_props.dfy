// Properties of the change-monitor controller.

module ControllerProperties {
  import opened Paths
  import opened Checklist
  import opened Collect
  import opened Controller

  // ----- the remote counterpart of a local directory -------------------------

  lemma ToUnixPathConcat(a: string, b: string)
    ensures ToUnixPath(a + b) == ToUnixPath(a) + ToUnixPath(b)
  {
    var l := ToUnixPath(a + b);
    var r := ToUnixPath(a) + ToUnixPath(b);
    assert |l| == |r|;
    forall k | 0 <= k < |l|
      ensures l[k] == r[k]
    {
      if k < |a| {
        assert (a + b)[k] == a[k];
      } else {
        assert (a + b)[k] == b[k - |a|];
      }
    }
  }

  /** A directory below the local root maps to the remote root followed by
      its relative path in Unix form; the root itself maps to the remote
      root. */
  lemma MapsRelativePath(rootLocal: string, remoteRoot: string, rel: string)
    ensures RemoteDirectoryFor(rootLocal, remoteRoot, rootLocal + rel)
         == UnixIncludeTrailingBackslash(remoteRoot) + ToUnixPath(rel)
    ensures RemoteDirectoryFor(rootLocal, remoteRoot, rootLocal) == UnixIncludeTrailingBackslash(remoteRoot)
  {
    assert (rootLocal + rel)[|rootLocal|..] == rel;
    assert rootLocal[|rootLocal|..] == [];
  }

  /** A subdirectory maps to a subdirectory: extending the local path
      extends the remote path by the extension in Unix form. */
  lemma SubdirectoryMapsBelow(rootLocal: string, remoteRoot: string, local: string, more: string)
    requires |local| >= |rootLocal|
    ensures RemoteDirectoryFor(rootLocal, remoteRoot, local + more)
         == RemoteDirectoryFor(rootLocal, remoteRoot, local) + ToUnixPath(more)
  {
    assert (local + more)[|rootLocal|..] == local[|rootLocal|..] + more;
    ToUnixPathConcat(local[|rootLocal|..], more);
  }

  // ----- error routing ---------------------------------------------------------

  /** Aborting closes the monitor, when there is one, before the abort
      callback runs, and changes nothing else. */
  lemma AbortClosesMonitorFirst(s: ControllerState, close: bool)
    ensures var r := AbortSpec(s, close);
            r.events == s.events + AbortEvents(s.monitor, close)
            && r.monitor == (if s.monitor.NoMonitor? then NoMonitor else MonitorClosed)
            && r.(events := s.events, monitor := s.monitor) == s
  {
  }

  /** An invalid monitor is reported, if a handler is installed, and then
      the synchronisation is aborted with Close = false. */
  lemma InvalidAbortsWithoutClosing(s: ControllerState, directory: string, error: string)
    ensures var r := InvalidSpec(s, directory, error);
            r.events == s.events + (if s.hasOnInvalid then [InvalidReported(directory, error)] else [])
                        + AbortEvents(s.monitor, false)
            && r.monitor != MonitorOpen
            && r.(events := s.events, monitor := s.monitor) == s
  {
  }

  /** An exception in the synchronize callback becomes an abort whose Close
      flag says whether it was fatal; the subdirectories flag is left as it
      was. */
  lemma ChangeErrorAborts(s: ControllerState, directory: string, fatal: bool, subdirsChanged: bool)
    requires s.hasOnSynchronize
    ensures var r := ChangeSpec(s, directory, SynchronizeRaised(fatal), subdirsChanged);
            var logged := LogSpec(s, SlChange, PathMessage(ExcludeTrailingBackslash(IncludeTrailingBackslash(directory))));
            r.state.events == logged.events + [ChangeCall(s, directory)] + AbortEvents(s.monitor, fatal)
            && r.state.monitor != MonitorOpen
            && r.subdirsChanged == subdirsChanged
  {
  }

  /** Handling a change only appends events and, on an error, closes the
      monitor: options, parameters and log sink stay as they were. */
  lemma ChangeKeepsSettings(s: ControllerState, directory: string, response: SynchronizeResponse, subdirsChanged: bool)
    ensures var r := ChangeSpec(s, directory, response, subdirsChanged).state;
            r.(events := s.events, monitor := s.monitor) == s
            && |s.events| <= |r.events| && r.events[..|s.events|] == s.events
            && (r.monitor == s.monitor || r.monitor == MonitorClosed)
  {
    var logged := LogSpec(s, SlChange, PathMessage(ExcludeTrailingBackslash(IncludeTrailingBackslash(directory))));
    assert logged.(events := s.events) == s;
    assert logged.events[..|s.events|] == s.events;
    if s.hasOnSynchronize {
      var called := logged.(events := logged.events + [ChangeCall(s, directory)]);
      assert called.events[..|s.events|] == s.events;
      if response.SynchronizeRaised? {
        AbortClosesMonitorFirst(called, response.fatal);
        var a := AbortSpec(called, response.fatal);
        assert a.events[..|s.events|] == (called.events + AbortEvents(called.monitor, response.fatal))[..|s.events|];
      }
    }
  }

  /** A returned checklist decides the subdirectories flag: with recursion
      it says whether some directory is new or gone locally, without it is
      false; no checklist leaves the flag alone. */
  lemma ChangeDecidesSubdirs(s: ControllerState, directory: string, response: SynchronizeResponse, subdirsChanged: bool)
    requires s.hasOnSynchronize && response.SynchronizeReturned?
    ensures var r := ChangeSpec(s, directory, response, subdirsChanged);
            (response.checklist.NoChecklist? ==> r.subdirsChanged == subdirsChanged)
            && (response.checklist.WithChecklist? && !s.params.recurse ==> !r.subdirsChanged)
            && (response.checklist.WithChecklist? && s.params.recurse
                ==> (r.subdirsChanged
                     <==> exists k :: 0 <= k < |response.checklist.items|
                                      && response.checklist.items[k].isDirectory
                                      && response.checklist.items[k].action in {UploadNew, DeleteRemote}))
  {
  }

  // ----- starting and stopping -------------------------------------------------

  /** Starting raises exactly when a step fails; a failure leaves no
      monitor, success leaves it open; the options and the log sink are
      installed either way, the parameters only once the initial full
      synchronisation is over. */
  lemma StartOutcome(s: ControllerState, params: ControllerParams, copyParam: CopyParam, options: OptionalOptions,
                     hasLog: bool, watched: nat, failure: StartFailure)
    ensures var r := StartSpec(s, params, copyParam, options, hasLog, watched, failure);
            var failsInitial := failure.InitialSynchronizeFails? && params.synchronize && s.hasOnSynchronize;
            (r.raised <==> failsInitial || failure.MonitorFails?)
            && r.state.monitor == (if r.raised then NoMonitor else MonitorOpen)
            && r.state.options == options && r.state.hasLog == hasLog
            && (!failsInitial ==> r.state.params == params && r.state.copyParam == copyParam)
            && (failsInitial ==> r.state.params == s.params && r.state.copyParam == s.copyParam)
            && |s.events| <= |r.state.events| && r.state.events[..|s.events|] == s.events
  {
  }

  /** A successful start ends by logging the number of watched directories. */
  lemma StartLogsWatchedDirectories(s: ControllerState, params: ControllerParams, copyParam: CopyParam,
                                    options: OptionalOptions, watched: nat, failure: StartFailure)
    requires !failure.MonitorFails? && !(failure.InitialSynchronizeFails? && params.synchronize && s.hasOnSynchronize)
    ensures var r := StartSpec(s, params, copyParam, options, true, watched, failure);
            !r.raised && |r.state.events| > 0 && r.state.events[|r.state.events| - 1] == Logged(SlStart, CountMessage(watched))
  {
  }

  /** Stopping forgets the options and destroys the monitor, and nothing
      else. */
  lemma StopForgets(s: ControllerState)
    ensures var r := StopSpec(s);
            r.options == NoOptions && r.monitor == NoMonitor && r.(options := s.options, monitor := s.monitor) == s
  {
  }

  /** After a successful start, a change of the root directory itself is
      synchronised with the options the controller was started with, and
      against the remote root. */
  lemma StartedRootChangeGetsOptions(s: ControllerState, params: ControllerParams, copyParam: CopyParam,
                                     options: OptionalOptions, hasLog: bool, watched: nat)
    ensures var started := StartSpec(s, params, copyParam, options, hasLog, watched, StartSucceeds).state;
            var c := ChangeCall(started, params.localDirectory);
            c.options == options && c.remote == UnixIncludeTrailingBackslash(params.remoteDirectory)
  {
  }

  // ----- directory filter ------------------------------------------------------

  lemma {:induction false} LastDelimiterPastName(p: string, name: string, delims: set<char>)
    requires p != [] && p[|p| - 1] in delims
    requires forall k :: 0 <= k < |name| ==> name[k] !in delims
    ensures LastDelimiter(p + name, delims) == |p| - 1
    decreases |name|
  {
    if name == [] {
      assert p + name == p;
    } else {
      var init := name[..|name| - 1];
      assert (p + name)[..|p + name| - 1] == p + init;
      LastDelimiterPastName(p, init, delims);
    }
  }

  lemma SplitAfterDelimiter(p: string, name: string)
    requires EndsWith(p, Backslash)
    requires forall k :: 0 <= k < |name| ==> name[k] !in {Backslash, ':'}
    ensures ExtractFilePath(p + name) == p && ExtractFileName(p + name) == name
  {
    LastDelimiterPastName(p, name, {Backslash, ':'});
    assert (p + name)[..|p|] == p;
    assert (p + name)[|p|..] == name;
  }

  /** With a filter in force, a direct child of the root is watched exactly
      when the filter lists its name and the masks allow it. */
  lemma FirstLevelDirectoryIsFiltered(c: SynchronizeController, name: string, add: bool)
    requires c.FilterPresent()
    requires forall k :: 0 <= k < |name| ==> name[k] !in {Backslash, ':'}
    ensures var dn := IncludeTrailingBackslash(c.params.localDirectory) + name;
            c.SynchronizeFilter(dn, add)
            <==> MatchesFilter(c.options.options, name) && c.copyParam.allowTransfer(dn, LocalSide, true, 0, 0)
  {
    var root := IncludeTrailingBackslash(c.params.localDirectory);
    SplitAfterDelimiter(root, name);
    assert IsDirectChild(c.params.localDirectory, root + name);
  }

  /** Below the first level the filter plays no part: the monitor's own
      decision stands, subject only to the masks. */
  lemma DeeperDirectoryIgnoresFilter(c: SynchronizeController, sub: string, name: string, add: bool)
    requires forall k :: 0 <= k < |name| ==> name[k] !in {Backslash, ':'}
    ensures var dn := IncludeTrailingBackslash(c.params.localDirectory) + sub + [Backslash] + name;
            c.SynchronizeFilter(dn, add) <==> add && c.copyParam.allowTransfer(dn, LocalSide, true, 0, 0)
  {
    var root := IncludeTrailingBackslash(c.params.localDirectory);
    var p := root + sub + [Backslash];
    assert root + sub + [Backslash] + name == p + name;
    SplitAfterDelimiter(p, name);
    assert IncludeTrailingBackslash(ExtractFilePath(p + name)) == p;
    assert |p| > |root|;
    assert !IsDirectChild(c.params.localDirectory, p + name);
  }
}
