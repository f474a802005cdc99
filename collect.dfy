// Collecting the synchronisation checklist (TTerminal::SynchronizeCollect,
// DoSynchronizeCollectDirectory, SynchronizeCollectFile).
//
// The local and the remote trees are inputs: a local directory is the
// sequence of entries FindFirst/FindNext enumerate (including "." and
// ".."), a remote directory is a node whose children are its listing.
// The transfer mask, the file-name mangling, the temporary-file test, the
// per-directory progress callback and the directory cache are parameters.
//
// The recursive functions below are the specification; the methods with
// the same structure as the source are proved to compute them.

module Collect {
  import opened Text
  import opened Paths
  import opened Checklist

  datatype SynchronizeMode = ModeRemote | ModeLocal | ModeBoth

  /** The sp* flags of the Params argument that collection reads. */
  datatype SynchronizeParams = SynchronizeParams(
    delete: bool,
    existingOnly: bool,
    noRecurse: bool,
    useCache: bool,
    delayProgress: bool,
    subDirs: bool,
    timestamp: bool,
    notByTime: bool,
    bySize: bool,
    mirror: bool,
    noConfirmation: bool)

  /** TSynchronizeOptions: an optional list of first-level names to keep. */
  datatype SynchronizeOptions = SynchronizeOptions(filter: FilterList)
  datatype FilterList = NoFilter | Filter(names: seq<string>)

  /** TSynchronizeOptions::MatchesFilter: no filter admits everything; a
      filter admits the names it lists (case-insensitively). */
  predicate MatchesFilter(options: SynchronizeOptions, fileName: string)
  {
    match options.filter
    case NoFilter => true
    case Filter(names) => exists k :: 0 <= k < |names| && SameText(names[k], fileName)
  }

  datatype OptionalOptions = NoOptions | WithOptions(options: SynchronizeOptions)

  /** The parts of TCopyParamType collection consults. */
  datatype CopyParam = CopyParam(
    allowTransfer: (string, OperationSide, bool, int, int) -> bool,
    changeFileName: (string, OperationSide) -> string)

  datatype CollectContext = CollectContext(
    mode: SynchronizeMode,
    params: SynchronizeParams,
    copyParam: CopyParam,
    temporaryTransferFile: string -> bool,
    options: OptionalOptions,
    // OnSynchronizeDirectory; false means the user cancelled.  A session
    // without the callback corresponds to the constant true.
    continueDirectory: (string, string) -> bool,
    cacheDirectories: bool,
    hasCachedFileList: string -> bool)

  datatype LocalFile = LocalFile(
    name: string, isDirectory: bool, size: int, modification: int,
    children: seq<LocalFile>)

  datatype RemoteFile = RemoteFile(
    name: string, isDirectory: bool, size: int, modification: int,
    modificationFmt: ModificationFmt, children: seq<RemoteFile>)

  /** TSynchronizeData: the directory pair being compared. */
  datatype DirData = DirData(localDirectory: string, remoteDirectory: string, firstLevel: bool)

  /** TSynchronizeFileData: one included local entry. */
  datatype FileData = FileData(
    isNew: bool,
    modified: bool,
    isDirectory: bool,
    info: FileInfo,
    matchingRemote: FileInfo,
    children: seq<LocalFile>)

  datatype Collected = Collected(items: seq<Item>) | Cancelled
  datatype PassOutcome = Passed(list: seq<FileData>, items: seq<Item>) | PassCancelled

  predicate IsParentOrThis(name: string)
  {
    name == ThisDirectory || name == ParentDirectory
  }

  /** The first-level name filter: applies only to the top directory pair. */
  predicate FilterAdmits(ctx: CollectContext, data: DirData, name: string, otherName: string)
  {
    !data.firstLevel || ctx.options.NoOptions?
      || MatchesFilter(ctx.options.options, name)
      || MatchesFilter(ctx.options.options, otherName)
  }

  predicate LocalIncluded(ctx: CollectContext, data: DirData, e: LocalFile)
  {
    !IsParentOrThis(e.name)
    && ctx.copyParam.allowTransfer(data.localDirectory + e.name, LocalSide, e.isDirectory, e.size, e.modification)
    && !ctx.temporaryTransferFile(e.name)
    && FilterAdmits(ctx, data, e.name, ctx.copyParam.changeFileName(e.name, LocalSide))
  }

  predicate RemoteIncluded(ctx: CollectContext, data: DirData, f: RemoteFile)
  {
    ctx.copyParam.allowTransfer(UnixExcludeTrailingBackslash(data.remoteDirectory + f.name),
                                RemoteSide, f.isDirectory, f.size, f.modification)
    && !ctx.temporaryTransferFile(f.name)
    && FilterAdmits(ctx, data, f.name, ctx.copyParam.changeFileName(f.name, RemoteSide))
  }

  function NewFileData(data: DirData, e: LocalFile): (fd: FileData)
    ensures fd.isNew && !fd.modified && fd.info.directory == data.localDirectory
  {
    FileData(true, false, e.isDirectory,
             FileInfo(e.name, data.localDirectory, e.modification, FmtFull, e.size),
             EmptyInfo, e.children)
  }

  /** TStringList::IndexOf on the case-insensitive local list. */
  function IndexOfText(list: seq<FileData>, name: string): (r: int)
    ensures -1 <= r < |list|
    ensures r >= 0 ==> SameText(list[r].info.fileName, name)
    ensures r >= 0 ==> forall k :: 0 <= k < r ==> !SameText(list[k].info.fileName, name)
    ensures r < 0 ==> forall k :: 0 <= k < |list| ==> !SameText(list[k].info.fileName, name)
  {
    if list == [] then -1
    else if SameText(list[0].info.fileName, name) then 0
    else
      var r := IndexOfText(list[1..], name);
      if r < 0 then -1 else r + 1
  }

  /** The local file list of one directory: included entries, in listing
      order, the first of several names equal up to case kept. */
  function BuildLocalList(ctx: CollectContext, data: DirData, entries: seq<LocalFile>, i: nat, list: seq<FileData>): seq<FileData>
    decreases |entries| - i
  {
    if i >= |entries| then list
    else
      var e := entries[i];
      var list' := if LocalIncluded(ctx, data, e) && IndexOfText(list, e.name) < 0
                   then list + [NewFileData(data, e)] else list;
      BuildLocalList(ctx, data, entries, i + 1, list')
  }

  /** CompareFileTime, on whole seconds: times less than two seconds apart
      count as equal (the FAT file system keeps times to two seconds). */
  function CompareFileTime(t1: int, t2: int): (r: int)
    ensures -1 <= r <= 1
    ensures r < 0 <==> t2 - t1 >= 2
    ensures r > 0 <==> t1 - t2 >= 2
    ensures r == 0 <==> -2 < t1 - t2 < 2
  {
    if t1 == t2 then 0
    else if t1 < t2 && t2 - t1 >= 2 then -1
    else if t1 > t2 && t1 - t2 >= 2 then 1
    else 0
  }

  /** The verdict on a file present on both sides: `modified` means the
      remote copy should travel down, `localModified` the local one up. */
  datatype Verdict = Verdict(modified: bool, localModified: bool)

  function CompareFiles(mode: SynchronizeMode, p: SynchronizeParams,
                        localSize: int, localTime: int, remoteSize: int, remoteTime: int): Verdict
  {
    var timeCompare :=
      if !p.notByTime && (!p.timestamp || !p.bySize || localSize == remoteSize)
      then CompareFileTime(localTime, remoteTime) else 0;
    if timeCompare < 0 then
      if (!p.timestamp && !p.mirror) || mode == ModeBoth || mode == ModeLocal
      then Verdict(true, false) else Verdict(false, true)
    else if timeCompare > 0 then
      if (!p.timestamp && !p.mirror) || mode == ModeBoth || mode == ModeRemote
      then Verdict(false, true) else Verdict(true, false)
    else if p.bySize && localSize != remoteSize && !p.timestamp then Verdict(true, true)
    else Verdict(false, false)
  }

  /** Directories are checked only when they will be descended into. */
  predicate DirectoryRule(p: SynchronizeParams, isDirectory: bool)
  {
    !isDirectory || !p.noRecurse || p.subDirs
  }

  /** Action and check mark for an item found in the remote listing. */
  function RemoteItemAction(ctx: CollectContext, it: Item, isNew: bool, modified: bool): Item
  {
    var p := ctx.params;
    if !(isNew || modified) then it
    else if ctx.mode == ModeBoth || ctx.mode == ModeLocal then
      if !p.timestamp || modified then
        it.(action := if modified then DownloadUpdate else DownloadNew,
            checked := (modified || !p.existingOnly) && DirectoryRule(p, it.isDirectory))
      else it
    else if ctx.mode == ModeRemote && isNew then
      if !p.timestamp then
        it.(action := DeleteRemote, checked := p.delete && DirectoryRule(p, it.isDirectory))
      else it
    else it
  }

  function AddIfAction(items: seq<Item>, it: Item): (r: seq<Item>)
    ensures it.action != NoAction ==> r == items + [it]
    ensures it.action == NoAction ==> r == items
  {
    if it.action != NoAction then items + [it] else items
  }

  /** SynchronizeCollectFile, for an entry already known to be included. */
  function CollectFileSpec(ctx: CollectContext, data: DirData, f: RemoteFile, list: seq<FileData>, items: seq<Item>): PassOutcome
    decreases f, 2, 0
  {
    if !RemoteIncluded(ctx, data, f) then Passed(list, items)
    else
      var remoteInfo := FileInfo(f.name, data.remoteDirectory, f.modification, f.modificationFmt, f.size);
      var base := Item(NoAction, f.isDirectory, EmptyInfo, remoteInfo, true);
      var idx := IndexOfText(list, ctx.copyParam.changeFileName(f.name, RemoteSide));
      if idx < 0 then
        var it := base.(local := EmptyInfo.(directory := data.localDirectory));
        Passed(list, AddIfAction(items, RemoteItemAction(ctx, it, true, false)))
      else
        var ld := list[idx];
        var list1 := list[idx := ld.(isNew := false)];
        if f.isDirectory != ld.isDirectory then Passed(list1, items)
        else if !f.isDirectory then
          var local := ld.info.(modification := ReduceDateTimePrecision(ld.info.modification, f.modificationFmt));
          var v := CompareFiles(ctx.mode, ctx.params, local.size, local.modification, f.size, f.modification);
          var list2 := if v.localModified
                       then list1[idx := list1[idx].(modified := true, matchingRemote := remoteInfo)]
                       else list1;
          Passed(list2, AddIfAction(items, RemoteItemAction(ctx, base.(local := local), false, v.modified)))
        else if !ctx.params.noRecurse then
          match CollectDirSpec(ctx, ld.children, f, data.localDirectory + ld.info.fileName,
                               data.remoteDirectory + f.name, false, items)
          case Cancelled => PassCancelled
          case Collected(items') => Passed(list1, items')
        else Passed(list1, items)
  }

  /** ProcessDirectory over one remote listing, "." and ".." skipped. */
  function RemotePass(ctx: CollectContext, data: DirData, node: RemoteFile, i: nat, list: seq<FileData>, items: seq<Item>): PassOutcome
    decreases node, 0, |node.children| - i
  {
    if i >= |node.children| then Passed(list, items)
    else if IsParentOrThis(node.children[i].name) then RemotePass(ctx, data, node, i + 1, list, items)
    else
      match CollectFileSpec(ctx, data, node.children[i], list, items)
      case PassCancelled => PassCancelled
      case Passed(list', items') => RemotePass(ctx, data, node, i + 1, list', items')
  }

  /** The item proposed for a local entry after the remote pass. */
  function SweepItem(ctx: CollectContext, data: DirData, fd: FileData): Item
  {
    var p := ctx.params;
    var modified := fd.modified && (ctx.mode == ModeBoth || ctx.mode == ModeRemote);
    var isNew := fd.isNew && (ctx.mode == ModeLocal || ((ctx.mode == ModeBoth || ctx.mode == ModeRemote) && !p.timestamp));
    var it := Item(NoAction, fd.isDirectory, fd.info,
                   if modified then fd.matchingRemote else EmptyInfo.(directory := data.remoteDirectory), true);
    if !(modified || isNew) then it
    else if ctx.mode == ModeBoth || ctx.mode == ModeRemote then
      it.(action := if modified then UploadUpdate else UploadNew,
          checked := (modified || !p.existingOnly) && DirectoryRule(p, fd.isDirectory))
    else if ctx.mode == ModeLocal && !p.timestamp then
      it.(action := DeleteLocal, checked := p.delete && DirectoryRule(p, fd.isDirectory))
    else it
  }

  function Sweep(ctx: CollectContext, data: DirData, list: seq<FileData>, i: nat, items: seq<Item>): seq<Item>
    decreases |list| - i
  {
    if i >= |list| then items
    else Sweep(ctx, data, list, i + 1, AddIfAction(items, SweepItem(ctx, data, list[i])))
  }

  function MakeDirData(localDirectory: string, remoteDirectory: string, firstLevel: bool): (d: DirData)
    ensures d.localDirectory != [] && d.remoteDirectory != []
  {
    DirData(IncludeTrailingBackslash(localDirectory), UnixIncludeTrailingBackslash(remoteDirectory), firstLevel)
  }

  /** DoSynchronizeCollectDirectory. */
  function CollectDirSpec(ctx: CollectContext, entries: seq<LocalFile>, remote: RemoteFile,
                          localDirectory: string, remoteDirectory: string, firstLevel: bool,
                          items: seq<Item>): Collected
    decreases remote, 1, 0
  {
    var data := MakeDirData(localDirectory, remoteDirectory, firstLevel);
    if !ctx.params.delayProgress && !ctx.continueDirectory(data.localDirectory, data.remoteDirectory) then Cancelled
    else if |entries| == 0 then Collected(items)
    else
      var list := BuildLocalList(ctx, data, entries, 0, []);
      var cached := ctx.params.useCache && ctx.cacheDirectories && ctx.hasCachedFileList(remoteDirectory);
      if !cached && ctx.params.delayProgress && !ctx.continueDirectory(data.localDirectory, data.remoteDirectory) then Cancelled
      else
        match RemotePass(ctx, data, remote, 0, list, items)
        case PassCancelled => Cancelled
        case Passed(list', items') => Collected(Sweep(ctx, data, list', 0, items'))
  }

  /** SynchronizeCollect: collect from the top directory pair, then sort. */
  function SynchronizeCollectSpec(ctx: CollectContext, localEntries: seq<LocalFile>, remoteEntries: seq<RemoteFile>,
                                  localDirectory: string, remoteDirectory: string): Collected
  {
    var root := RemoteFile(remoteDirectory, true, 0, 0, FmtFull, remoteEntries);
    match CollectDirSpec(ctx, localEntries, root, localDirectory, remoteDirectory, true, [])
    case Cancelled => Cancelled
    case Collected(items) => Collected(SortItems(items))
  }

  // ----- the imperative collector --------------------------------------------

  method BuildLocalFileList(ctx: CollectContext, data: DirData, entries: seq<LocalFile>) returns (list: seq<FileData>)
    ensures list == BuildLocalList(ctx, data, entries, 0, [])
  {
    list := [];
    var i := 0;
    while i < |entries|
      invariant 0 <= i <= |entries|
      invariant BuildLocalList(ctx, data, entries, 0, []) == BuildLocalList(ctx, data, entries, i, list)
    {
      var e := entries[i];
      if LocalIncluded(ctx, data, e) && IndexOfText(list, e.name) < 0 {
        list := list + [NewFileData(data, e)];
      }
      i := i + 1;
    }
  }

  method CollectDirectory(ctx: CollectContext, entries: seq<LocalFile>, remote: RemoteFile,
                          localDirectory: string, remoteDirectory: string, firstLevel: bool,
                          checklist: SynchronizeChecklist) returns (ok: bool)
    modifies checklist
    decreases remote, 1, 0
    ensures var r := CollectDirSpec(ctx, entries, remote, localDirectory, remoteDirectory, firstLevel, old(checklist.items));
            ok == r.Collected? && (ok ==> checklist.items == r.items)
  {
    var data := MakeDirData(localDirectory, remoteDirectory, firstLevel);
    if !ctx.params.delayProgress && !ctx.continueDirectory(data.localDirectory, data.remoteDirectory) {
      return false;
    }
    if |entries| == 0 {
      return true;
    }
    var list := BuildLocalFileList(ctx, data, entries);
    var cached := ctx.params.useCache && ctx.cacheDirectories && ctx.hasCachedFileList(remoteDirectory);
    if !cached && ctx.params.delayProgress && !ctx.continueDirectory(data.localDirectory, data.remoteDirectory) {
      return false;
    }
    var passed;
    list, passed := ProcessRemoteDirectory(ctx, data, remote, list, checklist);
    if !passed {
      return false;
    }
    SweepLocalFileList(ctx, data, list, checklist);
    return true;
  }

  method ProcessRemoteDirectory(ctx: CollectContext, data: DirData, node: RemoteFile, list0: seq<FileData>,
                                checklist: SynchronizeChecklist) returns (list: seq<FileData>, ok: bool)
    modifies checklist
    decreases node, 0, |node.children|
    ensures var r := RemotePass(ctx, data, node, 0, list0, old(checklist.items));
            ok == r.Passed? && (ok ==> list == r.list && checklist.items == r.items)
  {
    list := list0;
    var i := 0;
    while i < |node.children|
      invariant 0 <= i <= |node.children|
      invariant RemotePass(ctx, data, node, 0, list0, old(checklist.items))
             == RemotePass(ctx, data, node, i, list, checklist.items)
    {
      var f := node.children[i];
      if !IsParentOrThis(f.name) {
        var passed;
        list, passed := CollectFile(ctx, data, f, list, checklist);
        if !passed {
          return list, false;
        }
      }
      i := i + 1;
    }
    return list, true;
  }

  method CollectFile(ctx: CollectContext, data: DirData, f: RemoteFile, list0: seq<FileData>,
                     checklist: SynchronizeChecklist) returns (list: seq<FileData>, ok: bool)
    modifies checklist
    decreases f, 2, 0
    ensures var r := CollectFileSpec(ctx, data, f, list0, old(checklist.items));
            ok == r.Passed? && (ok ==> list == r.list && checklist.items == r.items)
  {
    list := list0;
    if !RemoteIncluded(ctx, data, f) {
      return list, true;
    }
    var remoteInfo := FileInfo(f.name, data.remoteDirectory, f.modification, f.modificationFmt, f.size);
    var item := Item(NoAction, f.isDirectory, EmptyInfo, remoteInfo, true);
    var isNew := true;
    var modified := false;
    var idx := IndexOfText(list, ctx.copyParam.changeFileName(f.name, RemoteSide));
    if idx >= 0 {
      isNew := false;
      var ld := list[idx];
      list := list[idx := ld.(isNew := false)];
      if f.isDirectory != ld.isDirectory {
        // a directory on one side and a file on the other: no item
      } else if !f.isDirectory {
        var local := ld.info.(modification := ReduceDateTimePrecision(ld.info.modification, f.modificationFmt));
        item := item.(local := local);
        var v := CompareFiles(ctx.mode, ctx.params, local.size, local.modification, f.size, f.modification);
        if v.localModified {
          list := list[idx := list[idx].(modified := true, matchingRemote := remoteInfo)];
        }
        modified := v.modified;
      } else if !ctx.params.noRecurse {
        var collected := CollectDirectory(ctx, ld.children, f, data.localDirectory + ld.info.fileName,
                                          data.remoteDirectory + f.name, false, checklist);
        if !collected {
          return list, false;
        }
      }
    } else {
      item := item.(local := EmptyInfo.(directory := data.localDirectory));
    }
    item := RemoteItemAction(ctx, item, isNew, modified);
    if item.action != NoAction {
      checklist.Add(item);
    }
    return list, true;
  }

  method SweepLocalFileList(ctx: CollectContext, data: DirData, list: seq<FileData>, checklist: SynchronizeChecklist)
    modifies checklist
    ensures checklist.items == Sweep(ctx, data, list, 0, old(checklist.items))
  {
    var i := 0;
    while i < |list|
      invariant 0 <= i <= |list|
      invariant Sweep(ctx, data, list, 0, old(checklist.items)) == Sweep(ctx, data, list, i, checklist.items)
    {
      var item := SweepItem(ctx, data, list[i]);
      if item.action != NoAction {
        checklist.Add(item);
      }
      i := i + 1;
    }
  }

  /** TTerminal::SynchronizeCollect: a fresh, sorted checklist. When the user
      cancels, the source raises the abort from the progress callback and
      deletes the partial checklist; the model returns null instead. */
  method SynchronizeCollect(ctx: CollectContext, localEntries: seq<LocalFile>, remoteEntries: seq<RemoteFile>,
                            localDirectory: string, remoteDirectory: string) returns (checklist: SynchronizeChecklist?)
    ensures var r := SynchronizeCollectSpec(ctx, localEntries, remoteEntries, localDirectory, remoteDirectory);
            (checklist != null <==> r.Collected?) && (checklist != null ==> fresh(checklist) && checklist.items == r.items)
  {
    var root := RemoteFile(remoteDirectory, true, 0, 0, FmtFull, remoteEntries);
    checklist := new SynchronizeChecklist();
    var ok := CollectDirectory(ctx, localEntries, root, localDirectory, remoteDirectory, true, checklist);
    if !ok {
      return null;
    }
    checklist.Sort();
  }
}
