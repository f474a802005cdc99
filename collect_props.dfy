// Properties of the collected checklist.

module CollectProperties {
  import opened Text
  import opened Paths
  import opened Checklist
  import opened Collect

  /** The actions a mode may propose; timestamp synchronisation proposes
      only updates. */
  predicate ActionAllowed(mode: SynchronizeMode, timestamp: bool, a: Action)
  {
    a != NoAction
    && (timestamp ==> a == UploadUpdate || a == DownloadUpdate)
    && match mode
       case ModeBoth => a == UploadNew || a == UploadUpdate || a == DownloadNew || a == DownloadUpdate
       case ModeRemote => a == UploadNew || a == UploadUpdate || a == DeleteRemote
       case ModeLocal => a == DownloadNew || a == DownloadUpdate || a == DeleteLocal
  }

  /** The check mark an item starts with. */
  predicate DefaultChecked(p: SynchronizeParams, a: Action, isDirectory: bool)
  {
    (a == UploadNew || a == DownloadNew ==> !p.existingOnly)
    && (a == DeleteRemote || a == DeleteLocal ==> p.delete)
    && DirectoryRule(p, isDirectory)
  }

  /** Everything the collector guarantees about one checklist item. */
  predicate ItemOk(mode: SynchronizeMode, p: SynchronizeParams, it: Item)
  {
    ActionAllowed(mode, p.timestamp, it.action)
    && it.local.directory != [] && it.remote.directory != []
    && (it.isDirectory ==> it.action != UploadUpdate && it.action != DownloadUpdate)
    && it.checked == DefaultChecked(p, it.action, it.isDirectory)
  }

  predicate AllOk(ctx: CollectContext, items: seq<Item>)
  {
    forall k :: 0 <= k < |items| ==> ItemOk(ctx.mode, ctx.params, items[k])
  }

  /** What the local list of one directory pair keeps true. */
  predicate ListOk(list: seq<FileData>, data: DirData)
  {
    forall k :: 0 <= k < |list| ==>
      list[k].info.directory == data.localDirectory
      && (list[k].modified ==> list[k].matchingRemote.directory == data.remoteDirectory)
      && (list[k].modified ==> !list[k].isDirectory)
  }

  lemma AddOk(ctx: CollectContext, items: seq<Item>, it: Item)
    requires AllOk(ctx, items)
    requires it.action != NoAction ==> ItemOk(ctx.mode, ctx.params, it)
    ensures AllOk(ctx, AddIfAction(items, it))
  {
  }

  lemma {:induction false} BuildLocalListOk(ctx: CollectContext, data: DirData, entries: seq<LocalFile>, i: nat, list: seq<FileData>)
    requires ListOk(list, data)
    ensures ListOk(BuildLocalList(ctx, data, entries, i, list), data)
    decreases |entries| - i
  {
    if i < |entries| {
      var e := entries[i];
      var list' := if LocalIncluded(ctx, data, e) && IndexOfText(list, e.name) < 0
                   then list + [NewFileData(data, e)] else list;
      BuildLocalListOk(ctx, data, entries, i + 1, list');
    }
  }

  lemma {:induction false} SweepOk(ctx: CollectContext, data: DirData, list: seq<FileData>, i: nat, items: seq<Item>)
    requires data.localDirectory != [] && data.remoteDirectory != []
    requires ListOk(list, data) && AllOk(ctx, items)
    ensures AllOk(ctx, Sweep(ctx, data, list, i, items))
    decreases |list| - i
  {
    if i < |list| {
      AddOk(ctx, items, SweepItem(ctx, data, list[i]));
      SweepOk(ctx, data, list, i + 1, AddIfAction(items, SweepItem(ctx, data, list[i])));
    }
  }

  /** The item the sweep gives a local entry left after the remote pass:
      an update upload for an entry found modified (modes Both and Remote);
      otherwise, for an entry without a remote counterpart and outside
      timestamp synchronisation, a new upload (modes Both and Remote) or a
      local delete (mode Local); no action for any other entry. */
  lemma SweepItemClassified(ctx: CollectContext, data: DirData, fd: FileData)
    ensures var it := SweepItem(ctx, data, fd);
            var p := ctx.params;
            var up := ctx.mode == ModeBoth || ctx.mode == ModeRemote;
            var m := fd.modified && up;
            (it.action == UploadUpdate <==> m)
            && (it.action == UploadNew <==> !m && fd.isNew && up && !p.timestamp)
            && (it.action == DeleteLocal <==> !m && fd.isNew && ctx.mode == ModeLocal && !p.timestamp)
            && (it.action == NoAction <==> !m && !(fd.isNew && !p.timestamp))
            && (it.action == UploadUpdate ==> it.checked == DirectoryRule(p, fd.isDirectory))
            && (it.action == UploadNew ==> it.checked == (!p.existingOnly && DirectoryRule(p, fd.isDirectory)))
            && (it.action == DeleteLocal ==> it.checked == (p.delete && DirectoryRule(p, fd.isDirectory)))
            && it.isDirectory == fd.isDirectory && it.local == fd.info
            && it.remote == (if m then fd.matchingRemote else EmptyInfo.(directory := data.remoteDirectory))
  {
  }

  /** The items proposed for the entries of a list: one per entry that gets
      an action, in list order. */
  function Swept(ctx: CollectContext, data: DirData, list: seq<FileData>): seq<Item>
    decreases |list|
  {
    if list == [] then []
    else
      var it := SweepItem(ctx, data, list[0]);
      (if it.action != NoAction then [it] else []) + Swept(ctx, data, list[1..])
  }

  /** An item is swept exactly when it is the item of some entry and has an
      action. */
  lemma {:induction false} SweptMembers(ctx: CollectContext, data: DirData, list: seq<FileData>, it: Item)
    ensures it in Swept(ctx, data, list) <==>
            it.action != NoAction && exists k :: 0 <= k < |list| && it == SweepItem(ctx, data, list[k])
    ensures |Swept(ctx, data, list)| <= |list|
    decreases |list|
  {
    if list != [] {
      SweptMembers(ctx, data, list[1..], it);
      if exists k :: 0 <= k < |list| && it == SweepItem(ctx, data, list[k]) {
        var k :| 0 <= k < |list| && it == SweepItem(ctx, data, list[k]);
        if k > 0 {
          assert list[1..][k - 1] == list[k];
        }
      }
      if exists k :: 0 <= k < |list[1..]| && it == SweepItem(ctx, data, list[1..][k]) {
        var k :| 0 <= k < |list[1..]| && it == SweepItem(ctx, data, list[1..][k]);
        assert list[k + 1] == list[1..][k];
      }
    }
  }

  /** The sweep from entry i appends to the items exactly the items swept
      from the rest of the list. */
  lemma {:induction false} SweepAppendsSwept(ctx: CollectContext, data: DirData, list: seq<FileData>, i: nat, items: seq<Item>)
    requires i <= |list|
    ensures Sweep(ctx, data, list, i, items) == items + Swept(ctx, data, list[i..])
    decreases |list| - i
  {
    if i < |list| {
      var it := SweepItem(ctx, data, list[i]);
      SweepAppendsSwept(ctx, data, list, i + 1, AddIfAction(items, it));
      assert list[i..][0] == list[i];
      assert list[i..][1..] == list[i + 1..];
      assert Swept(ctx, data, list[i..]) == (if it.action != NoAction then [it] else []) + Swept(ctx, data, list[i + 1..]);
    } else {
      assert list[i..] == [];
    }
  }

  lemma {:induction false} CollectDirOk(ctx: CollectContext, entries: seq<LocalFile>, remote: RemoteFile,
                                       localDirectory: string, remoteDirectory: string, firstLevel: bool,
                                       items: seq<Item>)
    requires AllOk(ctx, items)
    ensures var r := CollectDirSpec(ctx, entries, remote, localDirectory, remoteDirectory, firstLevel, items);
            r.Collected? ==> AllOk(ctx, r.items)
    decreases remote, 1, 0
  {
    var data := MakeDirData(localDirectory, remoteDirectory, firstLevel);
    var list := BuildLocalList(ctx, data, entries, 0, []);
    BuildLocalListOk(ctx, data, entries, 0, []);
    RemotePassOk(ctx, data, remote, 0, list, items);
    var p := RemotePass(ctx, data, remote, 0, list, items);
    if p.Passed? {
      SweepOk(ctx, data, p.list, 0, p.items);
    }
  }

  lemma {:induction false} RemotePassOk(ctx: CollectContext, data: DirData, node: RemoteFile, i: nat,
                                       list: seq<FileData>, items: seq<Item>)
    requires data.localDirectory != [] && data.remoteDirectory != []
    requires ListOk(list, data) && AllOk(ctx, items)
    ensures var r := RemotePass(ctx, data, node, i, list, items);
            r.Passed? ==> ListOk(r.list, data) && AllOk(ctx, r.items)
    decreases node, 0, |node.children| - i
  {
    if i < |node.children| {
      if IsParentOrThis(node.children[i].name) {
        RemotePassOk(ctx, data, node, i + 1, list, items);
      } else {
        CollectFileOk(ctx, data, node.children[i], list, items);
        var r := CollectFileSpec(ctx, data, node.children[i], list, items);
        if r.Passed? {
          RemotePassOk(ctx, data, node, i + 1, r.list, r.items);
        }
      }
    }
  }

  lemma {:induction false} CollectFileOk(ctx: CollectContext, data: DirData, f: RemoteFile,
                                        list: seq<FileData>, items: seq<Item>)
    requires data.localDirectory != [] && data.remoteDirectory != []
    requires ListOk(list, data) && AllOk(ctx, items)
    ensures var r := CollectFileSpec(ctx, data, f, list, items);
            r.Passed? ==> ListOk(r.list, data) && AllOk(ctx, r.items)
    decreases f, 2, 0
  {
    if RemoteIncluded(ctx, data, f) {
      var remoteInfo := FileInfo(f.name, data.remoteDirectory, f.modification, f.modificationFmt, f.size);
      var base := Item(NoAction, f.isDirectory, EmptyInfo, remoteInfo, true);
      var idx := IndexOfText(list, ctx.copyParam.changeFileName(f.name, RemoteSide));
      if idx < 0 {
        AddOk(ctx, items, RemoteItemAction(ctx, base.(local := EmptyInfo.(directory := data.localDirectory)), true, false));
      } else {
        var ld := list[idx];
        var list1 := list[idx := ld.(isNew := false)];
        assert ListOk(list1, data);
        if f.isDirectory == ld.isDirectory {
          if !f.isDirectory {
            var local := ld.info.(modification := ReduceDateTimePrecision(ld.info.modification, f.modificationFmt));
            var v := CompareFiles(ctx.mode, ctx.params, local.size, local.modification, f.size, f.modification);
            AddOk(ctx, items, RemoteItemAction(ctx, base.(local := local), false, v.modified));
            assert ListOk(list1[idx := list1[idx].(modified := true, matchingRemote := remoteInfo)], data);
          } else if !ctx.params.noRecurse {
            CollectDirOk(ctx, ld.children, f, data.localDirectory + ld.info.fileName,
                         data.remoteDirectory + f.name, false, items);
          }
        }
      }
    }
  }

  /** The collected, sorted checklist: every item passes ItemOk, and the
      items come in checklist order. */
  lemma CollectedChecklistOk(ctx: CollectContext, localEntries: seq<LocalFile>, remoteEntries: seq<RemoteFile>,
                             localDirectory: string, remoteDirectory: string)
    ensures var r := SynchronizeCollectSpec(ctx, localEntries, remoteEntries, localDirectory, remoteDirectory);
            r.Collected? ==> AllOk(ctx, r.items) && Sorted(r.items)
  {
    var root := RemoteFile(remoteDirectory, true, 0, 0, FmtFull, remoteEntries);
    CollectDirOk(ctx, localEntries, root, localDirectory, remoteDirectory, true, []);
    var c := CollectDirSpec(ctx, localEntries, root, localDirectory, remoteDirectory, true, []);
    if c.Collected? {
      assert AllHaveLocalDirectory(c.items);
      SortItemsSorted(c.items);
      SortItemsPermutes(c.items);
      var s := SortItems(c.items);
      forall k | 0 <= k < |s| ensures ItemOk(ctx.mode, ctx.params, s[k]) {
        assert s[k] in c.items;
      }
    }
  }

  /** When keeping the remote side up to date (mode Remote, as the
      directory watcher does), a directory is only ever created or deleted
      remotely. */
  lemma RemoteModeDirectoryActions(ctx: CollectContext, items: seq<Item>, k: nat)
    requires ctx.mode == ModeRemote && AllOk(ctx, items) && k < |items|
    requires items[k].isDirectory
    ensures items[k].action == UploadNew || items[k].action == DeleteRemote
  {
  }

  // ----- classification of one remote entry ---------------------------------

  /** A remote entry with no local counterpart is new: it is proposed for
      download, or in mode Remote for remote deletion; timestamp
      synchronisation proposes nothing for it. */
  lemma RemoteOnlyEntryIsNew(ctx: CollectContext, data: DirData, f: RemoteFile, list: seq<FileData>, items: seq<Item>)
    requires RemoteIncluded(ctx, data, f)
    requires IndexOfText(list, ctx.copyParam.changeFileName(f.name, RemoteSide)) < 0
    ensures var r := CollectFileSpec(ctx, data, f, list, items);
            var p := ctx.params;
            r.Passed? && r.list == list
            && (p.timestamp ==> r.items == items)
            && (!p.timestamp ==>
                  |r.items| == |items| + 1 && r.items[..|items|] == items
                  && r.items[|items|].remote.fileName == f.name
                  && r.items[|items|].action == (if ctx.mode == ModeRemote then DeleteRemote else DownloadNew)
                  && r.items[|items|].checked
                     == ((if ctx.mode == ModeRemote then p.delete else !p.existingOnly) && DirectoryRule(p, f.isDirectory)))
  {
  }

  /** A file on one side and a directory of the same name on the other:
      the local entry stops being new and no item is proposed. */
  lemma KindMismatchYieldsNoItem(ctx: CollectContext, data: DirData, f: RemoteFile, list: seq<FileData>, items: seq<Item>)
    requires RemoteIncluded(ctx, data, f)
    requires var idx := IndexOfText(list, ctx.copyParam.changeFileName(f.name, RemoteSide));
             idx >= 0 && list[idx].isDirectory != f.isDirectory
    ensures var idx := IndexOfText(list, ctx.copyParam.changeFileName(f.name, RemoteSide));
            CollectFileSpec(ctx, data, f, list, items) == Passed(list[idx := list[idx].(isNew := false)], items)
  {
  }

  /** A file present on both sides is never new: at most an update is
      proposed, a download exactly when the verdict (on the local time
      reduced to the remote precision) says so outside mode Remote, and an
      upload is left to the sweep through the local entry's flag. */
  lemma MatchedFileIsNeverNew(ctx: CollectContext, data: DirData, f: RemoteFile, list: seq<FileData>, items: seq<Item>)
    requires RemoteIncluded(ctx, data, f) && !f.isDirectory
    requires var idx := IndexOfText(list, ctx.copyParam.changeFileName(f.name, RemoteSide));
             idx >= 0 && !list[idx].isDirectory
    ensures var idx := IndexOfText(list, ctx.copyParam.changeFileName(f.name, RemoteSide));
            var ld := list[idx];
            var v := CompareFiles(ctx.mode, ctx.params, ld.info.size,
                                  ReduceDateTimePrecision(ld.info.modification, f.modificationFmt), f.size, f.modification);
            var r := CollectFileSpec(ctx, data, f, list, items);
            r.Passed? && |r.list| == |list| && !r.list[idx].isNew
            && r.list[idx].modified == (ld.modified || v.localModified)
            && (if v.modified && ctx.mode != ModeRemote
                then |r.items| == |items| + 1 && r.items[..|items|] == items
                     && r.items[|items|].action == DownloadUpdate && r.items[|items|].checked
                else r.items == items)
  {
  }

  // ----- the comparison of a file present on both sides --------------------

  /** The two verdicts exclude each other except for a size-only difference. */
  lemma VerdictBothOnlyBySize(mode: SynchronizeMode, p: SynchronizeParams, ls: int, lt: int, rs: int, rt: int)
    ensures var v := CompareFiles(mode, p, ls, lt, rs, rt);
            v.modified && v.localModified <==>
              p.bySize && !p.timestamp && ls != rs && (p.notByTime || -2 < lt - rt < 2)
  {
  }

  /** In mode Both the copy newer by two seconds or more wins. */
  lemma NewerWinsInBoth(p: SynchronizeParams, ls: int, lt: int, rs: int, rt: int)
    requires !p.notByTime && (!p.timestamp || !p.bySize || ls == rs)
    ensures rt - lt >= 2 ==> CompareFiles(ModeBoth, p, ls, lt, rs, rt) == Verdict(true, false)
    ensures lt - rt >= 2 ==> CompareFiles(ModeBoth, p, ls, lt, rs, rt) == Verdict(false, true)
  {
  }

  /** Times less than two seconds apart are no difference: only the size
      can then tell the copies apart. */
  lemma CloseTimesAreEqual(mode: SynchronizeMode, p: SynchronizeParams, ls: int, lt: int, rs: int, rt: int)
    requires -2 < lt - rt < 2
    ensures CompareFiles(mode, p, ls, lt, rs, rt)
            == if p.bySize && ls != rs && !p.timestamp then Verdict(true, true) else Verdict(false, false)
  {
  }

  /** Mirroring to the remote side uploads on any time difference of two
      seconds or more; without mirroring only a newer local copy is uploaded. */
  lemma MirrorUploadsOnAnyDifference(p: SynchronizeParams, ls: int, lt: int, rs: int, rt: int)
    requires !p.notByTime && !p.timestamp && (lt - rt >= 2 || rt - lt >= 2)
    ensures CompareFiles(ModeRemote, p, ls, lt, rs, rt).localModified <==> (p.mirror || lt > rt)
  {
  }

  /** Without comparing times only the size can tell files apart. */
  lemma NotByTimeIgnoresTime(mode: SynchronizeMode, p: SynchronizeParams, ls: int, lt: int, rs: int, rt: int, lt': int, rt': int)
    requires p.notByTime
    ensures CompareFiles(mode, p, ls, lt, rs, rt) == CompareFiles(mode, p, ls, lt', rs, rt')
    ensures ls == rs ==> CompareFiles(mode, p, ls, lt, rs, rt) == Verdict(false, false)
  {
  }

  /** A remote time that is only minute-precise cannot make a local copy
      saved within the same minute look older. */
  lemma ReducedPrecisionHidesSubMinute(lt: int, rt: int, p: SynchronizeParams, mode: SynchronizeMode, size: int)
    requires rt % 60 == 0 && rt <= lt < rt + 60
    requires !p.bySize
    ensures CompareFiles(mode, p, size, ReduceDateTimePrecision(lt, FmtMDHM), size, rt) == Verdict(false, false)
  {
  }

  // ----- worked examples ---------------------------------------------------

  const NoParams := SynchronizeParams(false, false, false, false, false, false, false, false, false, false, false)

  /** A session that transfers everything under its own name. */
  function PlainContext(mode: SynchronizeMode, p: SynchronizeParams): CollectContext
  {
    CollectContext(mode, p,
                   CopyParam((n: string, s: OperationSide, d: bool, z: int, m: int) => true,
                             (n: string, s: OperationSide) => n),
                   (n: string) => false, NoOptions, (l: string, r: string) => true,
                   false, (d: string) => false)
  }

  const DataUnderHome := DirData("C:\\data\\", "/home/", true)

  /** The local list and the sweep of LocalOnlyFileIsUploaded. */
  lemma LocalOnlyFileSteps()
    ensures var entries := [LocalFile(".", true, 0, 0, []), LocalFile("..", true, 0, 0, []), LocalFile("a.txt", false, 100, 1000, [])];
            var fd := NewFileData(DataUnderHome, entries[2]);
            BuildLocalList(PlainContext(ModeBoth, NoParams), DataUnderHome, entries, 0, []) == [fd]
            && Sweep(PlainContext(ModeBoth, NoParams), DataUnderHome, [fd], 0, [])
               == [Item(UploadNew, false, FileInfo("a.txt", "C:\\data\\", 1000, FmtFull, 100),
                        EmptyInfo.(directory := "/home/"), true)]
  {
    var ctx := PlainContext(ModeBoth, NoParams);
    var entries := [LocalFile(".", true, 0, 0, []), LocalFile("..", true, 0, 0, []), LocalFile("a.txt", false, 100, 1000, [])];
    var fd := NewFileData(DataUnderHome, entries[2]);
    assert BuildLocalList(ctx, DataUnderHome, entries, 2, []) == [fd];
    assert Sweep(ctx, DataUnderHome, [fd], 0, []) == [SweepItem(ctx, DataUnderHome, fd)];
  }

  /** Collecting the top directory of LocalOnlyFileIsUploaded. */
  lemma LocalOnlyFileCollected()
    ensures CollectDirSpec(PlainContext(ModeBoth, NoParams),
              [LocalFile(".", true, 0, 0, []), LocalFile("..", true, 0, 0, []), LocalFile("a.txt", false, 100, 1000, [])],
              RemoteFile("/home", true, 0, 0, FmtFull, []), "C:\\data", "/home", true, [])
         == Collected([Item(UploadNew, false, FileInfo("a.txt", "C:\\data\\", 1000, FmtFull, 100),
                            EmptyInfo.(directory := "/home/"), true)])
  {
    var ctx := PlainContext(ModeBoth, NoParams);
    var entries := [LocalFile(".", true, 0, 0, []), LocalFile("..", true, 0, 0, []), LocalFile("a.txt", false, 100, 1000, [])];
    assert MakeDirData("C:\\data", "/home", true) == DataUnderHome;
    var fd := NewFileData(DataUnderHome, entries[2]);
    LocalOnlyFileSteps();
    var root := RemoteFile("/home", true, 0, 0, FmtFull, []);
    assert RemotePass(ctx, DataUnderHome, root, 0, [fd], []) == Passed([fd], []);
  }

  /** A file only on the local side is proposed for upload. */
  lemma LocalOnlyFileIsUploaded()
    ensures SynchronizeCollectSpec(PlainContext(ModeBoth, NoParams),
              [LocalFile(".", true, 0, 0, []), LocalFile("..", true, 0, 0, []), LocalFile("a.txt", false, 100, 1000, [])],
              [], "C:\\data", "/home")
         == Collected([Item(UploadNew, false, FileInfo("a.txt", "C:\\data\\", 1000, FmtFull, 100),
                            EmptyInfo.(directory := "/home/"), true)])
  {
    LocalOnlyFileCollected();
    var item := Item(UploadNew, false, FileInfo("a.txt", "C:\\data\\", 1000, FmtFull, 100),
                     EmptyInfo.(directory := "/home/"), true);
    assert SortItems([item]) == [item];
  }

  /** The remote pass over the one remote file of NewerRemoteFileIsDownloaded. */
  lemma NewerRemoteFileStep()
    ensures var fd := NewFileData(DataUnderHome, LocalFile("a.txt", false, 100, 1000, []));
            CollectFileSpec(PlainContext(ModeBoth, NoParams), DataUnderHome,
                            RemoteFile("a.txt", false, 120, 2000, FmtFull, []), [fd], [])
            == Passed([fd.(isNew := false)],
                      [Item(DownloadUpdate, false, FileInfo("a.txt", "C:\\data\\", 1000, FmtFull, 100),
                            FileInfo("a.txt", "/home/", 2000, FmtFull, 120), true)])
  {
    var fd := NewFileData(DataUnderHome, LocalFile("a.txt", false, 100, 1000, []));
    assert IndexOfText([fd], "a.txt") == 0;
    var v := CompareFiles(ModeBoth, NoParams, 100, ReduceDateTimePrecision(1000, FmtFull), 120, 2000);
    assert v == Verdict(true, false);
  }

  /** The local list and the sweep of NewerRemoteFileIsDownloaded. */
  lemma NewerRemoteFileSteps()
    ensures var fd := NewFileData(DataUnderHome, LocalFile("a.txt", false, 100, 1000, []));
            var item := Item(DownloadUpdate, false, FileInfo("a.txt", "C:\\data\\", 1000, FmtFull, 100),
                             FileInfo("a.txt", "/home/", 2000, FmtFull, 120), true);
            BuildLocalList(PlainContext(ModeBoth, NoParams), DataUnderHome, [LocalFile("a.txt", false, 100, 1000, [])], 0, []) == [fd]
            && Sweep(PlainContext(ModeBoth, NoParams), DataUnderHome, [fd.(isNew := false)], 0, [item]) == [item]
  {
    var ctx := PlainContext(ModeBoth, NoParams);
    var fd := NewFileData(DataUnderHome, LocalFile("a.txt", false, 100, 1000, []));
    assert SweepItem(ctx, DataUnderHome, fd.(isNew := false)).action == NoAction;
  }

  /** Collecting the top directory of NewerRemoteFileIsDownloaded. */
  lemma NewerRemoteFileCollected()
    ensures CollectDirSpec(PlainContext(ModeBoth, NoParams), [LocalFile("a.txt", false, 100, 1000, [])],
              RemoteFile("/home", true, 0, 0, FmtFull, [RemoteFile("a.txt", false, 120, 2000, FmtFull, [])]),
              "C:\\data", "/home", true, [])
         == Collected([Item(DownloadUpdate, false, FileInfo("a.txt", "C:\\data\\", 1000, FmtFull, 100),
                            FileInfo("a.txt", "/home/", 2000, FmtFull, 120), true)])
  {
    var ctx := PlainContext(ModeBoth, NoParams);
    assert MakeDirData("C:\\data", "/home", true) == DataUnderHome;
    var fd := NewFileData(DataUnderHome, LocalFile("a.txt", false, 100, 1000, []));
    var f := RemoteFile("a.txt", false, 120, 2000, FmtFull, []);
    var root := RemoteFile("/home", true, 0, 0, FmtFull, [f]);
    var item := Item(DownloadUpdate, false, FileInfo("a.txt", "C:\\data\\", 1000, FmtFull, 100),
                     FileInfo("a.txt", "/home/", 2000, FmtFull, 120), true);
    NewerRemoteFileSteps();
    NewerRemoteFileStep();
    assert RemotePass(ctx, DataUnderHome, root, 1, [fd.(isNew := false)], [item]) == Passed([fd.(isNew := false)], [item]);
  }

  /** A remote copy that is newer is proposed for download, and the local
      copy is then neither new nor to be uploaded. */
  lemma NewerRemoteFileIsDownloaded()
    ensures SynchronizeCollectSpec(PlainContext(ModeBoth, NoParams),
              [LocalFile("a.txt", false, 100, 1000, [])],
              [RemoteFile("a.txt", false, 120, 2000, FmtFull, [])], "C:\\data", "/home")
         == Collected([Item(DownloadUpdate, false, FileInfo("a.txt", "C:\\data\\", 1000, FmtFull, 100),
                            FileInfo("a.txt", "/home/", 2000, FmtFull, 120), true)])
  {
    NewerRemoteFileCollected();
    var item := Item(DownloadUpdate, false, FileInfo("a.txt", "C:\\data\\", 1000, FmtFull, 100),
                     FileInfo("a.txt", "/home/", 2000, FmtFull, 120), true);
    assert SortItems([item]) == [item];
  }
}
