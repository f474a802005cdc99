// The synchronisation checklist (TSynchronizeChecklist): one item per file
// or directory that differs between the local and the remote tree, with
// the action proposed for it, and the order in which the checklist is
// presented and applied.

module Checklist {
  import opened Text

  /** How precise a remote modification time is (TModificationFmt), in the
      order TModificationFmt declares them. That order is not the order of
      fineness: FmtMDHM keeps minutes while FmtMDY keeps only days. */
  datatype ModificationFmt = FmtNone | FmtMDHM | FmtMDY | FmtFull

  function FmtRank(f: ModificationFmt): int
  {
    match f
    case FmtNone => 0
    case FmtMDHM => 1
    case FmtMDY => 2
    case FmtFull => 3
  }

  /** Seconds kept by a precision class; FmtNone keeps no time at all. */
  function Granularity(f: ModificationFmt): int
  {
    match f
    case FmtNone => 0
    case FmtMDHM => 60
    case FmtMDY => 86400
    case FmtFull => 1
  }

  /** ReduceDateTimePrecision on a time given in whole seconds. */
  function ReduceDateTimePrecision(t: int, f: ModificationFmt): (r: int)
    ensures f == FmtFull ==> r == t
    ensures f == FmtNone ==> r == 0
    ensures f != FmtNone ==> r <= t && r % Granularity(f) == 0 && t - r < Granularity(f)
  {
    if f == FmtNone then 0 else t - t % Granularity(f)
  }

  /** Reducing twice is reducing once. */
  lemma ReduceIdempotent(t: int, f: ModificationFmt)
    ensures ReduceDateTimePrecision(ReduceDateTimePrecision(t, f), f) == ReduceDateTimePrecision(t, f)
  {
  }

  /** Reduction keeps the order of times (it may only merge them). */
  lemma ReduceMonotone(t1: int, t2: int, f: ModificationFmt)
    requires t1 <= t2
    ensures ReduceDateTimePrecision(t1, f) <= ReduceDateTimePrecision(t2, f)
  {
  }

  /** LessDateTimePrecision: of two precision classes, the one declared
      earlier in TModificationFmt. */
  function LessDateTimePrecision(p1: ModificationFmt, p2: ModificationFmt): (r: ModificationFmt)
    ensures r == p1 || r == p2
    ensures FmtRank(r) <= FmtRank(p1) && FmtRank(r) <= FmtRank(p2)
  {
    if FmtRank(p1) < FmtRank(p2) then p1 else p2
  }

  /** The order of declaration is not the order of fineness: a minute
      precise time against a day precise one is reduced to minutes, so
      the day precise side keeps more than it can express. */
  lemma LessPrecisionOfMinuteAndDay()
    ensures LessDateTimePrecision(FmtMDHM, FmtMDY) == FmtMDHM
    ensures LessDateTimePrecision(FmtMDY, FmtMDHM) == FmtMDHM
    ensures Granularity(FmtMDHM) < Granularity(FmtMDY)
  {
  }

  /** TOperationSide: which end of the session a file lives on. */
  datatype OperationSide = LocalSide | RemoteSide

  /** TSynchronizeChecklist::TAction. */
  datatype Action =
    | NoAction
    | UploadNew
    | DownloadNew
    | UploadUpdate
    | DownloadUpdate
    | DeleteRemote
    | DeleteLocal

  /** One side of a checklist item (TItem::TFileInfo). */
  datatype FileInfo = FileInfo(
    fileName: string,
    directory: string,
    modification: int,
    modificationFmt: ModificationFmt,
    size: int)

  datatype Item = Item(
    action: Action,
    isDirectory: bool,
    local: FileInfo,
    remote: FileInfo,
    checked: bool)

  const EmptyInfo: FileInfo := FileInfo("", "", 0, FmtFull, 0)

  /** A freshly constructed item: no action, checked, both sides empty. */
  function NewItem(): (r: Item)
    ensures r.action == NoAction && r.checked && !r.isDirectory
    ensures r.local == r.remote == EmptyInfo
  {
    Item(NoAction, false, EmptyInfo, EmptyInfo, true)
  }

  /** TItem::GetFileName: the remote name when there is one, else the local. */
  function GetFileName(it: Item): (r: string)
    ensures it.remote.fileName != [] ==> r == it.remote.fileName
    ensures it.remote.fileName == [] ==> r == it.local.fileName
  {
    if it.remote.fileName != [] then it.remote.fileName else it.local.fileName
  }

  /** TSynchronizeChecklist::Compare: by directory, then by file name, both
      ignoring letter case.  The directory compared is the local one, unless
      the first item has none. */
  function Compare(a: Item, b: Item): (r: int)
    ensures -1 <= r <= 1
    ensures a.local.directory != [] && !SameText(a.local.directory, b.local.directory)
            ==> r == CompareText(a.local.directory, b.local.directory)
    ensures a.local.directory != [] && SameText(a.local.directory, b.local.directory)
            ==> r == CompareText(GetFileName(a), GetFileName(b))
    ensures a.local.directory == [] && !SameText(a.remote.directory, b.remote.directory)
            ==> r == CompareText(a.remote.directory, b.remote.directory)
    ensures a.local.directory == [] && SameText(a.remote.directory, b.remote.directory)
            ==> r == CompareText(GetFileName(a), GetFileName(b))
  {
    var byDirectory :=
      if a.local.directory != [] then CompareText(a.local.directory, b.local.directory)
      else CompareText(a.remote.directory, b.remote.directory);
    if byDirectory == 0 then CompareText(GetFileName(a), GetFileName(b)) else byDirectory
  }

  /** Every item the collector produces has a local directory; among such
      items Compare is a total preorder. */
  predicate HasLocalDirectory(it: Item)
  {
    it.local.directory != []
  }

  predicate AllHaveLocalDirectory(s: seq<Item>)
  {
    forall i :: 0 <= i < |s| ==> HasLocalDirectory(s[i])
  }

  lemma CompareAntisymmetric(a: Item, b: Item)
    requires HasLocalDirectory(a) && HasLocalDirectory(b)
    ensures Compare(a, b) == -Compare(b, a)
  {
    CompareTextAntisymmetric(a.local.directory, b.local.directory);
    CompareTextAntisymmetric(GetFileName(a), GetFileName(b));
  }

  lemma CompareTransitive(a: Item, b: Item, c: Item)
    requires HasLocalDirectory(a) && HasLocalDirectory(b) && HasLocalDirectory(c)
    requires Compare(a, b) <= 0 && Compare(b, c) <= 0
    ensures Compare(a, c) <= 0
  {
    var ab := CompareText(a.local.directory, b.local.directory);
    var bc := CompareText(b.local.directory, c.local.directory);
    if ab == 0 && bc == 0 {
      CompareTextTransitive(GetFileName(a), GetFileName(b), GetFileName(c));
    } else if ab == 0 {
      assert Fold(a.local.directory) == Fold(b.local.directory);
      assert CompareText(a.local.directory, c.local.directory) == bc;
    } else if bc == 0 {
      assert Fold(b.local.directory) == Fold(c.local.directory);
      assert CompareText(a.local.directory, c.local.directory) == ab;
    } else {
      CompareTextTransitive(a.local.directory, b.local.directory, c.local.directory);
      if SameText(a.local.directory, c.local.directory) {
        // then b would sort strictly between two equal directories
        CompareTextAntisymmetric(a.local.directory, b.local.directory);
        assert false;
      }
    }
  }

  /** The checklist order: no item sorts after a later one. */
  predicate Sorted(s: seq<Item>)
  {
    forall i, j :: 0 <= i < j < |s| ==> Compare(s[i], s[j]) <= 0
  }

  /** Insert `x` in front of the first item it does not sort after. */
  function Insert(x: Item, s: seq<Item>): (r: seq<Item>)
    ensures multiset(r) == multiset(s) + multiset{x}
    ensures |r| == |s| + 1
  {
    if s == [] then [x]
    else if Compare(x, s[0]) <= 0 then [x] + s
    else
      assert s == [s[0]] + s[1..];
      [s[0]] + Insert(x, s[1..])
  }

  /** TSynchronizeChecklist::Sort, as a stable insertion sort. */
  function SortItems(s: seq<Item>): (r: seq<Item>)
    ensures multiset(r) == multiset(s)
    ensures |r| == |s|
  {
    if s == [] then []
    else
      assert s == [s[0]] + s[1..];
      Insert(s[0], SortItems(s[1..]))
  }

  lemma InMultiset(y: Item, s: seq<Item>, t: seq<Item>)
    requires multiset(s) == multiset(t)
    requires y in s
    ensures y in t
  {
    assert y in multiset(s);
  }

  /** An item that sorts before every item of a sorted list can head it. */
  lemma ConsSorted(y: Item, t: seq<Item>)
    requires Sorted(t)
    requires forall k :: 0 <= k < |t| ==> Compare(y, t[k]) <= 0
    ensures Sorted([y] + t)
  {
    var r := [y] + t;
    forall i, j | 0 <= i < j < |r|
      ensures Compare(r[i], r[j]) <= 0
    {
      assert r[j] == t[j - 1];
      if i > 0 {
        assert r[i] == t[i - 1];
      }
    }
  }

  lemma SortedTail(s: seq<Item>)
    requires s != [] && AllHaveLocalDirectory(s) && Sorted(s)
    ensures AllHaveLocalDirectory(s[1..]) && Sorted(s[1..])
  {
    var tail := s[1..];
    forall i | 0 <= i < |tail| ensures HasLocalDirectory(tail[i]) {
      assert tail[i] == s[i + 1];
    }
    forall i, j | 0 <= i < j < |tail| ensures Compare(tail[i], tail[j]) <= 0 {
      assert tail[i] == s[i + 1] && tail[j] == s[j + 1];
    }
  }

  lemma InsertMember(x: Item, s: seq<Item>, y: Item)
    requires y in Insert(x, s)
    ensures y == x || y in s
  {
    assert y in multiset(Insert(x, s));
  }

  lemma {:induction false} InsertSorted(x: Item, s: seq<Item>)
    requires HasLocalDirectory(x) && AllHaveLocalDirectory(s) && Sorted(s)
    ensures Sorted(Insert(x, s))
    decreases |s|
  {
    if s == [] {
    } else if Compare(x, s[0]) <= 0 {
      forall k | 0 <= k < |s| ensures Compare(x, s[k]) <= 0 {
        if k > 0 {
          CompareTransitive(x, s[0], s[k]);
        }
      }
      ConsSorted(x, s);
    } else {
      var tail := s[1..];
      SortedTail(s);
      InsertSorted(x, tail);
      var t := Insert(x, tail);
      CompareAntisymmetric(x, s[0]);
      forall k | 0 <= k < |t| ensures Compare(s[0], t[k]) <= 0 {
        InsertMember(x, tail, t[k]);
        if t[k] != x {
          var m :| 0 <= m < |tail| && tail[m] == t[k];
          assert s[m + 1] == t[k];
        }
      }
      ConsSorted(s[0], t);
      assert Insert(x, s) == [s[0]] + t;
    }
  }

  /** The sorted checklist is sorted ... */
  lemma {:induction false} SortItemsSorted(s: seq<Item>)
    requires AllHaveLocalDirectory(s)
    ensures Sorted(SortItems(s))
    decreases |s|
  {
    if s != [] {
      var tail := s[1..];
      assert AllHaveLocalDirectory(tail) by {
        forall i | 0 <= i < |tail| ensures HasLocalDirectory(tail[i]) {
          assert tail[i] == s[i + 1];
        }
      }
      SortItemsSorted(tail);
      var t := SortItems(tail);
      assert AllHaveLocalDirectory(t) by {
        forall i | 0 <= i < |t| ensures HasLocalDirectory(t[i]) {
          InMultiset(t[i], t, tail);
          var k :| 0 <= k < |tail| && tail[k] == t[i];
        }
      }
      InsertSorted(s[0], t);
    }
  }

  /** ... and holds exactly the items it held before. */
  lemma SortItemsPermutes(s: seq<Item>)
    ensures multiset(SortItems(s)) == multiset(s)
    ensures forall y :: y in SortItems(s) <==> y in s
  {
    forall y ensures y in SortItems(s) <==> y in s {
      if y in SortItems(s) { InMultiset(y, SortItems(s), s); }
      if y in s { InMultiset(y, s, SortItems(s)); }
    }
  }

  /** A sorted checklist is left as it is. */
  lemma {:induction false} SortItemsKeepsSorted(s: seq<Item>)
    requires AllHaveLocalDirectory(s) && Sorted(s)
    ensures SortItems(s) == s
    decreases |s|
  {
    if s != [] {
      var tail := s[1..];
      assert AllHaveLocalDirectory(tail) by {
        forall i | 0 <= i < |tail| ensures HasLocalDirectory(tail[i]) {
          assert tail[i] == s[i + 1];
        }
      }
      assert Sorted(tail) by {
        forall i, j | 0 <= i < j < |tail| ensures Compare(tail[i], tail[j]) <= 0 {
          assert tail[i] == s[i + 1] && tail[j] == s[j + 1];
        }
      }
      SortItemsKeepsSorted(tail);
      if |tail| > 0 {
        assert Compare(s[0], s[1]) <= 0;
      }
      assert s == [s[0]] + tail;
    }
  }

  /** The checklist object: items are appended by the collector and sorted
      once collection has finished. */
  class SynchronizeChecklist {
    var items: seq<Item>

    constructor()
      ensures items == []
    {
      items := [];
    }

    function Count(): (n: nat)
      reads this
      ensures n == |items|
    {
      |items|
    }

    method Add(item: Item)
      modifies this
      ensures items == old(items) + [item]
    {
      items := items + [item];
    }

    method Sort()
      modifies this
      ensures items == SortItems(old(items))
      ensures AllHaveLocalDirectory(old(items)) ==> Sorted(items)
      ensures multiset(items) == multiset(old(items))
    {
      if AllHaveLocalDirectory(items) {
        SortItemsSorted(items);
      }
      items := SortItems(items);
    }
  }
}
