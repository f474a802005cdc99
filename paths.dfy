// Path helpers of the session engine: Windows-style local paths ('\' and
// the drive delimiter ':'), Unix-style remote paths ('/'), and the two
// remote-path operations of the terminal, ExpandFileName and
// TranslateLockedPath.

module Paths {

  const Backslash: char := '\\'
  const Slash: char := '/'
  const ParentDirectory: string := ".."
  const ThisDirectory: string := "."

  predicate EndsWith(s: string, c: char)
  {
    |s| > 0 && s[|s| - 1] == c
  }

  predicate IsPrefix(p: string, s: string)
  {
    |p| <= |s| && s[..|p|] == p
  }

  /** Index of the last character of `s` that is in `delims`, or -1. */
  function LastDelimiter(s: string, delims: set<char>): (r: int)
    ensures -1 <= r < |s|
    ensures r >= 0 ==> s[r] in delims
    ensures forall k :: r < k < |s| ==> s[k] !in delims
  {
    if s == [] then -1
    else if s[|s| - 1] in delims then |s| - 1
    else LastDelimiter(s[..|s| - 1], delims)
  }

  // ----- local (Windows) paths --------------------------------------------

  /** IncludeTrailingBackslash: ensure one trailing '\'. */
  function IncludeTrailingBackslash(s: string): (r: string)
    ensures EndsWith(r, Backslash)
    ensures IsPrefix(s, r) && |r| <= |s| + 1
    ensures EndsWith(s, Backslash) ==> r == s
  {
    if EndsWith(s, Backslash) then s else s + [Backslash]
  }

  /** ExcludeTrailingBackslash: drop one trailing '\'. */
  function ExcludeTrailingBackslash(s: string): (r: string)
    ensures IsPrefix(r, s) && |s| - 1 <= |r|
    ensures !EndsWith(s, Backslash) ==> r == s
    ensures EndsWith(s, Backslash) ==> r + [Backslash] == s
  {
    if EndsWith(s, Backslash) then s[..|s| - 1] else s
  }

  /** ExtractFilePath: everything up to and including the last '\' or ':'. */
  function ExtractFilePath(s: string): (r: string)
    ensures IsPrefix(r, s)
    ensures r == [] || r[|r| - 1] in {Backslash, ':'}
  {
    s[..LastDelimiter(s, {Backslash, ':'}) + 1]
  }

  /** ExtractFileName: everything after the last '\' or ':'. */
  function ExtractFileName(s: string): (r: string)
    ensures forall k :: 0 <= k < |r| ==> r[k] !in {Backslash, ':'}
  {
    s[LastDelimiter(s, {Backslash, ':'}) + 1..]
  }

  /** A local path splits into its directory part and its name part. */
  lemma SplitLocalPath(s: string)
    ensures ExtractFilePath(s) + ExtractFileName(s) == s
  {
  }

  /** ToUnixPath: every '\' becomes '/'. */
  function ToUnixPath(s: string): (r: string)
    ensures |r| == |s|
    ensures forall k :: 0 <= k < |s| ==> r[k] == (if s[k] == Backslash then Slash else s[k])
  {
    if s == [] then [] else [if s[0] == Backslash then Slash else s[0]] + ToUnixPath(s[1..])
  }

  // ----- remote (Unix) paths ----------------------------------------------

  /** UnixIncludeTrailingBackslash: ensure one trailing '/'. */
  function UnixIncludeTrailingBackslash(s: string): (r: string)
    ensures EndsWith(r, Slash)
    ensures IsPrefix(s, r) && |r| <= |s| + 1
    ensures EndsWith(s, Slash) ==> r == s
  {
    if EndsWith(s, Slash) then s else s + [Slash]
  }

  /** UnixExcludeTrailingBackslash: drop one trailing '/', but never turn
      the root "/" into the empty string. */
  function UnixExcludeTrailingBackslash(s: string): (r: string)
    ensures IsPrefix(r, s) && |s| - 1 <= |r|
    ensures |s| > 0 ==> |r| > 0 && r[0] == s[0]
    ensures !EndsWith(s, Slash) ==> r == s
  {
    if |s| > 1 && EndsWith(s, Slash) then s[..|s| - 1] else s
  }

  /** UnixExtractFilePath: everything up to and including the last '/'. */
  function UnixExtractFilePath(s: string): (r: string)
    ensures IsPrefix(r, s)
    ensures r == [] || EndsWith(r, Slash)
    ensures (exists k :: 0 <= k < |s| && s[k] == Slash) ==> r != []
  {
    s[..LastDelimiter(s, {Slash}) + 1]
  }

  // ----- TTerminal::IsAbsolutePath / ExpandFileName -------------------------

  predicate IsAbsolutePath(path: string)
  {
    path != [] && path[0] == Slash
  }

  /** Resolve `path` against `basePath`; only ".." is understood as a
      relative component. */
  function ExpandFileName(path: string, basePath: string): (r: string)
  {
    var p := UnixExcludeTrailingBackslash(path);
    if !IsAbsolutePath(p) && basePath != [] then
      if p == ParentDirectory then
        UnixExcludeTrailingBackslash(UnixExtractFilePath(UnixExcludeTrailingBackslash(basePath)))
      else
        UnixIncludeTrailingBackslash(basePath) + p
    else
      p
  }

  /** An absolute path is only normalised; the base does not matter. */
  lemma ExpandAbsolute(path: string, basePath: string)
    requires IsAbsolutePath(path)
    ensures ExpandFileName(path, basePath) == UnixExcludeTrailingBackslash(path)
    ensures IsAbsolutePath(ExpandFileName(path, basePath))
  {
  }

  /** Against an absolute base every path expands to an absolute path. */
  lemma ExpandUnderAbsoluteBase(path: string, basePath: string)
    requires IsAbsolutePath(basePath)
    ensures IsAbsolutePath(ExpandFileName(path, basePath))
  {
    var p := UnixExcludeTrailingBackslash(path);
    if !IsAbsolutePath(p) && p == ParentDirectory {
      var b := UnixExcludeTrailingBackslash(basePath);
      assert b[0] == Slash;
      var d := UnixExtractFilePath(b);
      assert d != [] && d == b[..|d|];
      assert d[0] == Slash;
    }
  }

  /** ".." names the parent: a prefix of the base directory. */
  lemma ExpandParentIsPrefixOfBase(basePath: string)
    requires basePath != []
    ensures IsPrefix(ExpandFileName(ParentDirectory, basePath), basePath)
  {
    var b := UnixExcludeTrailingBackslash(basePath);
    var d := UnixExtractFilePath(b);
    var r := UnixExcludeTrailingBackslash(d);
    assert r == ExpandFileName(ParentDirectory, basePath);
    assert basePath[..|r|] == b[..|r|] == d[..|r|] == r;
  }

  /** Any other relative name is appended below the base directory. */
  lemma ExpandRelativeAppends(path: string, basePath: string)
    requires basePath != []
    requires !IsAbsolutePath(path) && UnixExcludeTrailingBackslash(path) != ParentDirectory
    ensures ExpandFileName(path, basePath)
         == UnixIncludeTrailingBackslash(basePath) + UnixExcludeTrailingBackslash(path)
    ensures IsPrefix(basePath, ExpandFileName(path, basePath))
  {
    var p := UnixExcludeTrailingBackslash(path);
    assert !IsAbsolutePath(p) by {
      if p != [] { assert p[0] == path[0]; }
    }
    var r := UnixIncludeTrailingBackslash(basePath) + p;
    assert r[..|basePath|] == UnixIncludeTrailingBackslash(basePath)[..|basePath|];
  }

  // ----- TTerminal::TranslateLockedPath -------------------------------------

  /** Translate between the path shown to a user locked in a home directory
      (`lock` = true: strip the home prefix) and the real remote path
      (`lock` = false: prepend it). */
  function TranslateLockedPath(lockInHome: bool, lockDirectory: string, path: string, lock: bool): (r: string)
  {
    if !lockInHome || path == [] || path[0] != Slash then path
    else if lock then
      if IsPrefix(lockDirectory, path) then
        var rest := path[|lockDirectory|..];
        if rest == [] then [Slash] else rest
      else path
    else
      UnixExcludeTrailingBackslash(lockDirectory + path)
  }

  /** Translation is the identity unless the user is locked in the home. */
  lemma TranslateWithoutLockIsIdentity(lockDirectory: string, path: string, lock: bool)
    ensures TranslateLockedPath(false, lockDirectory, path, lock) == path
  {
  }

  /** A real path obtained from a shown absolute path stays below the home. */
  lemma UnlockStaysInHome(lockDirectory: string, path: string)
    requires IsAbsolutePath(path)
    ensures IsPrefix(lockDirectory, TranslateLockedPath(true, lockDirectory, path, false))
  {
    var full := lockDirectory + path;
    var r := UnixExcludeTrailingBackslash(full);
    assert r[..|lockDirectory|] == full[..|lockDirectory|];
  }

  /** Showing a path after translating it in is the identity up to the
      trailing '/'. */
  lemma LockAfterUnlock(lockDirectory: string, path: string)
    requires IsAbsolutePath(path)
    requires lockDirectory == [] || lockDirectory[0] == Slash
    ensures TranslateLockedPath(true, lockDirectory, TranslateLockedPath(true, lockDirectory, path, false), true)
         == UnixExcludeTrailingBackslash(path)
  {
    var full := lockDirectory + path;
    var u := UnixExcludeTrailingBackslash(full);
    assert u == TranslateLockedPath(true, lockDirectory, path, false);
    assert u[0] == Slash;
    assert u[..|lockDirectory|] == full[..|lockDirectory|] == lockDirectory;
    var rest := u[|lockDirectory|..];
    if |full| > 1 && EndsWith(full, Slash) {
      assert rest == path[..|path| - 1];
    } else {
      assert rest == path;
    }
  }

  /** A real path below the home translates out and back unchanged, up to
      the trailing '/'. */
  lemma UnlockAfterLock(lockDirectory: string, path: string)
    requires IsAbsolutePath(path)
    requires lockDirectory != [] && lockDirectory[0] == Slash && !EndsWith(lockDirectory, Slash)
    requires IsPrefix(lockDirectory, path)
    requires |path| == |lockDirectory| || path[|lockDirectory|] == Slash
    ensures TranslateLockedPath(true, lockDirectory, TranslateLockedPath(true, lockDirectory, path, true), false)
         == UnixExcludeTrailingBackslash(path)
  {
    var rest := path[|lockDirectory|..];
    var shown := if rest == [] then [Slash] else rest;
    assert shown == TranslateLockedPath(true, lockDirectory, path, true);
    if rest == [] {
      assert path == lockDirectory;
      assert lockDirectory + shown == lockDirectory + [Slash];
      assert (lockDirectory + [Slash])[..|lockDirectory|] == lockDirectory;
    } else {
      assert lockDirectory + rest == path;
    }
  }
}
