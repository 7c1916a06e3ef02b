/**
 * The operating-system layer of the library (os.hpp) over an abstract file system.
 *
 * The file system is a value: a map from path to contents, a set of directories, and
 * failure oracles. Each oracle is a sequence consumed one entry per call of its
 * primitive; an empty oracle means the call succeeds. `openFaults`, `mkdirFaults` and
 * `renameFaults` say whether the next fopen, mkdir or rename fails; `writeLimits`
 * bounds how many bytes the next fwrite accepts. Directory structure is not checked:
 * mkdir and fopen do not look at the parent directory, so a failure caused by a missing
 * parent is one more oracle fault.
 */
module Os {
  import opened Text

  type Path = Str

  /** The folder separator; the Windows separator is not modelled. */
  const FolderSep: char := '/'

  datatype Fs = Fs(
    files: map<Path, Str>,
    dirs: set<Path>,
    openFaults: seq<bool>,
    mkdirFaults: seq<bool>,
    renameFaults: seq<bool>,
    writeLimits: seq<nat>)

  /** The next call of the primitive that owns `faults` fails. */
  predicate Faulty(faults: seq<bool>)
  {
    faults != [] && faults[0]
  }

  /** An oracle after one call has consumed its first entry. */
  function Rest<T>(s: seq<T>): seq<T>
  {
    if s == [] then [] else s[1..]
  }

  /** An oracle after `n` calls have consumed entries. */
  function Drop<T>(s: seq<T>, n: nat): seq<T>
  {
    if n <= |s| then s[n..] else []
  }

  /** None of the first `n` calls of an oracle's primitive fails. */
  predicate Unfaulted(faults: seq<bool>, n: nat)
  {
    forall i :: 0 <= i < n && i < |faults| ==> !faults[i]
  }

  /** path_exists: stat succeeds on files and directories alike. */
  predicate PathExists(fs: Fs, p: Path)
  {
    p in fs.files || p in fs.dirs
  }

  /** The bytes of a file, empty when there is no such file. */
  function Content(fs: Fs, p: Path): Str
  {
    if p in fs.files then fs.files[p] else []
  }

  /** filesize as fstat reports it. */
  function FileSize(fs: Fs, p: Path): nat
  {
    |Content(fs, p)|
  }

  /** mkdir_: true when the directory was made. */
  function Mkdir(fs: Fs, p: Path): (r: (bool, Fs))
    ensures r.1 == fs.(dirs := r.1.dirs, mkdirFaults := Rest(fs.mkdirFaults))
    ensures r.0 <==> !Faulty(fs.mkdirFaults) && !PathExists(fs, p)
    ensures r.1.dirs == if r.0 then fs.dirs + {p} else fs.dirs
  {
    var fs1 := fs.(mkdirFaults := Rest(fs.mkdirFaults));
    if Faulty(fs.mkdirFaults) || PathExists(fs, p) then (false, fs1)
    else (true, fs1.(dirs := fs.dirs + {p}))
  }

  /**
   * fopen_s with the library's inverted convention: the boolean is true when opening
   * FAILED. Mode "wb" (truncate) empties the file, mode "ab" keeps its bytes; both
   * create it when it is missing. fopen("") always fails.
   */
  function FopenS(fs: Fs, p: Path, truncate: bool): (r: (bool, Fs))
    ensures r.0 <==> Faulty(fs.openFaults) || p == []
    ensures r.1.openFaults == Rest(fs.openFaults)
    ensures r.1.dirs == fs.dirs && r.1.mkdirFaults == fs.mkdirFaults
    ensures r.1.renameFaults == fs.renameFaults && r.1.writeLimits == fs.writeLimits
    ensures r.1.files == if r.0 then fs.files else fs.files[p := if truncate then [] else Content(fs, p)]
  {
    var fs1 := fs.(openFaults := Rest(fs.openFaults));
    if Faulty(fs.openFaults) || p == [] then (true, fs1)
    else (false, fs1.(files := fs.files[p := if truncate then [] else Content(fs, p)]))
  }

  /** remove: 0 when a file was deleted, -1 otherwise. */
  function Remove(fs: Fs, p: Path): (r: (int, Fs))
    ensures r.1 == fs.(files := fs.files - {p})
    ensures r.0 == 0 <==> p in fs.files
  {
    if p in fs.files then (0, fs.(files := fs.files - {p})) else (-1, fs)
  }

  /** remove_if_exists: removes only what path_exists reports. */
  function RemoveIfExists(fs: Fs, p: Path): (r: (int, Fs))
    ensures !PathExists(fs, p) ==> r == (0, fs)
    ensures r.1 == fs.(files := fs.files - {p})
    ensures p in fs.files ==> r.0 == 0
  {
    if PathExists(fs, p) then Remove(fs, p) else (0, fs)
  }

  /** rename: 0 on success; on success the target, if any, is replaced. */
  function Rename(fs: Fs, src: Path, dst: Path): (r: (int, Fs))
    ensures r.0 == 0 <==> src in fs.files && !Faulty(fs.renameFaults)
    ensures r.1 == fs.(files := r.1.files, renameFaults := Rest(fs.renameFaults))
    ensures r.1.files == if r.0 == 0 then (fs.files - {src})[dst := fs.files[src]] else fs.files
  {
    var fs1 := fs.(renameFaults := Rest(fs.renameFaults));
    if src in fs.files && !Faulty(fs.renameFaults)
    then (0, fs1.(files := (fs.files - {src})[dst := fs.files[src]]))
    else (-1, fs1)
  }

  /** fwrite: appends the accepted prefix of `buf` and returns how many bytes it accepted. */
  function Fwrite(fs: Fs, p: Path, buf: Str): (r: (nat, Fs))
    ensures r.0 <= |buf|
    ensures r.0 == |buf| <==> fs.writeLimits == [] || fs.writeLimits[0] >= |buf|
    ensures r.1 == fs.(files := fs.files[p := Content(fs, p) + buf[..r.0]], writeLimits := Rest(fs.writeLimits))
  {
    var n := if fs.writeLimits == [] || fs.writeLimits[0] >= |buf| then |buf| else fs.writeLimits[0];
    (n, fs.(files := fs.files[p := Content(fs, p) + buf[..n]], writeLimits := Rest(fs.writeLimits)))
  }

  // ---------------------------------------------------------------------------
  // dir_name
  // ---------------------------------------------------------------------------

  /** The part of `path` before its last separator, or "" when it has none. */
  function DirName(path: Path): (r: Path)
    ensures FolderSep !in path ==> r == []
    ensures FolderSep in path ==>
      |r| < |path| && path[|r|] == FolderSep && r == path[..|r|]
      && forall k :: |r| < k < |path| ==> path[k] != FolderSep
  {
    var pos := LastIndexOf(path, FolderSep);
    if pos >= 0 then path[..pos] else []
  }

  lemma DirNameExamples()
    ensures DirName("abc/file") == "abc"
    ensures DirName("abc/") == "abc"
    ensures DirName("abc") == ""
    ensures DirName("abc///") == "abc//"
  {
    assert "abc/file"[3] == FolderSep;
    assert "abc/"[3] == FolderSep;
    assert "abc///"[5] == FolderSep;
  }

  // ---------------------------------------------------------------------------
  // create_dir
  // ---------------------------------------------------------------------------

  /**
   * The positions at which create_dir cuts `path`: every separator, and the end of the
   * path when it does not end with a separator.
   */
  predicate IsCut(path: Path, j: nat)
  {
    (j < |path| && path[j] == FolderSep) || (0 < j == |path| && path[j - 1] != FolderSep)
  }

  /** The result and new file system of create_dir. */
  function CreateDirSpec(fs: Fs, path: Path): (bool, Fs)
  {
    if PathExists(fs, path) then (true, fs)
    else if path == [] then (false, fs)
    else CreateDirWalk(fs, path, 0)
  }

  /** One pass of the do/while loop of create_dir, and the passes after it. */
  function CreateDirWalk(fs: Fs, path: Path, offset: nat): (bool, Fs)
    requires offset < |path|
    decreases |path| - offset
  {
    var found := IndexFrom(path, FolderSep, offset);
    var tokenPos := if found < 0 then |path| else found;
    var subdir := path[..tokenPos];
    var (made, fs1) := if subdir != [] && !PathExists(fs, subdir) then Mkdir(fs, subdir) else (true, fs);
    if !made then (false, fs1)
    else if tokenPos + 1 < |path| then CreateDirWalk(fs1, path, tokenPos + 1)
    else (true, fs1)
  }

  /** create_dir: makes `path` and every directory leading to it. */
  method CreateDir(fs: Fs, path: Path) returns (ok: bool, fs': Fs)
    ensures (ok, fs') == CreateDirSpec(fs, path)
  {
    if PathExists(fs, path) {
      return true, fs;
    }
    if path == [] {
      return false, fs;
    }
    // the path is not empty, so the first pass of the do/while always runs
    fs' := fs;
    var searchOffset := 0;
    while searchOffset < |path|
      invariant searchOffset <= |path| + 1
      invariant CreateDirSpec(fs, path) ==
        if searchOffset < |path| then CreateDirWalk(fs', path, searchOffset) else (true, fs')
      decreases |path| + 1 - searchOffset
    {
      var tokenPos := IndexFrom(path, FolderSep, searchOffset);
      if tokenPos < 0 {
        tokenPos := |path|;
      }
      var subdir := path[..tokenPos];
      if subdir != [] && !PathExists(fs', subdir) {
        var made;
        made, fs' := Mkdir(fs', subdir).0, Mkdir(fs', subdir).1;
        if !made {
          return false, fs';
        }
      }
      searchOffset := tokenPos + 1;
    }
    ok := true;
  }

  /** create_dir only adds directories and consumes mkdir outcomes. */
  lemma {:induction false} CreateDirWalkFrame(fs: Fs, path: Path, offset: nat)
    requires offset < |path|
    ensures var fs' := CreateDirWalk(fs, path, offset).1;
      fs' == fs.(dirs := fs'.dirs, mkdirFaults := fs'.mkdirFaults) && fs.dirs <= fs'.dirs
    ensures forall d :: d in CreateDirWalk(fs, path, offset).1.dirs && d !in fs.dirs ==>
      0 < |d| <= |path| && d == path[..|d|]
    decreases |path| - offset
  {
    var found := IndexFrom(path, FolderSep, offset);
    var tokenPos := if found < 0 then |path| else found;
    var subdir := path[..tokenPos];
    var (made, fs1) := if subdir != [] && !PathExists(fs, subdir) then Mkdir(fs, subdir) else (true, fs);
    if made && tokenPos + 1 < |path| {
      CreateDirWalkFrame(fs1, path, tokenPos + 1);
    }
  }

  lemma CreateDirFrame(fs: Fs, path: Path)
    ensures var fs' := CreateDirSpec(fs, path).1;
      fs' == fs.(dirs := fs'.dirs, mkdirFaults := fs'.mkdirFaults) && fs.dirs <= fs'.dirs
    ensures forall d :: d in CreateDirSpec(fs, path).1.dirs && d !in fs.dirs ==>
      0 < |d| <= |path| && d == path[..|d|]
  {
    if !PathExists(fs, path) && path != [] {
      CreateDirWalkFrame(fs, path, 0);
    }
  }

  lemma {:induction false} CreateDirWalkMakesCuts(fs: Fs, path: Path, offset: nat)
    requires offset < |path|
    requires CreateDirWalk(fs, path, offset).0
    ensures forall j :: offset <= j <= |path| && 0 < j && IsCut(path, j) ==>
      PathExists(CreateDirWalk(fs, path, offset).1, path[..j])
    decreases |path| - offset
  {
    var fs' := CreateDirWalk(fs, path, offset).1;
    var found := IndexFrom(path, FolderSep, offset);
    var tokenPos := if found < 0 then |path| else found;
    var subdir := path[..tokenPos];
    var (made, fs1) := if subdir != [] && !PathExists(fs, subdir) then Mkdir(fs, subdir) else (true, fs);
    assert made;
    if tokenPos + 1 < |path| {
      CreateDirWalkMakesCuts(fs1, path, tokenPos + 1);
      CreateDirWalkFrame(fs1, path, tokenPos + 1);
    }
    forall j | offset <= j <= |path| && 0 < j && IsCut(path, j)
      ensures PathExists(fs', path[..j])
    {
      if j == tokenPos {
        assert PathExists(fs1, subdir);
      }
    }
  }

  /**
   * After create_dir walked the path and reported success, every directory leading to
   * it exists, and so does the path itself without a trailing separator.
   */
  lemma CreateDirMakesAllPrefixes(fs: Fs, path: Path)
    requires !PathExists(fs, path)
    requires CreateDirSpec(fs, path).0
    ensures forall j :: 0 < j <= |path| && IsCut(path, j) ==> PathExists(CreateDirSpec(fs, path).1, path[..j])
  {
    CreateDirWalkMakesCuts(fs, path, 0);
  }

  /** A call that did not fail, followed by `n` calls that did not fail, is `n + 1` calls that did not fail. */
  lemma UnfaultedShift(faults: seq<bool>, n: nat)
    requires !Faulty(faults) && Unfaulted(Rest(faults), n)
    ensures Unfaulted(faults, n + 1)
  {
    forall i | 0 < i < n + 1 && i < |faults|
      ensures !faults[i]
    {
      assert Rest(faults)[i - 1] == faults[i];
    }
  }

  /** Consuming `a` entries and then `b` more is consuming `a + b`. */
  lemma DropDrop<T>(s: seq<T>, a: nat, b: nat)
    ensures Drop(Drop(s, a), b) == Drop(s, a + b)
  {
  }

  /**
   * create_dir reports failure only at the first mkdir that failed: the last mkdir
   * outcome it consumed was a fault, every outcome before it was a success, and no later
   * prefix was attempted.
   */
  lemma {:induction false} CreateDirWalkStopsAtFailure(fs: Fs, path: Path, offset: nat)
    requires offset < |path|
    requires !CreateDirWalk(fs, path, offset).0
    ensures exists k :: (0 <= k < |fs.mkdirFaults| && fs.mkdirFaults[k] && Unfaulted(fs.mkdirFaults, k)
                         && CreateDirWalk(fs, path, offset).1.mkdirFaults == fs.mkdirFaults[k + 1..])
    decreases |path| - offset
  {
    var found := IndexFrom(path, FolderSep, offset);
    var tokenPos := if found < 0 then |path| else found;
    var subdir := path[..tokenPos];
    var (made, fs1) := if subdir != [] && !PathExists(fs, subdir) then Mkdir(fs, subdir) else (true, fs);
    if !made {
      assert fs.mkdirFaults[0] && fs1.mkdirFaults == fs.mkdirFaults[1..] && Unfaulted(fs.mkdirFaults, 0);
    } else {
      assert tokenPos + 1 < |path|;
      CreateDirWalkStopsAtFailure(fs1, path, tokenPos + 1);
      var k :| 0 <= k < |fs1.mkdirFaults| && fs1.mkdirFaults[k] && Unfaulted(fs1.mkdirFaults, k)
        && CreateDirWalk(fs1, path, tokenPos + 1).1.mkdirFaults == fs1.mkdirFaults[k + 1..];
      if fs1.mkdirFaults != fs.mkdirFaults {
        assert fs1.mkdirFaults == fs.mkdirFaults[1..] == Rest(fs.mkdirFaults);
        UnfaultedShift(fs.mkdirFaults, k);
        assert fs.mkdirFaults[k + 1] && fs1.mkdirFaults[k + 1..] == fs.mkdirFaults[k + 2..];
      }
    }
  }

  /** create_dir fails only for "" or at its first mkdir fault, after mkdirs that all succeeded. */
  lemma CreateDirFailure(fs: Fs, path: Path)
    requires !CreateDirSpec(fs, path).0
    ensures path == [] || exists k :: (0 <= k < |fs.mkdirFaults| && fs.mkdirFaults[k] && Unfaulted(fs.mkdirFaults, k)
                                       && CreateDirSpec(fs, path).1.mkdirFaults == fs.mkdirFaults[k + 1..])
  {
    if path != [] {
      CreateDirWalkStopsAtFailure(fs, path, 0);
    }
  }

  /** A walk that succeeds consumed mkdir outcomes that were all successes. */
  lemma {:induction false} CreateDirWalkSucceedsUnfaulted(fs: Fs, path: Path, offset: nat)
    requires offset < |path|
    requires CreateDirWalk(fs, path, offset).0
    ensures exists n: nat :: Unfaulted(fs.mkdirFaults, n)
                        && CreateDirWalk(fs, path, offset).1.mkdirFaults == Drop(fs.mkdirFaults, n)
    decreases |path| - offset
  {
    var found := IndexFrom(path, FolderSep, offset);
    var tokenPos := if found < 0 then |path| else found;
    var subdir := path[..tokenPos];
    var called := subdir != [] && !PathExists(fs, subdir);
    var (made, fs1) := if called then Mkdir(fs, subdir) else (true, fs);
    var used := if called then 1 else 0;
    assert fs1.mkdirFaults == Drop(fs.mkdirFaults, used) && Unfaulted(fs.mkdirFaults, used);
    if tokenPos + 1 < |path| {
      CreateDirWalkSucceedsUnfaulted(fs1, path, tokenPos + 1);
      var n: nat :| Unfaulted(fs1.mkdirFaults, n)
               && CreateDirWalk(fs1, path, tokenPos + 1).1.mkdirFaults == Drop(fs1.mkdirFaults, n);
      DropDrop(fs.mkdirFaults, used, n);
      if called {
        UnfaultedShift(fs.mkdirFaults, n);
      }
      assert Unfaulted(fs.mkdirFaults, used + n);
    } else {
      assert Drop(fs.mkdirFaults, used) == Drop(fs.mkdirFaults, used + 0);
    }
  }

  /** create_dir succeeds only when every mkdir it called succeeded. */
  lemma CreateDirSuccess(fs: Fs, path: Path)
    requires CreateDirSpec(fs, path).0
    ensures exists n: nat :: Unfaulted(fs.mkdirFaults, n)
                        && CreateDirSpec(fs, path).1.mkdirFaults == Drop(fs.mkdirFaults, n)
  {
    if PathExists(fs, path) {
      assert fs.mkdirFaults == Drop(fs.mkdirFaults, 0) && Unfaulted(fs.mkdirFaults, 0);
    } else {
      CreateDirWalkSucceedsUnfaulted(fs, path, 0);
    }
  }
}
