/**
 * file_helper: the one file a rotating sink writes to. It remembers the last name it
 * was asked to open, opens with a bounded number of attempts (making the containing
 * directory first), appends, reports the size, and splits a file name into stem and
 * extension for the rotation scheme.
 */
module FileHelpers {
  import opened Basics
  import opened Text
  import opened Os
  import opened Errors

  /** open_tries_: attempts made by open before it gives up. */
  const OpenTries: nat := 5
  /** open_interval_: milliseconds slept after a failed attempt (sleeping has no effect here). */
  const OpenInterval: nat := 10

  // ---------------------------------------------------------------------------
  // split_by_extension
  // ---------------------------------------------------------------------------

  /**
   * The dot at `k` starts the extension of `fname`: it is the last dot, it is neither
   * the first nor the last character, and no separator stands at or after `k - 1`.
   */
  predicate HasExtensionAt(fname: Path, k: int)
  {
    && 0 < k < |fname| - 1
    && fname[k] == '.'
    && (forall i :: k < i < |fname| ==> fname[i] != '.')
    && (forall i :: k - 1 <= i < |fname| ==> fname[i] != FolderSep)
  }

  /** Splits a file name into (stem, extension); the extension keeps its dot. */
  function SplitByExtension(fname: Path): (r: (Path, Path))
    ensures r.0 + r.1 == fname
    ensures r.1 != [] ==> HasExtensionAt(fname, |r.0|)
  {
    var extIndex := LastIndexOf(fname, '.');
    if extIndex == -1 || extIndex == 0 || extIndex == |fname| - 1 then (fname, [])
    else
      var folderIndex := LastIndexOf(fname, FolderSep);
      if folderIndex != -1 && folderIndex >= extIndex - 1 then (fname, [])
      else (fname[..extIndex], fname[extIndex..])
  }

  /** Whenever some dot qualifies as the start of an extension, the split is made there. */
  lemma SplitByExtensionComplete(fname: Path, k: int)
    requires HasExtensionAt(fname, k)
    ensures SplitByExtension(fname) == (fname[..k], fname[k..])
  {
    var extIndex := LastIndexOf(fname, '.');
    assert extIndex == k;
    var folderIndex := LastIndexOf(fname, FolderSep);
    assert folderIndex < k - 1;
  }

  lemma LastIndexOfAt(s: Str, c: char, k: nat)
    requires k < |s| && s[k] == c
    requires forall i :: k < i < |s| ==> s[i] != c
    ensures LastIndexOf(s, c) == k
  {
  }

  /** A name made of a stem and a qualifying extension is split back into the two. */
  lemma SplitByExtensionAt(stem: Path, ext: Path)
    requires HasExtensionAt(stem + ext, |stem|)
    ensures SplitByExtension(stem + ext) == (stem, ext)
  {
    SplitByExtensionComplete(stem + ext, |stem|);
    assert (stem + ext)[..|stem|] == stem;
    assert (stem + ext)[|stem|..] == ext;
  }

  /** Two rows of the library's own split_by_extension test that find an extension. */
  lemma SplitByExtensionExamplesWithExtension()
    ensures SplitByExtension("mylog.txt") == ("mylog", ".txt")
    ensures SplitByExtension("..txt") == (".", ".txt")
  {
    assert "mylog.txt" == "mylog" + ".txt";
    SplitByExtensionAt("mylog", ".txt");
    assert "..txt" == "." + ".txt";
    SplitByExtensionAt(".", ".txt");
  }

  /** The row of the same test with an extension after a directory whose name has a dot. */
  lemma SplitByExtensionExampleInFolder()
    ensures SplitByExtension("/aaa/bb.d/mylog.txt") == ("/aaa/bb.d/mylog", ".txt")
  {
    assert "/aaa/bb.d/mylog.txt" == "/aaa/bb.d/mylog" + ".txt";
    SplitByExtensionAt("/aaa/bb.d/mylog", ".txt");
  }

  /** The rows of the same test whose stem is a hidden name: only the last dot counts. */
  lemma SplitByExtensionExamplesHidden()
    ensures SplitByExtension(".mylog.txt") == (".mylog", ".txt")
    ensures SplitByExtension("aaa/bbb/ccc/.mylog.txt") == ("aaa/bbb/ccc/.mylog", ".txt")
  {
    assert ".mylog.txt" == ".mylog" + ".txt";
    SplitByExtensionAt(".mylog", ".txt");
    assert "aaa/bbb/ccc/.mylog.txt" == "aaa/bbb/ccc/.mylog" + ".txt";
    SplitByExtensionAt("aaa/bbb/ccc/.mylog", ".txt");
  }

  /** The rows of the same test with an extension after plain folders, relative or rooted. */
  lemma SplitByExtensionExamplesInFolders()
    ensures SplitByExtension("aaa/bbb/ccc/mylog.txt") == ("aaa/bbb/ccc/mylog", ".txt")
    ensures SplitByExtension("/aaa/bbb/ccc/mylog.txt") == ("/aaa/bbb/ccc/mylog", ".txt")
  {
    assert "aaa/bbb/ccc/mylog.txt" == "aaa/bbb/ccc/mylog" + ".txt";
    SplitByExtensionAt("aaa/bbb/ccc/mylog", ".txt");
    assert "/aaa/bbb/ccc/mylog.txt" == "/aaa/bbb/ccc/mylog" + ".txt";
    SplitByExtensionAt("/aaa/bbb/ccc/mylog", ".txt");
  }

  /** The rows of the same test with a file directly under the root, one or two separators deep. */
  lemma SplitByExtensionExamplesAtRoot()
    ensures SplitByExtension("/mylog.txt") == ("/mylog", ".txt")
    ensures SplitByExtension("//mylog.txt") == ("//mylog", ".txt")
  {
    assert "/mylog.txt" == "/mylog" + ".txt";
    SplitByExtensionAt("/mylog", ".txt");
    assert "//mylog.txt" == "//mylog" + ".txt";
    SplitByExtensionAt("//mylog", ".txt");
  }

  /** The rows of the same test under parent-folder references: their dots are not extensions. */
  lemma SplitByExtensionExamplesRelative()
    ensures SplitByExtension("../mylog.txt") == ("../mylog", ".txt")
    ensures SplitByExtension(".././mylog.txt") == (".././mylog", ".txt")
  {
    assert "../mylog.txt" == "../mylog" + ".txt";
    SplitByExtensionAt("../mylog", ".txt");
    assert ".././mylog.txt" == ".././mylog" + ".txt";
    SplitByExtensionAt(".././mylog", ".txt");
  }

  /** The rows of the library's own split_by_extension test that find none. */
  lemma SplitByExtensionExamplesWithoutExtension()
    ensures SplitByExtension(".mylog") == (".mylog", "")
    ensures SplitByExtension("/aaa/bb.d/mylog") == ("/aaa/bb.d/mylog", "")
    ensures SplitByExtension("aaa/bbb/ccc/mylog.") == ("aaa/bbb/ccc/mylog.", "")
    ensures SplitByExtension("/aaa/bbb/ccc/.mylog") == ("/aaa/bbb/ccc/.mylog", "")
    ensures SplitByExtension(".././mylog.txt/xxx") == (".././mylog.txt/xxx", "")
    ensures SplitByExtension("") == ("", "")
    ensures SplitByExtension(".") == (".", "")
  {
    LastIndexOfAt(".mylog", '.', 0);
    LastIndexOfAt("/aaa/bb.d/mylog", '.', 7);
    LastIndexOfAt("/aaa/bb.d/mylog", FolderSep, 9);
    LastIndexOfAt("aaa/bbb/ccc/mylog.", '.', 17);
    LastIndexOfAt("/aaa/bbb/ccc/.mylog", '.', 13);
    LastIndexOfAt("/aaa/bbb/ccc/.mylog", FolderSep, 12);
    LastIndexOfAt(".././mylog.txt/xxx", '.', 10);
    LastIndexOfAt(".././mylog.txt/xxx", FolderSep, 14);
    LastIndexOfAt(".", '.', 0);
  }

  // ---------------------------------------------------------------------------
  // open / reopen / write as functions of the file system
  // ---------------------------------------------------------------------------

  /** Attempt `t` (counting from the next one) of fopen fails by the oracle. */
  predicate AttemptFails(faults: seq<bool>, t: nat)
  {
    t < |faults| && faults[t]
  }

  /** The attempts of open from attempt number `tries` on: make the directory, then fopen. */
  function OpenFrom(fs: Fs, fname: Path, truncate: bool, tries: nat): (bool, Fs)
    requires tries <= OpenTries
    decreases OpenTries - tries
  {
    if tries == OpenTries then (false, fs)
    else
      var (success, fs2) := Attempt(fs, fname, truncate);
      if success then (true, fs2) else OpenFrom(fs2, fname, truncate, tries + 1)
  }

  /** What the file system looks like after `fname` was opened in the given mode. */
  function Opened(fs: Fs, fname: Path, truncate: bool): map<Path, Str>
  {
    fs.files[fname := if truncate then [] else Content(fs, fname)]
  }

  /**
   * One attempt of open: make the directory, then fopen. It succeeds unless the oracle
   * fails it or the name is empty; it only adds directories and consumes one outcome.
   */
  function Attempt(fs: Fs, fname: Path, truncate: bool): (r: (bool, Fs))
    ensures r.0 <==> !AttemptFails(fs.openFaults, 0) && fname != []
    ensures r.1.openFaults == Rest(fs.openFaults)
    ensures r.1.files == if r.0 then Opened(fs, fname, truncate) else fs.files
    ensures fs.dirs <= r.1.dirs
    ensures r.1.renameFaults == fs.renameFaults && r.1.writeLimits == fs.writeLimits
  {
    CreateDirFrame(fs, DirName(fname));
    var fs1 := CreateDirSpec(fs, DirName(fname)).1;
    var (failed, fs2) := FopenS(fs1, fname, truncate);
    (!failed, fs2)
  }

  /** The directories an attempt makes are those leading to the file, all shorter than its name. */
  lemma AttemptNewDirs(fs: Fs, fname: Path, truncate: bool)
    ensures forall d :: d in Attempt(fs, fname, truncate).1.dirs && d !in fs.dirs ==> |d| < |fname|
  {
    CreateDirFrame(fs, DirName(fname));
  }

  /** open succeeds exactly when one of its remaining attempts is not failed by the oracle. */
  lemma {:induction false} OpenFromSucceedsIff(fs: Fs, fname: Path, truncate: bool, tries: nat)
    requires tries <= OpenTries
    ensures OpenFrom(fs, fname, truncate, tries).0 <==>
      fname != [] && exists t :: 0 <= t < OpenTries - tries && !AttemptFails(fs.openFaults, t)
    decreases OpenTries - tries
  {
    if tries < OpenTries {
      var (success, fs2) := Attempt(fs, fname, truncate);
      if success {
        assert !AttemptFails(fs.openFaults, 0);
      } else {
        OpenFromSucceedsIff(fs2, fname, truncate, tries + 1);
        RestShifts(fs.openFaults);
        if fname != [] && exists t :: 0 <= t < OpenTries - tries && !AttemptFails(fs.openFaults, t) {
          var t :| 0 <= t < OpenTries - tries && !AttemptFails(fs.openFaults, t);
          assert t > 0 && !AttemptFails(fs2.openFaults, t - 1);
        }
      }
    }
  }

  /**
   * A successful open creates or truncates the file according to the mode; a failed
   * one leaves every file as it was. Besides, only directories may have been added.
   */
  lemma {:induction false} OpenFromFiles(fs: Fs, fname: Path, truncate: bool, tries: nat)
    requires tries <= OpenTries
    ensures var (ok, fs') := OpenFrom(fs, fname, truncate, tries);
      && fs'.files == (if ok then Opened(fs, fname, truncate) else fs.files)
      && fs.dirs <= fs'.dirs
      && (forall d :: d in fs'.dirs && d !in fs.dirs ==> |d| < |fname|)
      && fs'.renameFaults == fs.renameFaults && fs'.writeLimits == fs.writeLimits
    decreases OpenTries - tries
  {
    if tries < OpenTries {
      var (success, fs2) := Attempt(fs, fname, truncate);
      AttemptNewDirs(fs, fname, truncate);
      if !success {
        OpenFromFiles(fs2, fname, truncate, tries + 1);
      }
    }
  }

  /** Consuming one entry shifts the remaining oracle by one. */
  lemma RestShifts(faults: seq<bool>)
    ensures forall n: nat :: Drop(Rest(faults), n) == Drop(faults, n + 1)
    ensures forall u: nat :: AttemptFails(Rest(faults), u) <==> AttemptFails(faults, u + 1)
  {
  }

  /** A failed open used all of its remaining attempts, one fopen outcome each. */
  lemma {:induction false} OpenFromFailureConsumes(fs: Fs, fname: Path, truncate: bool, tries: nat)
    requires tries <= OpenTries
    ensures var (ok, fs') := OpenFrom(fs, fname, truncate, tries);
      !ok ==> fs'.openFaults == Drop(fs.openFaults, OpenTries - tries)
    decreases OpenTries - tries
  {
    if tries < OpenTries {
      var (success, fs2) := Attempt(fs, fname, truncate);
      if !success {
        OpenFromFailureConsumes(fs2, fname, truncate, tries + 1);
        RestShifts(fs.openFaults);
      }
    }
  }

  /** A first success one attempt later in the remaining oracle is one in the full oracle. */
  lemma FirstSuccessShift(faults: seq<bool>, t: nat)
    requires AttemptFails(faults, 0) && FirstSuccess(Rest(faults), t)
    ensures FirstSuccess(faults, t + 1)
  {
    RestShifts(faults);
    forall u | 0 <= u < t + 1
      ensures AttemptFails(faults, u)
    {
      if u > 0 {
        assert AttemptFails(Rest(faults), u - 1);
      }
    }
  }

  /** A successful open stopped at the first attempt the oracle let through. */
  lemma {:induction false} OpenFromSuccessStops(fs: Fs, fname: Path, truncate: bool, tries: nat)
    requires tries <= OpenTries
    requires OpenFrom(fs, fname, truncate, tries).0
    ensures exists t :: 0 <= t < OpenTries - tries && FirstSuccess(fs.openFaults, t)
                        && OpenFrom(fs, fname, truncate, tries).1.openFaults == Drop(fs.openFaults, t + 1)
    decreases OpenTries - tries, 1
  {
    var r := Attempt(fs, fname, truncate);
    if r.0 {
      StopsAtFirst(fs.openFaults, OpenFrom(fs, fname, truncate, tries).1.openFaults);
    } else {
      SuccessAfterFailedAttempt(fs, fname, truncate, tries);
    }
  }

  /** The case of OpenFromSuccessStops whose first attempt failed: the success comes one attempt later. */
  lemma {:induction false} SuccessAfterFailedAttempt(fs: Fs, fname: Path, truncate: bool, tries: nat)
    requires tries < OpenTries
    requires OpenFrom(fs, fname, truncate, tries).0 && !Attempt(fs, fname, truncate).0
    ensures exists t :: 0 <= t < OpenTries - tries && FirstSuccess(fs.openFaults, t)
                        && OpenFrom(fs, fname, truncate, tries).1.openFaults == Drop(fs.openFaults, t + 1)
    decreases OpenTries - tries, 0
  {
    assert fname != [] by { OpenFromSucceedsIff(fs, fname, truncate, tries); }
    var r := Attempt(fs, fname, truncate);
    var after := OpenFrom(fs, fname, truncate, tries).1;
    OpenFromSuccessStops(r.1, fname, truncate, tries + 1);
    var t :| 0 <= t < OpenTries - tries - 1 && FirstSuccess(r.1.openFaults, t)
             && after.openFaults == Drop(r.1.openFaults, t + 1);
    StopsAfterFailure(fs.openFaults, r.1.openFaults, t, after.openFaults);
  }

  /** An attempt the oracle lets through is the first success, and it used one entry. */
  lemma StopsAtFirst(faults: seq<bool>, after: seq<bool>)
    requires !AttemptFails(faults, 0) && after == Rest(faults)
    ensures FirstSuccess(faults, 0) && after == Drop(faults, 0 + 1)
  {
    RestShifts(faults);
  }

  /** A failed attempt followed by a first success at t in the rest is a first success at t + 1. */
  lemma StopsAfterFailure(faults: seq<bool>, rest: seq<bool>, t: nat, after: seq<bool>)
    requires AttemptFails(faults, 0) && rest == Rest(faults)
    requires FirstSuccess(rest, t) && after == Drop(rest, t + 1)
    ensures FirstSuccess(faults, t + 1) && after == Drop(faults, t + 1 + 1)
  {
    FirstSuccessShift(faults, t);
    RestShifts(faults);
  }

  /** Attempt `t` is the first one the oracle lets through. */
  predicate FirstSuccess(faults: seq<bool>, t: nat)
  {
    !AttemptFails(faults, t) && forall u :: 0 <= u < t ==> AttemptFails(faults, u)
  }

  /** reopen: fails when no name was ever set, otherwise opens the remembered name again. */
  function ReopenSpec(fs: Fs, filename: Path, truncate: bool): (r: (Option<LogError>, Fs))
    ensures r.0.Some? ==> r.0.value == if filename == [] then NotOpenedBefore else OpenFailure(filename)
    ensures r.1.files == if r.0.None? then Opened(fs, filename, truncate) else fs.files
    ensures fs.dirs <= r.1.dirs
    ensures r.1.renameFaults == fs.renameFaults && r.1.writeLimits == fs.writeLimits
  {
    if filename == [] then (Some(NotOpenedBefore), fs)
    else
      OpenFromFiles(fs, filename, truncate, 0);
      var (ok, fs1) := OpenFrom(fs, filename, truncate, 0);
      (if ok then None else Some(OpenFailure(filename)), fs1)
  }

  /** reopen succeeds exactly when there is a name and one of the open attempts is let through. */
  lemma ReopenSucceedsIff(fs: Fs, filename: Path, truncate: bool)
    ensures ReopenSpec(fs, filename, truncate).0.None? <==>
      filename != [] && exists t :: 0 <= t < OpenTries && !AttemptFails(fs.openFaults, t)
  {
    if filename != [] {
      OpenFromSucceedsIff(fs, filename, truncate, 0);
    }
  }

  /** The directories a reopen makes lead to the file: all are shorter than its name. */
  lemma ReopenNewDirs(fs: Fs, filename: Path, truncate: bool)
    ensures forall d :: d in ReopenSpec(fs, filename, truncate).1.dirs && d !in fs.dirs ==> |d| < |filename|
  {
    if filename != [] {
      OpenFromFiles(fs, filename, truncate, 0);
    }
  }

  /** write: appends `buf` to the open file, failing on a short write. */
  function WriteSpec(fs: Fs, path: Path, buf: Str): (r: (Option<LogError>, Fs))
    ensures r.0.None? <==> fs.writeLimits == [] || fs.writeLimits[0] >= |buf|
    ensures r.0.Some? ==> r.0 == Some(WriteFailure(path))
    ensures r.0.None? ==> r.1.files == fs.files[path := Content(fs, path) + buf]
    ensures r.1 == fs.(files := r.1.files, writeLimits := Rest(fs.writeLimits))
    ensures path in r.1.files && r.1.files == fs.files[path := r.1.files[path]]
    ensures |r.1.files[path]| <= |Content(fs, path)| + |buf|
  {
    var (written, fs1) := Fwrite(fs, path, buf);
    assert written == |buf| ==> buf[..written] == buf;
    (if written != |buf| then Some(WriteFailure(path)) else None, fs1)
  }

  // ---------------------------------------------------------------------------
  // The handle
  // ---------------------------------------------------------------------------

  class FileHelper {
    /** fd_ != nullptr: a FILE is open, always the one named by `filename`. */
    var isOpen: bool
    /** filename_: the name most recently passed to open. */
    var filename: Path
    /** How many times flush has reached fflush; lets callers state when they flush. */
    ghost var flushes: nat

    constructor()
      ensures !isOpen && filename == [] && flushes == 0
    {
      isOpen, filename, flushes := false, [], 0;
    }

    function Filename(): (r: Path)
      reads this
    {
      filename
    }

    /**
     * open: closes any open file, remembers `fname` (even if opening then fails), and
     * tries up to OpenTries times to make its directory and open it.
     */
    method Open(fname: Path, truncate: bool, fs: Fs) returns (err: Option<LogError>, fs': Fs)
      modifies this
      ensures filename == fname && flushes == old(flushes)
      ensures (isOpen, fs') == OpenFrom(fs, fname, truncate, 0)
      ensures err == if isOpen then None else Some(OpenFailure(fname))
    {
      Close();
      filename := fname;
      fs' := fs;
      var tries := 0;
      while tries < OpenTries
        invariant 0 <= tries <= OpenTries
        invariant OpenFrom(fs, fname, truncate, 0) == OpenFrom(fs', fname, truncate, tries)
        invariant !isOpen && filename == fname && flushes == old(flushes)
      {
        var made;
        made, fs' := CreateDir(fs', DirName(fname));
        var failed := FopenS(fs', fname, truncate).0;
        fs' := FopenS(fs', fname, truncate).1;
        if !failed {
          isOpen := true;
          return None, fs';
        }
        // sleep_for_millis(OpenInterval)
        tries := tries + 1;
      }
      err := Some(OpenFailure(fname));
    }

    /** reopen: open again under the remembered name. */
    method Reopen(truncate: bool, fs: Fs) returns (err: Option<LogError>, fs': Fs)
      modifies this
      ensures (err, fs') == ReopenSpec(fs, old(filename), truncate)
      ensures filename == old(filename) && flushes == old(flushes)
      ensures isOpen == if old(filename) == [] then old(isOpen) else err.None?
    {
      if filename == [] {
        return Some(NotOpenedBefore), fs;
      }
      err, fs' := Open(filename, truncate, fs);
    }

    /** flush: fflush. Bytes reach the modelled file at write time, so only the count changes. */
    method Flush()
      modifies this
      ensures flushes == old(flushes) + 1
      ensures isOpen == old(isOpen) && filename == old(filename)
    {
      flushes := flushes + 1;
    }

    /** close: closes only an open file; closing twice, or before any open, changes nothing. */
    method Close()
      modifies this
      ensures !isOpen && filename == old(filename) && flushes == old(flushes)
    {
      if isOpen {
        isOpen := false;
      }
    }

    /** write: appends every byte of `buf` or reports the short write. */
    method Write(buf: Str, fs: Fs) returns (err: Option<LogError>, fs': Fs)
      requires isOpen
      ensures (err, fs') == WriteSpec(fs, filename, buf)
    {
      var written;
      written, fs' := Fwrite(fs, filename, buf).0, Fwrite(fs, filename, buf).1;
      if written != |buf| {
        return Some(WriteFailure(filename)), fs';
      }
      err := None;
    }

    /** size: the size of the open file; an error on a closed handle. */
    method Size(fs: Fs) returns (r: Result<nat, LogError>)
      ensures r.Success? <==> isOpen
      ensures r.Success? ==> r.value == FileSize(fs, filename)
      ensures r.Failure? ==> r.error == NotOpen(filename)
    {
      if !isOpen {
        return Failure(NotOpen(filename));
      }
      r := Success(FileSize(fs, filename));
    }
  }

  // ---------------------------------------------------------------------------
  // The library's own file_helper tests, replayed on a file system without faults
  // ---------------------------------------------------------------------------

  const TestFile: Path := "test_logs/file_helper_test.txt"

  /** Neither fopen nor fwrite fails. */
  predicate NoOpenOrWriteFaults(fs: Fs)
  {
    fs.openFaults == [] && fs.writeLimits == []
  }

  lemma OpenWithoutFaults(fs: Fs, fname: Path, truncate: bool)
    requires fs.openFaults == [] && fname != []
    ensures OpenFrom(fs, fname, truncate, 0).0
    ensures OpenFrom(fs, fname, truncate, 0).1.files == Opened(fs, fname, truncate)
    ensures OpenFrom(fs, fname, truncate, 0).1.writeLimits == fs.writeLimits
    ensures OpenFrom(fs, fname, truncate, 0).1.openFaults == []
  {
    OpenFromSucceedsIff(fs, fname, truncate, 0);
    OpenFromFiles(fs, fname, truncate, 0);
    assert !AttemptFails(fs.openFaults, 0);
    OpenFromSuccessStops(fs, fname, truncate, 0);
  }

  /** file_helper_filename: open remembers the name it was given. */
  method FilenameScenario(fs: Fs) returns (name: Path)
    ensures name == TestFile
  {
    var helper := new FileHelper();
    var err, fs1 := helper.Open(TestFile, false, fs);
    name := helper.Filename();
  }

  /** file_helper_size: writing 123 bytes to a fresh file gives size 123. */
  method SizeScenario(fs: Fs) returns (size: Result<nat, LogError>)
    requires NoOpenOrWriteFaults(fs) && TestFile !in fs.files
    ensures size == Success(123)
  {
    var helper := new FileHelper();
    OpenWithoutFaults(fs, TestFile, false);
    var err, fs1 := helper.Open(TestFile, false, fs);
    err, fs1 := helper.Write(seq(123, _ => '1'), fs1);
    helper.Flush();
    size := helper.Size(fs1);
  }

  /** file_helper_reopen: reopening with truncation after 12 bytes gives size 0. */
  method ReopenTruncateScenario(fs: Fs) returns (before: Result<nat, LogError>, after: Result<nat, LogError>)
    requires NoOpenOrWriteFaults(fs) && TestFile !in fs.files
    ensures before == Success(12) && after == Success(0)
  {
    var helper := new FileHelper();
    OpenWithoutFaults(fs, TestFile, false);
    var err, fs1 := helper.Open(TestFile, false, fs);
    err, fs1 := helper.Write(seq(12, _ => '1'), fs1);
    helper.Flush();
    before := helper.Size(fs1);
    OpenWithoutFaults(fs1, TestFile, true);
    err, fs1 := helper.Reopen(true, fs1);
    after := helper.Size(fs1);
  }

  /** file_helper_reopen2: reopening without truncation after 14 bytes keeps size 14. */
  method ReopenAppendScenario(fs: Fs) returns (before: Result<nat, LogError>, after: Result<nat, LogError>)
    requires NoOpenOrWriteFaults(fs) && TestFile !in fs.files
    ensures before == Success(14) && after == Success(14)
  {
    var helper := new FileHelper();
    OpenWithoutFaults(fs, TestFile, false);
    var err, fs1 := helper.Open(TestFile, false, fs);
    err, fs1 := helper.Write(seq(14, _ => '1'), fs1);
    helper.Flush();
    before := helper.Size(fs1);
    OpenWithoutFaults(fs1, TestFile, false);
    err, fs1 := helper.Reopen(false, fs1);
    after := helper.Size(fs1);
  }
}
