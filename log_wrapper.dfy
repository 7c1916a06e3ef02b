/**
 * log_wrapper: the process-wide dispatcher and the renderers used to build a record.
 * A record goes to the console sink and to the rotating file sink, each behind its own
 * threshold, and the file sink is flushed when the record's level reaches the flush
 * threshold. The record text is the time, a level tag, the message and the call site.
 */
module LogWrapper {
  import opened Basics
  import opened Text
  import opened Os
  import opened Errors
  import opened Log
  import opened LazyStrings

  // ---------------------------------------------------------------------------
  // Renderers
  // ---------------------------------------------------------------------------

  /**
   * get_level_string: "[trace]", "[debug]", "[info] ", "[warn] ", "[error]", "[critical]",
   * and "[unknow]" for any other value, here off. The contract gives the shape; the exact
   * table is pinned by LevelStringRoundTrip through TagLevel.
   */
  function LevelString(level: Level): (r: Str)
    ensures |r| >= 7 && r[0] == '['
    ensures r[|r| - 1] == ']' || r[|r| - 2..] == "] "
  {
    match level
    case Trace => "[trace]"
    case Debug => "[debug]"
    case Info => "[info] "
    case Warn => "[warn] "
    case Error => "[error]"
    case Critical => "[critical]"
    case Off => "[unknow]"
  }

  /** Reads a level tag back; the reference meaning of `LevelString`. */
  function TagLevel(tag: Str): Option<Level>
  {
    if tag == "[trace]" then Some(Trace)
    else if tag == "[debug]" then Some(Debug)
    else if tag == "[info] " then Some(Info)
    else if tag == "[warn] " then Some(Warn)
    else if tag == "[error]" then Some(Error)
    else if tag == "[critical]" then Some(Critical)
    else if tag == "[unknow]" then Some(Off)
    else None
  }

  /** Every tag reads back as the level it was rendered from. */
  lemma LevelStringRoundTrip(level: Level)
    ensures TagLevel(LevelString(level)) == Some(level)
  {
  }

  /** The six levels a record can carry have six different tags; only off is "[unknow]". */
  lemma LevelStringDistinct(a: Level, b: Level)
    ensures LevelString(a) == LevelString(b) ==> a == b
    ensures LevelString(a) == "[unknow]" <==> a == Off
  {
    LevelStringRoundTrip(a);
    LevelStringRoundTrip(b);
  }

  /** The part of a file name after its last separator: what a record shows as the file. */
  function TrimFileName(fileName: Path): (r: Path)
    ensures FolderSep !in r
    ensures FolderSep !in fileName ==> r == fileName
    ensures FolderSep in fileName ==> fileName == DirName(fileName) + [FolderSep] + r
  {
    var pos := LastIndexOf(fileName, FolderSep);
    if pos >= 0 then
      var r := fileName[pos + 1..];
      assert fileName == fileName[..pos] + [FolderSep] + r;
      assert forall k :: 0 <= k < |r| ==> r[k] == fileName[pos + 1 + k];
      r
    else fileName
  }

  /** The trimmed name and dir_name are the two halves of the full name. */
  lemma TrimFileNameExamples()
    ensures TrimFileName("src/main.cc") == "main.cc"
    ensures TrimFileName("main.cc") == "main.cc"
    ensures TrimFileName("/a/b/") == ""
  {
    assert "src/main.cc"[3] == FolderSep;
    assert LastIndexOf("src/main.cc", FolderSep) == 3;
    assert LastIndexOf("/a/b/", FolderSep) == 4;
  }

  /** get_format_log, as built by default (without USE_LAZY_STRING). */
  function FormatLog(time: Str, level: Level, log: Str, funcName: Str, fileName: Path, line: int, threadId: Str): Str
  {
    time + " " + LevelString(level) + " " + log +
    " <In Function: " + funcName + ", File: " + TrimFileName(fileName) +
    ", Line: " + IntToString(line) + ", PID: " + threadId + ">\n"
  }

  /** The pieces of a record in the order get_format_log adds them. */
  function RecordPieces(time: Str, level: Level, log: Str, funcName: Str, fileName: Path, line: int, threadId: Str): (ps: seq<Str>)
    ensures |ps| == 14
  {
    [time, " ", LevelString(level), " ", log, " <In Function: ", funcName, ", File: ",
     TrimFileName(fileName), ", Line: ", IntToString(line), ", PID: ", threadId, ">\n"]
  }

  /** The same pieces with the separators the USE_LAZY_STRING branch writes around the file name. */
  function RecordPiecesAsWritten(time: Str, level: Level, log: Str, funcName: Str, fileName: Path, line: int, threadId: Str): (ps: seq<Str>)
    ensures |ps| == 15
  {
    [time, " ", LevelString(level), " ", log, " <In Function: ", funcName, ",", ", File: ",
     TrimFileName(fileName), " Line: ", IntToString(line), ", PID: ", threadId, ">\n"]
  }

  /** get_format_log built through the lazy helper, as the USE_LAZY_STRING branch writes it. */
  function FormatLogLazyAsWritten(time: Str, level: Level, log: Str, funcName: Str, fileName: Path, line: int, threadId: Str): LazyConcat
  {
    Chain(RecordPiecesAsWritten(time, level, log, funcName, fileName, line, threadId))
  }

  /** get_format_log built through the lazy helper with the default branch's separators. */
  function FormatLogLazy(time: Str, level: Level, log: Str, funcName: Str, fileName: Path, line: int, threadId: Str): LazyConcat
  {
    Chain(RecordPieces(time, level, log, funcName, fileName, line, threadId))
  }

  /** One more piece: the concatenation of the first n pieces extends that of the first n - 1. */
  lemma ConcatStep(pieces: seq<Str>, n: nat)
    requires 0 < n <= |pieces|
    ensures Concat(pieces[..n]) == Concat(pieces[..n - 1]) + pieces[n - 1]
  {
    assert pieces[..n][..n - 1] == pieces[..n - 1];
  }

  /** Concatenation splits at any index. */
  lemma {:induction false} ConcatSplit(pieces: seq<Str>, n: nat)
    requires n <= |pieces|
    ensures Concat(pieces) == Concat(pieces[..n]) + Concat(pieces[n..])
    decreases |pieces|
  {
    if n < |pieces| {
      var last := |pieces| - 1;
      ConcatSplit(pieces[..last], n);
      assert pieces[..last][..n] == pieces[..n];
      assert pieces[n..][..|pieces[n..]| - 1] == pieces[..last][n..];
    } else {
      assert pieces[..n] == pieces;
      assert pieces[n..] == [];
    }
  }

  /** Fourteen pieces concatenate, in order, to their `+`. */
  lemma ConcatFourteen(x0: Str, x1: Str, x2: Str, x3: Str, x4: Str, x5: Str, x6: Str,
                       x7: Str, x8: Str, x9: Str, x10: Str, x11: Str, x12: Str, x13: Str)
    ensures Concat([x0, x1, x2, x3, x4, x5, x6, x7, x8, x9, x10, x11, x12, x13])
         == x0 + x1 + x2 + x3 + x4 + x5 + x6 + x7 + x8 + x9 + x10 + x11 + x12 + x13
  {
    var ps := [x0, x1, x2, x3, x4, x5, x6, x7, x8, x9, x10, x11, x12, x13];
    assert ps[..0] == [];
    ConcatStep(ps, 1);
    assert Concat(ps[..1]) == x0;
    ConcatStep(ps, 2);
    assert Concat(ps[..2]) == x0 + x1;
    ConcatStep(ps, 3);
    assert Concat(ps[..3]) == x0 + x1 + x2;
    ConcatStep(ps, 4);
    assert Concat(ps[..4]) == x0 + x1 + x2 + x3;
    ConcatStep(ps, 5);
    assert Concat(ps[..5]) == x0 + x1 + x2 + x3 + x4;
    ConcatStep(ps, 6);
    assert Concat(ps[..6]) == x0 + x1 + x2 + x3 + x4 + x5;
    ConcatStep(ps, 7);
    assert Concat(ps[..7]) == x0 + x1 + x2 + x3 + x4 + x5 + x6;
    ConcatStep(ps, 8);
    assert Concat(ps[..8]) == x0 + x1 + x2 + x3 + x4 + x5 + x6 + x7;
    ConcatStep(ps, 9);
    assert Concat(ps[..9]) == x0 + x1 + x2 + x3 + x4 + x5 + x6 + x7 + x8;
    ConcatStep(ps, 10);
    assert Concat(ps[..10]) == x0 + x1 + x2 + x3 + x4 + x5 + x6 + x7 + x8 + x9;
    ConcatStep(ps, 11);
    assert Concat(ps[..11]) == x0 + x1 + x2 + x3 + x4 + x5 + x6 + x7 + x8 + x9 + x10;
    ConcatStep(ps, 12);
    assert Concat(ps[..12]) == x0 + x1 + x2 + x3 + x4 + x5 + x6 + x7 + x8 + x9 + x10 + x11;
    ConcatStep(ps, 13);
    assert Concat(ps[..13]) == x0 + x1 + x2 + x3 + x4 + x5 + x6 + x7 + x8 + x9 + x10 + x11 + x12;
    ConcatStep(ps, 14);
    assert Concat(ps[..14]) == x0 + x1 + x2 + x3 + x4 + x5 + x6 + x7 + x8 + x9 + x10 + x11 + x12 + x13;
    assert ps[..14] == ps;
  }

  /** The pieces of the default record concatenate to get_format_log's text. */
  lemma RecordPiecesConcat(time: Str, level: Level, log: Str, funcName: Str, fileName: Path, line: int, threadId: Str)
    ensures Concat(RecordPieces(time, level, log, funcName, fileName, line, threadId))
         == FormatLog(time, level, log, funcName, fileName, line, threadId)
  {
    ConcatFourteen(time, " ", LevelString(level), " ", log, " <In Function: ", funcName, ", File: ",
                   TrimFileName(fileName), ", Line: ", IntToString(line), ", PID: ", threadId, ">\n");
  }

  /** Where the outer parts of a four-part text sit. */
  lemma FourParts(x: Str, y: Str, m: Str, z: Str)
    ensures var r := x + y + m + z;
      && |x| + |y| + |z| <= |r|
      && r[..|x|] == x && r[|x|..|x| + |y|] == y && r[|r| - |z|..] == z
  {
  }

  /** The first three pieces of a record are the time, a space and the level tag. */
  lemma RecordPiecesStart(ps: seq<Str>)
    requires |ps| >= 3
    ensures Concat(ps) == ps[0] + ps[1] + ps[2] + Concat(ps[3..])
  {
    ConcatStep(ps, 1);
    assert Concat(ps[..1]) == ps[0] by {
      assert ps[..0] == [];
    }
    ConcatStep(ps, 2);
    ConcatStep(ps, 3);
    assert Concat(ps[..3]) == ps[0] + ps[1] + ps[2];
    ConcatSplit(ps, 3);
  }

  /** The last two pieces of a record are the thread id and ">\n". */
  lemma RecordPiecesEnd(ps: seq<Str>)
    requires |ps| >= 2
    ensures Concat(ps) == Concat(ps[..|ps| - 2]) + ps[|ps| - 2] + ps[|ps| - 1]
  {
    ConcatStep(ps, |ps|);
    assert ps[..|ps|] == ps;
    ConcatStep(ps, |ps| - 1);
    assert ps[..|ps| - 1][..|ps| - 2] == ps[..|ps| - 2];
  }

  /** The concatenated pieces start with the time, a space and the tag, and end with the thread id and ">\n". */
  lemma RecordPiecesShape(time: Str, level: Level, log: Str, funcName: Str, fileName: Path, line: int, threadId: Str)
    ensures var r := Concat(RecordPieces(time, level, log, funcName, fileName, line, threadId));
      && |time| + 1 + |LevelString(level)| + |threadId| + 2 <= |r|
      && r[..|time| + 1] == time + " "
      && r[|time| + 1..|time| + 1 + |LevelString(level)|] == LevelString(level)
      && r[|r| - |threadId| - 2..] == threadId + ">\n"
  {
    var ps := RecordPieces(time, level, log, funcName, fileName, line, threadId);
    var rest := ps[3..];
    RecordPiecesStart(ps);
    RecordPiecesEnd(rest);
    var m := Concat(rest[..|rest| - 2]);
    assert Concat(ps) == (time + " ") + LevelString(level) + m + (threadId + ">\n");
    FourParts(time + " ", LevelString(level), m, threadId + ">\n");
  }

  /** A record starts with the time, a space and the level tag, and ends with the thread id and ">\n". */
  lemma FormatLogShape(time: Str, level: Level, log: Str, funcName: Str, fileName: Path, line: int, threadId: Str)
    ensures var r := FormatLog(time, level, log, funcName, fileName, line, threadId);
      && |time| + 1 + |LevelString(level)| + |threadId| + 2 <= |r|
      && r[..|time| + 1] == time + " "
      && r[|time| + 1..|time| + 1 + |LevelString(level)|] == LevelString(level)
      && r[|r| - |threadId| - 2..] == threadId + ">\n"
  {
    RecordPiecesConcat(time, level, log, funcName, fileName, line, threadId);
    RecordPiecesShape(time, level, log, funcName, fileName, line, threadId);
  }

  /** With the default branch's separators, the lazy helper renders exactly the default record. */
  lemma FormatLogLazyAgrees(time: Str, level: Level, log: Str, funcName: Str, fileName: Path, line: int, threadId: Str)
    ensures Contents(FormatLogLazy(time, level, log, funcName, fileName, line, threadId))
         == FormatLog(time, level, log, funcName, fileName, line, threadId)
  {
    ChainContents(RecordPieces(time, level, log, funcName, fileName, line, threadId));
    RecordPiecesConcat(time, level, log, funcName, fileName, line, threadId);
  }

  /** The text from the function name's separator on starts with the first two pieces. */
  lemma ConcatFirstTwo(pieces: seq<Str>)
    requires |pieces| >= 2
    ensures Concat(pieces) == pieces[0] + pieces[1] + Concat(pieces[2..])
  {
    ConcatSplit(pieces, 2);
    ConcatStep(pieces, 2);
    ConcatStep(pieces, 1);
    assert Concat(pieces[..0]) == [] by {
      assert pieces[..0] == [];
    }
    assert Concat(pieces[..1]) == pieces[0];
  }

  /**
   * The USE_LAZY_STRING branch renders a different record than the default one for every
   * input: right after the function name it writes ",," where the default writes ", ".
   */
  lemma FormatLogLazyAsWrittenDiffers(time: Str, level: Level, log: Str, funcName: Str, fileName: Path, line: int, threadId: Str)
    ensures Contents(FormatLogLazyAsWritten(time, level, log, funcName, fileName, line, threadId))
         != FormatLog(time, level, log, funcName, fileName, line, threadId)
  {
    var ws := RecordPiecesAsWritten(time, level, log, funcName, fileName, line, threadId);
    var ps := RecordPieces(time, level, log, funcName, fileName, line, threadId);
    ChainContents(ws);
    RecordPiecesConcat(time, level, log, funcName, fileName, line, threadId);
    ConcatSplit(ws, 7);
    ConcatSplit(ps, 7);
    assert ws[..7] == ps[..7];
    var head := Concat(ps[..7]);
    ConcatFirstTwo(ws[7..]);
    ConcatFirstTwo(ps[7..]);
    var lazyTail := Concat(ws[7..]);
    var plainTail := Concat(ps[7..]);
    assert lazyTail[1] == ',';
    assert plainTail[1] == ' ';
    assert (head + lazyTail)[|head| + 1] != (head + plainTail)[|head| + 1];
  }

  /** to_hex: "0x" and the lowercase hexadecimal digits of the value. */
  function ToHex(n: nat): (r: Str)
    ensures |r| >= 3 && r[..2] == "0x"
  {
    "0x" + Digits(n, 16)
  }

  /** Reading the digits after "0x" back in base 16 gives the value. */
  lemma ToHexRoundTrip(n: nat)
    ensures ValueOf(ToHex(n)[2..], 16) == n
  {
    assert ToHex(n)[2..] == Digits(n, 16);
    DigitsRoundTrip(n, 16);
  }

  /** Different values have different hex renderings. */
  lemma ToHexInjective(m: nat, n: nat)
    requires ToHex(m) == ToHex(n)
    ensures m == n
  {
    ToHexRoundTrip(m);
    ToHexRoundTrip(n);
  }

  /** to_log on a bool. */
  function ToLogBool(b: bool): (r: Str)
    ensures |r| == if b then 4 else 5
    ensures r[0] == if b then 't' else 'f'
  {
    if b then "true" else "false"
  }

  /**
   * to_log on a vector of already rendered elements: "[", each element followed by ",",
   * the last character erased, "]". An empty vector erases the "[" and gives "]".
   */
  method ToLogVector(xs: seq<Str>) returns (res: Str)
    ensures xs == [] ==> res == "]"
    ensures xs != [] ==> res == "[" + JoinCommas(xs) + "]"
  {
    res := "[";
    var i := 0;
    while i < |xs|
      invariant 0 <= i <= |xs|
      invariant res == "[" + CommaTerminated(xs[..i])
    {
      assert xs[..i + 1][..i] == xs[..i];
      res := res + xs[i];
      res := res + ",";
      i := i + 1;
    }
    assert xs[..|xs|] == xs;
    if xs != [] {
      CommaTerminatedIsJoinPlusComma(xs);
      assert res == "[" + JoinCommas(xs) + ",";
    }
    res := res[..|res| - 1];
    res := res + "]";
  }

  // ---------------------------------------------------------------------------
  // The console sink
  // ---------------------------------------------------------------------------

  /** stdout_sink: a sink whose log appends the text to what the console has shown. */
  class ConsoleSink {
    var level: Level
    var output: seq<Str>

    constructor()
      ensures level == Trace && output == []
    {
      level := Trace;
      output := [];
    }

    /**
     * sink::should_log is one member of the common base class: this sink and the rotating
     * file sink both decide by Log.Admits.
     */
    function ShouldLog(msgLevel: Level): (r: bool)
      reads this
      ensures r <==> Value(msgLevel) >= Value(level)
    {
      Admits(level, msgLevel)
    }

    method SetLevel(l: Level)
      modifies this
      ensures level == l && output == old(output)
    {
      level := l;
    }

    method Log(msg: Str)
      modifies this
      ensures output == old(output) + [msg] && level == old(level)
    {
      output := output + [msg];
    }
  }

  // ---------------------------------------------------------------------------
  // base_log as a function of what can be observed
  // ---------------------------------------------------------------------------

  /** The three thresholds of the dispatcher. */
  datatype Thresholds = Thresholds(console: Level, file: Level, flush: Level)

  /** The rotating sink's fixed configuration. */
  datatype SinkConfig = SinkConfig(base: Path, maxSize: nat, maxFiles: nat)

  /** What base_log can change: the console text, the file sink's state and its flush count. */
  datatype Observed = Observed(console: seq<Str>, sink: SinkState, fileFlushes: nat)

  /**
   * The file sink's log in base_log: the sink takes the text when the file threshold
   * admits the level, and otherwise nothing happens.
   */
  function FileSinkSpec(s: SinkState, t: Thresholds, c: SinkConfig, level: Level, msg: Str): (Option<LogError>, SinkState)
    requires CanWrite(s, c.maxSize)
  {
    if Admits(t.file, level) then SinkItSpec(s, c.base, c.maxSize, c.maxFiles, msg) else (None, s)
  }

  /**
   * The file half of base_log: the file sink's log, then a flush when the level reaches
   * the flush threshold, whether or not the sink took the text. An error from the sink
   * (an exception in the source) ends the call before the flush. Yields the error, the
   * sink's new state and the new flush count.
   */
  function FileSideSpec(s: SinkState, flushes: nat, t: Thresholds, c: SinkConfig, level: Level, msg: Str)
    : (Option<LogError>, SinkState, nat)
    requires CanWrite(s, c.maxSize)
  {
    var (err, s') := FileSinkSpec(s, t, c, level, msg);
    (err, s', if err.None? && Admits(t.flush, level) then flushes + 1 else flushes)
  }

  /**
   * base_log: the console gets the text when its threshold admits the level; then the
   * file half runs.
   */
  function BaseLogSpec(o: Observed, t: Thresholds, c: SinkConfig, level: Level, msg: Str): (Option<LogError>, Observed)
    requires CanWrite(o.sink, c.maxSize)
  {
    var console := if Admits(t.console, level) then o.console + [msg] else o.console;
    var (err, s, flushes) := FileSideSpec(o.sink, o.fileFlushes, t, c, level, msg);
    (err, Observed(console, s, flushes))
  }

  /**
   * The three decisions are independent: the console gate depends only on the console
   * threshold, the file gate only on the file threshold, and the flush only on the flush
   * threshold (and on the file sink not failing).
   */
  lemma BaseLogGates(o: Observed, t: Thresholds, c: SinkConfig, level: Level, msg: Str)
    requires CanWrite(o.sink, c.maxSize)
    ensures var (err, o') := BaseLogSpec(o, t, c, level, msg);
      && (o'.console == if Admits(t.console, level) then o.console + [msg] else o.console)
      && (!Admits(t.file, level) ==> err.None? && o'.sink == o.sink)
      && (Admits(t.file, level) ==> (err, o'.sink) == SinkItSpec(o.sink, c.base, c.maxSize, c.maxFiles, msg))
      && (o'.fileFlushes == if Admits(t.flush, level) && err.None? then o.fileFlushes + 1 else o.fileFlushes)
  {
  }

  /**
   * A record the file threshold filters out still flushes the file sink when it reaches
   * the flush threshold: with the file threshold at error and the flush threshold at
   * info, a warning is not written to the file but the file is flushed.
   */
  lemma FilteredRecordIsFlushed(o: Observed, c: SinkConfig, msg: Str)
    requires CanWrite(o.sink, c.maxSize)
    ensures var (err, o') := BaseLogSpec(o, Thresholds(Debug, Error, Info), c, Warn, msg);
      err.None? && o'.sink == o.sink && o'.fileFlushes == o.fileFlushes + 1
  {
    assert !Admits(Error, Warn) && Admits(Info, Warn);
    BaseLogGates(o, Thresholds(Debug, Error, Info), c, Warn, msg);
  }

  /** base_log keeps the file sink writable. */
  lemma BaseLogInvariant(o: Observed, t: Thresholds, c: SinkConfig, level: Level, msg: Str)
    requires SinkInvariant(o.sink, c.base, c.maxSize)
    ensures SinkInvariant(BaseLogSpec(o, t, c, level, msg).1.sink, c.base, c.maxSize)
  {
    if Admits(t.file, level) {
      SinkItInvariant(o.sink, c.base, c.maxSize, c.maxFiles, msg);
    }
  }

  // ---------------------------------------------------------------------------
  // log_wrapper
  // ---------------------------------------------------------------------------

  /** DEFAULT_FILE_LOG_LEVEL and DEFAULT_COUT_LOG_LEVEL. */
  const DefaultFileLogLevel: Level := Debug
  const DefaultCoutLogLevel: Level := Debug
  /** The defaults of rotating_file_sink's constructor, which the dispatcher's file sink uses. */
  const DefaultBaseFilename: Path := "log/detail/detail_log.log"
  const DefaultMaxSize: nat := 1048576 * 50
  const DefaultMaxFiles: nat := 10

  /** The dispatcher; get_instance's single instance is passed around explicitly. */
  class Dispatcher {
    const logger: RotatingFileSink
    const coutLogger: ConsoleSink
    var fileFlushLevel: Level

    ghost predicate Valid()
      reads this, logger, logger.handle, coutLogger
    {
      logger.Valid()
    }

    /** The thresholds now in force. */
    function Levels(): (t: Thresholds)
      reads this, logger, coutLogger
      ensures t.console == coutLogger.level && t.file == logger.level && t.flush == fileFlushLevel
    {
      Thresholds(coutLogger.level, logger.level, fileFlushLevel)
    }

    function Config(): (c: SinkConfig)
      ensures c.base == logger.baseFilename && c.maxSize == logger.maxSize && c.maxFiles == logger.maxFiles
    {
      SinkConfig(logger.baseFilename, logger.maxSize, logger.maxFiles)
    }

    ghost function Observe(fs: Fs): (o: Observed)
      reads this, logger, logger.handle, coutLogger
      ensures o.console == coutLogger.output && o.sink == logger.State(fs) && o.fileFlushes == logger.handle.flushes
    {
      Observed(coutLogger.output, logger.State(fs), logger.handle.flushes)
    }

    constructor Init(logger: RotatingFileSink, coutLogger: ConsoleSink)
      ensures this.logger == logger && this.coutLogger == coutLogger && fileFlushLevel == Info
    {
      this.logger := logger;
      this.coutLogger := coutLogger;
      fileFlushLevel := Info;
    }

    /**
     * The private constructor: a file sink with the default configuration (whose opening
     * may fail), a console sink, both thresholds at debug and the flush threshold at info.
     */
    static method Create(fs: Fs) returns (r: Result<Dispatcher, LogError>, fs': Fs)
      ensures var (err, s) := CreateSpec(fs, DefaultBaseFilename, DefaultMaxFiles, false);
        && fs' == s.fs && (r.Success? <==> err.None?) && (r.Failure? ==> r.error == err.value)
        && (r.Success? ==>
              && fresh(r.value) && fresh(r.value.logger) && fresh(r.value.logger.handle)
              && fresh(r.value.coutLogger)
              && r.value.Valid() && r.value.logger.State(fs') == s
              && r.value.Levels() == Thresholds(DefaultCoutLogLevel, DefaultFileLogLevel, Info)
              && r.value.Config() == SinkConfig(DefaultBaseFilename, DefaultMaxSize, DefaultMaxFiles)
              && r.value.coutLogger.output == [] && r.value.logger.handle.flushes == 0)
    {
      var sink;
      sink, fs' := RotatingFileSink.Create(DefaultBaseFilename, DefaultMaxSize, DefaultMaxFiles, false, fs);
      if sink.Failure? {
        return Failure(sink.error), fs';
      }
      var console := new ConsoleSink();
      var d := new Dispatcher.Init(sink.value, console);
      d.logger.SetLevel(DefaultFileLogLevel);
      d.coutLogger.SetLevel(DefaultCoutLogLevel);
      r := Success(d);
    }

    method SetFileLogLevel(l: Level)
      modifies logger
      ensures logger.level == l && logger.currentSize == old(logger.currentSize)
    {
      logger.SetLevel(l);
    }

    method SetConsoleLogLevel(l: Level)
      modifies coutLogger
      ensures coutLogger.level == l && coutLogger.output == old(coutLogger.output)
    {
      coutLogger.SetLevel(l);
    }

    method SetFlushFileLevel(l: Level)
      modifies this
      ensures fileFlushLevel == l
    {
      fileFlushLevel := l;
    }

    /** The file sink's log in base_log: the sink takes the text when its threshold admits it. */
    method LogToFile(level: Level, msg: Str, fs: Fs) returns (err: Option<LogError>, fs': Fs)
      requires Valid()
      modifies logger, logger.handle
      ensures Valid() && logger.level == old(logger.level) && logger.handle.flushes == old(logger.handle.flushes)
      ensures (err, logger.State(fs')) == FileSinkSpec(old(logger.State(fs)), old(Levels()), Config(), level, msg)
    {
      if logger.ShouldLog(level) {
        err, fs' := logger.Log(msg, fs);
      } else {
        err, fs' := None, fs;
      }
    }

    /** The file half of base_log: the file sink's log, then the flush. */
    method FileSide(level: Level, msg: Str, fs: Fs) returns (err: Option<LogError>, fs': Fs)
      requires Valid()
      modifies logger, logger.handle
      ensures Valid() && logger.level == old(logger.level)
      ensures (err, logger.State(fs'), logger.handle.flushes)
           == FileSideSpec(old(logger.State(fs)), old(logger.handle.flushes), old(Levels()), Config(), level, msg)
    {
      err, fs' := LogToFile(level, msg, fs);
      if err.Some? {
        return;
      }
      if Value(fileFlushLevel) <= Value(level) {
        logger.Flush();
      }
    }

    /** base_log */
    method BaseLog(level: Level, msg: Str, fs: Fs) returns (err: Option<LogError>, fs': Fs)
      requires Valid()
      modifies coutLogger, logger, logger.handle
      ensures Valid() && Levels() == old(Levels())
      ensures (err, Observe(fs')) == BaseLogSpec(old(Observe(fs)), old(Levels()), Config(), level, msg)
    {
      if coutLogger.ShouldLog(level) {
        coutLogger.Log(msg);
      }
      err, fs' := FileSide(level, msg, fs);
    }

    /** write_log: format the record (time and thread id come from the caller) and dispatch it. */
    method WriteLog(threadId: Str, fileName: Path, funcName: Str, line: int, level: Level, log: Str,
                    time: Str, fs: Fs) returns (err: Option<LogError>, fs': Fs)
      requires Valid()
      modifies coutLogger, logger, logger.handle
      ensures Valid() && Levels() == old(Levels())
      ensures (err, Observe(fs')) == BaseLogSpec(old(Observe(fs)), old(Levels()), Config(), level,
                                                 FormatLog(time, level, log, funcName, fileName, line, threadId))
    {
      var formatted := FormatLog(time, level, log, funcName, fileName, line, threadId);
      err, fs' := BaseLog(level, formatted, fs);
    }
  }
}
