/**
 * log_stream: the object behind LOG(level) << a << b. It gathers the text of what is
 * streamed into it and, when it is destroyed, hands the text to the dispatcher at the
 * level it was created with, unless nothing was streamed.
 */
module LogStreams {
  import opened Basics
  import opened Text
  import opened Os
  import opened Errors
  import opened Log
  import opened LogWrapper

  /**
   * log_level_enum: the numeric values of the dispatcher's levels, except that OFF has
   * the value of trace rather than that of off.
   */
  const TRACE: int := Value(Trace)
  const DEBUG: int := Value(Debug)
  const INFO: int := Value(Info)
  const WARN: int := Value(Warn)
  const ERROR: int := Value(Error)
  const CRITICAL: int := Value(Critical)
  const OFF: int := Value(Trace)

  /**
   * The destructor's chain of comparisons: the level a stream level is written at, or
   * None when the chain falls through to "do nothing".
   */
  function Dispatched(v: int): (r: Option<Level>)
    ensures r.Some? <==> 0 <= v <= 5
    ensures r.Some? ==> Value(r.value) == v && r.value != Off
  {
    if TRACE == v then Some(Trace)
    else if DEBUG == v then Some(Debug)
    else if INFO == v then Some(Info)
    else if WARN == v then Some(Warn)
    else if ERROR == v then Some(Error)
    else if CRITICAL == v then Some(Critical)
    else None
  }

  /** Every level but off is written at itself; the numbering agrees with level_enum's. */
  lemma DispatchedAgrees(l: Level)
    ensures l != Off ==> Dispatched(Value(l)) == Some(l)
    ensures l != Off ==> Dispatched(Value(l)) == LevelFromValue(Value(l))
  {
    if l != Off {
      LevelValueRoundTrip(l);
    }
  }

  /**
   * OFF does not silence a stream: it equals TRACE, so the first comparison matches and
   * the record is written at trace; the "do nothing" branch for OFF is never reached.
   */
  lemma OffWritesAtTrace()
    ensures OFF == TRACE && Dispatched(OFF) == Some(Trace)
    ensures forall v :: Dispatched(v).None? ==> v != OFF
  {
  }

  /**
   * What destroying a stream does to the console, the file sink and the flush count:
   * nothing when no text was streamed or the level is outside the enumeration, and
   * otherwise base_log of the formatted record at the dispatched level.
   */
  ghost function DestroySpec(o: Observed, t: Thresholds, c: SinkConfig, level: int, log: Str,
                             threadId: Str, fileName: Path, funcName: Str, line: int, time: Str): (Option<LogError>, Observed)
    requires CanWrite(o.sink, c.maxSize)
  {
    if log == [] || Dispatched(level).None? then (None, o)
    else
      var l := Dispatched(level).value;
      BaseLogSpec(o, t, c, l, FormatLog(time, l, log, funcName, fileName, line, threadId))
  }

  /** A stream into which nothing was streamed leaves every output as it was. */
  lemma EmptyStreamIsSilent(o: Observed, t: Thresholds, c: SinkConfig, level: int,
                            threadId: Str, fileName: Path, funcName: Str, line: int, time: Str)
    requires CanWrite(o.sink, c.maxSize)
    ensures DestroySpec(o, t, c, level, [], threadId, fileName, funcName, line, time) == (None, o)
  {
  }

  /**
   * A non-empty stream created with OFF reaches the console as a trace record whenever the
   * console threshold is trace.
   */
  lemma OffStreamReachesConsole(o: Observed, c: SinkConfig, file: Level, flush: Level, log: Str,
                                threadId: Str, fileName: Path, funcName: Str, line: int, time: Str)
    requires CanWrite(o.sink, c.maxSize) && log != []
    ensures DestroySpec(o, Thresholds(Trace, file, flush), c, OFF, log, threadId, fileName, funcName, line, time).1.console
         == o.console + [FormatLog(time, Trace, log, funcName, fileName, line, threadId)]
  {
    var msg := FormatLog(time, Trace, log, funcName, fileName, line, threadId);
    BaseLogGates(o, Thresholds(Trace, file, flush), c, Trace, msg);
  }

  /** A destroyed stream keeps the file sink writable. */
  lemma DestroyInvariant(o: Observed, t: Thresholds, c: SinkConfig, level: int, log: Str,
                         threadId: Str, fileName: Path, funcName: Str, line: int, time: Str)
    requires SinkInvariant(o.sink, c.base, c.maxSize)
    ensures SinkInvariant(DestroySpec(o, t, c, level, log, threadId, fileName, funcName, line, time).1.sink,
                          c.base, c.maxSize)
  {
    if log != [] && Dispatched(level).Some? {
      var l := Dispatched(level).value;
      BaseLogInvariant(o, t, c, l, FormatLog(time, l, log, funcName, fileName, line, threadId));
    }
  }

  class LogStream {
    /** log_: the text streamed so far. */
    var log: Str
    const level: int
    /** The thread id, as the text the dispatcher prints for it. */
    const threadId: Str
    const fileName: Path
    const funcName: Str
    const line: int

    /** log_stream_helper and the constructor: a stream with no text yet. */
    constructor(level: int, threadId: Str, fileName: Path, funcName: Str, line: int)
      ensures log == [] && this.level == level && this.threadId == threadId
      ensures this.fileName == fileName && this.funcName == funcName && this.line == line
    {
      log := [];
      this.level := level;
      this.threadId := threadId;
      this.fileName := fileName;
      this.funcName := funcName;
      this.line := line;
    }

    /** The copy constructor: the same text and the same call site. */
    constructor Copy(other: LogStream)
      ensures log == other.log && level == other.level && threadId == other.threadId
      ensures fileName == other.fileName && funcName == other.funcName && line == other.line
    {
      log := other.log;
      level := other.level;
      threadId := other.threadId;
      fileName := other.fileName;
      funcName := other.funcName;
      line := other.line;
    }

    /** operator<< on text: appends it and returns the same stream. */
    method Put(data: Str) returns (self: LogStream)
      modifies this
      ensures self == this && log == old(log) + data
    {
      log := log + data;
      self := this;
    }

    /** operator<< on an int: appends its decimal rendering. */
    method PutInt(data: int) returns (self: LogStream)
      modifies this
      ensures self == this && log == old(log) + IntToString(data)
    {
      log := log + IntToString(data);
      self := this;
    }

    /** operator<< on a bool: appends "true" or "false". */
    method PutBool(data: bool) returns (self: LogStream)
      modifies this
      ensures self == this && log == old(log) + ToLogBool(data)
    {
      log := log + (if data then "true" else "false");
      self := this;
    }

    /**
     * The destructor: nothing when no text was streamed; otherwise write_log on the
     * dispatcher at the level the comparison chain picks (the time is passed in).
     */
    method Destroy(w: Dispatcher, time: Str, fs: Fs) returns (err: Option<LogError>, fs': Fs)
      requires w.Valid()
      modifies w.coutLogger, w.logger, w.logger.handle
      ensures w.Valid() && w.Levels() == old(w.Levels())
      ensures (err, w.Observe(fs')) == DestroySpec(old(w.Observe(fs)), old(w.Levels()), w.Config(), level, log,
                                                   threadId, fileName, funcName, line, time)
    {
      if log == [] {
        return None, fs;
      }
      var l := Dispatched(level);
      if l.None? {
        return None, fs;
      }
      err, fs' := w.WriteLog(threadId, fileName, funcName, line, l.value, log, time, fs);
    }
  }

  /** LOG(INFO) << "answer=" << 42 << ", ok: " << true gathers "answer=42, ok: true". */
  method StreamScenario() returns (s: LogStream)
    ensures fresh(s) && s.log == "answer=42, ok: true" && s.level == INFO
  {
    s := new LogStream(INFO, "140", "src/main.cc", "main", 7);
    var t := s.Put("answer=");
    assert IntToString(42) == "42" by {
      assert Digits(42, 10) == Digits(4, 10) + ['2'];
    }
    t := t.PutInt(42);
    t := t.Put(", ok: ");
    t := t.PutBool(true);
  }
}
