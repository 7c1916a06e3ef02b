# my_log in Dafny

A model of the sequential core of **my_log**, a small header-only C++ logging library, with proofs about it.

A record goes through the following path:
- A `LOG(level) << ...` stream gathers text.
- When the stream is destroyed, it hands the text to the process-wide dispatcher (`log_wrapper`).
- The dispatcher formats the record: time, level tag, message, function, trimmed file name, line and thread id.
- It then sends the record to a console sink and to a rotating file sink. Each sink has its own severity threshold.
- It flushes the file sink when the record reaches the flush threshold.

The rotating file sink works like this:
- It counts the bytes written to the live file, `base`.
- When a record would push the count past `max_size`, it shifts the generations `base`, `calc_filename(base, 1)`, … up by one, retrying a failed rename once.
- It then reopens the live file truncated.

The model is organised as follows:
- **File system.** It is a value (`Os.Fs`): a map from path to contents and a set of directories. Parent directories are not checked, and only files are removed or renamed (see "Left out").
- **Failure oracles.** `Fs` also holds one oracle each for `fopen`, `mkdir`, `rename` and `fwrite`. Every call consumes one entry, so every failure path the C++ code handles can be reached.
- **Code that changes state in place** is modelled as classes with methods, each proved against a specification function:
  - `FileHelper` (the file handle)
  - `RotatingFileSink`
  - `ConsoleSink`
  - `Dispatcher`
  - `LogStream`
  - the in-place buffer fill of the lazy string
- **Loops** stay loops with invariants: `create_dir`, the open retry loop, the rotation loop and `to_log` on a vector.

| file | module | models |
|---|---|---|
| basics.dfy | Basics | `Option`, `Result` |
| text.dfy | Text | `rfind`/`find`, decimal and hex digits, comma joining |
| errors.dfy | Errors | the exceptions the library throws, with their texts |
| os.dfy | Os | `include/my_log/os.hpp` |
| file_helper.dfy | FileHelpers | `include/file_helper.hpp` |
| log.dfy | Log | `include/log.hpp` |
| lazy_string.dfy | LazyStrings | `include/my_log/lazy_string.hpp` |
| log_wrapper.dfy | LogWrapper | `include/log_wrapper.hpp` |
| log_stream.dfy | LogStreams | `include/log_stream.hpp` |

The model follows the code as written, including where it does something a reader might not expect:
- **Generation names.** `calc_filename("app.log", 2)` is `"app2..log"`. The extension keeps its dot, and the code adds another one.
- **Rotate-on-open.** The constructor reads the live file's size into the counter. When `rotate_on_open` then rotates, the counter keeps the old size although the live file is now empty (`Log.CreateCounter`).
- **Flushing.** `base_log` flushes the file sink when the level reaches the flush threshold, even when the file sink's own threshold filtered the record (`LogWrapper.FilteredRecordIsFlushed`).
- **OFF.** In `log_stream`, `OFF` has the value of `TRACE`. A stream created with `OFF` is written at trace, and the branch meant for `OFF` is unreachable (`LogStreams.OffWritesAtTrace`).
- **A sink invariant the code keeps implicitly.** The handle is open, or the counter already exceeds `max_size`. A failed rotation that also fails to reopen leaves the handle closed and the counter high, so the next record rotates again before writing (`Log.SinkItInvariant`).

## Model

| member | source | states |
|---|---|---|
| Text.LastIndexOf | include/file_helper.hpp:175 | the result is -1 or an index holding the character, and no later index holds it (`rfind`) |
| Text.DigitsRoundTrip | include/log_wrapper.hpp:166-172 | reading the rendered digits back in the same base gives the number |
| Text.DigitsInjective | include/log.hpp:113 | different numbers have different renderings in a base |
| Text.CommaTerminatedIsJoinPlusComma | include/log_wrapper.hpp:187-196 | appending each element followed by "," equals the comma join followed by one "," |
| Os.Mkdir | include/my_log/os.hpp:147-153 | succeeds iff the oracle allows it and nothing exists at the path; only then is the directory added |
| Os.FopenS | include/my_log/os.hpp:310-332 | returns true on FAILURE (an empty name or an oracle fault); on success, "wb" empties the file and "ab" keeps or creates it |
| Os.Remove | include/my_log/os.hpp:296-298 | removes the file; returns 0 iff it existed |
| Os.RemoveIfExists | include/my_log/os.hpp:300-302 | on an absent path, returns 0 and changes nothing |
| Os.Rename | include/my_log/os.hpp:304-307 | returns 0 iff the source exists and the oracle allows it; the target then holds the source's contents and the source is gone |
| Os.Fwrite | include/file_helper.hpp:125 | writes a prefix of the buffer, all of it iff the oracle's limit allows it, appended to the file |
| Os.DirName | include/my_log/os.hpp:215-222 | the prefix before the last separator, or "" when there is none |
| Os.DirNameExamples | include/my_log/os.hpp:200-206 | the documented examples "abc/file", "abc/", "abc" and "abc///" |
| Os.PathExists | include/my_log/os.hpp:127-135 | stat succeeds on a file or a directory alike; it is a plain predicate whose behaviour the create_dir lemmas (Os.CreateDir, Os.CreateDirMakesAllPrefixes) state |
| Os.CreateDir | include/my_log/os.hpp:167-198 | the do/while loop computes exactly CreateDirSpec: early true for an existing path, false for "", otherwise the prefix walk |
| Os.CreateDirWalkFrame | include/my_log/os.hpp:181-195 | the walk only adds directories and consumes mkdir oracle entries; each new directory is a prefix of the path |
| Os.CreateDirFrame | include/my_log/os.hpp:167-198 | create_dir only adds directories, each a non-empty prefix of the path; files and other oracles are untouched |
| Os.CreateDirWalkMakesCuts | include/my_log/os.hpp:181-195 | after a successful walk every separator-delimited prefix from the offset on exists |
| Os.CreateDirMakesAllPrefixes | include/my_log/os.hpp:181-197 | after create_dir succeeds, every non-empty separator-delimited prefix of the path exists |
| Os.CreateDirWalkStopsAtFailure | include/my_log/os.hpp:191-193 | a failed walk stops at its first failing mkdir: the last mkdir outcome it consumed is a fault and every one consumed before it is a success |
| Os.CreateDirFailure | include/my_log/os.hpp:167-198 | create_dir fails only for "" or at its first mkdir fault: the last mkdir outcome consumed is a fault and all earlier ones are successes |
| Os.CreateDirWalkSucceedsUnfaulted | include/my_log/os.hpp:181-195 | a walk that succeeds consumed only mkdir outcomes that are successes |
| Os.CreateDirSuccess | include/my_log/os.hpp:167-198 | create_dir succeeds only when no mkdir it called failed: every mkdir outcome it consumed is a success |
| FileHelpers.SplitByExtension | include/file_helper.hpp:173-192 | stem ++ ext is the input, and a non-empty ext starts at a valid extension dot |
| FileHelpers.SplitByExtensionComplete | include/file_helper.hpp:173-192 | whenever the input has a valid extension dot, the split is exactly there |
| FileHelpers.SplitByExtensionAt | include/file_helper.hpp:173-192 | a stem and an extension joined at a valid dot split back into the same pair |
| FileHelpers.SplitByExtensionExamplesWithExtension | test/file_helper_unittest.cc:111-128 | "mylog.txt" and "..txt" split at their last dot |
| FileHelpers.SplitByExtensionExampleInFolder | test/file_helper_unittest.cc:111-128 | "/aaa/bb.d/mylog.txt" splits at the last dot, not at the dot in the directory name |
| FileHelpers.SplitByExtensionExamplesHidden | test/file_helper_unittest.cc:111-128 | ".mylog.txt" and "aaa/bbb/ccc/.mylog.txt" keep the leading dot in the stem and split at the last dot |
| FileHelpers.SplitByExtensionExamplesInFolders | test/file_helper_unittest.cc:111-128 | "aaa/bbb/ccc/mylog.txt" and "/aaa/bbb/ccc/mylog.txt" split at the dot after the last folder |
| FileHelpers.SplitByExtensionExamplesAtRoot | test/file_helper_unittest.cc:111-128 | "/mylog.txt" and "//mylog.txt" split at their dot, keeping the separators in the stem |
| FileHelpers.SplitByExtensionExamplesRelative | test/file_helper_unittest.cc:111-128 | "../mylog.txt" and ".././mylog.txt" split at the file's dot; the dots of ".." and "." are not extensions |
| FileHelpers.SplitByExtensionExamplesWithoutExtension | test/file_helper_unittest.cc:111-128 | ".mylog", "aaa/bbb/ccc/mylog.", ".././mylog.txt/xxx", "" and "." have an empty extension |
| FileHelpers.Attempt | include/file_helper.hpp:53-61 | one try (create_dir of dir_name, then fopen_s) succeeds iff the open oracle allows it and the name is non-empty; it consumes one open entry and only adds directories |
| FileHelpers.AttemptNewDirs | include/file_helper.hpp:55 | the directories a try creates are shorter than the file name |
| FileHelpers.OpenFromSucceedsIff | include/file_helper.hpp:48-64 | open succeeds iff the name is non-empty and one of the at most 5 tries is not faulted |
| FileHelpers.OpenFromFiles | include/file_helper.hpp:48-64 | a successful open creates or truncates exactly the named file; a failed one changes no file; rename and write oracles are untouched |
| FileHelpers.OpenFromFailureConsumes | include/file_helper.hpp:53-63 | a failed open used up all its tries' oracle entries |
| FileHelpers.OpenFromSuccessStops | include/file_helper.hpp:53-58 | a successful open stops at the first try that is not faulted |
| FileHelpers.ReopenSpec | include/file_helper.hpp:76-81 | reopen throws "not opened before" for an empty name and OpenFailure(name) when open fails; the files change only on success, as open(filename, truncate) changes them; directories only grow; rename and write oracles are untouched |
| FileHelpers.ReopenSucceedsIff | include/file_helper.hpp:76-81 | reopen succeeds iff there is a name and one of the open tries is not faulted |
| FileHelpers.ReopenNewDirs | include/file_helper.hpp:76-81 | every directory reopen creates is shorter than the file name |
| FileHelpers.WriteSpec | include/file_helper.hpp:122-128 | write appends the whole buffer, or throws "Failed writing" after a short write; only the named file changes |
| FileHelpers.FileHelper.constructor | include/file_helper.hpp:32 | a new helper has no open handle and an empty name |
| FileHelpers.FileHelper.Filename | include/file_helper.hpp:147 | returns the name most recently passed to open; FileHelpers.FilenameScenario states it after an open |
| FileHelpers.FileHelper.Open | include/file_helper.hpp:48-64 | the retry loop sets the name first, even on failure; the handle is open iff the retries succeed; otherwise OpenFailure(name) |
| FileHelpers.FileHelper.Reopen | include/file_helper.hpp:76-81 | the effect is ReopenSpec; the name is kept; the handle is untouched when there is no name |
| FileHelpers.FileHelper.Flush | include/file_helper.hpp:93 | counts one flush and changes nothing else |
| FileHelpers.FileHelper.Close | include/file_helper.hpp:105-110 | the handle is closed afterwards whatever it was before (idempotent); the name is kept |
| FileHelpers.FileHelper.Write | include/file_helper.hpp:122-128 | the effect is WriteSpec on the handle's file |
| FileHelpers.FileHelper.Size | include/file_helper.hpp:140-145 | the file's length when open; NotOpen(name) on a closed handle |
| FileHelpers.OpenWithoutFaults | include/file_helper.hpp:48-58 | without open faults, opening a non-empty name succeeds at once and creates or truncates only that file |
| FileHelpers.FilenameScenario | test/file_helper_unittest.cc:32-39 | after open, filename() returns the opened name |
| FileHelpers.SizeScenario | test/file_helper_unittest.cc:53-64 | writing 123 bytes to a fresh file gives size 123 |
| FileHelpers.ReopenTruncateScenario | test/file_helper_unittest.cc:67-76 | 12 bytes, then reopen(true), gives size 0 |
| FileHelpers.ReopenAppendScenario | test/file_helper_unittest.cc:79-89 | 14 bytes, then reopen(false), keeps size 14 |
| Log.Value | include/log.hpp:25-34 | the numeric value of a level, at most 6 |
| Log.LevelFromValue | include/log.hpp:25-34 | defined exactly on 0..6, and the inverse of Value there |
| Log.LevelValueRoundTrip | include/log.hpp:25-34 | LevelFromValue(Value(l)) is l |
| Log.AdmitsOrder | include/log.hpp:42-45 | trace admits everything; off admits only off; the gate is the numeric order, monotone in the threshold |
| Log.CalcFilename | include/log.hpp:105-114 | index 0 is the base itself; index n > 0 inserts the decimal n and a "." between stem and extension |
| Log.CalcFilenameExamples | include/log.hpp:105-114 | ("app.log", 2) is "app2..log" (the dot is doubled) and index 0 is the name unchanged |
| Log.CalcFilenameExampleWithoutExtension | include/log.hpp:105-114 | ("app", 3) is "app3.": a name without an extension still gets the dot |
| Log.CalcFilenameInjective | include/log.hpp:105-114 | distinct indices give distinct generation names for one base |
| Log.NotEarlierGeneration | include/log.hpp:105-114 | generation i's name is not generation i-1's |
| Log.DistinctGenerations | include/log.hpp:105-114 | any two different generations have different names |
| Log.RenameFile | include/log.hpp:171-176 | the target is removed first, even when the rename then fails; on success the target holds the source's contents and the source is gone |
| Log.ShiftStepEffect | include/log.hpp:145-164 | one loop step skips a missing source, renames once, retries once, and reports (src, target) when both fail |
| Log.ShiftFromFrame | include/log.hpp:144-165 | the downward loop changes only files and rename oracle entries, and no path outside generations 0..max_files |
| Log.ShiftFromMoves | include/log.hpp:144-165 | after a successful shift, generation k holds what generation k-1 held, wherever that existed |
| Log.ShiftFromVacates | include/log.hpp:144-165 | a generation whose predecessor was absent (or generation 0) is absent after the shift |
| Log.ShiftFromVacatesTop | include/log.hpp:144-165 | the same for the highest generation the loop starts from |
| Log.StepFrame | include/log.hpp:145-164 | one step changes only files and rename oracle entries, and no path but generations i-1 and i |
| Log.StepMovesSource | include/log.hpp:145-164 | after a successful step generation i-1 is missing, and its former contents are in generation i when it existed |
| Log.RestKeepsTop | include/log.hpp:144-165 | the steps below generation i leave generation i as it was |
| Log.StepKeepsOthers | include/log.hpp:145-164 | one step leaves lower generations untouched |
| Log.ShiftFromKeepsOldest | include/log.hpp:144-165 | the oldest generation is kept when nothing moves into it, and its source is gone after the first step |
| Log.ShiftFromFailure | include/log.hpp:157-162 | a failed shift names the pair (generation k-1, generation k) for some k within range |
| Log.ShiftFromLiveFile | include/log.hpp:144-165 | the shift either moves the live file away or leaves it as it was |
| Log.RotateLiveFile | include/log.hpp:140-167 | after rotate_ the live file is empty whenever the reopen succeeded |
| Log.RotateOutcome | include/log.hpp:140-167 | the error and handle state after rotate_: a failed shift resets the counter only if the truncating reopen succeeded |
| Log.ShiftFromFailureKeepsLower | include/log.hpp:144-165 | a shift failing at step k has k within range and leaves every generation below k as it was |
| Log.ShiftFromFailureVacates | include/log.hpp:144-176 | after a failure at step k, generation k is gone: rename_file_ removed it before both renames |
| Log.ShiftFromFailureMoves | include/log.hpp:144-165 | after a failure at step k, every generation j above k holds what generation j-1 held; earlier renames are not undone |
| Log.RotateFailureKeepsShifts | include/log.hpp:140-167 | a rotate_ that reports RotationFailure(k-1, k) keeps the moves above k, has removed generation k, keeps generations 1..k-1 and reopened the live file empty |
| Log.RotateSucceeds | include/log.hpp:140-167 | a successful rotation moves each generation up by one, vacates unfed generations, empties the live file and touches nothing else |
| Log.SinkItInvariant | include/log.hpp:122-131 | sink_it_ keeps the invariant "open, or the counter already exceeds max_size", with the live file no longer than the counter |
| Log.SinkItAppends | include/log.hpp:122-131 | without rotation, the record is appended to the live file and the counter grows by its length |
| Log.SinkItRotates | include/log.hpp:122-131 | when old counter + length exceeds max_size, the generations shift, the live file holds exactly the record and the counter is its length |
| Log.CreateCounter | include/log.hpp:93-103 | the counter is the live file's size at open, even after rotate-on-open emptied the file; the sink invariant holds |
| Log.ShiftFromWithoutFaults | include/log.hpp:144-165 | without rename faults and with no directory at a generation name, the shift succeeds and leaves no rename fault |
| Log.RotateWithoutFaults | include/log.hpp:140-167 | without faults, rotate_ succeeds and the file system stays without faults |
| Log.SinkItWithoutFaults | include/log.hpp:122-131 | without faults, sink_it_ succeeds and the file system stays without faults |
| Log.CreateWithoutFaults | include/log.hpp:93-103 | without faults, the constructor succeeds and the file system stays without faults |
| Log.RotatingFileSink.Init | include/log.hpp:59 | a new sink's level is trace and its counter 0 |
| Log.RotatingFileSink.Create | include/log.hpp:93-103 | the constructor computes CreateSpec: opens generation 0 for append, reads its size, and rotates once iff rotate_on_open and the size is positive |
| Log.RotatingFileSink.ShouldLog | include/log.hpp:42-45 | true iff the message level's value is at least the threshold's |
| Log.RotatingFileSink.SetLevel | include/log.hpp:47-50 | sets the threshold and nothing else |
| Log.RotatingFileSink.Level | include/log.hpp:52-55 | returns the threshold last set |
| Log.RotatingFileSink.ShiftGenerations | include/log.hpp:144-165 | the downward loop with its one retry computes ShiftFrom: the new file system and, after a double rename failure, the pair of names |
| Log.RotatingFileSink.Rotate | include/log.hpp:140-167 | close, the shift and the truncating reopen compute RotateSpec: a failing reopen is the error; otherwise a failed shift resets the counter and is reported; the name, level and flush count are unchanged |
| Log.RotatingFileSink.Log | include/log.hpp:122-131 | log delegates to sink_it_, computing SinkItSpec and keeping Valid |
| Log.RotatingFileSink.Flush | include/log.hpp:132 | flush delegates to the handle's flush |
| Log.RotationScenario | include/log.hpp:122-131 | with max_size 100 and 2 files, two 60-byte records leave the second live and the first in generation 1 |
| LazyStrings.SizeIsLength | include/my_log/lazy_string.hpp:34 | size() is the length of the concatenated text |
| LazyStrings.Plus | include/my_log/lazy_string.hpp:49-53 | the new node holds the added piece as its data, and the previous helper is its unchanged tail |
| LazyStrings.PlusAppends | include/my_log/lazy_string.hpp:49-53 | adding a piece appends it to the text and its length to the size |
| LazyStrings.ChainContents | include/my_log/lazy_string.hpp:26-69 | a chain of + stands for the plain concatenation of its pieces in order |
| LazyStrings.CopyInto | include/my_log/lazy_string.hpp:39 | std::copy writes the piece at the given place and no other cell |
| LazyStrings.Save | include/my_log/lazy_string.hpp:36-41 | save(end) writes the text into exactly the size() cells ending at end, newest last; the empty helper writes nothing |
| LazyStrings.ToString | include/my_log/lazy_string.hpp:43-47 | the conversion gives the concatenation, of length size() |
| LogWrapper.LevelString | include/log_wrapper.hpp:134-152 | a bracketed tag of at least 7 characters, ending in "]" or "] "; the exact tag of each level is stated by LevelStringRoundTrip through TagLevel |
| LogWrapper.LevelStringRoundTrip | include/log_wrapper.hpp:134-152 | each tag reads back as the level it was rendered from |
| LogWrapper.LevelStringDistinct | include/log_wrapper.hpp:134-152 | distinct levels have distinct tags, and only off gives "[unknow]" |
| LogWrapper.TrimFileName | include/log_wrapper.hpp:114-117 | the part after the last separator, with no separator in it: dir_name + "/" + result is the full name; a name with no separator is kept |
| LogWrapper.TrimFileNameExamples | include/log_wrapper.hpp:114-117 | "src/main.cc" gives "main.cc", "main.cc" is kept, and "/a/b/" gives "" |
| LogWrapper.FormatLog | include/log_wrapper.hpp:99-132 | the default build's record; LogWrapper.RecordPiecesConcat and LogWrapper.FormatLogShape state its pieces, their order, its start and its end |
| LogWrapper.RecordPiecesConcat | include/log_wrapper.hpp:126-129 | the record is the concatenation of its fourteen pieces in order |
| LogWrapper.FormatLogShape | include/log_wrapper.hpp:126-129 | a record starts with the time, a space and the level tag, and ends with the thread id and ">\n" |
| LogWrapper.FormatLogLazyAgrees | include/log_wrapper.hpp:119-129 | with the default separators, the lazy build gives the same record as the default build |
| LogWrapper.FormatLogLazyAsWrittenDiffers | include/log_wrapper.hpp:121-124 | the USE_LAZY_STRING build as written never gives the default record |
| LogWrapper.ToHex | include/log_wrapper.hpp:166-172 | "0x" followed by at least one digit |
| LogWrapper.ToHexRoundTrip | include/log_wrapper.hpp:166-172 | the digits after "0x" read back in base 16 give the value |
| LogWrapper.ToHexInjective | include/log_wrapper.hpp:166-172 | different values render differently |
| LogWrapper.ToLogBool | include/log_wrapper.hpp:180 | "true" or "false" |
| LogWrapper.ToLogVector | include/log_wrapper.hpp:186-196 | the loop gives "[" + elements joined by "," + "]"; an empty vector gives "]" |
| LogWrapper.ConsoleSink.constructor | include/log.hpp:59 | a new console sink admits everything and has shown nothing |
| LogWrapper.ConsoleSink.ShouldLog | include/log.hpp:42-45 | true iff the message level's value is at least the threshold's |
| LogWrapper.ConsoleSink.SetLevel | include/log.hpp:47-50 | sets the threshold and nothing else |
| LogWrapper.ConsoleSink.Log | include/log_wrapper.hpp:88-90 | appends the text to what the console has shown |
| LogWrapper.BaseLogGates | include/log_wrapper.hpp:87-97 | the console gets the record iff its threshold admits it; the file sink iff its own does; the flush count grows iff the flush threshold admits it and the file sink did not fail |
| LogWrapper.FilteredRecordIsFlushed | include/log_wrapper.hpp:94-96 | a record the file threshold filters out is still flushed when it reaches the flush threshold |
| LogWrapper.BaseLogInvariant | include/log_wrapper.hpp:87-97 | base_log keeps the file sink's invariant |
| LogWrapper.Dispatcher.Init | include/log_wrapper.hpp:154-156 | the flush threshold starts at info |
| LogWrapper.Dispatcher.Create | include/log_wrapper.hpp:78-81 | a file sink with the default path, 50 MiB and 10 files; both thresholds at debug, flush at info; a failed open is returned as an error |
| LogWrapper.Dispatcher.SetFileLogLevel | include/log_wrapper.hpp:67 | sets only the file sink's threshold |
| LogWrapper.Dispatcher.SetConsoleLogLevel | include/log_wrapper.hpp:69-71 | sets only the console sink's threshold |
| LogWrapper.Dispatcher.SetFlushFileLevel | include/log_wrapper.hpp:73-75 | sets only the flush threshold |
| LogWrapper.Dispatcher.LogToFile | include/log_wrapper.hpp:91-93 | the file sink takes the text iff its threshold admits the level (FileSinkSpec); the flush count and thresholds are unchanged |
| LogWrapper.Dispatcher.FileSide | include/log_wrapper.hpp:91-96 | the file sink's log, then one flush iff the level reaches the flush threshold and the sink did not fail, even for a filtered record (FileSideSpec) |
| LogWrapper.Dispatcher.BaseLog | include/log_wrapper.hpp:87-97 | base_log computes BaseLogSpec: the console gets the text iff its threshold admits it, then the file half; thresholds are unchanged |
| LogWrapper.Dispatcher.WriteLog | include/log_wrapper.hpp:59-65 | write_log dispatches the formatted record through base_log |
| LogStreams.Dispatched | include/log_stream.hpp:55-83 | the comparison chain picks a level iff the value is in 0..5, always one with that value and never off |
| LogStreams.DispatchedAgrees | include/log_stream.hpp:27-35 | each level but off is written at itself, in agreement with level_enum's numbering |
| LogStreams.OffWritesAtTrace | include/log_stream.hpp:34 | OFF equals TRACE, so OFF streams are written at trace and the OFF branch is never reached |
| LogStreams.EmptyStreamIsSilent | include/log_stream.hpp:50-53 | destroying a stream with no text changes nothing |
| LogStreams.OffStreamReachesConsole | include/log_stream.hpp:55-58 | a non-empty OFF stream reaches a trace console as a trace record |
| LogStreams.DestroyInvariant | include/log_stream.hpp:50-84 | destroying a stream keeps the file sink's invariant |
| LogStreams.LogStream.constructor | include/log_stream.hpp:41-48 | a new stream holds no text and the given call site |
| LogStreams.LogStream.Copy | include/log_stream.hpp:86-92 | the copy has the same text and call site |
| LogStreams.LogStream.Put | include/log_stream.hpp:96-102 | appends the text and returns the same stream |
| LogStreams.LogStream.PutInt | include/log_stream.hpp:96-102 | appends the decimal rendering and returns the same stream |
| LogStreams.LogStream.PutBool | include/log_stream.hpp:104-107 | appends "true" or "false" and returns the same stream |
| LogStreams.LogStream.Destroy | include/log_stream.hpp:50-84 | the destructor computes DestroySpec: nothing for an empty text, else write_log at the dispatched level |
| LogStreams.StreamScenario | include/log_stream.hpp:96-107 | chained << of text, an int and a bool accumulate "answer=42, ok: true" |

## Left out

- profiler.hpp: wall-clock timing and memory probing, which are not part of the logging logic.
- `get_time_string` (include/my_log/os.hpp:96-115): the clock is not modelled. The time is a text parameter of `WriteLog` and `Destroy`.
- Mutexes in `base_sink` and the `std::call_once` singleton: the model is sequential, and the dispatcher instance is passed explicitly.
- OS primitives (`fopen`, `fwrite`, `fflush`, `fstat`, `stat`, `mkdir`, `rename`, `remove`): they are replaced by the `Fs` value and its oracles.
  - `fflush` is recorded as a ghost flush count; stdio buffering is not modelled.
  - `sleep_for_millis` is a no-op.
  - Files and directories share one namespace for existence checks.
- Os.Mkdir: mkdir does not check the parent directory. Where mkdir fails because a parent is missing (ENOENT) or is a regular file (ENOTDIR), the model covers it only as a fault in the mkdir oracle, and a directory can be added under a missing parent.
- Os.FopenS: fopen does not check that the file's directory exists. A failure for that reason is covered only as a fault in the open oracle, so the result of `create_dir` never decides whether the following fopen succeeds. The lemmas that assume an empty open oracle (FileHelpers.OpenWithoutFaults and the Log.*WithoutFaults lemmas) therefore also assume the directory is usable.
- Os.FopenS, Os.Rename: a directory at the target path is not checked. fopen and rename(2) fail there (EISDIR), which the model covers only as an oracle fault; without one, the path becomes both a file and a directory. The Log lemmas without faults exclude this with NoGenerationDirs; FileHelpers.OpenWithoutFaults reads an empty open oracle as "no such failure" instead.
- Os.CreateDir, Os.PathExists: paths are compared as plain strings, with no normalisation. "a/" and "a" are different paths, so for "a//b" the model calls mkdir on "a/" and consumes a mkdir oracle entry where stat("a/") would find the directory "a".
- Os.Remove: removes files only. `std::remove` on an empty directory, which deletes it, is not modelled.
- Os.Rename: moves files only. `std::rename` on a directory, which moves it, is not modelled; a directory at a generation name makes the model's shift fail. This is why Log.ShiftFromWithoutFaults and the lemmas built on it require that no generation name is a directory.
- FileHelpers.FileHelper.Write: requires an open handle. The source calls fwrite on a null FILE* after a failed open, which is undefined behaviour; the sink invariant (Log.SinkItInvariant) shows that sink_it_ never writes on a closed handle.
- Windows branches: the separator is fixed to '/'.
- The templated `rotating_file_sink::filename()` (include/log.hpp:115-119): it is ill-formed and never called.
- `stdout_sink`: it is not defined in the library's sources, so `ConsoleSink` is an abstract sink with a threshold that appends to an output sequence.
- Generic `ostringstream` rendering: `to_log` on an arbitrary `T`, `operator<<` on an arbitrary `T`, and thread-id and pointer rendering are not modelled. Values are passed as already-rendered text. Only text, `int` (`PutInt`) and `bool` are modelled.
- `to_log` on a string returns its argument unchanged; text is passed through as is.
- LogWrapper.ToHex: `size_t` is unbounded here. The 64-bit width is not modelled, and `pointer_to_hex` is not modelled because it needs a pointer's address.
- LazyStrings.SizeIsLength: `size()` returns `int` in the source. Truncation for texts longer than `INT_MAX` is not modelled.
- Log.RotatingFileSink.Log: the counter and `max_size` are unbounded; `size_t` overflow of `current_size_ += msg.size()` is not modelled.
- Exceptions are modelled as returned `Option<LogError>`/`Result` values. An exception escaping `log_stream`'s destructor, which would terminate the C++ process, is returned to the caller instead.
- Test harnesses and `src/main.cc` are not modelled; their expected values appear as scenario methods and example lemmas.

## Findings

| source | as written | input that shows it | evidently intended | confidence | as-written member | corrected member |
|---|---|---|---|---|---|---|
| include/log_wrapper.hpp:121-124 | with USE_LAZY_STRING the record is built with `"," + ", File: "` and `" Line: "` | any record, e.g. function `f`: the lazy build has `f,, File: ` and `main.cc Line: ` where the default build has `f, File: ` and `main.cc, Line: ` | both builds render the same record, with the default build's `", File: "` and `", Line: "` | medium, not executed | LogWrapper.FormatLogLazyAsWrittenDiffers | LogWrapper.FormatLogLazyAgrees |
