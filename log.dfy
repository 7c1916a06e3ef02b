/**
 * log: severity levels, the sink contract (threshold filtering, log, flush) and the
 * rotating file sink. The sink counts the bytes it has written to its live file and,
 * when a write would take the count past max_size, shifts the numbered generations
 * up by one (the oldest is overwritten), reopens the live file truncated and writes
 * the record there.
 */
module Log {
  import opened Basics
  import opened Text
  import opened Os
  import opened Errors
  import opened FileHelpers

  // ---------------------------------------------------------------------------
  // level_enum and the sink threshold
  // ---------------------------------------------------------------------------

  datatype Level = Trace | Debug | Info | Warn | Error | Critical | Off

  /** The enumerator's integer value. */
  function Value(l: Level): (v: nat)
    ensures v <= 6
  {
    match l
    case Trace => 0
    case Debug => 1
    case Info => 2
    case Warn => 3
    case Error => 4
    case Critical => 5
    case Off => 6
  }

  /** static_cast<level_enum> of an integer that names an enumerator. */
  function LevelFromValue(v: int): (r: Option<Level>)
    ensures r.Some? <==> 0 <= v <= 6
    ensures r.Some? ==> Value(r.value) == v
  {
    if v == 0 then Some(Trace)
    else if v == 1 then Some(Debug)
    else if v == 2 then Some(Info)
    else if v == 3 then Some(Warn)
    else if v == 4 then Some(Error)
    else if v == 5 then Some(Critical)
    else if v == 6 then Some(Off)
    else None
  }

  /** Every level is recovered from its value: the enumerators have distinct values. */
  lemma LevelValueRoundTrip(l: Level)
    ensures LevelFromValue(Value(l)) == Some(l)
  {
  }

  /** should_log: a record passes a threshold when its level's value is at least the threshold's. */
  predicate Admits(threshold: Level, msg: Level)
  {
    Value(msg) >= Value(threshold)
  }

  /**
   * The threshold orders levels: trace lets everything through, off lets through only
   * records that are themselves tagged off, and raising the threshold only removes records.
   */
  lemma AdmitsOrder(threshold: Level, higher: Level, msg: Level)
    ensures Admits(Trace, msg)
    ensures Admits(Off, msg) <==> msg == Off
    ensures Admits(threshold, msg) <==> !Admits(msg, threshold) || msg == threshold
    ensures Value(threshold) <= Value(higher) && Admits(higher, msg) ==> Admits(threshold, msg)
  {
  }

  // ---------------------------------------------------------------------------
  // calc_filename
  // ---------------------------------------------------------------------------

  /**
   * The name of generation `index`: the base name itself for 0, otherwise the stem, the
   * decimal index, a dot and the extension. The extension keeps its own dot, so a dot is
   * doubled: "app.log" and 2 give "app2..log".
   */
  function CalcFilename(filename: Path, index: nat): (r: Path)
    ensures index == 0 ==> r == filename
    ensures index > 0 ==> |r| == |filename| + |NatToString(index)| + 1
  {
    if index == 0 then filename
    else
      var (basename, ext) := SplitByExtension(filename);
      basename + NatToString(index) + "." + ext
  }

  /** A name with an extension: the dot is doubled; generation 0 is the name itself. */
  lemma CalcFilenameExamples()
    ensures CalcFilename("app.log", 2) == "app2..log"
    ensures CalcFilename("app.log", 0) == "app.log"
  {
    assert "app.log" == "app" + ".log";
    SplitByExtensionAt("app", ".log");
    assert NatToString(2) == "2";
  }

  /** A name without an extension still gets the dot. */
  lemma CalcFilenameExampleWithoutExtension()
    ensures CalcFilename("app", 3) == "app3."
  {
    assert LastIndexOf("app", '.') == -1;
    assert NatToString(3) == "3";
  }

  /** Distinct generations never share a name, so the shift never overwrites what it still needs. */
  lemma CalcFilenameInjective(filename: Path, i: nat, j: nat)
    requires CalcFilename(filename, i) == CalcFilename(filename, j)
    ensures i == j
  {
    if i != 0 && j != 0 {
      var (basename, ext) := SplitByExtension(filename);
      var di, dj := NatToString(i), NatToString(j);
      assert |di| == |dj|;
      var a := CalcFilename(filename, i);
      assert a == basename + di + "." + ext;
      assert a[|basename|..|basename| + |di|] == di;
      assert CalcFilename(filename, j)[|basename|..|basename| + |dj|] == dj;
      DigitsInjective(i, j, 10);
    }
  }

  /** filename_for_index(k) is one of generations 0..n. */
  predicate IsGeneration(base: Path, n: nat, p: Path)
  {
    exists k :: 0 <= k <= n && p == CalcFilename(base, k)
  }

  /** Generation i is none of the generations before it. */
  lemma NotEarlierGeneration(base: Path, i: nat)
    requires i >= 1
    ensures !IsGeneration(base, i - 1, CalcFilename(base, i))
  {
    if IsGeneration(base, i - 1, CalcFilename(base, i)) {
      var m :| 0 <= m <= i - 1 && CalcFilename(base, i) == CalcFilename(base, m);
      CalcFilenameInjective(base, i, m);
    }
  }

  // ---------------------------------------------------------------------------
  // rename_file_ and one step of the shift
  // ---------------------------------------------------------------------------

  /** Two file maps agree at `p`. */
  predicate Unchanged(before: map<Path, Str>, after: map<Path, Str>, p: Path)
  {
    (p in before <==> p in after) && (p in before ==> before[p] == after[p])
  }

  /**
   * rename_file_: removes the target (ignoring the outcome), then renames. True when
   * the rename succeeded. The target is gone even when the rename fails.
   */
  function RenameFile(fs: Fs, src: Path, target: Path): (r: (bool, Fs))
    ensures r.0 <==> src in fs.files && src != target && !Faulty(fs.renameFaults)
    ensures r.1 == fs.(files := r.1.files, renameFaults := Rest(fs.renameFaults))
    ensures r.0 ==> r.1.files == ((fs.files - {target}) - {src})[target := fs.files[src]]
    ensures !r.0 ==> r.1.files == fs.files - {target}
  {
    var fs1 := Remove(fs, target).1;
    var (rc, fs2) := Rename(fs1, src, target);
    (rc == 0, fs2)
  }

  /**
   * The body of the shift loop for index `i`: skip a missing generation i-1, otherwise
   * move it to generation i, retrying the rename once. The error names src and target.
   */
  function ShiftStep(fs: Fs, base: Path, i: nat): (Option<(Path, Path)>, Fs)
    requires i >= 1
  {
    var src := CalcFilename(base, i - 1);
    if !PathExists(fs, src) then (None, fs)
    else
      var target := CalcFilename(base, i);
      var (renamed, fs1) := RenameFile(fs, src, target);
      if renamed then (None, fs1)
      else
        // sleep_for_millis(100)
        var (renamedAgain, fs2) := RenameFile(fs1, src, target);
        if renamedAgain then (None, fs2) else (Some((src, target)), fs2)
  }

  /** What one step does to the files: a move of generation i-1 onto generation i, or nothing. */
  lemma ShiftStepEffect(fs: Fs, base: Path, i: nat)
    requires i >= 1
    ensures var (err, fs1) := ShiftStep(fs, base, i);
      var src, target := CalcFilename(base, i - 1), CalcFilename(base, i);
      && fs1 == fs.(files := fs1.files, renameFaults := fs1.renameFaults)
      && (err.None? && src in fs.files ==>
            fs1.files == ((fs.files - {target}) - {src})[target := fs.files[src]])
      && (err.None? && src !in fs.files ==> fs1.files == fs.files)
      && (err.Some? ==> err == Some((src, target)) && fs1.files == fs.files - {target})
  {
    var src, target := CalcFilename(base, i - 1), CalcFilename(base, i);
    if src == target {
      CalcFilenameInjective(base, i - 1, i);
    }
  }

  /** The whole shift loop from index `i` down to 1; stops at the first failing step. */
  function ShiftFrom(fs: Fs, base: Path, i: nat): (Option<(Path, Path)>, Fs)
    decreases i
  {
    if i == 0 then (None, fs)
    else
      var (err, fs1) := ShiftStep(fs, base, i);
      if err.Some? then (err, fs1) else ShiftFrom(fs1, base, i - 1)
  }

  /** The shift touches only generations 0..i, and only files. */
  lemma {:induction false} ShiftFromFrame(fs: Fs, base: Path, i: nat)
    ensures var fs' := ShiftFrom(fs, base, i).1;
      && fs' == fs.(files := fs'.files, renameFaults := fs'.renameFaults)
      && forall p :: !IsGeneration(base, i, p) ==> Unchanged(fs.files, fs'.files, p)
    decreases i
  {
    if i > 0 {
      StepFrame(fs, base, i);
      var (err, fs1) := ShiftStep(fs, base, i);
      if err.None? {
        ShiftFromFrame(fs1, base, i - 1);
        var fs' := ShiftFrom(fs1, base, i - 1).1;
        assert ShiftFrom(fs, base, i).1 == fs';
        forall p | !IsGeneration(base, i, p)
          ensures Unchanged(fs.files, fs'.files, p)
        {
          NotGenerationBelow(base, i, p);
          assert Unchanged(fs.files, fs1.files, p);
          assert Unchanged(fs1.files, fs'.files, p);
        }
      } else {
        assert ShiftFrom(fs, base, i).1 == fs1;
        forall p | !IsGeneration(base, i, p)
          ensures Unchanged(fs.files, fs1.files, p)
        {
          NotGenerationBelow(base, i, p);
        }
      }
    }
  }

  /** A path outside generations 0..i is neither of the two generations step i touches, nor one of 0..i-1. */
  lemma NotGenerationBelow(base: Path, i: nat, p: Path)
    requires i >= 1 && !IsGeneration(base, i, p)
    ensures p != CalcFilename(base, i) && p != CalcFilename(base, i - 1) && !IsGeneration(base, i - 1, p)
  {
  }

  /** One step changes only files and rename oracle entries, and no path but generations i-1 and i. */
  lemma StepFrame(fs: Fs, base: Path, i: nat)
    requires i >= 1
    ensures var fs1 := ShiftStep(fs, base, i).1;
      && fs1 == fs.(files := fs1.files, renameFaults := fs1.renameFaults)
      && forall p :: p != CalcFilename(base, i) && p != CalcFilename(base, i - 1) ==> Unchanged(fs.files, fs1.files, p)
  {
    ShiftStepEffect(fs, base, i);
  }

  /** A successful step leaves generation i-1 missing and, when it existed, moved onto generation i. */
  lemma StepMovesSource(fs: Fs, base: Path, i: nat)
    requires i >= 1 && ShiftStep(fs, base, i).0.None?
    ensures var fs1 := ShiftStep(fs, base, i).1;
      && CalcFilename(base, i - 1) !in fs1.files
      && (CalcFilename(base, i - 1) in fs.files ==>
            CalcFilename(base, i) in fs1.files && fs1.files[CalcFilename(base, i)] == fs.files[CalcFilename(base, i - 1)])
  {
    ShiftStepEffect(fs, base, i);
    DistinctGenerations(base, i - 1, i);
  }

  /** The steps below i leave generation i as it was. */
  lemma RestKeepsTop(fs: Fs, base: Path, i: nat)
    requires i >= 1
    ensures Unchanged(fs.files, ShiftFrom(fs, base, i - 1).1.files, CalcFilename(base, i))
  {
    ShiftFromFrame(fs, base, i - 1);
    NotEarlierGeneration(base, i);
  }

  /** A successful shift moved every existing generation k-1 onto generation k. */
  lemma {:induction false} ShiftFromMoves(fs: Fs, base: Path, i: nat, k: nat)
    requires ShiftFrom(fs, base, i).0.None?
    requires 1 <= k <= i && CalcFilename(base, k - 1) in fs.files
    ensures var fs' := ShiftFrom(fs, base, i).1;
      CalcFilename(base, k) in fs'.files && fs'.files[CalcFilename(base, k)] == fs.files[CalcFilename(base, k - 1)]
    decreases i
  {
    var fs1 := ShiftStep(fs, base, i).1;
    SucceededStep(fs, base, i);
    if k == i {
      StepMovesSource(fs, base, i);
      RestKeepsTop(fs1, base, i);
    } else {
      StepKeepsOthers(fs, base, i, k - 1);
      ShiftFromMoves(fs1, base, i - 1, k);
    }
  }

  /** Different indices, different names. */
  lemma DistinctGenerations(base: Path, a: nat, b: nat)
    requires a != b
    ensures CalcFilename(base, a) != CalcFilename(base, b)
  {
    if CalcFilename(base, a) == CalcFilename(base, b) {
      CalcFilenameInjective(base, a, b);
    }
  }

  /**
   * A successful shift with i >= 1 leaves generation 0 missing, and leaves generation k
   * (0 < k < i) missing when generation k-1 was missing: nothing moved into it.
   */
  lemma {:induction false} ShiftFromVacates(fs: Fs, base: Path, i: nat, k: nat)
    requires ShiftFrom(fs, base, i).0.None?
    requires k < i && (k == 0 || CalcFilename(base, k - 1) !in fs.files)
    ensures CalcFilename(base, k) !in ShiftFrom(fs, base, i).1.files
    decreases i
  {
    if k == i - 1 {
      ShiftFromVacatesTop(fs, base, i);
    } else {
      var fs1 := ShiftStep(fs, base, i).1;
      SucceededStep(fs, base, i);
      if k > 0 {
        StepKeepsOthers(fs, base, i, k - 1);
      }
      ShiftFromVacates(fs1, base, i - 1, k);
    }
  }

  /** A successful shift from i succeeded at step i and then from i-1 on. */
  lemma SucceededStep(fs: Fs, base: Path, i: nat)
    requires i >= 1 && ShiftFrom(fs, base, i).0.None?
    ensures var fs1 := ShiftStep(fs, base, i).1;
      ShiftStep(fs, base, i).0.None? && ShiftFrom(fs, base, i) == ShiftFrom(fs1, base, i - 1)
  {
  }

  /** The case k = i-1 of ShiftFromVacates: step i empties generation i-1 and nothing refills it. */
  lemma ShiftFromVacatesTop(fs: Fs, base: Path, i: nat)
    requires ShiftFrom(fs, base, i).0.None?
    requires i >= 1 && (i == 1 || CalcFilename(base, i - 2) !in fs.files)
    ensures CalcFilename(base, i - 1) !in ShiftFrom(fs, base, i).1.files
  {
    var fs1 := ShiftStep(fs, base, i).1;
    assert ShiftStep(fs, base, i).0.None?;
    ShiftFromKeepsOldest(fs, base, i);
    assert CalcFilename(base, i - 1) !in fs1.files;
    if i > 1 {
      StepKeepsOthers(fs, base, i, i - 2);
      ShiftFromKeepsOldest(fs1, base, i - 1);
    }
    assert ShiftFrom(fs, base, i).1 == ShiftFrom(fs1, base, i - 1).1;
  }

  /** One step leaves every generation other than i-1 and i as it was. */
  lemma StepKeepsOthers(fs: Fs, base: Path, i: nat, m: int)
    requires i >= 1 && 0 <= m < i - 1
    ensures Unchanged(fs.files, ShiftStep(fs, base, i).1.files, CalcFilename(base, m))
  {
    ShiftStepEffect(fs, base, i);
    DistinctGenerations(base, m, i);
    DistinctGenerations(base, m, i - 1);
  }


  /**
   * The top generation i is replaced only when generation i-1 exists: a successful shift
   * whose generation i-1 was missing leaves generation i as it was.
   */
  lemma ShiftFromKeepsOldest(fs: Fs, base: Path, i: nat)
    requires ShiftFrom(fs, base, i).0.None?
    ensures i >= 1 && CalcFilename(base, i - 1) !in fs.files ==>
      Unchanged(fs.files, ShiftFrom(fs, base, i).1.files, CalcFilename(base, i))
    ensures i >= 1 ==> CalcFilename(base, i - 1) !in ShiftStep(fs, base, i).1.files
  {
    if i >= 1 {
      ShiftStepEffect(fs, base, i);
      var fs1 := ShiftStep(fs, base, i).1;
      assert ShiftStep(fs, base, i).0.None?;
      assert ShiftFrom(fs, base, i) == ShiftFrom(fs1, base, i - 1);
      DistinctGenerations(base, i - 1, i);
      RestKeepsTop(fs1, base, i);
    }
  }

  /** The names of generations k-1 and k, the source and target of step k. */
  function GenerationPair(base: Path, k: nat): (Path, Path)
    requires k >= 1
  {
    (CalcFilename(base, k - 1), CalcFilename(base, k))
  }

  /** A failed shift names the pair of neighbouring generations whose rename failed twice. */
  lemma {:induction false} ShiftFromFailure(fs: Fs, base: Path, i: nat)
    requires ShiftFrom(fs, base, i).0.Some?
    ensures exists k :: 1 <= k <= i && ShiftFrom(fs, base, i).0 == Some(GenerationPair(base, k))
    decreases i
  {
    var (err, fs1) := ShiftStep(fs, base, i);
    if err.None? {
      assert ShiftFrom(fs, base, i) == ShiftFrom(fs1, base, i - 1);
      ShiftFromFailure(fs1, base, i - 1);
      var k :| 1 <= k <= i - 1 && ShiftFrom(fs1, base, i - 1).0 == Some(GenerationPair(base, k));
      assert 1 <= k <= i;
    } else {
      assert err == Some(GenerationPair(base, i));
      assert ShiftFrom(fs, base, i).0 == err;
    }
  }

  /**
   * A shift that fails at step k failed there and nowhere above: k is within range, and
   * generations below k are as they were, because the loop runs downward and stops.
   */
  lemma {:induction false} ShiftFromFailureKeepsLower(fs: Fs, base: Path, i: nat, k: nat, m: nat)
    requires k >= 1 && ShiftFrom(fs, base, i).0 == Some(GenerationPair(base, k))
    requires m < k
    ensures k <= i
    ensures Unchanged(fs.files, ShiftFrom(fs, base, i).1.files, CalcFilename(base, m))
    decreases i
  {
    var (err, fs1) := ShiftStep(fs, base, i);
    ShiftStepEffect(fs, base, i);
    if err.None? {
      assert ShiftFrom(fs, base, i) == ShiftFrom(fs1, base, i - 1);
      ShiftFromFailureKeepsLower(fs1, base, i - 1, k, m);
      StepKeepsOthers(fs, base, i, m);
    } else {
      assert ShiftFrom(fs, base, i) == (err, fs1);
      if k != i {
        DistinctGenerations(base, k, i);
      }
      DistinctGenerations(base, m, i);
    }
  }

  /** The target of the step that failed twice is gone: rename_file_ removed it first. */
  lemma {:induction false} ShiftFromFailureVacates(fs: Fs, base: Path, i: nat, k: nat)
    requires k >= 1 && ShiftFrom(fs, base, i).0 == Some(GenerationPair(base, k))
    ensures CalcFilename(base, k) !in ShiftFrom(fs, base, i).1.files
    decreases i
  {
    var (err, fs1) := ShiftStep(fs, base, i);
    ShiftStepEffect(fs, base, i);
    if err.None? {
      assert ShiftFrom(fs, base, i) == ShiftFrom(fs1, base, i - 1);
      ShiftFromFailureVacates(fs1, base, i - 1, k);
    } else {
      assert ShiftFrom(fs, base, i) == (err, fs1);
      if k != i {
        DistinctGenerations(base, k, i);
      }
    }
  }

  /**
   * The renames done before the failing step k stay done: every generation j above k
   * holds what generation j-1 held, wherever generation j-1 existed.
   */
  lemma {:induction false} ShiftFromFailureMoves(fs: Fs, base: Path, i: nat, k: nat, j: nat)
    requires k >= 1 && ShiftFrom(fs, base, i).0 == Some(GenerationPair(base, k))
    requires k < j <= i && CalcFilename(base, j - 1) in fs.files
    ensures var fs' := ShiftFrom(fs, base, i).1;
      CalcFilename(base, j) in fs'.files && fs'.files[CalcFilename(base, j)] == fs.files[CalcFilename(base, j - 1)]
    decreases i
  {
    var (err, fs1) := ShiftStep(fs, base, i);
    DistinctGenerations(base, k, i);
    assert err.None? && ShiftFrom(fs, base, i) == ShiftFrom(fs1, base, i - 1) by {
      ShiftStepEffect(fs, base, i);
    }
    var src, target := CalcFilename(base, j - 1), CalcFilename(base, j);
    var fs' := ShiftFrom(fs1, base, i - 1).1;
    if j == i {
      assert target in fs1.files && fs1.files[target] == fs.files[src] by {
        StepMovesSource(fs, base, i);
      }
      assert Unchanged(fs1.files, fs'.files, target) by {
        RestKeepsTop(fs1, base, i);
      }
    } else {
      assert src in fs1.files && fs1.files[src] == fs.files[src] by {
        StepKeepsOthers(fs, base, i, j - 1);
      }
      ShiftFromFailureMoves(fs1, base, i - 1, k, j);
    }
  }

  /** Whatever happens, the live file is either moved away or left exactly as it was. */
  lemma {:induction false} ShiftFromLiveFile(fs: Fs, base: Path, i: nat)
    ensures var fs' := ShiftFrom(fs, base, i).1;
      base !in fs'.files || Unchanged(fs.files, fs'.files, base)
    decreases i
  {
    if i > 0 {
      ShiftStepEffect(fs, base, i);
      var (err, fs1) := ShiftStep(fs, base, i);
      if err.None? {
        ShiftFromLiveFile(fs1, base, i - 1);
      }
    }
  }

  // ---------------------------------------------------------------------------
  // rotate_, sink_it_ and the constructor as functions of the sink's state
  // ---------------------------------------------------------------------------

  /** What the rotating sink holds besides its configuration: the files, whether its handle is open, current_size_. */
  datatype SinkState = SinkState(fs: Fs, open: bool, size: nat)

  /**
   * rotate_: close the handle, shift the generations, reopen the live file truncated.
   * When a rename fails twice the live file is still reopened truncated and the counter
   * is set to 0 before the rename error is raised; an error of that reopen replaces it.
   */
  function RotateSpec(s: SinkState, base: Path, maxFiles: nat): (Option<LogError>, SinkState)
  {
    var (shiftErr, fs1) := ShiftFrom(s.fs, base, maxFiles);
    var (reopenErr, fs2) := ReopenSpec(fs1, base, true);
    if shiftErr.Some? then
      if reopenErr.Some? then (reopenErr, SinkState(fs2, false, s.size))
      else (Some(RotationFailure(shiftErr.value.0, shiftErr.value.1)), SinkState(fs2, true, 0))
    else (reopenErr, SinkState(fs2, reopenErr.None?, s.size))
  }

  /**
   * The handle can be closed only after a rotation left it so, and then the counter is
   * past max_size, which makes the next record rotate (and reopen) before writing.
   */
  predicate CanWrite(s: SinkState, maxSize: nat)
  {
    s.open || s.size > maxSize
  }

  /**
   * sink_it_: add the record's length to the counter; past max_size, rotate and restart
   * the counter at the record's length; then write the record to the live file.
   */
  function SinkItSpec(s: SinkState, base: Path, maxSize: nat, maxFiles: nat, msg: Str): (Option<LogError>, SinkState)
    requires CanWrite(s, maxSize)
  {
    var size := s.size + |msg|;
    if size > maxSize then
      var (err, s1) := RotateSpec(s.(size := size), base, maxFiles);
      if err.Some? then (err, s1)
      else
        var (writeErr, fs2) := WriteSpec(s1.fs, base, msg);
        (writeErr, SinkState(fs2, true, |msg|))
    else
      var (writeErr, fs2) := WriteSpec(s.fs, base, msg);
      (writeErr, s.(fs := fs2, size := size))
  }

  /** sink_it_ when the counter passes max_size and rotate_ fails: the rotation's outcome. */
  lemma SinkItRotateFails(s: SinkState, base: Path, maxSize: nat, maxFiles: nat, msg: Str)
    requires CanWrite(s, maxSize) && s.size + |msg| > maxSize
    requires RotateSpec(s.(size := s.size + |msg|), base, maxFiles).0.Some?
    ensures SinkItSpec(s, base, maxSize, maxFiles, msg) == RotateSpec(s.(size := s.size + |msg|), base, maxFiles)
  {
  }

  /** sink_it_ when the counter passes max_size and rotate_ succeeds: a write to the rotated files. */
  lemma SinkItAfterRotation(s: SinkState, base: Path, maxSize: nat, maxFiles: nat, msg: Str)
    requires CanWrite(s, maxSize) && s.size + |msg| > maxSize
    requires RotateSpec(s.(size := s.size + |msg|), base, maxFiles).0.None?
    ensures var fs1 := RotateSpec(s.(size := s.size + |msg|), base, maxFiles).1.fs;
      SinkItSpec(s, base, maxSize, maxFiles, msg) == (WriteSpec(fs1, base, msg).0, SinkState(WriteSpec(fs1, base, msg).1, true, |msg|))
  {
  }

  /** sink_it_ within max_size: a write, and the counter grows by the record's length. */
  lemma SinkItWithinBound(s: SinkState, base: Path, maxSize: nat, maxFiles: nat, msg: Str)
    requires CanWrite(s, maxSize) && s.size + |msg| <= maxSize
    ensures SinkItSpec(s, base, maxSize, maxFiles, msg)
         == (WriteSpec(s.fs, base, msg).0, s.(fs := WriteSpec(s.fs, base, msg).1, size := s.size + |msg|))
  {
  }

  /**
   * The constructor: open generation 0 for appending, take its size as the counter, and
   * rotate once when asked to and the file is not empty. The counter keeps the old size
   * after that rotation.
   */
  function CreateSpec(fs: Fs, base: Path, maxFiles: nat, rotateOnOpen: bool): (Option<LogError>, SinkState)
  {
    var (ok, fs1) := OpenFrom(fs, CalcFilename(base, 0), false, 0);
    if !ok then (Some(OpenFailure(base)), SinkState(fs1, false, 0))
    else
      var size := FileSize(fs1, base);
      if rotateOnOpen && size > 0 then RotateSpec(SinkState(fs1, true, size), base, maxFiles)
      else (None, SinkState(fs1, true, size))
  }

  // ---------------------------------------------------------------------------
  // What rotation and sink_it_ promise
  // ---------------------------------------------------------------------------

  /** The counter never undercounts the live file, and the handle is open or due to be reopened. */
  predicate SinkInvariant(s: SinkState, base: Path, maxSize: nat)
  {
    CanWrite(s, maxSize) && FileSize(s.fs, base) <= s.size
  }

  /** A rotation leaves the live file empty when it reopened it, and never longer than it was. */
  lemma RotateLiveFile(s: SinkState, base: Path, maxFiles: nat)
    ensures var (err, s') := RotateSpec(s, base, maxFiles);
      && (s'.open ==> base in s'.fs.files && s'.fs.files[base] == [])
      && FileSize(s'.fs, base) <= FileSize(s.fs, base)
  {
    ShiftFromLiveFile(s.fs, base, maxFiles);
  }

  /** rotate_ succeeds, fails with a rename error, or fails to reopen; the counter follows. */
  lemma RotateOutcome(s: SinkState, base: Path, maxFiles: nat)
    ensures var (err, s') := RotateSpec(s, base, maxFiles);
      && (err.None? ==> s'.open && s'.size == s.size)
      && (err.Some? && err.value.RotationFailure? ==>
            s'.open && s'.size == 0 &&
            exists k :: 1 <= k <= maxFiles && (err.value.src, err.value.target) == GenerationPair(base, k))
      && (err.Some? && !err.value.RotationFailure? ==>
            !s'.open && s'.size == s.size && err.value == (if base == [] then NotOpenedBefore else OpenFailure(base)))
  {
    var (shiftErr, fs1) := ShiftFrom(s.fs, base, maxFiles);
    if shiftErr.Some? {
      ShiftFromFailure(s.fs, base, maxFiles);
      var k :| 1 <= k <= maxFiles && shiftErr == Some(GenerationPair(base, k));
      assert (shiftErr.value.0, shiftErr.value.1) == GenerationPair(base, k);
    }
  }

  /**
   * A rotation that reports a rename failing twice between generations k-1 and k keeps
   * the renames already done above k, has removed generation k, leaves generations below
   * k as they were, and reopened the live file empty.
   */
  lemma RotateFailureKeepsShifts(s: SinkState, base: Path, maxFiles: nat, k: nat)
    requires k >= 1
    requires var err := RotateSpec(s, base, maxFiles).0;
      err.Some? && err.value.RotationFailure? && (err.value.src, err.value.target) == GenerationPair(base, k)
    ensures var s' := RotateSpec(s, base, maxFiles).1;
      && k <= maxFiles && s'.fs.files[base] == []
      && (forall j :: k < j <= maxFiles && CalcFilename(base, j - 1) in s.fs.files ==>
            CalcFilename(base, j) in s'.fs.files
            && s'.fs.files[CalcFilename(base, j)] == s.fs.files[CalcFilename(base, j - 1)])
      && CalcFilename(base, k) !in s'.fs.files
      && (forall m :: 1 <= m < k ==> Unchanged(s.fs.files, s'.fs.files, CalcFilename(base, m)))
  {
    var fs1 := ShiftFrom(s.fs, base, maxFiles).1;
    var s' := RotateSpec(s, base, maxFiles).1;
    assert ShiftFrom(s.fs, base, maxFiles).0 == Some(GenerationPair(base, k));
    assert s'.fs.files == fs1.files[base := []];
    ShiftFromFailureKeepsLower(s.fs, base, maxFiles, k, 0);
    forall j | k < j <= maxFiles && CalcFilename(base, j - 1) in s.fs.files
      ensures CalcFilename(base, j) in s'.fs.files
      ensures s'.fs.files[CalcFilename(base, j)] == s.fs.files[CalcFilename(base, j - 1)]
    {
      ShiftFromFailureMoves(s.fs, base, maxFiles, k, j);
      DistinctGenerations(base, j, 0);
    }
    ShiftFromFailureVacates(s.fs, base, maxFiles, k);
    DistinctGenerations(base, k, 0);
    forall m | 1 <= m < k
      ensures Unchanged(s.fs.files, s'.fs.files, CalcFilename(base, m))
    {
      ShiftFromFailureKeepsLower(s.fs, base, maxFiles, k, m);
      DistinctGenerations(base, m, 0);
    }
  }

  /**
   * A successful rotation: generation k holds what generation k-1 held, generation 0 is
   * the emptied live file, nothing outside generations 0..max_files changed, and an
   * emptied slot stays empty.
   */
  lemma RotateSucceeds(s: SinkState, base: Path, maxFiles: nat)
    requires RotateSpec(s, base, maxFiles).0.None?
    ensures var s' := RotateSpec(s, base, maxFiles).1;
      && s'.fs.files[base] == []
      && (forall k :: 1 <= k <= maxFiles && CalcFilename(base, k - 1) in s.fs.files ==>
            CalcFilename(base, k) in s'.fs.files
            && s'.fs.files[CalcFilename(base, k)] == s.fs.files[CalcFilename(base, k - 1)])
      && (forall k :: 1 <= k < maxFiles && CalcFilename(base, k - 1) !in s.fs.files ==>
            CalcFilename(base, k) !in s'.fs.files)
      && (maxFiles >= 1 && CalcFilename(base, maxFiles - 1) !in s.fs.files ==>
            Unchanged(s.fs.files, s'.fs.files, CalcFilename(base, maxFiles)))
      && (forall p :: !IsGeneration(base, maxFiles, p) ==> Unchanged(s.fs.files, s'.fs.files, p))
  {
    var fs1 := ShiftFrom(s.fs, base, maxFiles).1;
    var s' := RotateSpec(s, base, maxFiles).1;
    assert s'.fs.files == fs1.files[base := []];
    ShiftFromFrame(s.fs, base, maxFiles);
    forall k | 1 <= k <= maxFiles && CalcFilename(base, k - 1) in s.fs.files
      ensures CalcFilename(base, k) in s'.fs.files
      ensures s'.fs.files[CalcFilename(base, k)] == s.fs.files[CalcFilename(base, k - 1)]
    {
      ShiftFromMoves(s.fs, base, maxFiles, k);
      DistinctGenerations(base, k, 0);
    }
    forall k | 1 <= k < maxFiles && CalcFilename(base, k - 1) !in s.fs.files
      ensures CalcFilename(base, k) !in s'.fs.files
    {
      ShiftFromVacates(s.fs, base, maxFiles, k);
      DistinctGenerations(base, k, 0);
    }
    if maxFiles >= 1 && CalcFilename(base, maxFiles - 1) !in s.fs.files {
      ShiftFromKeepsOldest(s.fs, base, maxFiles);
      DistinctGenerations(base, maxFiles, 0);
    }
    forall p | !IsGeneration(base, maxFiles, p)
      ensures Unchanged(s.fs.files, s'.fs.files, p)
    {
      assert p != CalcFilename(base, 0);
    }
  }

  /** sink_it_ keeps the handle writable and the counter an upper bound of the live file. */
  lemma SinkItInvariant(s: SinkState, base: Path, maxSize: nat, maxFiles: nat, msg: Str)
    requires SinkInvariant(s, base, maxSize)
    ensures SinkInvariant(SinkItSpec(s, base, maxSize, maxFiles, msg).1, base, maxSize)
  {
    var size := s.size + |msg|;
    if size > maxSize {
      RotateLiveFile(s.(size := size), base, maxFiles);
      RotateOutcome(s.(size := size), base, maxFiles);
    }
  }

  /**
   * A record that keeps the counter within max_size is appended to the live file and
   * added to the counter; a short write is reported as a write error.
   */
  lemma SinkItAppends(s: SinkState, base: Path, maxSize: nat, maxFiles: nat, msg: Str)
    requires CanWrite(s, maxSize) && s.size + |msg| <= maxSize
    ensures var (err, s') := SinkItSpec(s, base, maxSize, maxFiles, msg);
      && s'.open == s.open && s'.size == s.size + |msg|
      && (err.Some? ==> err.value == WriteFailure(base))
      && (err.None? ==> s'.fs.files == s.fs.files[base := Content(s.fs, base) + msg])
  {
  }

  /**
   * A record that takes the counter past max_size rotates first: when that succeeds the
   * counter restarts at the record's length, the live file holds exactly the record, and
   * every earlier generation moved up by one.
   */
  lemma SinkItRotates(s: SinkState, base: Path, maxSize: nat, maxFiles: nat, msg: Str)
    requires CanWrite(s, maxSize) && s.size + |msg| > maxSize
    requires SinkItSpec(s, base, maxSize, maxFiles, msg).0.None?
    ensures var s' := SinkItSpec(s, base, maxSize, maxFiles, msg).1;
      && s'.open && s'.size == |msg| && s'.fs.files[base] == msg
      && (forall k :: 1 <= k <= maxFiles && CalcFilename(base, k - 1) in s.fs.files ==>
            CalcFilename(base, k) in s'.fs.files
            && s'.fs.files[CalcFilename(base, k)] == s.fs.files[CalcFilename(base, k - 1)])
      && (forall p :: !IsGeneration(base, maxFiles, p) ==> Unchanged(s.fs.files, s'.fs.files, p))
  {
    var s0 := s.(size := s.size + |msg|);
    RotateSucceeds(s0, base, maxFiles);
    var s1 := RotateSpec(s0, base, maxFiles).1;
    var s' := SinkItSpec(s, base, maxSize, maxFiles, msg).1;
    assert s'.fs.files == s1.fs.files[base := [] + msg];
    forall k | 1 <= k <= maxFiles && CalcFilename(base, k - 1) in s.fs.files
      ensures CalcFilename(base, k) in s'.fs.files
      ensures s'.fs.files[CalcFilename(base, k)] == s.fs.files[CalcFilename(base, k - 1)]
    {
      DistinctGenerations(base, k, 0);
    }
    forall p | !IsGeneration(base, maxFiles, p)
      ensures Unchanged(s.fs.files, s'.fs.files, p)
    {
      assert p != CalcFilename(base, 0);
    }
  }

  /**
   * The constructor's counter is the size generation 0 had, even when it then rotated:
   * afterwards the live file is empty while the counter still holds the old size.
   */
  lemma CreateCounter(fs: Fs, base: Path, maxSize: nat, maxFiles: nat, rotateOnOpen: bool)
    requires CreateSpec(fs, base, maxFiles, rotateOnOpen).0.None?
    ensures var s := CreateSpec(fs, base, maxFiles, rotateOnOpen).1;
      && s.open && base != []
      && s.size == FileSize(fs, base)
      && (rotateOnOpen && FileSize(fs, base) > 0 ==> s.fs.files[base] == [])
      && (!(rotateOnOpen && FileSize(fs, base) > 0) ==> FileSize(s.fs, base) == s.size)
      && SinkInvariant(s, base, maxSize)
  {
    OpenFromFiles(fs, base, false, 0);
    OpenFromSucceedsIff(fs, base, false, 0);
    var (ok, fs1) := OpenFrom(fs, base, false, 0);
    if rotateOnOpen && FileSize(fs1, base) > 0 {
      RotateLiveFile(SinkState(fs1, true, FileSize(fs1, base)), base, maxFiles);
      RotateOutcome(SinkState(fs1, true, FileSize(fs1, base)), base, maxFiles);
    }
  }

  // ---------------------------------------------------------------------------
  // Without faults
  // ---------------------------------------------------------------------------

  /**
   * No fopen, rename or fwrite fails. An open fault stands for every reason fopen can
   * fail, a missing or non-directory parent included, so an empty open oracle also says
   * that the file's directory is usable.
   */
  predicate NoFaults(fs: Fs)
  {
    fs.openFaults == [] && fs.renameFaults == [] && fs.writeLimits == []
  }

  /**
   * None of generations 0..n is a directory. The model's rename moves files only, so a
   * directory at a generation name would make the shift fail where rename(2) moves it.
   */
  predicate NoGenerationDirs(fs: Fs, base: Path, n: nat)
  {
    forall k :: 0 <= k <= n ==> CalcFilename(base, k) !in fs.dirs
  }

  /** Without rename faults, and with no generation being a directory, the shift succeeds. */
  lemma {:induction false} ShiftFromWithoutFaults(fs: Fs, base: Path, i: nat)
    requires fs.renameFaults == [] && NoGenerationDirs(fs, base, i)
    ensures ShiftFrom(fs, base, i).0.None?
    ensures ShiftFrom(fs, base, i).1.renameFaults == []
    decreases i
  {
    if i > 0 {
      ShiftStepEffect(fs, base, i);
      DistinctGenerations(base, i - 1, i);
      var src := CalcFilename(base, i - 1);
      assert src !in fs.dirs;
      var fs1 := ShiftStep(fs, base, i).1;
      assert ShiftStep(fs, base, i).0.None?;
      assert fs1.dirs == fs.dirs && fs1.renameFaults == [];
      assert NoGenerationDirs(fs1, base, i - 1);
      ShiftFromWithoutFaults(fs1, base, i - 1);
      assert ShiftFrom(fs, base, i) == ShiftFrom(fs1, base, i - 1);
    }
  }

  /** Without faults, a rotation succeeds and leaves a file system that is still without faults. */
  lemma RotateWithoutFaults(s: SinkState, base: Path, maxFiles: nat)
    requires NoFaults(s.fs) && base != [] && NoGenerationDirs(s.fs, base, maxFiles)
    ensures var (err, s') := RotateSpec(s, base, maxFiles);
      err.None? && NoFaults(s'.fs) && NoGenerationDirs(s'.fs, base, maxFiles)
  {
    ShiftFromWithoutFaults(s.fs, base, maxFiles);
    ShiftFromFrame(s.fs, base, maxFiles);
    var fs1 := ShiftFrom(s.fs, base, maxFiles).1;
    assert !AttemptFails(fs1.openFaults, 0);
    OpenWithoutFaults(fs1, base, true);
    ReopenNewDirs(fs1, base, true);
  }

  /** Without faults, sink_it_ succeeds and leaves a file system that is still without faults. */
  lemma SinkItWithoutFaults(s: SinkState, base: Path, maxSize: nat, maxFiles: nat, msg: Str)
    requires CanWrite(s, maxSize) && NoFaults(s.fs) && base != [] && NoGenerationDirs(s.fs, base, maxFiles)
    ensures var (err, s') := SinkItSpec(s, base, maxSize, maxFiles, msg);
      err.None? && NoFaults(s'.fs) && NoGenerationDirs(s'.fs, base, maxFiles)
  {
    if s.size + |msg| > maxSize {
      RotateWithoutFaults(s.(size := s.size + |msg|), base, maxFiles);
    }
  }

  /** Without faults, the constructor succeeds. */
  lemma CreateWithoutFaults(fs: Fs, base: Path, maxFiles: nat, rotateOnOpen: bool)
    requires NoFaults(fs) && base != [] && NoGenerationDirs(fs, base, maxFiles)
    ensures var (err, s) := CreateSpec(fs, base, maxFiles, rotateOnOpen);
      err.None? && NoFaults(s.fs) && NoGenerationDirs(s.fs, base, maxFiles)
  {
    OpenWithoutFaults(fs, base, false);
    OpenFromFiles(fs, base, false, 0);
    var fs1 := OpenFrom(fs, base, false, 0).1;
    if rotateOnOpen && FileSize(fs1, base) > 0 {
      RotateWithoutFaults(SinkState(fs1, true, FileSize(fs1, base)), base, maxFiles);
    }
  }

  // ---------------------------------------------------------------------------
  // rotating_file_sink
  // ---------------------------------------------------------------------------

  /** The file-rotating sink: a threshold, its configuration, the byte counter and one file handle. */
  class RotatingFileSink {
    /** level_: records below it are not logged (checked by the caller through should_log). */
    var level: Level
    const baseFilename: Path
    const maxSize: nat
    const maxFiles: nat
    /** current_size_: bytes counted against the live file. */
    var currentSize: nat
    const handle: FileHelper

    /** The handle always names the live file, and is open unless a rotation left it closed. */
    ghost predicate Valid()
      reads this, handle
    {
      && handle.filename == baseFilename && baseFilename != []
      && (handle.isOpen || currentSize > maxSize)
    }

    /** The sink's state on the file system `fs`. */
    function State(fs: Fs): (s: SinkState)
      reads this, handle
      ensures s.fs == fs && s.open == handle.isOpen && s.size == currentSize
    {
      SinkState(fs, handle.isOpen, currentSize)
    }

    /** The member initialisers; opening the file is left to Create. */
    constructor Init(base: Path, maxSize: nat, maxFiles: nat)
      ensures level == Trace && baseFilename == base && this.maxSize == maxSize
      ensures this.maxFiles == maxFiles && currentSize == 0
      ensures fresh(handle) && !handle.isOpen && handle.filename == [] && handle.flushes == 0
    {
      level := Trace;
      baseFilename := base;
      this.maxSize := maxSize;
      this.maxFiles := maxFiles;
      currentSize := 0;
      handle := new FileHelper();
    }

    /**
     * The constructor of rotating_file_sink: open generation 0 for appending, read its
     * size into the counter, and rotate once when rotateOnOpen and the file is not
     * empty. A constructor that throws leaves no sink, hence the Result.
     */
    static method Create(base: Path, maxSize: nat, maxFiles: nat, rotateOnOpen: bool, fs: Fs)
      returns (r: Result<RotatingFileSink, LogError>, fs': Fs)
      ensures var (err, s) := CreateSpec(fs, base, maxFiles, rotateOnOpen);
        && fs' == s.fs
        && (r.Success? <==> err.None?)
        && (r.Failure? ==> r.error == err.value)
        && (r.Success? ==>
              && fresh(r.value) && fresh(r.value.handle) && r.value.Valid()
              && r.value.State(fs') == s && r.value.level == Trace
              && r.value.baseFilename == base && r.value.maxSize == maxSize
              && r.value.maxFiles == maxFiles && r.value.handle.flushes == 0)
    {
      var sink := new RotatingFileSink.Init(base, maxSize, maxFiles);
      var openErr;
      openErr, fs' := sink.handle.Open(CalcFilename(base, 0), false, fs);
      if openErr.Some? {
        return Failure(openErr.value), fs';
      }
      OpenFromSucceedsIff(fs, base, false, 0);
      var size := sink.handle.Size(fs');
      sink.currentSize := size.value;  // expensive; called only once
      if rotateOnOpen && sink.currentSize > 0 {
        var err;
        err, fs' := sink.Rotate(fs');
        if err.Some? {
          return Failure(err.value), fs';
        }
      }
      r := Success(sink);
    }

    /** should_log */
    function ShouldLog(msgLevel: Level): (r: bool)
      reads this
      ensures r <==> Value(msgLevel) >= Value(level)
    {
      Admits(level, msgLevel)
    }

    method SetLevel(l: Level)
      modifies this
      ensures level == l && currentSize == old(currentSize)
    {
      level := l;
    }

    function Level(): (l: Level)
      reads this
      ensures l == level
    {
      level
    }

    /**
     * The loop of rotate_: downward over the generations, each existing one moves up by
     * one, and a rename that fails is retried once; a second failure stops the loop with
     * the pair of names involved.
     */
    method ShiftGenerations(fs: Fs) returns (err: Option<(Path, Path)>, fs': Fs)
      ensures (err, fs') == ShiftFrom(fs, baseFilename, maxFiles)
    {
      fs' := fs;
      var i: nat := maxFiles;
      while i > 0
        invariant i <= maxFiles
        invariant ShiftFrom(fs, baseFilename, maxFiles) == ShiftFrom(fs', baseFilename, i)
      {
        ghost var before := fs';
        var src := CalcFilename(baseFilename, i - 1);
        if !PathExists(fs', src) {
          assert ShiftStep(before, baseFilename, i) == (None, fs');
          i := i - 1;
          continue;
        }
        var target := CalcFilename(baseFilename, i);
        var renamed;
        renamed, fs' := RenameFile(fs', src, target).0, RenameFile(fs', src, target).1;
        if !renamed {
          // sleep_for_millis(100), then try once more
          renamed, fs' := RenameFile(fs', src, target).0, RenameFile(fs', src, target).1;
          if !renamed {
            assert ShiftStep(before, baseFilename, i) == (Some((src, target)), fs');
            return Some((src, target)), fs';
          }
        }
        assert ShiftStep(before, baseFilename, i) == (None, fs');
        i := i - 1;
      }
      err := None;
    }

    /**
     * rotate_: close the live file, shift the generations, then reopen the live file
     * truncated, also after a failed rename so that it cannot grow past its bound; after a
     * failed rename a successful reopen restarts the counter and the rename is reported.
     */
    method Rotate(fs: Fs) returns (err: Option<LogError>, fs': Fs)
      requires handle.filename == baseFilename
      modifies this, handle
      ensures (err, State(fs')) == RotateSpec(old(State(fs)), baseFilename, maxFiles)
      ensures handle.filename == baseFilename && handle.flushes == old(handle.flushes)
      ensures level == old(level)
    {
      handle.Close();
      var shiftErr;
      shiftErr, fs' := ShiftGenerations(fs);
      err, fs' := handle.Reopen(true, fs');
      if shiftErr.Some? && err.None? {
        currentSize := 0;
        err := Some(RotationFailure(shiftErr.value.0, shiftErr.value.1));
      }
    }

    /** log, i.e. sink_it_ under the sink's lock. */
    method Log(msg: Str, fs: Fs) returns (err: Option<LogError>, fs': Fs)
      requires Valid()
      modifies this, handle
      ensures Valid()
      ensures (err, State(fs')) == SinkItSpec(old(State(fs)), baseFilename, maxSize, maxFiles, msg)
      ensures level == old(level) && handle.flushes == old(handle.flushes)
    {
      ghost var s0 := State(fs);
      currentSize := currentSize + |msg|;
      if currentSize > maxSize {
        ghost var s1 := State(fs);
        assert s1 == s0.(size := s0.size + |msg|);
        err, fs' := Rotate(fs);
        if err.Some? {
          SinkItRotateFails(s0, baseFilename, maxSize, maxFiles, msg);
          return;
        }
        SinkItAfterRotation(s0, baseFilename, maxSize, maxFiles, msg);
        assert handle.isOpen by {
          RotateOutcome(s1, baseFilename, maxFiles);
        }
        currentSize := |msg|;
      } else {
        SinkItWithinBound(s0, baseFilename, maxSize, maxFiles, msg);
        fs' := fs;
      }
      ghost var fsBefore := fs';
      err, fs' := handle.Write(msg, fs');
      assert (err, fs') == WriteSpec(fsBefore, baseFilename, msg);
    }

    /** flush, i.e. flush_ under the sink's lock: flushes the handle. */
    method Flush()
      modifies handle
      ensures handle.flushes == old(handle.flushes) + 1
      ensures handle.isOpen == old(handle.isOpen) && handle.filename == old(handle.filename)
    {
      handle.Flush();
    }
  }

  /**
   * A fresh sink with max_size 100 and max_files 2 receives 60 bytes and then 60 more:
   * the second record rotates, so the live file holds the second record and generation 1
   * the first.
   */
  method RotationScenario(fs: Fs, base: Path) returns (live: Str, previous: Str)
    requires NoFaults(fs) && base != [] && NoGenerationDirs(fs, base, 2) && base !in fs.files
    ensures live == seq(60, _ => 'b') && previous == seq(60, _ => 'a')
  {
    var first, second := seq(60, _ => 'a'), seq(60, _ => 'b');
    CreateWithoutFaults(fs, base, 2, false);
    CreateCounter(fs, base, 100, 2, false);
    var r, fs1 := RotatingFileSink.Create(base, 100, 2, false, fs);
    var sink := r.value;
    assert sink.currentSize == 0;
    SinkItWithoutFaults(sink.State(fs1), base, 100, 2, first);
    SinkItAppends(sink.State(fs1), base, 100, 2, first);
    var err, fs2 := sink.Log(first, fs1);
    assert fs2.files[base] == first;
    SinkItWithoutFaults(sink.State(fs2), base, 100, 2, second);
    SinkItRotates(sink.State(fs2), base, 100, 2, second);
    var fs3;
    err, fs3 := sink.Log(second, fs2);
    live, previous := Content(fs3, base), Content(fs3, CalcFilename(base, 1));
  }
}
