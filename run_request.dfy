/**
 * What `run_benchmark_thread` derives from the form before it starts the benchmark:
 * the run name, the command line and the child's environment.
 */
module RunRequest {
  import opened PyStr

  /** The test-path value that means "run every test". */
  const All: string := "all"

  /**
   * The run name: `<timestamp>--<model>-<format>` for all tests, and
   * `<timestamp>--<basename of the test path>-<model>-<format>` otherwise.
   */
  function RunName(timestamp: string, testPath: string, model: string, editFormat: string): (name: string)
    ensures var head, tail := |timestamp| + 2, |model| + 1 + |editFormat|;
      && |name| == head + tail + (if testPath == All then 0 else |Basename(testPath)| + 1)
      && name[..head] == timestamp + "--"
      && name[|name| - tail..] == model + "-" + editFormat
      && (testPath != All ==> name[head..head + |Basename(testPath)| + 1] == Basename(testPath) + "-")
  {
    var head, tail := timestamp + "--", model + "-" + editFormat;
    if testPath == All then
      var name := head + tail;
      ThreeParts(head, "", tail, name);
      name
    else
      var testName := Basename(testPath);
      var name := head + (testName + "-") + tail;
      ThreeParts(head, testName + "-", tail, name);
      name
  }

  /** Where the three parts of a concatenation sit in it. */
  lemma ThreeParts(a: string, b: string, c: string, s: string)
    requires s == a + b + c || (b == [] && s == a + c)
    ensures |s| == |a| + |b| + |c|
    ensures s[..|a|] == a && s[|a|..|a| + |b|] == b && s[|s| - |c|..] == c
  {
  }

  /** The benchmark command line; `--keywords` narrows the run to one test unless all tests run. */
  function BenchmarkCommand(python: string, script: string, runName: string, model: string,
                            editFormat: string, threads: string, testPath: string): (cmd: seq<string>)
    ensures |cmd| == (if testPath == All then 9 else 11)
    ensures cmd[..9] == [python, script, runName, "--model", model, "--edit-format", editFormat, "--threads", threads]
    ensures testPath != All ==> cmd[9..] == ["--keywords", Basename(testPath)]
  {
    var cmd := [python, script, runName, "--model", model, "--edit-format", editFormat, "--threads", threads];
    if testPath != All then cmd + ["--keywords", Basename(testPath)] else cmd
  }

  /**
   * The keyword the command filters on is the test name the run is named after, and the
   * command carries the run name as its positional argument.
   */
  lemma KeywordNamesTheRun(timestamp: string, python: string, script: string, testPath: string,
                           model: string, editFormat: string, threads: string)
    ensures var name := RunName(timestamp, testPath, model, editFormat);
      var cmd := BenchmarkCommand(python, script, name, model, editFormat, threads, testPath);
      && cmd[2] == name
      && (testPath == All ==> |cmd| == 9 && name == timestamp + "--" + model + "-" + editFormat)
      && (testPath != All ==> |cmd| == 11 && name == timestamp + "--" + cmd[10] + "-" + model + "-" + editFormat)
  {
    var name := RunName(timestamp, testPath, model, editFormat);
    var cmd := BenchmarkCommand(python, script, name, model, editFormat, threads, testPath);
    assert cmd[2] == cmd[..9][2];
    if testPath != All {
      assert cmd[10] == cmd[9..][1];
    }
  }

  /** A run of test `say` with model `m1` and format `diff` at 2024-01-01 00:00:00. */
  lemma ScenarioRunName(timestamp: string, testPath: string, model: string, editFormat: string)
    requires timestamp == "2024-01-01-00-00-00" && model == "m1" && editFormat == "diff"
    requires testPath == "say" || testPath == "exercises/practice/say"
    ensures RunName(timestamp, testPath, model, editFormat) == "2024-01-01-00-00-00--say-m1-diff"
  {
    SayIsTheTestName(testPath);
    RunNameOfTest(timestamp, testPath, model, editFormat);
    assert (timestamp + "--") + ("say" + "-") + (model + "-" + editFormat) == "2024-01-01-00-00-00--say-m1-diff";
  }

  /** With a test selected, the run name part by part. */
  lemma RunNameOfTest(timestamp: string, testPath: string, model: string, editFormat: string)
    requires testPath != All
    ensures RunName(timestamp, testPath, model, editFormat) == (timestamp + "--") + (Basename(testPath) + "-") + (model + "-" + editFormat)
  {
  }

  /** Both spellings of the `say` test path name the test `say`. */
  lemma SayIsTheTestName(testPath: string)
    requires testPath == "say" || testPath == "exercises/practice/say"
    ensures testPath != All && Basename(testPath) == "say"
  {
    var dir := if testPath == "say" then "" else "exercises/practice/";
    assert testPath == dir + "say";
    assert '/' !in "say";
    BasenameAfterSlash(dir, "say");
    assert testPath[|testPath| - 1] == 'y';
  }

  /** A test path with a trailing `/` names no test: the run name and the keyword get an empty test name. */
  lemma TrailingSlashEmptiesTestName(dir: string)
    requires dir != [] && dir[|dir| - 1] == '/'
    ensures Basename(dir) == ""
    ensures forall ts, model, editFormat :: RunName(ts, dir, model, editFormat) == (ts + "---") + (model + "-" + editFormat)
  {
    assert dir != All by { assert All[|All| - 1] == 'l'; }
    assert Basename(dir) == "";
    forall ts, model, editFormat
      ensures RunName(ts, dir, model, editFormat) == (ts + "---") + (model + "-" + editFormat)
    {
      RunNameOfTest(ts, dir, model, editFormat);
      assert (ts + "--") + ("" + "-") == ts + "---";
    }
  }

  // The environment overlay. Keys and values are the variables' names and texts.

  const BenchmarkDirKey: string := "AIDER_BENCHMARK_DIR"
  const RunLocallyKey: string := "AIDER_RUN_LOCALLY"
  const IoEncodingKey: string := "PYTHONIOENCODING"
  const Utf8ModeKey: string := "PYTHONUTF8"

  /** The variables the overlay sets, given whether the platform is Windows (`sys.platform == "win32"`). */
  function OverlayKeys(isWin32: bool): set<string>
  {
    {BenchmarkDirKey, RunLocallyKey} + (if isWin32 then {IoEncodingKey, Utf8ModeKey} else {})
  }

  /**
   * The child's environment: a copy of the parent's with the benchmark directory and the
   * run-locally switch set, and on Windows UTF-8 text I/O forced; every other variable is inherited.
   */
  function ChildEnv(parent: map<string, string>, benchmarkDir: string, isWin32: bool): (env: map<string, string>)
    ensures env.Keys == parent.Keys + OverlayKeys(isWin32)
    ensures env[BenchmarkDirKey] == benchmarkDir && env[RunLocallyKey] == "true"
    ensures isWin32 ==> env[IoEncodingKey] == "utf-8" && env[Utf8ModeKey] == "1"
    ensures forall k :: k in parent && k !in OverlayKeys(isWin32) ==> env[k] == parent[k]
  {
    var env := parent[BenchmarkDirKey := benchmarkDir][RunLocallyKey := "true"];
    if isWin32 then env[IoEncodingKey := "utf-8"][Utf8ModeKey := "1"] else env
  }

  /** Overlaying twice changes nothing more than overlaying once. */
  lemma ChildEnvIdempotent(parent: map<string, string>, benchmarkDir: string, isWin32: bool)
    ensures var env := ChildEnv(parent, benchmarkDir, isWin32);
      ChildEnv(env, benchmarkDir, isWin32) == env
  {
  }
}
