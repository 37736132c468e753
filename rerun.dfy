/**
 * "Re-run Latest" (`rerun_latest`): pick the newest run directory under the results root,
 * its first model directory and that one's first test directory, then run the tests found
 * there and stream their output.
 */
module Rerun {
  import opened Wrappers
  import opened PyStr
  import opened ReadLoop

  const NoBenchmarksFound: string := "No previous benchmarks found"
  const NoModelDirectories: string := "No model directories found"
  const NoTestDirectories: string := "No test directories found"

  /** A subdirectory of the results root and its creation time (`os.path.getctime`). */
  datatype Entry = Entry(name: string, ctime: real)

  /** The directories chosen at the three levels and the path of the test directory. */
  datatype Selection = Selection(runDir: string, modelDir: string, testDir: string, testPath: string)

  /** `k` is a newest entry, and no entry before it is as new: the one `max(..., key=ctime)` returns. */
  ghost predicate IsFirstNewest(dirs: seq<Entry>, k: int)
  {
    && 0 <= k < |dirs|
    && (forall j :: 0 <= j < |dirs| ==> dirs[j].ctime <= dirs[k].ctime)
    && (forall j :: 0 <= j < k ==> dirs[j].ctime < dirs[k].ctime)
  }

  /** The position `max` picks: it scans left to right and moves only on a strictly newer entry. */
  function Latest(dirs: seq<Entry>): (k: nat)
    requires dirs != []
    ensures IsFirstNewest(dirs, k)
  {
    if |dirs| == 1 then 0
    else
      var n := |dirs| - 1;
      var k := Latest(dirs[..n]);
      assert forall j :: 0 <= j < n ==> dirs[j] == dirs[..n][j];
      if dirs[n].ctime > dirs[k].ctime then n else k
  }

  /**
   * The directory selection of `rerun_latest`. `dirs` lists the subdirectories of `root`
   * (empty when `root` does not exist), `modelDirs` those of the chosen run directory and
   * `testDirs` those of the first model directory, as listed.
   */
  function SelectLatest(root: string, rootExists: bool, dirs: seq<Entry>,
                        modelDirs: seq<string>, testDirs: seq<string>): (r: Result<Selection, string>)
    ensures r.Err? <==> !rootExists || dirs == [] || modelDirs == [] || testDirs == []
    ensures !rootExists || dirs == [] ==> r == Err(NoBenchmarksFound)
    ensures rootExists && dirs != [] && modelDirs == [] ==> r == Err(NoModelDirectories)
    ensures rootExists && dirs != [] && modelDirs != [] && testDirs == [] ==> r == Err(NoTestDirectories)
    ensures r.Ok? ==>
      && (exists k :: IsFirstNewest(dirs, k) && dirs[k].name == r.value.runDir)
      && r.value.modelDir == modelDirs[0]
      && r.value.testDir == testDirs[0]
      && r.value.testPath == Join(Join(Join(root, r.value.runDir), r.value.modelDir), r.value.testDir)
  {
    if !rootExists || dirs == [] then Err(NoBenchmarksFound)
    else
      var latestDir := dirs[Latest(dirs)].name;
      if modelDirs == [] then Err(NoModelDirectories)
      else
        var modelPath := Join(Join(root, latestDir), modelDirs[0]);
        if testDirs == [] then Err(NoTestDirectories)
        else Ok(Selection(latestDir, modelDirs[0], testDirs[0], Join(modelPath, testDirs[0])))
  }

  /** The chosen test path ends in the chosen test directory's name. */
  lemma SelectedPathNamesTestDir(root: string, dirs: seq<Entry>, modelDirs: seq<string>, testDirs: seq<string>)
    requires dirs != [] && modelDirs != [] && testDirs != []
    requires testDirs[0] != [] && '/' !in testDirs[0]
    ensures SelectLatest(root, true, dirs, modelDirs, testDirs).Ok?
    ensures Basename(SelectLatest(root, true, dirs, modelDirs, testDirs).value.testPath) == testDirs[0]
  {
    var s := SelectLatest(root, true, dirs, modelDirs, testDirs).value;
    BasenameOfJoin(Join(Join(root, s.runDir), s.modelDir), testDirs[0]);
  }

  /** The test-discovery command: unittest over the chosen directory, files matching `*_test.py`. */
  function RerunCommand(python: string, testPath: string): seq<string>
  {
    [python, "-m", "unittest", "discover", "-s", testPath, "-t", testPath, "-p", "*_test.py"]
  }

  function Header(testPath: string): string
  {
    "Re-running tests in: " + testPath
  }

  /** The line logged when spawning or reading the tests raises `e`. */
  function RunTestsError(e: string): string
  {
    "Error running tests: " + e
  }

  /** The read at which a failure `(k, e)` raises, as the read loop takes it. */
  function RaisesAt(readError: Option<(nat, string)>): (k: Option<nat>)
    ensures k.Some? <==> readError.Some?
    ensures readError.Some? ==> k.value == readError.value.0
  {
    match readError
    case None => None
    case Some((k, _)) => Some(k)
  }

  /**
   * What the read loop logs with the flag set: the kept lines up to the end of output or up to
   * the read that raises, followed in that case by the `except` clause's message.
   */
  function ReadTranscript(results: seq<Read>, readError: Option<(nat, string)>): seq<string>
  {
    var raisesAt := RaisesAt(readError);
    Kept(results[..LoggedUpTo(results, raisesAt)]) +
    if RaisesBeforeEnd(results, raisesAt) then [RunTestsError(readError.value.1)] else []
  }

  /**
   * The lines `rerun_latest` logs, as written: the selection's error message, or the header and
   * then either the spawn error or what the read loop logs with the flag `running` as it was
   * when the button was pressed; nothing in `rerun_latest` sets it.
   */
  function RerunTranscript(selection: Result<Selection, string>, spawnError: Option<string>,
                           running: bool, results: seq<Read>, readError: Option<(nat, string)>): seq<string>
  {
    match selection
    case Err(message) => [message]
    case Ok(s) =>
      [Header(s.testPath)] +
      match spawnError
      case Some(e) => [RunTestsError(e)]
      case None => if running then ReadTranscript(results, readError) else []
  }

  /**
   * As written, a re-run started while no benchmark runs (the flag is then false) logs only its
   * header: the test output below, which the loop would have logged, is never shown.
   */
  lemma IdleRerunDropsTestOutput(s: Selection, results: seq<Read>)
    requires results == [Read("OK\n", false), Read("", true)]
    ensures Kept(results[..FirstEnd(results)]) == ["OK"]
    ensures RerunTranscript(Ok(s), None, false, results, None) == [Header(s.testPath)]
  {
    assert FirstEnd(results) == 1 by {
      assert !EndOfOutput(results[0]) && EndOfOutput(results[1]);
    }
    var one := results[..1];
    assert one[..0] == [];
    assert Strip("OK\n") == "OK" by {
      assert StripLeading("OK\n") == "OK\n";
      assert "OK\n"[..2] == "OK";
    }
  }

  /** The re-run as evidently intended: the loop runs with the flag set, as a benchmark run sets it. */
  function FixedRerunTranscript(selection: Result<Selection, string>, spawnError: Option<string>,
                                results: seq<Read>, readError: Option<(nat, string)>): seq<string>
  {
    RerunTranscript(selection, spawnError, true, results, readError)
  }

  /**
   * With the flag set and no read failing, a successful re-run logs its header and then every
   * non-empty line the tests print before their output ends, stripped and in order.
   */
  lemma FixedRerunShowsTestOutput(s: Selection, results: seq<Read>)
    ensures var log := FixedRerunTranscript(Ok(s), None, results, None);
      var shown := results[..FirstEnd(results)];
      && log[0] == Header(s.testPath)
      && LogsReadsAt(shown, log[1..], NonEmptyPositions(shown))
  {
    var shown := results[..FirstEnd(results)];
    KeptIsEveryNonEmptyRead(shown);
    assert FixedRerunTranscript(Ok(s), None, results, None)[1..] == Kept(shown);
  }

  /**
   * A read that fails at `k`, before the output ends, stops the re-run there: after the header
   * come the non-empty lines read before `k`, stripped and in order, and the last line is
   * `Error running tests: ` with the failure's message. A failure after the end of output
   * changes nothing.
   */
  lemma ReadErrorComesLast(s: Selection, results: seq<Read>, k: nat, e: string)
    ensures k < |results| && k <= FirstEnd(results) ==>
      var log := FixedRerunTranscript(Ok(s), None, results, Some((k, e)));
      var before := results[..k];
        && |log| >= 2
        && log[0] == Header(s.testPath)
        && log[|log| - 1] == RunTestsError(e)
        && LogsReadsAt(before, log[1..|log| - 1], NonEmptyPositions(before))
    ensures !(k < |results| && k <= FirstEnd(results)) ==>
      FixedRerunTranscript(Ok(s), None, results, Some((k, e))) ==
      FixedRerunTranscript(Ok(s), None, results, None)
  {
    if k < |results| && k <= FirstEnd(results) {
      var log := FixedRerunTranscript(Ok(s), None, results, Some((k, e)));
      var before := results[..k];
      assert log == [Header(s.testPath)] + Kept(before) + [RunTestsError(e)];
      assert log[1..|log| - 1] == Kept(before);
      KeptIsEveryNonEmptyRead(before);
    }
  }

  /**
   * `rerun_latest`: select, log, spawn, then read. `running` is the flag as the button finds
   * it; nothing here sets it, so a re-run started while idle reads nothing (the finding above),
   * and with `running` true this is the corrected re-run, `FixedRerunTranscript`.
   * `spawnError` is the exception `Popen` raised, if any, and `readError` the read, if any, at
   * which reading or logging a line raises, with its message. Returns the lines logged and the
   * command handed to `Popen`, if the selection got that far.
   */
  method RerunLatest(root: string, rootExists: bool, dirs: seq<Entry>, modelDirs: seq<string>,
                     testDirs: seq<string>, python: string, running: bool, spawnError: Option<string>,
                     results: seq<Read>, readError: Option<(nat, string)>)
    returns (log: seq<string>, cmd: Option<seq<string>>)
    ensures var selection := SelectLatest(root, rootExists, dirs, modelDirs, testDirs);
      && log == RerunTranscript(selection, spawnError, running, results, readError)
      && (running ==> log == FixedRerunTranscript(selection, spawnError, results, readError))
      && (selection.Err? <==> cmd.None?)
      && (selection.Ok? ==> cmd == Some(RerunCommand(python, selection.value.testPath)))
  {
    var selection := SelectLatest(root, rootExists, dirs, modelDirs, testDirs);
    if selection.Err? {
      return [selection.error], None;
    }
    var testPath := selection.value.testPath;
    log := [Header(testPath)];
    cmd := Some(RerunCommand(python, testPath));
    if spawnError.Some? {
      log := log + [RunTestsError(spawnError.value)];
      return;
    }
    var output, _, raised := ReadOutput(results, running, RaisesAt(readError));
    log := log + output;
    if raised {
      log := log + [RunTestsError(readError.value.1)];
    }
  }
}
