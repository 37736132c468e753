/**
 * How the GUI's own status and error lines come out in the log pane. They go through the
 * same tagging as the child's output, and the error lines do not carry the `error:` prefix
 * the error tag asks for.
 */
module Messages {
  import opened PyStr
  import opened Highlight
  import opened Rerun

  /** The line `run_benchmark_thread` logs when the run raises `e`: a newline, then `Error: `. */
  function BenchmarkError(e: string): string
  {
    "\nError: " + e
  }

  /**
   * A line whose first character is none of `e`, `i`, `r`, `w` in either case matches no prefix
   * rule: it is a success if it holds a success word, and otherwise code or untagged.
   */
  lemma UnprefixedLine(line: string)
    requires line != []
    requires var c := LowerChar(line[0]); c != 'e' && c != 'i' && c != 'r' && c != 'w'
    ensures Classify(line) == if SuccessRule(Lower(line)) then Success else if HasCodeChar(line) then Code else Plain
  {
    var low := Lower(line);
    assert low[0] == LowerChar(line[0]);
    FirstCharRulesOut(low, ["error:", "exception:"]);
    FirstCharRulesOut(low, ["info:", "running:"]);
    FirstCharRulesOut(low, ["warning:", "warn:"]);
    ClassifyCases(line);
  }

  /** A line starts with none of the prefixes when its first character begins none of them. */
  lemma FirstCharRulesOut(low: string, prefixes: seq<string>)
    requires low != []
    requires forall k :: 0 <= k < |prefixes| ==> prefixes[k] != [] && prefixes[k][0] != low[0]
    ensures !StartsWithAny(low, prefixes)
  {
    forall k | 0 <= k < |prefixes|
      ensures !StartsWith(low, prefixes[k])
    {
      var p := prefixes[k];
      assert |p| <= |low| ==> low[..|p|][0] == low[0];
    }
  }

  /**
   * A `rerun_latest` selection failure is never tagged as an error: it starts with `No`, so it
   * is tagged only if it holds a success word or one of `{}[]()=`.
   */
  lemma SelectionMessageIsNotTaggedError(m: string)
    requires m == NoBenchmarksFound || m == NoModelDirectories || m == NoTestDirectories
    ensures Classify(m) == if SuccessRule(Lower(m)) then Success else if HasCodeChar(m) then Code else Plain
  {
    assert m[0] == 'N';
    UnprefixedLine(m);
  }

  /** A prefix free of `{}[]()=` leaves the code test to what follows it. */
  lemma CodeCharsAfterPrefix(prefix: string, e: string)
    requires forall i :: 0 <= i < |prefix| ==> prefix[i] !in CodeChars
    ensures HasCodeChar(prefix + e) <==> HasCodeChar(e)
  {
    var line := prefix + e;
    if HasCodeChar(e) {
      var j :| 0 <= j < |e| && e[j] in CodeChars;
      assert line[|prefix| + j] == e[j];
    }
    if HasCodeChar(line) {
      var i :| 0 <= i < |line| && line[i] in CodeChars;
      assert i >= |prefix|;
      assert e[i - |prefix|] == line[i];
    }
  }

  /**
   * The line logged when the tests cannot be run is never tagged as an error: `error ` is not
   * `error:`. It is a success if the message holds a success word, and otherwise it goes to the
   * code highlighter exactly when the message holds one of `{}[]()=`, as `[Errno 2] ...` does.
   */
  lemma RunTestsErrorIsNotTaggedError(e: string)
    ensures var line := RunTestsError(e);
      Classify(line) == if SuccessRule(Lower(line)) then Success else if HasCodeChar(e) then Code else Plain
  {
    var prefix := "Error running tests: ";
    var line := prefix + e;
    var low := Lower(line);
    assert low[0] == 'e' && low[1] == 'r' && low[5] == ' ' by {
      assert line[0] == 'E' && line[1] == 'r' && line[5] == ' ';
    }
    assert !ErrorRule(low) by {
      var errors := ["error:", "exception:"];
      assert |errors[0]| <= |low| ==> low[..|errors[0]|][5] != errors[0][5];
      assert |errors[1]| <= |low| ==> low[..|errors[1]|][1] != errors[1][1];
    }
    assert !InfoRule(low) by {
      var infos := ["info:", "running:"];
      assert low[0] != infos[0][0] && low[0] != infos[1][0];
    }
    assert !WarningRule(low) by {
      var warnings := ["warning:", "warn:"];
      assert low[0] != warnings[0][0] && low[0] != warnings[1][0];
    }
    CodeCharsAfterPrefix(prefix, e);
    ClassifyCases(line);
  }

  /**
   * The line logged when a benchmark run fails is never tagged as an error: it starts with a
   * newline, so no prefix rule applies. It is a success if the message holds a success word,
   * and otherwise code exactly when the message holds one of `{}[]()=`.
   */
  lemma BenchmarkErrorIsNotTaggedError(e: string)
    ensures var line := BenchmarkError(e);
      Classify(line) == if SuccessRule(Lower(line)) then Success else if HasCodeChar(e) then Code else Plain
  {
    var prefix := "\nError: ";
    assert BenchmarkError(e)[0] == '\n';
    UnprefixedLine(BenchmarkError(e));
    CodeCharsAfterPrefix(prefix, e);
  }
}
