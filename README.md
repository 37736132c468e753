# Benchmark runner GUI: model of its line, command and directory logic

The benchmark runner is a desktop front end (`benchmark_gui.py`). It takes a test path, a model
name, an edit format and a thread count. It starts the benchmark script as a child process and
streams the child's output into a log pane, where each line is tagged for colouring. A
"Re-run Latest" button finds the newest results directory and re-runs the tests kept there.

This Dafny project models the deterministic logic inside that file:

- `Highlight`: how `insert_with_highlighting` tags a log line. Tags are `error`, `success`,
  `info`, `warning`, `code` and untagged. The module also models what inserting a line appends to
  the pane (class `OutputPane`). The rule chain is proved to agree with an ordered rule list, `TagRules`.
- `RunRequest`: the run name, the benchmark command line, and the environment handed to the child.
- `ReadLoop`: the loop that reads the child's output line by line (method `ReadOutput`). It is
  specified against the functions `FirstEnd` and `Kept`.
- `Rerun`: the directory selection of `rerun_latest`, its test command and the lines it logs.
- `Messages`: how the GUI's own status and error lines are tagged.
- `PyStr`: the Python string built-ins these rely on. These are `lower`, `startswith`, `in`,
  `strip`, and `posixpath.basename` / `join`.
- `Wrappers`: `Option` and `Result` (`Ok` or `Err`).

The intended behaviour of the GUI differs from its code in the following places. The model
follows the code:

- The tag rules are meant to be tried as error, warning, success, info. The code tries error,
  then success, then info, then warning. So `warning: completed` is a success
  (`Highlight.SuccessOutranksLaterRules`).
- The code adds a fallback: an untagged line holding one of `{}[]()=` goes to the code
  highlighter.
- Every failure is meant to be logged with the error tag. The GUI's own failure lines go
  through the same tagging as the child's output, and none of them gets the error tag:
  - The selection failures of `rerun_latest` start with `No` (`Messages.SelectionMessageIsNotTaggedError`).
  - `Error running tests: ...` has a space where the rule wants `error:` (`Messages.RunTestsErrorIsNotTaggedError`).
  - `\nError: ...` starts with a newline (`Messages.BenchmarkErrorIsNotTaggedError`).
  
  A message such as `[Errno 2] ...` even sends the line to the code highlighter.
- A second run is meant to be refused with an "already running" error. The code has no such
  error. `run_benchmark` disables the Run button (281-282), but the Re-run button stays enabled
  during a benchmark run. So a re-run can spawn a second child and overwrite `self.process`
  (433). The cancel is `stop_benchmark` (385-389). It is left out, see below.

## Model

| member | source | states |
|---|---|---|
| `PyStr.Lower` | benchmark_gui.py:103 | `lower()` keeps the length and lower-cases each character in place |
| `PyStr.Contains` | benchmark_gui.py:105 | the `in` test is true exactly when the word occurs at some position of the line |
| `PyStr.StripTrims` | benchmark_gui.py:360 | `strip()` gives a slice of the line. Everything cut off on either side is white space, and the result neither starts nor ends with white space |
| `PyStr.StripLeadingTrims` | benchmark_gui.py:360 | the leading half of `strip()` keeps the longest suffix that does not start with white space |
| `PyStr.StripTrailingTrims` | benchmark_gui.py:360 | the trailing half of `strip()` keeps the longest prefix that does not end with white space |
| `PyStr.Basename` | benchmark_gui.py:302 | `basename` is the suffix after the last `/`: it is a suffix, holds no `/`, and is preceded by `/` unless it is the whole path |
| `PyStr.BasenameAfterSlash` | benchmark_gui.py:302 | a name without `/` that follows a directory part ending in `/` is its own basename |
| `PyStr.BasenameOfJoin` | benchmark_gui.py:414-420 | joining a listed directory name onto a path and taking the basename gives the name back |
| `Highlight.ClassifyCases` | benchmark_gui.py:102-115 | each tag is given exactly when its rule holds on the lower-cased line and no earlier rule does, in the order error, success, info, warning, then code or untagged |
| `Highlight.FirstMatch` | benchmark_gui.py:103-110 | the rule list gives no tag exactly when no rule holds; otherwise it gives the tag of the first rule that holds |
| `Highlight.ClassifyAgreesWithRuleList` | benchmark_gui.py:103-115 | the chain of conditionals classifies every line as the ordered rule list `TagRules` does |
| `Highlight.ErrorPrefixWins` | benchmark_gui.py:103-104 | a line starting with `error:` or `exception:`, in any letter case, is an error whatever follows |
| `Highlight.SuccessWordWins` | benchmark_gui.py:105-110 | a line with no error prefix that holds `success` or `completed`, in any case and at any position, is a success, whatever its prefix |
| `Highlight.SuccessOutranksLaterRules` | benchmark_gui.py:105-110 | a line starting with `info:`, `running:`, `warning:` or `warn:`, in any case, that holds `success` or `completed` is tagged success, not info or warning. Examples are `warning: completed` and `INFO: Success` |
| `Highlight.ErrorSuccessIsError` | benchmark_gui.py:103-106 | `Error: success` is tagged error, not success |
| `Highlight.WarningPrefixRule` | benchmark_gui.py:103-110 | a line starting with `warning:` or `warn:`, in any case, is a warning exactly when it holds neither `success` nor `completed` |
| `Highlight.AssignmentIsCode` | benchmark_gui.py:111-113 | example: the line `x = f(y)` matches no tag rule and holds `=` and brackets, so it goes to the code highlighter |
| `Highlight.StatusLineIsPlain` | benchmark_gui.py:114-115 | example: the line `OK` matches no rule and holds none of `{}[]()=`, so it is inserted untagged |
| `Highlight.LowerKeepsCodeChars` | benchmark_gui.py:112 | lower-casing neither removes nor creates any of the characters `{}[]()=` |
| `Highlight.ClassifyIgnoresCase` | benchmark_gui.py:103-112 | two lines that agree up to letter case get the same tag |
| `Highlight.TranscriptAppend` | benchmark_gui.py:102-117 | the pane only appends: logging one batch of lines and then another shows the first batch's transcript followed, unchanged, by the second's |
| `Highlight.TranscriptShape` | benchmark_gui.py:102-117 | after logging n lines the pane holds 2n segments. Segment 2i is line i under its tag, and segment 2i+1 is one untagged newline |
| `Highlight.OutputPane.constructor` | benchmark_gui.py:32 | a new pane is empty |
| `Highlight.OutputPane.InsertWithHighlighting` | benchmark_gui.py:102-118 | the pane gains the line under its tag, then exactly one newline, and nothing else changes |
| `Highlight.OutputPane.Clear` | benchmark_gui.py:123-124 | deleting from `1.0` to `end` empties the pane |
| `RunRequest.RunName` | benchmark_gui.py:299-303 | the name is the timestamp and `--`, then the basename and `-` only when the path is not `all`, then model, `-`, format |
| `RunRequest.ScenarioRunName` | benchmark_gui.py:299-303 | example: test `say` (or `exercises/practice/say`), model `m1` and format `diff` at `2024-01-01-00-00-00` give `2024-01-01-00-00-00--say-m1-diff` |
| `RunRequest.TrailingSlashEmptiesTestName` | benchmark_gui.py:302 | a test path ending in `/` has an empty test name, so the run name holds `---` |
| `RunRequest.BenchmarkCommand` | benchmark_gui.py:330-340 | the command always starts with the nine fixed items. It has 11 items, ending `--keywords <basename>`, exactly when the path is not `all`, and 9 otherwise |
| `RunRequest.KeywordNamesTheRun` | benchmark_gui.py:299-340 | the command passes the run name as its third item, and its keyword is the test name inside the run name |
| `RunRequest.ChildEnv` | benchmark_gui.py:314-321 | the child's variables are the parent's plus the overlay keys. `AIDER_BENCHMARK_DIR` and `AIDER_RUN_LOCALLY=true` are always set, and `PYTHONIOENCODING=utf-8` and `PYTHONUTF8=1` only on Windows. Every other variable is inherited unchanged |
| `RunRequest.ChildEnvIdempotent` | benchmark_gui.py:314-321 | applying the overlay to its own result changes nothing |
| `ReadLoop.FirstEnd` | benchmark_gui.py:357-358 | this is the position of the first empty read made after the child exited, or the number of reads if there is none |
| `ReadLoop.KeptAppend` | benchmark_gui.py:359-360 | what a run of reads logs is what its first part logs followed by what the rest logs |
| `ReadLoop.KeptIsEveryNonEmptyRead` | benchmark_gui.py:355-360 | the log is exactly the non-empty reads, stripped, in their order. Nothing is dropped, reordered or invented |
| `ReadLoop.NothingAfterEnd` | benchmark_gui.py:357-358 | once an empty read finds the child exited, nothing read after it is logged |
| `ReadLoop.BlankLineLoggedEmpty` | benchmark_gui.py:359-360 | a line of white space only is still logged, as an empty line |
| `ReadLoop.ReadOutput` | benchmark_gui.py:355-360 | with the flag clear it reads and logs nothing. With the flag set it logs the kept lines before the first end-of-output read and stops right after that read, unless a read at or before that point raises. Then it reports the exception, has logged exactly the kept lines before the raising read, and has completed exactly the reads before it |
| `Rerun.Latest` | benchmark_gui.py:405 | the chosen entry's ctime is at least every entry's, and no earlier entry has the same ctime |
| `Rerun.SelectLatest` | benchmark_gui.py:393-420 | an absent or empty root gives "No previous benchmarks found". An empty model list gives "No model directories found" and an empty test list "No test directories found". Otherwise the newest run directory and entry 0 of each list are chosen, joined into the test path |
| `Rerun.SelectedPathNamesTestDir` | benchmark_gui.py:414-420 | the chosen test path ends in the chosen test directory's name |
| `Rerun.IdleRerunDropsTestOutput` | benchmark_gui.py:443-448 | as written, a re-run started while idle logs only its header line, even when the tests print output |
| `Rerun.FixedRerunShowsTestOutput` | benchmark_gui.py:443-448 | with the flag set and no read failing, the re-run logs its header and then every non-empty test output line, stripped and in order |
| `Rerun.ReadErrorComesLast` | benchmark_gui.py:429-451 | a read or log call that raises at read k, before the output ends, stops the re-run there: after the header come the non-empty lines read before k, stripped and in order, and the last line is `Error running tests: <e>`. A failure after the end of output changes nothing |
| `Rerun.RerunLatest` | benchmark_gui.py:391-459 | the re-run logs the selection error, or the header followed by the spawn error, or by what the read loop logs with the flag as the button finds it and then `Error running tests: <e>` if a read raised (`RerunTranscript`, the code as written). With the flag set this is the corrected re-run, `FixedRerunTranscript`. It hands the discovery command to the process exactly when the selection succeeded |
| `Messages.SelectionMessageIsNotTaggedError` | benchmark_gui.py:393-418 | the three selection failures start with `No`, so no prefix rule applies. Each is a success if it holds a success word, and otherwise code or untagged. It is never an error |
| `Messages.RunTestsErrorIsNotTaggedError` | benchmark_gui.py:450-451 | `Error running tests: <e>` is never an error, because `error ` is not `error:`. It is a success if it holds a success word. Otherwise it is code exactly when `e` holds one of `{}[]()=`, and untagged when it holds none |
| `Messages.BenchmarkErrorIsNotTaggedError` | benchmark_gui.py:377-378 | `\nError: <e>` starts with a newline, so it is never an error. It is a success if it holds a success word. Otherwise it is code exactly when `e` holds one of `{}[]()=`, and untagged when it holds none |

## Findings

| source | as written | input that shows it | evidently intended | confidence | as-written member | corrected member |
|---|---|---|---|---|---|---|
| benchmark_gui.py:443-448 | `rerun_latest` never sets `self.running`, and the flag is false whenever no benchmark runs, so its read loop never starts | press "Re-run Latest" while idle. The tests print `OK` and exit, yet the log holds only `Re-running tests in: <path>` | the test output is streamed as for a benchmark run, with the flag set before the loop | high; not executed | `Rerun.IdleRerunDropsTestOutput` | `Rerun.FixedRerunShowsTestOutput` |

`Rerun.RerunTranscript` is the code as written, with the flag as a parameter.
`Rerun.FixedRerunTranscript` is the corrected definition: the same with the flag set.
`Rerun.RerunLatest` takes the flag as the button finds it. Its log is `RerunTranscript`, and with
the flag set it is `FixedRerunTranscript`. Both include the failure path of the `try` at 429-451:
a read that raises ends the log with `Error running tests: <e>`.

## Left out

- The widget side is not modelled. This covers Tk/customtkinter construction, layout, colours,
  `configure` forwarding, `see`, `get` and button states. It is user interface only.
- The code highlighter (Pygments `guess_lexer` and tokenising) is a foreign library. A `Code`
  segment stands for the tokens it inserts. Their token tags are not modelled, nor any newline
  the lexer itself appends.
- PyStr.Lower: lower-cases the ASCII letters only. Python's full Unicode case mapping, which
  can change a string's length, is not modelled.
- PyStr.Basename: POSIX rules only, and the same holds for `PyStr.Join`. On Windows, `ntpath`
  also splits on `\` and drive letters, and `ntpath.join` inserts `\`.
- The subprocess calls (`Popen`, `readline`, `poll`, `terminate`, `subprocess.run`) are inputs.
  They appear as the sequence of reads (`Read`), the spawn error, and the read, if any, at which
  `readline`, `poll` or `log_output` raises, with its message.
- ReadLoop.ReadOutput: the reads are a finite sequence. If they end without an
  end-of-output read the loop stops, where the real loop would wait on `readline`.
- The worker thread, `stop_benchmark` (385-389), a re-run started during a benchmark run, and
  the `running`/`process` flags changed from another thread are concurrency. The `finally`
  clauses that clear the flags (379-383, 453-459) are not modelled either. A flag cleared during the loop is not modelled.
- `run_benchmark_thread`'s own sequencing is not modelled. This covers its status lines
  (305-308), the script-existence check (324-327), the stats post-step (362-375) and the error
  report and clean-up (377-383). These are I/O ordering around the pieces modelled here.
- `validate_inputs` (227-271) is not modelled. It is filesystem checks, a dialog and a
  repository clone.
- The timestamp (`datetime.now().strftime`) is a parameter. So are the paths derived from
  `__file__` (the results root, the script, the benchmark directory) and the Python executable.
- The parent environment (after `load_dotenv` and the module-level Windows set-up at 21-24) is
  a parameter.
- Rerun.SelectLatest: `os.listdir` and `getctime` (399-415) are called outside any `try`. When
  they raise, `rerun_latest` logs nothing and the exception escapes. This happens, for example,
  when the results root is a regular file, a directory vanishes, or permission is denied. The
  model always returns a result and has no such path.
- `os.listdir`, `os.path.isdir`, `os.path.exists` and `getctime` are inputs. The lists hold
  directories only, in listing order. Creation times are reals.
