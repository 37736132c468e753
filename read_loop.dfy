/**
 * The loop that streams the child's output into the log pane: it reads one line at a time,
 * logs each non-empty line stripped of surrounding white space, and stops at an empty read
 * once the child has exited.
 */
module ReadLoop {
  import opened Wrappers
  import opened PyStr

  /**
   * One `readline()` result, and whether `poll()` would report the child as exited right
   * after it (the loop asks only when the line is empty).
   */
  datatype Read = Read(line: string, exited: bool)

  /** The read that ends the loop: nothing more to read and the child is gone. */
  predicate EndOfOutput(r: Read)
  {
    r.line == "" && r.exited
  }

  /** The position of the first end-of-output read, or the number of results if there is none. */
  function FirstEnd(results: seq<Read>): (k: nat)
    ensures k <= |results|
    ensures forall j :: 0 <= j < k ==> !EndOfOutput(results[j])
    ensures k < |results| ==> EndOfOutput(results[k])
  {
    if results == [] || EndOfOutput(results[0]) then 0 else 1 + FirstEnd(results[1..])
  }

  /** What one read contributes to the log. */
  function Logged(r: Read): seq<string>
  {
    if r.line != "" then [Strip(r.line)] else []
  }

  /** The stripped non-empty lines among the results, in order. */
  function Kept(results: seq<Read>): seq<string>
  {
    if results == [] then [] else Kept(results[..|results| - 1]) + Logged(results[|results| - 1])
  }

  /** Keeping lines distributes over concatenation of the results. */
  lemma {:induction false} KeptAppend(a: seq<Read>, b: seq<Read>)
    ensures Kept(a + b) == Kept(a) + Kept(b)
    decreases |b|
  {
    if b == [] {
      assert a + b == a;
    } else {
      var init, last := b[..|b| - 1], b[|b| - 1];
      assert (a + b)[..|a + b| - 1] == a + init;
      assert (a + b)[|a + b| - 1] == last;
      assert Kept(a + b) == Kept(a + init) + Logged(last);
      assert Kept(b) == Kept(init) + Logged(last);
      KeptAppend(a, init);
    }
  }

  /** Keeping one more read of a prefix adds what that read logs. */
  lemma KeptStep(results: seq<Read>, n: nat)
    requires n < |results|
    ensures Kept(results[..n + 1]) == Kept(results[..n]) + Logged(results[n])
  {
    assert results[..n + 1][..n] == results[..n];
  }

  /** `idx` lists, in increasing order, the positions of the reads whose stripped lines make up `log`. */
  ghost predicate LogsReadsAt(results: seq<Read>, log: seq<string>, idx: seq<nat>)
  {
    && |idx| == |log|
    && (forall i :: 0 <= i < |idx| ==> idx[i] < |results| && results[idx[i]].line != "" && log[i] == Strip(results[idx[i]].line))
    && (forall i, j :: 0 <= i < j < |idx| ==> idx[i] < idx[j])
    && (forall j :: 0 <= j < |results| && results[j].line != "" ==> j in idx)
  }

  /** The positions of the non-empty reads, in order. */
  ghost function NonEmptyPositions(results: seq<Read>): seq<nat>
  {
    if results == [] then []
    else
      var n := |results| - 1;
      NonEmptyPositions(results[..n]) + (if results[n].line != "" then [n] else [])
  }

  /** One more read extends the log and its positions by that read alone. */
  lemma LogsReadsAtSnoc(init: seq<Read>, log: seq<string>, idx: seq<nat>, r: Read)
    requires LogsReadsAt(init, log, idx)
    ensures LogsReadsAt(init + [r], log + Logged(r), idx + (if r.line != "" then [|init|] else []))
  {
    var results, n := init + [r], |init|;
    var idx', log' := idx + (if r.line != "" then [n] else []), log + Logged(r);
    forall i | 0 <= i < |idx'|
      ensures idx'[i] < |results| && results[idx'[i]].line != "" && log'[i] == Strip(results[idx'[i]].line)
    {
      if i < |idx| {
        assert results[idx[i]] == init[idx[i]];
      }
    }
    forall j | 0 <= j < |results| && results[j].line != ""
      ensures j in idx'
    {
      if j < n {
        assert init[j] == results[j];
        var i :| 0 <= i < |idx| && idx[i] == j;
        assert idx'[i] == j;
      } else {
        assert idx'[|idx|] == j;
      }
    }
  }

  /** Nothing is reordered, dropped or invented: the log is every non-empty read, stripped, in order. */
  lemma {:induction false} KeptIsEveryNonEmptyRead(results: seq<Read>)
    ensures LogsReadsAt(results, Kept(results), NonEmptyPositions(results))
  {
    if results != [] {
      var n := |results| - 1;
      var init := results[..n];
      KeptIsEveryNonEmptyRead(init);
      LogsReadsAtSnoc(init, Kept(init), NonEmptyPositions(init), results[n]);
      assert init + [results[n]] == results;
    }
  }

  /** After the end-of-output read nothing more is logged, however many results would follow. */
  lemma NothingAfterEnd(before: seq<Read>, last: Read, after: seq<Read>)
    requires forall j :: 0 <= j < |before| ==> !EndOfOutput(before[j])
    requires EndOfOutput(last)
    ensures var results := before + [last] + after;
      FirstEnd(results) == |before| && Kept(results[..FirstEnd(results)]) == Kept(before)
  {
    var results := before + [last] + after;
    assert results[..|before|] == before;
    assert forall j :: 0 <= j < |before| ==> results[j] == before[j];
    assert results[|before|] == last;
  }

  /** A blank output line is still logged, as an empty line. */
  lemma BlankLineLoggedEmpty(r: Read)
    requires r.line != "" && forall i :: 0 <= i < |r.line| ==> IsSpace(r.line[i])
    ensures Kept([r]) == [""]
  {
    var s := Strip(r.line);
    assert [r][..0] == [];
    assert s == [] by {
      StripTrims(r.line);
      var i :| TrimmedAt(r.line, s, i);
    }
  }

  /**
   * Reading result `raisesAt` (its `readline()`, or logging its line) raises, and the loop gets
   * that far: the position lies among the results and not after the end-of-output read.
   */
  predicate RaisesBeforeEnd(results: seq<Read>, raisesAt: Option<nat>)
  {
    raisesAt.Some? && raisesAt.value < |results| && raisesAt.value <= FirstEnd(results)
  }

  /** How many results the loop logs from: up to the raising read, or up to the end of output. */
  function LoggedUpTo(results: seq<Read>, raisesAt: Option<nat>): (k: nat)
    ensures k <= FirstEnd(results) && k <= |results|
  {
    if RaisesBeforeEnd(results, raisesAt) then raisesAt.value else FirstEnd(results)
  }

  /**
   * `while self.running and self.process: ...` over the results the child produces; `running`
   * is the flag as the loop finds it (nothing clears it during the loop here), and `raisesAt`
   * the result, if any, whose reading or logging raises and so leaves the loop for the
   * enclosing `except`. Returns the lines passed to `log_output`, how many reads completed,
   * and whether the loop was left by that exception.
   */
  method ReadOutput(results: seq<Read>, running: bool, raisesAt: Option<nat>)
    returns (log: seq<string>, consumed: nat, raised: bool)
    ensures !running ==> log == [] && consumed == 0 && !raised
    ensures running ==> raised == RaisesBeforeEnd(results, raisesAt)
    ensures running ==> log == Kept(results[..LoggedUpTo(results, raisesAt)])
    ensures running && raised ==> consumed == raisesAt.value
    ensures running && !raised ==>
      consumed == if FirstEnd(results) < |results| then FirstEnd(results) + 1 else |results|
  {
    log, consumed, raised := [], 0, false;
    if !running {
      return;
    }
    ghost var end := FirstEnd(results);
    while consumed < |results|
      invariant consumed <= end
      invariant raisesAt.Some? ==> consumed <= raisesAt.value
      invariant log == Kept(results[..consumed])
    {
      if raisesAt.Some? && raisesAt.value == consumed {
        assert RaisesBeforeEnd(results, raisesAt);
        return log, consumed, true;
      }
      var r := results[consumed];
      KeptStep(results, consumed);
      consumed := consumed + 1;
      if r.line == "" && r.exited {
        assert consumed - 1 == end;
        assert !RaisesBeforeEnd(results, raisesAt);
        return;
      }
      if r.line != "" {
        log := log + [Strip(r.line)];
      }
    }
    assert end == |results|;
  }
}
