/**
 * The log pane of the benchmark GUI (`SyntaxHighlightingText`): how one line of output is
 * tagged, and what inserting it appends to the pane.
 */
module Highlight {
  import opened Wrappers
  import opened PyStr

  /** The text tags of the pane; `Plain` is text inserted without a tag. */
  datatype Tag = Error | Success | Info | Warning | Code | Plain

  /** The characters whose presence sends an untagged line to the code highlighter. */
  const CodeChars: string := "{}[]()="

  predicate HasCodeChar(text: string)
  {
    exists i | 0 <= i < |text| :: text[i] in CodeChars
  }

  /** `s.startswith(prefixes)` with a tuple of prefixes. */
  predicate StartsWithAny(s: string, prefixes: seq<string>)
  {
    exists i | 0 <= i < |prefixes| :: StartsWith(s, prefixes[i])
  }

  /** The tag `insert_with_highlighting` gives a line, its rules tried in the code's order. */
  function Classify(text: string): Tag
  {
    var low := Lower(text);
    if StartsWithAny(low, ["error:", "exception:"]) then Error
    else if Contains(low, "success") || Contains(low, "completed") then Success
    else if StartsWithAny(low, ["info:", "running:"]) then Info
    else if StartsWithAny(low, ["warning:", "warn:"]) then Warning
    else if HasCodeChar(text) then Code
    else Plain
  }

  /** The line's lower-cased form starts with an error prefix. */
  predicate ErrorRule(low: string) { StartsWithAny(low, ["error:", "exception:"]) }
  predicate SuccessRule(low: string) { Contains(low, "success") || Contains(low, "completed") }
  predicate InfoRule(low: string) { StartsWithAny(low, ["info:", "running:"]) }
  predicate WarningRule(low: string) { StartsWithAny(low, ["warning:", "warn:"]) }

  /** Each tag is given exactly when its rule holds and no earlier rule does. */
  lemma ClassifyCases(text: string)
    ensures var low := Lower(text);
      && (Classify(text) == Error <==> ErrorRule(low))
      && (Classify(text) == Success <==> !ErrorRule(low) && SuccessRule(low))
      && (Classify(text) == Info <==> !ErrorRule(low) && !SuccessRule(low) && InfoRule(low))
      && (Classify(text) == Warning <==> !ErrorRule(low) && !SuccessRule(low) && !InfoRule(low) && WarningRule(low))
      && (Classify(text) == Code <==>
            !ErrorRule(low) && !SuccessRule(low) && !InfoRule(low) && !WarningRule(low) && HasCodeChar(text))
      && (Classify(text) == Plain <==>
            !ErrorRule(low) && !SuccessRule(low) && !InfoRule(low) && !WarningRule(low) && !HasCodeChar(text))
  {
  }

  // The same rules as data: an ordered list of (test on the lower-cased line, tag).

  datatype Rule = AnyPrefix(prefixes: seq<string>) | AnyWord(words: seq<string>)

  predicate Holds(rule: Rule, low: string)
  {
    match rule
    case AnyPrefix(ps) => exists i | 0 <= i < |ps| :: StartsWith(low, ps[i])
    case AnyWord(ws) => exists i | 0 <= i < |ws| :: Contains(low, ws[i])
  }

  const TagRules: seq<(Rule, Tag)> := [
    (AnyPrefix(["error:", "exception:"]), Error),
    (AnyWord(["success", "completed"]), Success),
    (AnyPrefix(["info:", "running:"]), Info),
    (AnyPrefix(["warning:", "warn:"]), Warning)
  ]

  /** The tag of the first rule that holds, if any. */
  function FirstMatch(rules: seq<(Rule, Tag)>, low: string): (r: Option<Tag>)
    ensures r.None? <==> forall k :: 0 <= k < |rules| ==> !Holds(rules[k].0, low)
    ensures r.Some? ==> exists k :: 0 <= k < |rules| && Holds(rules[k].0, low) && r.value == rules[k].1
                                   && forall j :: 0 <= j < k ==> !Holds(rules[j].0, low)
  {
    if rules == [] then None
    else if Holds(rules[0].0, low) then Some(rules[0].1)
    else
      var r := FirstMatch(rules[1..], low);
      assert forall k :: 1 <= k < |rules| ==> rules[k] == rules[1..][k - 1];
      r
  }

  /** Classification by the rule list, falling back on the code test. */
  function ClassifyByRules(text: string): Tag
  {
    match FirstMatch(TagRules, Lower(text))
    case Some(t) => t
    case None => if HasCodeChar(text) then Code else Plain
  }

  /** The chain of conditionals and the ordered rule list classify every line alike. */
  lemma ClassifyAgreesWithRuleList(text: string)
    ensures Classify(text) == ClassifyByRules(text)
  {
    var low := Lower(text);
    var errors, infos, warnings := ["error:", "exception:"], ["info:", "running:"], ["warning:", "warn:"];
    var ws := ["success", "completed"];
    assert Holds(AnyWord(ws), low) <==> Contains(low, "success") || Contains(low, "completed") by {
      if Holds(AnyWord(ws), low) {
        var i :| 0 <= i < |ws| && Contains(low, ws[i]);
        assert i == 0 || i == 1;
      }
      if Contains(low, "success") { assert Contains(low, ws[0]); }
      if Contains(low, "completed") { assert Contains(low, ws[1]); }
    }
    var r1 := TagRules[1..];
    var r2 := r1[1..];
    var r3 := r2[1..];
    assert TagRules[0] == (AnyPrefix(errors), Error);
    assert r1[0] == (AnyWord(ws), Success);
    assert r2[0] == (AnyPrefix(infos), Info);
    assert r3 == [(AnyPrefix(warnings), Warning)];
    if !StartsWithAny(low, errors) {
      assert FirstMatch(TagRules, low) == FirstMatch(r1, low);
      if !Holds(AnyWord(ws), low) {
        assert FirstMatch(r1, low) == FirstMatch(r2, low);
        if !StartsWithAny(low, infos) {
          assert FirstMatch(r2, low) == FirstMatch(r3, low);
          assert r3[1..] == [];
        }
      }
    }
  }

  /** Whatever follows it, a line that starts with `error:` or `exception:` in any case is an error. */
  lemma ErrorPrefixWins(prefix: string, rest: string)
    requires Lower(prefix) == "error:" || Lower(prefix) == "exception:"
    ensures Classify(prefix + rest) == Error
  {
    var low := Lower(prefix + rest);
    assert low[..|prefix|] == Lower(prefix);
    if Lower(prefix) == "error:" {
      assert StartsWith(low, ["error:", "exception:"][0]);
    } else {
      assert StartsWith(low, ["error:", "exception:"][1]);
    }
  }

  /**
   * A line that is not an error and holds `success` or `completed` in any case is a success,
   * even when it starts with `info:`, `running:`, `warning:` or `warn:`.
   */
  lemma SuccessWordWins(before: string, word: string, after: string)
    requires Lower(word) == "success" || Lower(word) == "completed"
    requires !StartsWithAny(Lower(before + word + after), ["error:", "exception:"])
    ensures Classify(before + word + after) == Success
  {
    var low := Lower(before + word + after);
    assert low[|before|..|before| + |word|] == Lower(word);
    assert OccursAt(low, Lower(word), |before|);
  }

  /**
   * The success rule outranks the info and warning rules: a line that starts with `info:`,
   * `running:`, `warning:` or `warn:` in any case and holds `success` or `completed` is a
   * success (`warning: completed`, `INFO: Success`).
   */
  lemma SuccessOutranksLaterRules(prefix: string, middle: string, word: string, after: string)
    requires Lower(prefix) in ["info:", "running:", "warning:", "warn:"]
    requires Lower(word) == "success" || Lower(word) == "completed"
    ensures Classify(prefix + middle + word + after) == Success
  {
    var line := prefix + middle + word + after;
    assert !ErrorRule(Lower(line)) by {
      assert line[0] == prefix[0];
      NoErrorPrefix(line);
    }
    SuccessWordWins(prefix + middle, word, after);
  }

  /**
   * A line that starts with `warning:` or `warn:` in any case is a warning exactly when it
   * holds neither `success` nor `completed`.
   */
  lemma WarningPrefixRule(prefix: string, rest: string)
    requires Lower(prefix) == "warning:" || Lower(prefix) == "warn:"
    ensures Classify(prefix + rest) == Warning <==> !SuccessRule(Lower(prefix + rest))
  {
    var line := prefix + rest;
    var low := Lower(line);
    assert low[..|prefix|] == Lower(prefix);
    assert low[0] == 'w';
    assert !ErrorRule(low) by { NoErrorPrefix(line); }
    assert !InfoRule(low) by {
      var infos := ["info:", "running:"];
      assert low[0] != infos[0][0] && low[0] != infos[1][0];
    }
    assert WarningRule(low) by {
      var warnings := ["warning:", "warn:"];
      if Lower(prefix) == "warning:" {
        assert StartsWith(low, warnings[0]);
      } else {
        assert StartsWith(low, warnings[1]);
      }
    }
    ClassifyCases(line);
  }

  /** A line whose first letter is not `e` in either case has no error prefix. */
  lemma NoErrorPrefix(t: string)
    requires t != [] && t[0] != 'e' && t[0] != 'E'
    ensures !ErrorRule(Lower(t))
  {
    var low := Lower(t);
    assert low[0] == LowerChar(t[0]) != 'e';
    forall i | 0 <= i < 2
      ensures !StartsWith(low, ["error:", "exception:"][i])
    {
      var p := ["error:", "exception:"][i];
      assert p[0] == 'e';
      assert |p| <= |low| ==> low[..|p|][0] != p[0];
    }
  }

  /** The error rule outranks the success rule: `Error: success` is an error. */
  lemma ErrorSuccessIsError(t: string)
    requires t == "Error: success"
    ensures Classify(t) == Error
  {
    assert t == "Error:" + " success";
    ErrorPrefixWins("Error:", " success");
  }

  /** The line `x = f(y)` matches no tag rule and holds `=`, so it goes to the code highlighter. */
  lemma AssignmentIsCode(t: string)
    requires t == "x = f(y)"
    ensures Classify(t) == Code
  {
    assert Lower(t) == "x = f(y)";
    assert t[2] in CodeChars;
  }

  /** The line `OK` matches no tag rule and holds no code character, so it is inserted untagged. */
  lemma StatusLineIsPlain(t: string)
    requires t == "OK"
    ensures Classify(t) == Plain
  {
    assert Lower(t) == "ok";
  }

  /** Lower-casing changes no character of `{}[]()=` and makes none of them. */
  lemma LowerKeepsCodeChars(text: string)
    ensures HasCodeChar(Lower(text)) <==> HasCodeChar(text)
  {
    var low := Lower(text);
    forall i | 0 <= i < |text|
      ensures low[i] in CodeChars <==> text[i] in CodeChars
    {
      LowerCharKeepsCodeChar(text[i]);
    }
  }

  /** `LowerChar` maps a character of `{}[]()=` to itself and no other character into that set. */
  lemma LowerCharKeepsCodeChar(c: char)
    ensures LowerChar(c) in CodeChars <==> c in CodeChars
  {
    if 'A' <= c <= 'Z' {
      assert forall k :: 0 <= k < |CodeChars| ==> !('a' <= CodeChars[k] <= 'z');
    }
  }

  /** The tag depends on the line only up to letter case. */
  lemma ClassifyIgnoresCase(a: string, b: string)
    requires Lower(a) == Lower(b)
    ensures Classify(a) == Classify(b)
  {
    assert HasCodeChar(a) == HasCodeChar(b) by {
      LowerKeepsCodeChars(a);
      LowerKeepsCodeChars(b);
    }
  }

  /** One inserted stretch of text and its tag. */
  datatype Segment = Segment(text: string, tag: Tag)

  const Newline := Segment("\n", Plain)

  /**
   * What `insert_with_highlighting` appends: the line under its tag, then one newline.
   * A `Code` segment stands for the tokens the code highlighter inserts for the line.
   */
  function Render(text: string): seq<Segment>
  {
    [Segment(text, Classify(text)), Newline]
  }

  /** What a pane shows after the given lines were logged into it, from empty. */
  function Transcript(lines: seq<string>): seq<Segment>
  {
    if lines == [] then [] else Transcript(lines[..|lines| - 1]) + Render(lines[|lines| - 1])
  }

  /**
   * The pane only ever appends: logging `a` and then `b` shows `a`'s transcript followed,
   * unchanged, by `b`'s.
   */
  lemma {:induction false} TranscriptAppend(a: seq<string>, b: seq<string>)
    ensures Transcript(a + b) == Transcript(a) + Transcript(b)
    decreases |b|
  {
    if b == [] {
      assert a + b == a;
    } else {
      var init, last := b[..|b| - 1], b[|b| - 1];
      assert (a + b)[..|a + b| - 1] == a + init;
      assert (a + b)[|a + b| - 1] == last;
      TranscriptAppend(a, init);
    }
  }

  /** Every logged line appears under its own tag, in order, each followed by exactly one newline. */
  lemma {:induction false} TranscriptShape(lines: seq<string>)
    ensures |Transcript(lines)| == 2 * |lines|
    ensures forall i :: 0 <= i < |lines| ==>
      Transcript(lines)[2 * i] == Segment(lines[i], Classify(lines[i])) && Transcript(lines)[2 * i + 1] == Newline
  {
    if lines != [] {
      var n := |lines| - 1;
      var init := lines[..n];
      TranscriptShape(init);
      var t, before := Transcript(lines), Transcript(init);
      assert t == before + Render(lines[n]);
      forall i | 0 <= i < |lines|
        ensures t[2 * i] == Segment(lines[i], Classify(lines[i])) && t[2 * i + 1] == Newline
      {
        if i < n {
          assert lines[i] == init[i];
          assert t[2 * i] == before[2 * i] && t[2 * i + 1] == before[2 * i + 1];
        } else {
          assert t[2 * i] == Render(lines[n])[0] && t[2 * i + 1] == Render(lines[n])[1];
        }
      }
    }
  }

  /** The text widget of the log pane, as the sequence of tagged stretches it holds. */
  class OutputPane {
    var segments: seq<Segment>

    constructor ()
      ensures segments == []
    {
      segments := [];
    }

    /** `insert_with_highlighting` (also what `log_output` does). */
    method InsertWithHighlighting(text: string)
      modifies this
      ensures segments == old(segments) + Render(text)
      ensures segments[|old(segments)|].tag == Classify(text)
      ensures segments[|segments| - 1] == Newline
    {
      segments := segments + Render(text);
    }

    /** `delete("1.0", "end")` */
    method Clear()
      modifies this
      ensures segments == []
    {
      segments := [];
    }
  }
}
