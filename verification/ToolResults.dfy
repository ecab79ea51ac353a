/** How the tool loop reads the text of a result (lib/agent/iterative_loop.c:249-294), and what it then marks. */
module ToolResults {
  import opened Wrappers
  import opened ToolBatch
  import opened ToolLoop
  import opened ToolScreening
  import opened ToolSlots
  import opened ToolTests

  predicate Occurs(text: string, needle: string, k: nat) {
    k + |needle| <= |text| && text[k..k + |needle|] == needle
  }

  /** The search finds the first occurrence, if there is one. */
  lemma {:induction false} FindIsFirst(text: string, needle: string, i: nat)
    ensures var r := Find(text, needle, i);
            if r.None? then forall k :: i <= k ==> !Occurs(text, needle, k)
            else
              i <= r.value && Occurs(text, needle, r.value)
              && forall k :: i <= k < r.value ==> !Occurs(text, needle, k)
    decreases |text| - i
  {
    if i + |needle| <= |text| && text[i..i + |needle|] != needle {
      FindIsFirst(text, needle, i + 1);
    }
  }

  /** A patch counts as made exactly when its result does not say that it failed. */
  lemma PatchSucceededIff(text: string)
    ensures PatchSucceeded(text)
            <==> forall k: nat :: !Occurs(text, "\"success\": false", k) && !Occurs(text, "\"success\":false", k)
  {
    FindIsFirst(text, "\"success\": false", 0);
    FindIsFirst(text, "\"success\":false", 0);
  }

  predicate Digits(s: string) {
    forall k :: 0 <= k < |s| ==> '0' <= s[k] <= '9'
  }

  predicate Spaces(s: string) {
    forall k :: 0 <= k < |s| ==> s[k] == ' '
  }

  predicate NonZero(digits: string) {
    exists k :: 0 <= k < |digits| && digits[k] != '0'
  }

  lemma {:induction false} SpacesSkipped(text: string, i: nat, n: nat)
    requires i + n <= |text| && (forall k :: i <= k < i + n ==> text[k] == ' ')
    requires i + n < |text| ==> text[i + n] != ' '
    ensures SkipSpaces(text, i) == i + n
    decreases n
  {
    if n > 0 {
      SpacesSkipped(text, i + 1, n - 1);
    }
  }

  lemma {:induction false} DigitsRead(text: string, i: nat, n: nat)
    requires i + n <= |text| && Digits(text[i..i + n])
    requires i + n < |text| ==> !('0' <= text[i + n] <= '9')
    ensures DigitsNonZero(text, i) <==> NonZero(text[i..i + n])
    decreases n
  {
    if n > 0 {
      var rest := text[i + 1..i + 1 + (n - 1)];
      assert text[i..i + n] == [text[i]] + rest;
      assert text[i] == text[i..i + n][0];
      assert forall k :: 0 <= k < n - 1 ==> rest[k] == text[i..i + n][k + 1];
      DigitsRead(text, i + 1, n - 1);
    }
  }

  lemma SuffixSplits(text: string, i: nat, a: string, b: string)
    requires i <= |text| && text[i..] == a + b
    ensures i + |a| <= |text| && text[i..i + |a|] == a && text[i + |a|..] == b
  {
    assert text[i..i + |a|] == text[i..][..|a|];
    assert text[i + |a|..] == text[i..][|a|..];
  }

  lemma SpacesRead(text: string, i: nat, spaces: string, tail: string)
    requires i <= |text| && text[i..] == spaces + tail && Spaces(spaces) && tail != "" && tail[0] != ' '
    ensures SkipSpaces(text, i) == i + |spaces| <= |text| && text[i + |spaces|..] == tail
  {
    SuffixSplits(text, i, spaces, tail);
    assert forall k :: i <= k < i + |spaces| ==> text[k] == text[i..i + |spaces|][k - i];
    assert text[i + |spaces|] == text[i + |spaces|..][0];
    SpacesSkipped(text, i, |spaces|);
  }

  lemma DigitsAt(text: string, i: nat, digits: string, rest: string)
    requires i <= |text| && text[i..] == digits + rest && Digits(digits)
    requires rest != "" ==> !('0' <= rest[0] <= '9')
    ensures DigitsNonZero(text, i) <==> NonZero(digits)
  {
    SuffixSplits(text, i, digits, rest);
    assert i + |digits| < |text| ==> text[i + |digits|] == text[i + |digits|..][0];
    DigitsRead(text, i, |digits|);
  }

  lemma NumberRead(text: string, i: nat, minus: bool, digits: string, rest: string)
    requires i <= |text| && text[i..] == (if minus then "-" else "") + (digits + rest)
    requires Digits(digits) && digits != "" && (rest != "" ==> !('0' <= rest[0] <= '9'))
    ensures AtoiNonZero(text, i) <==> NonZero(digits)
  {
    var sign := if minus then "-" else "";
    SuffixSplits(text, i, sign, digits + rest);
    assert text[i] == text[i..][0];
    assert (digits + rest)[0] == digits[0];
    DigitsAt(text, i + |sign|, digits, rest);
  }

  /** A result with an exit code: the shell call is taken to have failed exactly when the number is not zero. */
  lemma ExitCodeIsRead(text: string, before: string, spaces: string, minus: bool, digits: string, rest: string)
    requires text == before + EXIT_CODE + (spaces + ((if minus then "-" else "") + (digits + rest)))
    requires forall k :: 0 <= k < |before| ==> !Occurs(text, EXIT_CODE, k)
    requires Spaces(spaces) && Digits(digits) && digits != "" && (rest != "" ==> !('0' <= rest[0] <= '9'))
    ensures ReportsFailure(text) <==> NonZero(digits)
  {
    var tail := (if minus then "-" else "") + (digits + rest);
    FirstExitCode(text, before, spaces + tail);
    var i := |before| + |EXIT_CODE|;
    assert text[i..] == spaces + tail;
    assert tail[0] == if minus then '-' else digits[0];
    SpacesRead(text, i, spaces, tail);
    NumberRead(text, i + |spaces|, minus, digits, rest);
  }

  lemma FirstExitCode(text: string, before: string, after: string)
    requires text == before + EXIT_CODE + after && forall k :: 0 <= k < |before| ==> !Occurs(text, EXIT_CODE, k)
    ensures Find(text, EXIT_CODE, 0) == Some(|before|)
  {
    FindIsFirst(text, EXIT_CODE, 0);
    assert text[|before|..|before| + |EXIT_CODE|] == EXIT_CODE;
    assert Occurs(text, EXIT_CODE, |before|);
  }

  /** And one without an exit code never is. */
  lemma NoExitCode(text: string)
    requires forall k: nat :: !Occurs(text, EXIT_CODE, k)
    ensures !ReportsFailure(text)
  {
    FindIsFirst(text, EXIT_CODE, 0);
  }

  // ----- The marks of a batch -----

  /** The text that the loop finds for call i: the one in its slot, if it owns one. */
  lemma ResultTextMeans(turn: Turn, calls: seq<ToolCall>, tracker: seq<string>, i: nat)
    requires i < |calls|
    ensures LoopBatch(turn, calls, tracker).slots.count <= |LoopBatch(turn, calls, tracker).slots.results|
    ensures LoopBatch(turn, calls, tracker).slots.count <= |LoopBatch(turn, calls, tracker).slots.indices|
    ensures var b := LoopJob(turn.env, calls, tracker);
            var f := FirstStop(b, 0);
            ResultText(LoopBatch(turn, calls, tracker).slots, i, 0)
            == if Owns(b, f, i) then ResultAt(b, f, i).text else None
  {
    var b := LoopJob(turn.env, calls, tracker);
    var slots := LoopBatch(turn, calls, tracker).slots;
    BatchShape(turn.env, calls, true, NoIndices(calls), tracker, false);
    SlotsMean(b, NoIndices(calls));
    if Owns(b, FirstStop(b, 0), i) {
      assert Answered(b, FirstStop(b, 0), slots, i);
      FoundInSlot(slots, i, SlotAt(b, FirstStop(b, 0), i), 0);
    } else {
      forall k | 0 <= k < slots.count
        ensures slots.indices[k] != i
      {
        var j := SlotOwner(b, NoIndices(calls), k);
      }
      NotFound(slots, i, 0);
    }
  }

  lemma {:induction false} NotFound(slots: Slots, i: int, j: nat)
    requires slots.count <= |slots.results| && slots.count <= |slots.indices|
    requires forall k :: 0 <= k < slots.count ==> slots.indices[k] != i
    ensures ResultText(slots, i, j) == None
    decreases slots.count - j
  {
    if j < slots.count {
      NotFound(slots, i, j + 1);
    }
  }

  /** A call of a patch tool is marked as a patch exactly when a result was recorded for it that does not say it failed;
      a call of the shell is always marked as a test, as a failed one exactly when its recorded result says so; and no
      other call is marked. */
  lemma MarkMeans(turn: Turn, calls: seq<ToolCall>, tracker: seq<string>, i: nat)
    requires i < |calls|
    ensures var b := LoopJob(turn.env, calls, tracker);
            var f, m := FirstStop(b, 0), MarkIn(turn, calls, tracker, i);
            var text := if Owns(b, f, i) then ResultAt(b, f, i).text else None;
            && (m == Patched
                <==> calls[i].name in {"apply_patch", "write_file"} && text.Some? && PatchSucceeded(text.value))
            && (m.Tested? <==> calls[i].name == "shell")
            && (m.Tested? ==> (m.failed <==> text.Some? && ReportsFailure(text.value)))
  {
    ResultTextMeans(turn, calls, tracker, i);
    assert "shell"[0] != "apply_patch"[0] && "shell"[0] != "write_file"[0];
  }
}
