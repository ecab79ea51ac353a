/** What the "tested" flag of the tool loop (lib/agent/iterative_loop.c:246-295) is worth: the flag is set for every
    shell call of an answer, and these are the calls that were run. */
module ToolTests {
  import opened Wrappers
  import opened ToolBatch
  import opened ToolLoop
  import opened ToolScreening

  // ----- One batch of the loop -----

  /** A batch of the loop, before it starts. */
  function LoopJob(env: Env, calls: seq<ToolCall>, tracker: seq<string>): Job {
    Job(env, calls, true, tracker, false)
  }

  function NoIndices(calls: seq<ToolCall>): seq<int> {
    seq(|calls|, _ => 0)
  }

  predicate ResultFails(r: ToolResult) {
    r.text.Some? && ReportsFailure(r.text.value)
  }

  /** The shell call of a batch that ran is marked by its own result. */
  lemma RanMark(turn: Turn, calls: seq<ToolCall>, tracker: seq<string>, i: nat)
    requires i < |calls| && Ran(LoopBatch(turn, calls, tracker), i)
    ensures var o := LoopBatch(turn, calls, tracker);
            && o.slots.count <= |o.slots.results| && o.slots.count <= |o.slots.indices|
            && ResultText(o.slots, i, 0) == turn.env.exec(calls[i]).text
  {
    var o := LoopBatch(turn, calls, tracker);
    BatchShape(turn.env, calls, true, NoIndices(calls), tracker, false);
    var k :| 0 <= k < |o.executed| && o.executed[k].call == i;
    var slot := o.executed[k].slot;
    assert o.executed[k] in o.executed && IsApproved(o.executed, slot);
    BatchFillsSlots(turn.env, calls, true, NoIndices(calls), tracker, false, slot);
    FoundInSlot(o.slots, i, slot, 0);
  }

  lemma {:induction false} FoundInSlot(slots: Slots, i: int, slot: nat, j: nat)
    requires slots.count <= |slots.results| && slots.count <= |slots.indices|
    requires j <= slot < slots.count && slots.indices[slot] == i
    requires forall a, b :: 0 <= a < b < slots.count ==> slots.indices[a] < slots.indices[b]
    ensures ResultText(slots, i, j) == slots.results[slot].text
    decreases slots.count - j
  {
    if j < slot {
      FoundInSlot(slots, i, slot, j + 1);
    } else {
      NotFoundAfter(slots, i, slot, j + 1);
    }
  }

  lemma {:induction false} NotFoundAfter(slots: Slots, i: int, slot: nat, j: nat)
    requires slots.count <= |slots.results| && slots.count <= |slots.indices|
    requires slot < j && slot < slots.count && slots.indices[slot] == i
    requires forall a, b :: 0 <= a < b < slots.count ==> slots.indices[a] < slots.indices[b]
    ensures ResultText(slots, i, j) == None
    decreases slots.count - j
  {
    if j < slots.count {
      NotFoundAfter(slots, i, slot, j + 1);
    }
  }

  /** The test behind a mark is real: the shell call ran, and its result reports no failure. */
  predicate PassedTest(turn: Turn, calls: seq<ToolCall>, tracker: seq<string>, i: nat)
    requires i < |calls|
  {
    calls[i].name == "shell" && Ran(LoopBatch(turn, calls, tracker), i) && !ResultFails(turn.env.exec(calls[i]))
  }

  function MarkIn(turn: Turn, calls: seq<ToolCall>, tracker: seq<string>, i: nat): Mark
    requires i < |calls|
  {
    LoopBatchSized(turn, calls, tracker);
    MarkOf(calls[i], LoopBatch(turn, calls, tracker).slots, i)
  }

  /** A shell call is marked as a test that did not fail and was really one exactly when nothing stops pre-screening,
      the call is new, the gate allows it, and its result reports no failure. The mark alone also stands for shell calls
      that were refused or passed over. */
  lemma PassedTestIff(turn: Turn, calls: seq<ToolCall>, tracker: seq<string>, i: nat)
    requires i < |calls| && calls[i].name == "shell"
    ensures MarkIn(turn, calls, tracker, i) == Tested(false) && PassedTest(turn, calls, tracker, i)
            <==> (var b := LoopJob(turn.env, calls, tracker);
                  FirstStop(b, 0) == |calls| && New(b, i) && turn.env.approval(i) == Allowed
                  && !ResultFails(turn.env.exec(calls[i])))
  {
    var b := LoopJob(turn.env, calls, tracker);
    RunsIff(b, NoIndices(calls), i);
    assert "shell"[1] != SUBAGENT[1] && "shell"[0] != "apply_patch"[0] && "shell"[0] != "write_file"[0];
    if FirstStop(b, 0) == |calls| {
      assert !StopsAt(b, i);
    }
    if Ran(LoopBatch(turn, calls, tracker), i) {
      RanMark(turn, calls, tracker, i);
    }
  }

  // ----- Refused calls set the flags too -----

  /** A batch of one call that the gate refuses: its slot holds the refusal, and nothing runs. */
  lemma OneRefused(turn: Turn, call: ToolCall, tracker: seq<string>, text: string)
    requires call.id.Some? && call.id.value !in tracker && call.name != SUBAGENT
    requires !turn.env.pending(0) && turn.env.approval(0) == Blocked(text)
    ensures var o := LoopBatch(turn, [call], tracker);
            && o.slots == Slots([Failure(call, text)], [0], 1)
            && o.tracker == tracker + [call.id.value] && o.executed == [] && o.status == 0
  {
    var calls := [call];
    var s := Screen(Fresh(1, [0]), tracker, false, [], 0);
    assert NoIndices(calls) == [0];
    var t := ScreenOne(turn.env, calls, true, 0, s);
    assert t.slots.results == [Failure(call, text)] && t.slots.indices == [0];
    ScreenOneFits(turn.env, calls, true, 0, s);
    assert ScreenFrom(turn.env, calls, true, 1, t) == t;
    assert ScreenFrom(turn.env, calls, true, 0, s) == t;
  }

  /** A refused shell call is marked as a test that did not fail, and a refused patch as a patch, unless the refusal's
      own text says otherwise. */
  lemma RefusedCallCounts(turn: Turn, call: ToolCall, tracker: seq<string>, text: string)
    requires call.id.Some? && call.id.value !in tracker && (call.name == "shell" || IsPatchTool(call.name))
    requires !turn.env.pending(0) && turn.env.approval(0) == Blocked(text)
    ensures var e := EffectOf(turn, [call], tracker);
            && e.ran == [] && e.status == 0 && e.tracker == tracker + [call.id.value]
            && e.marks == [if call.name == "shell" then Tested(ReportsFailure(text))
                           else if PatchSucceeded(text) then Patched else Other]
  {
    assert "shell"[1] != SUBAGENT[1] && "apply_patch"[0] != SUBAGENT[0] && "write_file"[0] != SUBAGENT[0];
    assert "shell"[0] != "apply_patch"[0] && "shell"[0] != "write_file"[0];
    OneRefused(turn, call, tracker, text);
    var slots := Slots([Failure(call, text)], [0], 1);
    assert ResultText(slots, 0, 0) == Some(text);
    assert MarksFrom([call], slots, 1) == [];
    assert RanIds([call], []) == [];
  }

  // ----- A workflow that ends untested -----

  const PATCH := ToolCall(Some("1"), "apply_patch", "")
  const SHELL := ToolCall(Some("2"), "shell", "")
  const DENIED := "denied"

  lemma DeniedIsNoFailure()
    ensures !ReportsFailure(DENIED)
  {
    assert Find(DENIED, EXIT_CODE, 0) == None;
  }

  /** The model patches in the initial batch, asks for one shell call that the gate refuses, and then stops. */
  predicate PatchThenRefusedShell(turns: nat -> Turn) {
    && turns(1).reply == Answer([SHELL]) && !turns(1).env.pending(0) && turns(1).env.approval(0) == Blocked(DENIED)
    && turns(2).reply == Answer([])
  }

  lemma AfterRefusedShell(turns: nat -> Turn)
    requires PatchThenRefusedShell(turns)
    ensures var t := Iterate(Entering([PATCH]), turns(1));
            t.More? && t.loop.iterations == 1 && t.loop.ran == [] && t.loop.marks == [Patched, Tested(false)]
            && t.loop.wf == Workflow(true, true, false, true, 0)
  {
    var s := Entering([PATCH]);
    assert s.marks == [Patched] && Seed([], [PATCH]) == ["1"] by {
      assert [PATCH][1..] == [];
    }
    assert "2"[0] != "1"[0];
    assert [Patched][1..] == [];
    DeniedIsNoFailure();
    RefusedCallCounts(turns(1), SHELL, s.tracker, DENIED);
    assert [Tested(false)][1..] == [];
    assert !AllSeen([SHELL], s.tracker) by {
      assert !Seen(s.tracker, [SHELL][0].id);
    }
  }

  /** Such a workflow ends with 0 without a nudge, though no test was run. */
  lemma EndsUntested(turns: nat -> Turn)
    requires PatchThenRefusedShell(turns)
    ensures var end := RunFrom(Entering([PATCH]), turns);
            end.exit == NoMoreCalls && Code(end.exit) == 0 && end.loop.wf.nudges == 0 && end.loop.ran == []
  {
    AfterRefusedShell(turns);
    var t := Iterate(Entering([PATCH]), turns(1)).loop;
    RunFromNext(Entering([PATCH]), turns);
    RunFromNext(t, turns);
  }

  // ----- The initial batch -----

  function InitialJob(env: Env, calls: seq<ToolCall>): Job {
    Job(env, calls, false, [], false)
  }

  /** A shell call of the initial batch ran, and its result reports no failure. */
  predicate PassedInitialTest(env: Env, calls: seq<ToolCall>, c: nat)
    requires c < |calls|
  {
    calls[c].name == "shell" && Ran(InitialBatch(env, calls), c) && !ResultFails(env.exec(calls[c]))
  }

  /** When the initial batch is not stopped, a shell call of it ran exactly when the gate allowed it, and its slot then
      holds its own result. */
  lemma InitialRanIff(env: Env, calls: seq<ToolCall>, c: nat)
    requires InitialBatch(env, calls).status == 0 && c < |calls| && calls[c].name == "shell"
    ensures Ran(InitialBatch(env, calls), c) <==> env.approval(c) == Allowed
    ensures c < |InitialBatch(env, calls).slots.results|
    ensures Ran(InitialBatch(env, calls), c) ==> InitialBatch(env, calls).slots.results[c] == env.exec(calls[c])
  {
    var b, o := InitialJob(env, calls), InitialBatch(env, calls);
    RunsIff(b, [], c);
    AllScreened(b, []);
    BatchShape(env, calls, false, [], [], false);
    BatchFillsSlots(env, calls, false, [], [], false, c);
    assert "shell"[1] != SUBAGENT[1];
    if FirstStop(b, 0) == |calls| {
      assert !StopsAt(b, c);
    }
    if Ran(o, c) {
      var k :| 0 <= k < |o.executed| && o.executed[k].call == c;
      assert o.executed[k] in o.executed && IsApproved(o.executed, c);
    }
  }

  /** The model patches and tests in the initial batch, both are run, the test fails, and the model says no more. */
  predicate FailedFirstTest(env: Env, turns: nat -> Turn) {
    && (forall i: nat :: i < 2 ==> !env.pending(i) && env.approval(i) == Allowed)
    && !env.pendingAfter && ResultFails(env.exec(SHELL)) && turns(1).reply == Answer([])
  }

  lemma PatchAndShellScreened(env: Env)
    requires forall i: nat :: i < 2 ==> !env.pending(i) && env.approval(i) == Allowed
    requires !env.pendingAfter
    ensures InitialBatch(env, [PATCH, SHELL]).status == 0 && Ran(InitialBatch(env, [PATCH, SHELL]), 1)
  {
    var b := InitialJob(env, [PATCH, SHELL]);
    assert "shell"[1] != SUBAGENT[1] && "apply_patch"[0] != SUBAGENT[0];
    assert FirstStop(b, 0) == 2;
    AllScreened(b, []);
    BatchShape(env, b.calls, false, [], [], false);
    RunsIff(b, [], 1);
  }

  /** Such a workflow ends with 0 without a nudge, though its only test was run and failed: the initial flags go by the
      names of the calls alone. */
  lemma EndsOnFailedTest(env: Env, turns: nat -> Turn)
    requires FailedFirstTest(env, turns)
    ensures var calls := [PATCH, SHELL];
            var end := RunFrom(Entering(calls), turns);
            && InitialBatch(env, calls).status == 0 && Ran(InitialBatch(env, calls), 1)
            && WorkflowCode(env, calls, turns) == 0
            && end.exit == NoMoreCalls && end.loop.wf.nudges == 0 && end.loop.iterations == 1
  {
    var calls := [PATCH, SHELL];
    PatchAndShellScreened(env);
    EnteringTested();
    SilenceEnds(Entering(calls), turns);
  }

  lemma EnteringTested()
    ensures Entering([PATCH, SHELL]).wf == Workflow(true, true, false, true, 0)
  {
    assert "shell"[0] != "apply_patch"[0] && "shell"[0] != "write_file"[0];
    assert InitialMarks([PATCH, SHELL]) == [Patched, Tested(false)];
    assert [Patched, Tested(false)][1..] == [Tested(false)] && [Tested(false)][1..] == [];
  }

  lemma SilenceEnds(s: Loop, turns: nat -> Turn)
    requires s.iterations == 0 && s.wf == Workflow(true, true, false, true, 0) && turns(1).reply == Answer([])
    ensures var end := RunFrom(s, turns);
            end.exit == NoMoreCalls && end.loop.wf.nudges == 0 && end.loop.iterations == 1
  {
    RunFromNext(s, turns);
  }

  // ----- Whole workflows -----

  /** A mark is the one of the call it comes from. */
  predicate MarkComesFrom(calls: seq<ToolCall>, turns: nat -> Turn, n: nat, m: Mark, o: Origin) {
    match o
    case Initial(c) => c < |calls| && m == InitialMark(calls[c])
    case InLoop(k, c, tracker) =>
      0 < k <= n && turns(k).reply.Answer? && c < |turns(k).reply.calls|
      && m == MarkIn(turns(k), turns(k).reply.calls, tracker, c)
  }

  predicate OriginsOk(calls: seq<ToolCall>, turns: nat -> Turn, s: Loop) {
    && |s.origins| == |s.marks|
    && forall j :: 0 <= j < |s.marks| ==> MarkComesFrom(calls, turns, s.iterations, s.marks[j], s.origins[j])
  }

  lemma {:induction false} MarksFromAt(calls: seq<ToolCall>, slots: Slots, i: nat, j: nat)
    requires slots.count <= |slots.results| && slots.count <= |slots.indices| && i <= j < |calls|
    ensures MarksFrom(calls, slots, i)[j - i] == MarkOf(calls[j], slots, j)
    decreases j - i
  {
    if i < j {
      MarksFromAt(calls, slots, i + 1, j);
    }
  }

  lemma MarksAt(turn: Turn, calls: seq<ToolCall>, tracker: seq<string>, j: nat)
    requires j < |calls|
    ensures LoopBatch(turn, calls, tracker).slots.count <= |LoopBatch(turn, calls, tracker).slots.results|
    ensures LoopBatch(turn, calls, tracker).slots.count <= |LoopBatch(turn, calls, tracker).slots.indices|
    ensures var marks := MarksFrom(calls, LoopBatch(turn, calls, tracker).slots, 0);
            |marks| == |calls| && marks[j] == MarkIn(turn, calls, tracker, j)
  {
    LoopBatchSized(turn, calls, tracker);
    MarksFromAt(calls, LoopBatch(turn, calls, tracker).slots, 0, j);
  }

  lemma BatchKeepsOrigins(calls: seq<ToolCall>, turns: nat -> Turn, s: Loop)
    requires s.iterations > 0 && turns(s.iterations).reply.Answer? && OriginsOk(calls, turns, s)
    ensures var asked := turns(s.iterations).reply.calls;
            OriginsOk(calls, turns, AfterBatch(s, EffectOf(turns(s.iterations), asked, s.tracker)).loop)
  {
    var turn := turns(s.iterations);
    var asked := turn.reply.calls;
    var t := AfterBatch(s, EffectOf(turn, asked, s.tracker)).loop;
    forall j | 0 <= j < |t.marks|
      ensures MarkComesFrom(calls, turns, t.iterations, t.marks[j], t.origins[j])
    {
      if j < |s.marks| {
        assert MarkComesFrom(calls, turns, s.iterations, s.marks[j], s.origins[j]);
      } else {
        MarksAt(turn, asked, s.tracker, j - |s.marks|);
        assert t.origins[j] == InLoop(s.iterations, j - |s.marks|, s.tracker);
      }
    }
  }

  lemma LaterKeepsOrigins(calls: seq<ToolCall>, turns: nat -> Turn, s: Loop, t: Loop)
    requires OriginsOk(calls, turns, s) && s.iterations <= t.iterations
    requires t.marks == s.marks && t.origins == s.origins
    ensures OriginsOk(calls, turns, t)
  {
    forall j | 0 <= j < |t.marks|
      ensures MarkComesFrom(calls, turns, t.iterations, t.marks[j], t.origins[j])
    {
      assert MarkComesFrom(calls, turns, s.iterations, s.marks[j], s.origins[j]);
    }
  }

  /** An iteration adds no marks, or is a batch. */
  lemma IterationIsBatch(s: Loop, turn: Turn)
    ensures var t, u := Iterate(s, turn).loop, s.(iterations := s.iterations + 1, retries := 0);
            || (t.marks == s.marks && t.origins == s.origins && t.iterations == s.iterations + 1)
            || (turn.reply.Answer? && t == AfterBatch(u, EffectOf(turn, turn.reply.calls, s.tracker)).loop)
  {
    if s.iterations < MAX_ITERATIONS {
      if turn.reply.Answer? {
        IterateOnAnswer(s, turn);
        AnswerIsBatch(s.(iterations := s.iterations + 1, retries := 0), turn.reply.calls,
                      EffectOf(turn, turn.reply.calls, s.tracker));
      } else {
        IterateOnFailure(s, turn);
      }
    }
  }

  lemma AnswerIsBatch(s: Loop, calls: seq<ToolCall>, e: Effect)
    ensures var t := AfterAnswer(s, calls, e).loop;
            || (t.marks == s.marks && t.origins == s.origins && t.iterations == s.iterations)
            || t == AfterBatch(s, e).loop
  {
  }

  lemma IterateKeepsOrigins(calls: seq<ToolCall>, turns: nat -> Turn, s: Loop)
    requires OriginsOk(calls, turns, s)
    ensures OriginsOk(calls, turns, Iterate(s, turns(s.iterations + 1)).loop)
  {
    var turn := turns(s.iterations + 1);
    var u := s.(iterations := s.iterations + 1, retries := 0);
    LaterKeepsOrigins(calls, turns, s, u);
    IterationIsBatch(s, turn);
    var t := Iterate(s, turn).loop;
    if t.marks == s.marks && t.origins == s.origins && t.iterations == s.iterations + 1 {
      LaterKeepsOrigins(calls, turns, s, t);
    } else {
      BatchKeepsOrigins(calls, turns, u);
    }
  }

  lemma {:induction false} RunKeepsOrigins(calls: seq<ToolCall>, turns: nat -> Turn, s: Loop)
    requires OriginsOk(calls, turns, s)
    ensures OriginsOk(calls, turns, RunFrom(s, turns).loop)
    decreases MAX_ITERATIONS - s.iterations
  {
    var next := Iterate(s, turns(s.iterations + 1));
    IterateKeepsOrigins(calls, turns, s);
    RunFromNext(s, turns);
    if next.More? {
      RunKeepsOrigins(calls, turns, next.loop);
    }
  }

  lemma {:induction false} LastMarkAt(marks: seq<Mark>) returns (j: nat)
    requires LastMark(marks) != Other
    ensures j < |marks| && marks[j] == LastMark(marks) && forall i :: j < i < |marks| ==> marks[i] == Other
    decreases |marks|
  {
    j := |marks| - 1;
    if marks[j] == Other {
      var init := marks[..j];
      j := LastMarkAt(init);
    }
  }

  /** The shell call behind a mark was run and reports no failure, exactly when: in the initial batch, the gate allowed
      it; in a later batch, nothing stopped pre-screening, the call was new and the gate allowed it; and in either, the
      tool's result reports none. */
  predicate RealTestIff(env: Env, calls: seq<ToolCall>, turns: nat -> Turn, o: Origin) {
    match o
    case Initial(c) =>
      c < |calls| && calls[c].name == "shell"
      && (PassedInitialTest(env, calls, c) <==> env.approval(c) == Allowed && !ResultFails(env.exec(calls[c])))
    case InLoop(k, c, tracker) =>
      turns(k).reply.Answer? && c < |turns(k).reply.calls|
      && (var asked := turns(k).reply.calls;
          var b := LoopJob(turns(k).env, asked, tracker);
          && asked[c].name == "shell"
          && (PassedTest(turns(k), asked, tracker, c)
              <==> FirstStop(b, 0) == |asked| && New(b, c) && turns(k).env.approval(c) == Allowed
                   && !ResultFails(turns(k).env.exec(asked[c]))))
  }

  /** When a workflow whose initial batch was not stopped falls silent with nudges left, its last mark is Tested(false),
      and here is the shell call behind it, with the exact condition for it to be a test that was run and reports no
      failure. */
  lemma LastTestIsRealIff(env: Env, calls: seq<ToolCall>, turns: nat -> Turn) returns (j: nat)
    requires InitialBatch(env, calls).status == 0
    requires RunFrom(Entering(calls), turns).exit.NoMoreCalls?
    requires RunFrom(Entering(calls), turns).loop.wf.nudges < MAX_NUDGES
    ensures var end := RunFrom(Entering(calls), turns).loop;
            && j < |end.marks| == |end.origins| && end.marks[j] == Tested(false)
            && (forall i :: j < i < |end.marks| ==> end.marks[i] == Other)
            && MarkComesFrom(calls, turns, end.iterations, end.marks[j], end.origins[j])
            && RealTestIff(env, calls, turns, end.origins[j])
  {
    StopsOnlyWhenTested(calls, turns);
    RunKeepsOrigins(calls, turns, Entering(calls));
    var end := RunFrom(Entering(calls), turns).loop;
    j := LastMarkAt(end.marks);
    match end.origins[j]
    case Initial(c) =>
      assert calls[c].name == "shell";
      InitialRanIff(env, calls, c);
    case InLoop(k, c, tracker) =>
      var asked := turns(k).reply.calls;
      assert asked[c].name == "shell";
      PassedTestIff(turns(k), asked, tracker, c);
  }
}
